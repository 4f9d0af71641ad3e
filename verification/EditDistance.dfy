/** The distance between two field names, and the name suggested for a
    misspelt one (internal/config/schema.go). */
module EditDistance {
  import opened Text

  function Min(x: int, y: int): int {
    if x <= y then x else y
  }

  function Cost(x: char, y: char): nat {
    if x == y then 0 else 1
  }

  function Front(s: string): string
    requires s != ""
  {
    s[..|s| - 1]
  }

  function Last(s: string): char
    requires s != ""
  {
    s[|s| - 1]
  }

  /** The Levenshtein distance, by its recurrence over the last characters. */
  function Distance(a: string, b: string): nat
    decreases |a| + |b|
  {
    if a == "" then |b|
    else if b == "" then |a|
    else
      Min(Distance(Front(a), b) + 1,
          Min(Distance(a, Front(b)) + 1, Distance(Front(a), Front(b)) + Cost(Last(a), Last(b))))
  }

  // ----- edits -----

  datatype Edit = Insert(at: nat, c: char) | Delete(at: nat) | Substitute(at: nat, c: char)

  predicate Fits(e: Edit, s: string) {
    if e.Insert? then e.at <= |s| else e.at < |s|
  }

  function Apply(e: Edit, s: string): string
    requires Fits(e, s)
  {
    match e
    case Insert(at, c) => s[..at] + [c] + s[at..]
    case Delete(at) => s[..at] + s[at + 1..]
    case Substitute(at, c) => s[at := c]
  }

  /** The edits turn a into b, one after another. */
  predicate Turns(edits: seq<Edit>, a: string, b: string) {
    if edits == [] then a == b
    else Fits(edits[0], a) && Turns(edits[1..], Apply(edits[0], a), b)
  }

  lemma {:induction false} FrontAndLast(s: string)
    requires s != ""
    ensures Front(s) + [Last(s)] == s
  {
  }

  /** The same edit in front of one more character. */
  lemma {:induction false} ApplyInFront(e: Edit, s: string, z: char)
    requires Fits(e, s)
    ensures Fits(e, s + [z]) && Apply(e, s + [z]) == Apply(e, s) + [z]
  {
    match e {
      case Insert(at, c) => assert (s + [z])[at..] == s[at..] + [z];
      case Delete(at) => assert (s + [z])[at + 1..] == s[at + 1..] + [z];
      case Substitute(at, c) =>
    }
  }

  lemma {:induction false} TurnsInFront(edits: seq<Edit>, a: string, b: string, z: char)
    requires Turns(edits, a, b)
    ensures Turns(edits, a + [z], b + [z])
  {
    if edits != [] {
      ApplyInFront(edits[0], a, z);
      TurnsInFront(edits[1..], Apply(edits[0], a), b, z);
    }
  }

  lemma {:induction false} TurnsFurther(edits: seq<Edit>, more: seq<Edit>, a: string, b: string, c: string)
    requires Turns(edits, a, b) && Turns(more, b, c)
    ensures Turns(edits + more, a, c)
  {
    if edits == [] {
      assert edits + more == more;
    } else {
      AppendTail(edits, more);
      TurnsFurther(edits[1..], more, Apply(edits[0], a), b, c);
    }
  }

  lemma {:induction false} TurnsOne(e: Edit, a: string)
    requires Fits(e, a)
    ensures Turns([e], a, Apply(e, a))
  {
    assert [e][1..] == [];
  }

  /** As many edits as the distance are enough. */
  lemma {:induction false} EnoughEdits(a: string, b: string) returns (edits: seq<Edit>)
    ensures |edits| == Distance(a, b) && Turns(edits, a, b)
    decreases |a| + |b|
  {
    if a == "" {
      edits := [];
      if b != "" {
        edits := EnoughEdits(a, Front(b));
        TurnsInFrontInsert(edits, a, b);
        edits := edits + [Insert(|Front(b)|, Last(b))];
      }
    } else if b == "" {
      edits := EnoughEdits(Front(a), b);
      TurnsAfterDelete(edits, a, b);
      edits := [Delete(|Front(a)|)] + edits;
    } else if Distance(a, b) == Distance(Front(a), b) + 1 {
      edits := EnoughEdits(Front(a), b);
      TurnsAfterDelete(edits, a, b);
      edits := [Delete(|Front(a)|)] + edits;
    } else if Distance(a, b) == Distance(a, Front(b)) + 1 {
      edits := EnoughEdits(a, Front(b));
      TurnsInFrontInsert(edits, a, b);
      edits := edits + [Insert(|Front(b)|, Last(b))];
    } else {
      edits := EnoughEdits(Front(a), Front(b));
      TurnsInFront(edits, Front(a), Front(b), Last(a));
      FrontAndLast(a);
      FrontAndLast(b);
      if Last(a) != Last(b) {
        var e := Substitute(|Front(b)|, Last(b));
        var c := Front(b) + [Last(a)];
        assert Apply(e, c) == b;
        TurnsOne(e, c);
        TurnsFurther(edits, [e], a, c, b);
        edits := edits + [e];
      }
    }
  }

  lemma {:induction false} TurnsInFrontInsert(edits: seq<Edit>, a: string, b: string)
    requires b != "" && Turns(edits, a, Front(b))
    ensures Turns(edits + [Insert(|Front(b)|, Last(b))], a, b)
  {
    var e := Insert(|Front(b)|, Last(b));
    assert Apply(e, Front(b)) == b;
    TurnsOne(e, Front(b));
    TurnsFurther(edits, [e], a, Front(b), b);
  }

  lemma {:induction false} TurnsAfterDelete(edits: seq<Edit>, a: string, b: string)
    requires a != "" && Turns(edits, Front(a), b)
    ensures Turns([Delete(|Front(a)|)] + edits, a, b)
  {
    var e := Delete(|Front(a)|);
    assert Apply(e, a) == Front(a);
    TurnsOne(e, a);
    TurnsFurther([e], edits, a, Front(a), b);
  }

  // ----- no fewer edits do -----

  lemma {:induction false} DistanceBounds(a: string, b: string)
    ensures a != "" ==> Distance(a, b) <= Distance(Front(a), b) + 1
    ensures b != "" ==> Distance(a, b) <= Distance(a, Front(b)) + 1
    ensures a != "" && b != "" ==> Distance(a, b) <= Distance(Front(a), Front(b)) + Cost(Last(a), Last(b))
  {
  }

  lemma {:induction false} EditAtEnd(a: string, x: string, b: string)
    requires |x| <= 1
    ensures Distance(a, b) <= 1 + Distance(a + x, b)
    decreases |b|
  {
    DistanceBounds(a, b);
    if x == "" {
      assert a + x == a;
    } else if b != "" {
      assert Front(a + x) == a;
      EditAtEnd(a, x, Front(b));
    }
  }

  lemma {:induction false} SubstituteAtEnd(a: string, x: char, y: char, b: string)
    ensures Distance(a + [x], b) <= 1 + Distance(a + [y], b)
    decreases |b|
  {
    DistanceBounds(a + [x], b);
    assert Front(a + [x]) == a && Front(a + [y]) == a;
    if b != "" {
      SubstituteAtEnd(a, x, y, Front(b));
    }
  }

  /** One edit changes the distance by one at most. */
  lemma {:induction false} OneEdit(e: Edit, a: string, b: string)
    requires Fits(e, a)
    ensures Distance(a, b) <= 1 + Distance(Apply(e, a), b)
    decreases |a| + |b|
  {
    if e.Insert? && e.at == |a| {
      assert Apply(e, a) == a + [e.c];
      EditAtEnd(a, [e.c], b);
    } else if e.Delete? && e.at == |a| - 1 {
      assert Apply(e, a) == Front(a);
      DistanceBounds(a, b);
    } else if e.Substitute? && e.at == |a| - 1 {
      assert Apply(e, a) == Front(a) + [e.c] && a == Front(a) + [Last(a)];
      SubstituteAtEnd(Front(a), Last(a), e.c, b);
    } else {
      EditInFront(e, a, b);
    }
  }

  lemma {:induction false} EditInFront(e: Edit, a: string, b: string)
    requires a != "" && Fits(e, Front(a))
    ensures Distance(a, b) <= 1 + Distance(Apply(e, a), b)
    decreases |a| + |b|, 0
  {
    var u := Apply(e, Front(a));
    assert a == Front(a) + [Last(a)];
    ApplyInFront(e, Front(a), Last(a));
    assert Front(u + [Last(a)]) == u;
    DistanceBounds(a, b);
    OneEdit(e, Front(a), b);
    if b != "" {
      EditInFront(e, a, Front(b));
      OneEdit(e, Front(a), Front(b));
    }
  }

  /** No fewer edits than the distance turn a into b. */
  lemma {:induction false} NoFewerEdits(edits: seq<Edit>, a: string, b: string)
    requires Turns(edits, a, b)
    ensures Distance(a, b) <= |edits|
  {
    if edits == [] {
      DistanceToItself(a);
    } else {
      NoFewerEdits(edits[1..], Apply(edits[0], a), b);
      OneEdit(edits[0], a, b);
    }
  }

  lemma {:induction false} DistanceToItself(a: string)
    ensures Distance(a, a) == 0
  {
    if a != "" {
      DistanceToItself(Front(a));
      DistanceBounds(a, a);
    }
  }

  /** The distance is zero for equal strings only. */
  lemma {:induction false} ZeroForEqual(a: string, b: string)
    ensures Distance(a, b) == 0 <==> a == b
  {
    DistanceToItself(a);
    if Distance(a, b) == 0 {
      var edits := EnoughEdits(a, b);
    }
  }

  lemma {:induction false} Symmetric(a: string, b: string)
    ensures Distance(a, b) == Distance(b, a)
    decreases |a| + |b|
  {
    if a != "" && b != "" {
      Symmetric(Front(a), b);
      Symmetric(a, Front(b));
      Symmetric(Front(a), Front(b));
    }
  }

  lemma {:induction false} Triangle(a: string, b: string, c: string)
    ensures Distance(a, c) <= Distance(a, b) + Distance(b, c)
  {
    var there := EnoughEdits(a, b);
    var onward := EnoughEdits(b, c);
    TurnsFurther(there, onward, a, b, c);
    NoFewerEdits(there + onward, a, c);
  }

  // ----- the two rows -----

  /** The first n entries of a row are the distances of the first i characters
      of a from the beginnings of b. */
  ghost predicate RowOf(row: array<int>, a: string, i: nat, b: string, n: nat)
    reads row
  {
    i <= |a| && n <= row.Length == |b| + 1 && forall j :: 0 <= j < n ==> row[j] == Cell(a, b, i, j)
  }

  /** The distance of two strings from those of their beginnings. */
  lemma {:induction false} Recurs(x: string, y: string)
    requires x != "" && y != ""
    ensures Distance(x, y)
            == Min(Distance(Front(x), y) + 1,
                   Min(Distance(x, Front(y)) + 1, Distance(Front(x), Front(y)) + Cost(Last(x), Last(y))))
  {
  }

  lemma {:induction false} Ends(s: string, i: nat)
    requires 0 < i <= |s|
    ensures s[..i] != "" && Front(s[..i]) == s[..i - 1] && Last(s[..i]) == s[i - 1]
  {
  }

  /** The distance of the first i characters of a from the first j of b. */
  ghost function Cell(a: string, b: string, i: nat, j: nat): nat
    requires i <= |a| && j <= |b|
  {
    Distance(a[..i], b[..j])
  }

  lemma {:induction false} CellOf(a: string, b: string, i: nat, j: nat)
    requires 0 < i <= |a| && 0 < j <= |b|
    ensures Cell(a, b, i, j)
            == Min(Cell(a, b, i - 1, j) + 1,
                   Min(Cell(a, b, i, j - 1) + 1, Cell(a, b, i - 1, j - 1) + Cost(a[i - 1], b[j - 1])))
  {
    Ends(a, i);
    Ends(b, j);
    Recurs(a[..i], b[..j]);
  }

  /** One row filled from the row above it. */
  method FillRow(prev: array<int>, curr: array<int>, a: string, b: string, i: nat)
    requires 0 < i <= |a| && prev != curr && curr.Length == |b| + 1
    requires RowOf(prev, a, i - 1, b, |b| + 1)
    modifies curr
    ensures RowOf(curr, a, i, b, |b| + 1)
  {
    curr[0] := i;
    assert Cell(a, b, i, 0) == i;
    for j := 1 to |b| + 1
      invariant RowOf(prev, a, i - 1, b, |b| + 1)
      invariant RowOf(curr, a, i, b, j)
    {
      var cost := 1;
      if a[i - 1] == b[j - 1] {
        cost := 0;
      }
      CellOf(a, b, i, j);
      curr[j] := Min(prev[j] + 1, Min(curr[j - 1] + 1, prev[j - 1] + cost));
    }
  }

  /** `editDistance`: two rows, swapped after each character of a. */
  method Compute(a: string, b: string) returns (d: int)
    ensures d == Distance(a, b)
  {
    var prev, curr := new int[|b| + 1], new int[|b| + 1];
    for j := 0 to |b| + 1
      invariant forall k :: 0 <= k < j ==> prev[k] == k
    {
      prev[j] := j;
    }
    assert RowOf(prev, a, 0, b, |b| + 1);
    for i := 1 to |a| + 1
      invariant prev != curr && fresh(prev) && fresh(curr)
      invariant prev.Length == curr.Length == |b| + 1
      invariant RowOf(prev, a, i - 1, b, |b| + 1)
    {
      FillRow(prev, curr, a, b, i);
      prev, curr := curr, prev;
    }
    assert a[..|a|] == a && b[..|b|] == b;
    return prev[|b|];
  }

  // ----- the suggestion -----

  datatype Hint = DidYouMean(name: string) | OneOfKnown | NoHint

  function Between(got: string, name: string): nat {
    Distance(ToLower(got), ToLower(name))
  }

  /** The first of the names at the least distance. */
  ghost predicate Nearest(got: string, known: seq<string>, n: nat) {
    && n < |known|
    && (forall k :: 0 <= k < |known| ==> Between(got, known[n]) <= Between(got, known[k]))
    && (forall k :: 0 <= k < n ==> Between(got, known[n]) < Between(got, known[k]))
  }

  const FARTHEST := 0x4000_0000

  /** Where the search stands once some names were compared. */
  ghost predicate Leads(got: string, seen: seq<string>, best: string, bestDist: nat) {
    if bestDist == FARTHEST then best == "" && forall k :: 0 <= k < |seen| ==> Between(got, seen[k]) >= FARTHEST
    else bestDist < FARTHEST && exists n: nat :: Nearest(got, seen, n) && seen[n] == best
                                                 && Between(got, best) == bestDist
  }

  lemma {:induction false} LeadsOn(got: string, seen: seq<string>, best: string, bestDist: nat, name: string)
    requires Leads(got, seen, best, bestDist)
    ensures var d := Between(got, name);
            if d < bestDist then Leads(got, seen + [name], name, d) else Leads(got, seen + [name], best, bestDist)
  {
    var more, d := seen + [name], Between(got, name);
    assert forall k :: 0 <= k < |seen| ==> more[k] == seen[k];
    if d < bestDist {
      assert Nearest(got, more, |seen|);
    } else if bestDist < FARTHEST {
      var n: nat :| Nearest(got, seen, n) && seen[n] == best && Between(got, best) == bestDist;
      assert Nearest(got, more, n) && more[n] == best;
    }
  }

  ghost predicate LeadsAmong(got: string, known: seq<string>, n: nat, best: string, bestDist: nat)
    requires n <= |known|
  {
    Leads(got, known[..n], best, bestDist)
  }

  /** One more of the names compared. */
  method CompareNext(got: string, known: seq<string>, i: nat, best: string, bestDist: nat)
    returns (best': string, bestDist': nat)
    requires i < |known| && LeadsAmong(got, known, i, best, bestDist)
    ensures LeadsAmong(got, known, i + 1, best', bestDist')
  {
    TakeOneMore(known, i);
    LeadsOn(got, known[..i], best, bestDist, known[i]);
    var d := Compute(ToLower(got), ToLower(known[i]));
    if d < bestDist {
      return known[i], d;
    }
    return best, bestDist;
  }

  /** The nearest of the names, if any is nearer than the bound. */
  method FindNearest(got: string, known: seq<string>) returns (best: string, bestDist: nat)
    ensures Leads(got, known, best, bestDist)
  {
    best, bestDist := "", FARTHEST;
    assert known[..0] == [] && known[..|known|] == known;
    for i := 0 to |known|
      invariant LeadsAmong(got, known, i, best, bestDist)
    {
      best, bestDist := CompareNext(got, known, i, best, bestDist);
    }
  }

  /** The name is the first of the nearest, and near enough to be a typo. */
  ghost predicate LikelyMeant(got: string, known: seq<string>, name: string) {
    name != "" && Between(got, name) <= 2 && exists n: nat :: Nearest(got, known, n) && known[n] == name
  }

  lemma {:induction false} OneLikelyMeant(got: string, known: seq<string>, best: string, bestDist: nat, name: string)
    requires Leads(got, known, best, bestDist)
    ensures LikelyMeant(got, known, name) <==> name == best != "" && bestDist <= 2
  {
    if LikelyMeant(got, known, name) {
      var n: nat :| Nearest(got, known, n) && known[n] == name;
      assert Between(got, known[n]) <= 2;
      var m: nat :| Nearest(got, known, m) && known[m] == best && Between(got, best) == bestDist;
      assert n == m;
    }
  }

  /** `suggest`. */
  method Suggest(got: string, known: seq<string>) returns (r: Hint)
    ensures forall name :: r == DidYouMean(name) <==> LikelyMeant(got, known, name)
    ensures !r.DidYouMean? ==> (r == OneOfKnown <==> 0 < |known| <= 12)
    ensures r.DidYouMean? ==> r.name in known && Distance(ToLower(got), ToLower(r.name)) <= 2
    ensures r.DidYouMean? ==> forall k :: 0 <= k < |known| ==>
                                            Distance(ToLower(got), ToLower(r.name)) <= Distance(ToLower(got), ToLower(known[k]))
    ensures "" !in known ==>
              (r.DidYouMean? <==> exists k :: 0 <= k < |known| && Distance(ToLower(got), ToLower(known[k])) <= 2)
  {
    var best, bestDist := FindNearest(got, known);
    forall name ensures LikelyMeant(got, known, name) <==> name == best != "" && bestDist <= 2 {
      OneLikelyMeant(got, known, best, bestDist, name);
    }
    if best != "" && bestDist <= 2 {
      return DidYouMean(best);
    }
    if 0 < |known| <= 12 {
      return OneOfKnown;
    }
    return NoHint;
  }
}
