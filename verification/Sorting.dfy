/** The byte order of strings, and stable sorting by a total preorder: what
    Go's `strings.Compare` and `sort.SliceStable` promise. */
module Sorting {
  import opened Text


  // ----- the order of strings -----

  predicate StrLess(a: string, b: string) {
    b != "" && (a == "" || a[0] < b[0] || (a[0] == b[0] && StrLess(a[1..], b[1..])))
  }

  /** One string is before another where they first differ, or where it ends. */
  ghost predicate DifferAt(a: string, b: string, k: nat) {
    k <= |a| && k < |b| && a[..k] == b[..k] && (k == |a| || a[k] < b[k])
  }

  lemma {:induction false} FirstDifference(a: string, b: string) returns (k: nat)
    requires StrLess(a, b)
    ensures DifferAt(a, b, k)
  {
    k := 0;
    if a != "" && a[0] == b[0] {
      var n := FirstDifference(a[1..], b[1..]);
      TakeFirst(a, n);
      TakeFirst(b, n);
      k := n + 1;
    }
  }

  lemma {:induction false} LessAt(a: string, b: string, k: nat)
    requires DifferAt(a, b, k)
    ensures StrLess(a, b)
  {
    if k > 0 {
      assert a[0] == a[..k][0] && b[0] == b[..k][0];
      assert a[1..][..k - 1] == a[..k][1..] && b[1..][..k - 1] == b[..k][1..];
      LessAt(a[1..], b[1..], k - 1);
    }
  }

  lemma {:induction false} StrLessIs(a: string, b: string)
    ensures StrLess(a, b) <==> exists k: nat :: DifferAt(a, b, k)
  {
    if StrLess(a, b) {
      var k := FirstDifference(a, b);
    }
    if k: nat :| DifferAt(a, b, k) {
      LessAt(a, b, k);
    }
  }

  predicate StrLe(a: string, b: string) {
    !StrLess(b, a)
  }

  lemma {:induction false} StrIrreflexive(a: string)
    ensures !StrLess(a, a)
  {
    if a != "" {
      StrIrreflexive(a[1..]);
    }
  }

  lemma {:induction false} StrTrichotomy(a: string, b: string)
    ensures StrLess(a, b) || a == b || StrLess(b, a)
  {
    if a != "" && b != "" && a[0] == b[0] {
      StrTrichotomy(a[1..], b[1..]);
      assert a == [a[0]] + a[1..] && b == [b[0]] + b[1..];
    }
  }

  lemma {:induction false} StrTransitive(a: string, b: string, c: string)
    requires StrLess(a, b) && StrLess(b, c)
    ensures StrLess(a, c)
  {
    if a != "" && a[0] == b[0] == c[0] {
      StrTransitive(a[1..], b[1..], c[1..]);
    }
  }

  lemma {:induction false} StrLeTransitive(a: string, b: string, c: string)
    requires StrLe(a, b) && StrLe(b, c)
    ensures StrLe(a, c)
  {
    StrTrichotomy(a, b);
    StrTrichotomy(b, c);
    if StrLess(c, a) {
      if a != b {
        StrTransitive(c, a, b);
      }
    }
  }

  lemma {:induction false} StrAsymmetric(a: string, b: string)
    requires StrLess(a, b)
    ensures !StrLess(b, a) && a != b
  {
    StrIrreflexive(a);
    if StrLess(b, a) {
      StrTransitive(a, b, a);
    }
  }

  /** The byte order is a total order. */
  lemma {:induction false} StrOrder(a: string, b: string, c: string)
    ensures StrLe(a, a)
    ensures StrLe(a, b) || StrLe(b, a)
    ensures StrLe(a, b) && StrLe(b, a) ==> a == b
    ensures StrLe(a, b) && StrLe(b, c) ==> StrLe(a, c)
  {
    StrIrreflexive(a);
    StrTrichotomy(a, b);
    if StrLess(a, b) {
      StrAsymmetric(a, b);
    }
    if StrLe(a, b) && StrLe(b, c) {
      StrLeTransitive(a, b, c);
    }
  }

  // ----- stable sorting -----

  /** An order in which any two compare, ties allowed. */
  ghost predicate TotalPreorder<T(!new)>(le: (T, T) -> bool) {
    && (forall x, y :: le(x, y) || le(y, x))
    && (forall x, y, z :: le(x, y) && le(y, z) ==> le(x, z))
  }

  ghost predicate Sorted<T>(le: (T, T) -> bool, s: seq<T>) {
    forall i, j :: 0 <= i < j < |s| ==> le(s[i], s[j])
  }

  /** Before the first element that it does not come after. */
  function Insert<T>(le: (T, T) -> bool, x: T, s: seq<T>): seq<T> {
    if s == [] then [x]
    else if le(x, s[0]) then [x] + s
    else [s[0]] + Insert(le, x, s[1..])
  }

  function Sort<T>(le: (T, T) -> bool, s: seq<T>): seq<T> {
    if s == [] then [] else Insert(le, s[0], Sort(le, s[1..]))
  }

  function Tie<T>(le: (T, T) -> bool, x: T, y: T): seq<T> {
    if le(x, y) && le(y, x) then [y] else []
  }

  /** The elements of s that tie with x, in their order. */
  function Ties<T>(le: (T, T) -> bool, x: T, s: seq<T>): seq<T> {
    if s == [] then [] else Tie(le, x, s[0]) + Ties(le, x, s[1..])
  }

  lemma {:induction false} InsertSorted<T(!new)>(le: (T, T) -> bool, x: T, s: seq<T>)
    requires TotalPreorder(le) && Sorted(le, s)
    ensures Sorted(le, Insert(le, x, s))
    ensures forall y :: y in Insert(le, x, s) <==> y == x || y in s
  {
    if s != [] && !le(x, s[0]) {
      var tail := Insert(le, x, s[1..]);
      InsertSorted(le, x, s[1..]);
      forall i | 0 <= i < |tail| ensures le(s[0], tail[i]) {
        assert tail[i] in tail;
      }
    }
  }

  lemma {:induction false} SortSorts<T(!new)>(le: (T, T) -> bool, s: seq<T>)
    requires TotalPreorder(le)
    ensures Sorted(le, Sort(le, s))
    ensures forall y :: y in Sort(le, s) <==> y in s
  {
    if s != [] {
      SortSorts(le, s[1..]);
      InsertSorted(le, s[0], Sort(le, s[1..]));
    }
  }

  lemma {:induction false} TiesFirst<T>(le: (T, T) -> bool, x: T, y: T, s: seq<T>)
    ensures Ties(le, x, [y] + s) == Tie(le, x, y) + Ties(le, x, s)
  {
    assert ([y] + s)[1..] == s;
  }

  /** Of y and the elements it comes after, not both tie with x. */
  ghost predicate OneTies<T>(le: (T, T) -> bool, x: T, y: T, s: seq<T>) {
    forall i :: 0 <= i < |s| && !le(y, s[i]) ==> Tie(le, x, y) == [] || Tie(le, x, s[i]) == []
  }

  lemma {:induction false} InsertTies<T>(le: (T, T) -> bool, x: T, y: T, s: seq<T>)
    requires OneTies(le, x, y, s)
    ensures Ties(le, x, Insert(le, y, s)) == Tie(le, x, y) + Ties(le, x, s)
  {
    if s == [] || le(y, s[0]) {
      TiesFirst(le, x, y, s);
    } else {
      var tail := s[1..];
      assert OneTies(le, x, y, tail) by {
        assert forall i :: 0 <= i < |tail| ==> tail[i] == s[i + 1];
      }
      InsertTies(le, x, y, tail);
      TiesFirst(le, x, s[0], Insert(le, y, tail));
    }
  }

  lemma {:induction false} TransitiveTies<T(!new)>(le: (T, T) -> bool, x: T, y: T, s: seq<T>)
    requires TotalPreorder(le)
    ensures OneTies(le, x, y, s)
  {
  }

  /** Sorting is stable: what ties keeps its order, and nothing is lost. */
  lemma {:induction false} SortStable<T(!new)>(le: (T, T) -> bool, x: T, s: seq<T>)
    requires TotalPreorder(le)
    ensures Ties(le, x, Sort(le, s)) == Ties(le, x, s)
  {
    if s != [] {
      SortStable(le, x, s[1..]);
      TransitiveTies(le, x, s[0], Sort(le, s[1..]));
      InsertTies(le, x, s[0], Sort(le, s[1..]));
    }
  }

  /** A sorted sequence is left as it is. */
  lemma {:induction false} SortIdentity<T(!new)>(le: (T, T) -> bool, s: seq<T>)
    requires TotalPreorder(le) && Sorted(le, s)
    ensures Sort(le, s) == s
  {
    if s != [] {
      SortIdentity(le, s[1..]);
      if |s| > 1 {
        assert le(s[0], s[1]);
      }
      assert [s[0]] + s[1..] == s;
    }
  }

  lemma {:induction false} TiesAppend<T>(le: (T, T) -> bool, x: T, s: seq<T>, t: seq<T>)
    ensures Ties(le, x, s + t) == Ties(le, x, s) + Ties(le, x, t)
  {
    if s == [] {
      assert s + t == t;
    } else {
      TiesAppend(le, x, s[1..], t);
      assert (s + t)[1..] == s[1..] + t;
      assert Tie(le, x, s[0]) + (Ties(le, x, s[1..]) + Ties(le, x, t))
          == Tie(le, x, s[0]) + Ties(le, x, s[1..]) + Ties(le, x, t);
    }
  }

  lemma {:induction false} TiesAreIn<T(!new)>(le: (T, T) -> bool, x: T, s: seq<T>)
    ensures forall y :: y in Ties(le, x, s) ==> y in s && le(x, y) && le(y, x)
  {
    if s != [] {
      TiesAreIn(le, x, s[1..]);
    }
  }

  /** The elements are in the same order among those they tie with. */
  ghost predicate SameTies<T(!new)>(le: (T, T) -> bool, s: seq<T>, t: seq<T>) {
    forall x :: Ties(le, x, s) == Ties(le, x, t)
  }

  lemma {:induction false} SameHead<T(!new)>(le: (T, T) -> bool, s: seq<T>, t: seq<T>)
    requires TotalPreorder(le) && Sorted(le, s) && Sorted(le, t) && SameTies(le, s, t) && s != []
    ensures t != [] && t[0] == s[0]
  {
    var x := s[0];
    assert le(x, x) && Ties(le, x, s)[0] == x;
    TiesAreIn(le, x, t);
    assert x in Ties(le, x, t);
    var i :| 0 <= i < |t| && t[i] == x;
    var y := t[0];
    assert le(y, x) by {
      assert i == 0 || le(t[0], t[i]);
    }
    assert le(y, y) && Ties(le, y, t)[0] == y;
    TiesAreIn(le, y, s);
    assert y in Ties(le, y, s);
    var j :| 0 <= j < |s| && s[j] == y;
    assert j == 0 || le(s[0], s[j]);
    assert Ties(le, x, t)[0] == y;
  }

  /** There is one stable way to sort. */
  lemma {:induction false} StableIsUnique<T(!new)>(le: (T, T) -> bool, s: seq<T>, t: seq<T>)
    requires TotalPreorder(le) && Sorted(le, s) && Sorted(le, t) && SameTies(le, s, t)
    ensures s == t
    decreases |s|
  {
    if s == [] {
      if t != [] {
        SameHead(le, t, s);
      }
    } else {
      SameHead(le, s, t);
      forall x ensures Ties(le, x, s[1..]) == Ties(le, x, t[1..]) {
        assert Ties(le, x, s) == Ties(le, x, t);
        assert Ties(le, x, s)[|Tie(le, x, s[0])|..] == Ties(le, x, s[1..]);
        assert Ties(le, x, t)[|Tie(le, x, t[0])|..] == Ties(le, x, t[1..]);
      }
      StableIsUnique(le, s[1..], t[1..]);
      assert s == [s[0]] + s[1..] && t == [t[0]] + t[1..];
    }
  }

  /** Sorting the parts before the whole makes no difference. */
  lemma {:induction false} SortParts<T(!new)>(le: (T, T) -> bool, s: seq<T>, t: seq<T>)
    requires TotalPreorder(le)
    ensures Sort(le, Sort(le, s) + Sort(le, t)) == Sort(le, s + t)
  {
    var parts := Sort(le, s) + Sort(le, t);
    SortSorts(le, parts);
    SortSorts(le, s + t);
    forall x ensures Ties(le, x, Sort(le, parts)) == Ties(le, x, Sort(le, s + t)) {
      SortStable(le, x, parts);
      SortStable(le, x, s + t);
      SortStable(le, x, s);
      SortStable(le, x, t);
      TiesAppend(le, x, Sort(le, s), Sort(le, t));
      TiesAppend(le, x, s, t);
    }
    StableIsUnique(le, Sort(le, parts), Sort(le, s + t));
  }

  /** Of some names, the one that comes last. */
  lemma {:induction false} GreatestName(names: set<string>) returns (g: string)
    requires names != {}
    ensures g in names && forall n :: n in names ==> StrLe(n, g)
    decreases |names|
  {
    g :| g in names;
    var mine, others := g, names - {g};
    StrOrder(mine, mine, mine);
    if others != {} {
      var other := GreatestName(others);
      StrOrder(mine, other, other);
      g := if StrLe(mine, other) then other else mine;
      forall n | n in names ensures StrLe(n, g) {
        assert n == mine || n in others;
        if n != mine {
          StrOrder(n, other, g);
        }
      }
    } else {
      assert names == {mine};
    }
  }
}
