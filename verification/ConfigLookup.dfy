/** Finding a value by its dotted path when keys may have dots of their own
    (internal/config/merge.go, `lookupKeys`). */
module ConfigLookup {
  import opened Options
  import opened Text
  import opened ConfigTree
  import opened ConfigMerge

  /** A key path spells a split path: each of its keys is a run of the parts
      joined by dots. */
  ghost predicate Spells(q: Path, parts: seq<string>)
    decreases |q|
  {
    if q == [] then parts == []
    else exists n :: 0 < n <= |parts| && q[0] == Dotted(parts[..n]) && Spells(q[1..], parts[n..])
  }

  /** A node of the tree that the parts name. */
  ghost predicate NamedNode(v: Value, parts: seq<string>, q: Path) {
    Spells(q, parts) && At(v, q).Some?
  }

  ghost predicate OnlyNode(v: Value, parts: seq<string>, q: Path) {
    NamedNode(v, parts, q) && forall q' :: NamedNode(v, parts, q') ==> q' == q
  }

  lemma {:induction false} LongerRun(parts: seq<string>, n: nat, m: nat)
    requires 0 < n < m <= |parts|
    ensures |Dotted(parts[..n])| < |Dotted(parts[..m])|
  {
    assert parts[..n][0] == parts[0] && parts[..m][0] == parts[0];
    if n > 1 {
      assert parts[..n][1..] == parts[1..][..n - 1] && parts[..m][1..] == parts[1..][..m - 1];
      LongerRun(parts[1..], n - 1, m - 1);
    }
  }

  lemma {:induction false} NodeBelow(v: Value, parts: seq<string>, n: nat, q: Path)
    requires v.Section? && 0 < n <= |parts| && Dotted(parts[..n]) in v.keys
    requires NamedNode(v.keys[Dotted(parts[..n])], parts[n..], q)
    ensures NamedNode(v, parts, [Dotted(parts[..n])] + q)
    ensures At(v, [Dotted(parts[..n])] + q) == At(v.keys[Dotted(parts[..n])], q)
  {
    var p := [Dotted(parts[..n])] + q;
    assert p[1..] == q;
    assert Spells(p, parts);
  }

  lemma {:induction false} NodeOf(v: Value, parts: seq<string>, q: Path) returns (n: nat)
    requires parts != [] && NamedNode(v, parts, q)
    ensures 0 < n <= |parts| && q != [] && q[0] == Dotted(parts[..n])
    ensures v.Section? && q[0] in v.keys && NamedNode(v.keys[q[0]], parts[n..], q[1..])
    ensures At(v, q) == At(v.keys[q[0]], q[1..])
  {
    n :| 0 < n <= |parts| && q[0] == Dotted(parts[..n]) && Spells(q[1..], parts[n..]);
  }

  lemma {:induction false} OnlyBelow(v: Value, parts: seq<string>, q: Path, n: nat)
    requires parts != [] && OnlyNode(v, parts, q)
    requires 0 < n <= |parts| && q != [] && q[0] == Dotted(parts[..n]) && v.Section? && q[0] in v.keys
    requires NamedNode(v.keys[q[0]], parts[n..], q[1..])
    ensures OnlyNode(v.keys[q[0]], parts[n..], q[1..])
  {
    forall q' | NamedNode(v.keys[q[0]], parts[n..], q') ensures q' == q[1..] {
      NodeBelow(v, parts, n, q');
      assert ([q[0]] + q')[1..] == q';
    }
  }

  /** What a lookup may answer: a value that some spelling names, and the
      value of the node when only one is named. */
  ghost predicate Answers(v: Value, parts: seq<string>, r: Value) {
    && (r != Nil ==> exists q :: NamedNode(v, parts, q) && At(v, q) == Some(r))
    && (forall q :: OnlyNode(v, parts, q) ==> At(v, q) == Some(r))
  }

  /** `lookupKeys`: at each section the longest run that names a key first. */
  method LookupKeys(v: Value, parts: seq<string>) returns (r: Value)
    ensures Answers(v, parts, r)
    decreases |parts|
  {
    if parts == [] {
      assert NamedNode(v, parts, []);
      return v;
    }
    if !v.Section? {
      forall q | NamedNode(v, parts, q) ensures false {
        var n := NodeOf(v, parts, q);
      }
      return Nil;
    }
    var n := |parts|;
    while n > 0
      invariant 0 <= n <= |parts|
      invariant forall q, m :: OnlyNode(v, parts, q) && n < m <= |parts| && q != [] && q[0] == Dotted(parts[..m]) ==>
                                 At(v, q) == Some(Nil)
    {
      var key := Dotted(parts[..n]);
      if key in v.keys {
        var found := LookupKeys(v.keys[key], parts[n..]);
        if found != Nil || n == |parts| {
          FoundIsAnswer(v, parts, n, found);
          return found;
        }
        forall q | OnlyNode(v, parts, q) && q != [] && q[0] == key ensures At(v, q) == Some(Nil) {
          OnlyAnswers(v, parts, q, n, found);
        }
      }
      forall q | OnlyNode(v, parts, q) && q != [] && q[0] == key ensures At(v, q) == Some(Nil) {
        var m := NodeOf(v, parts, q);
      }
      n := n - 1;
    }
    forall q | OnlyNode(v, parts, q) ensures At(v, q) == Some(Nil) {
      var m := NodeOf(v, parts, q);
    }
    return Nil;
  }

  lemma {:induction false} OnlyAnswers(v: Value, parts: seq<string>, q: Path, n: nat, found: Value)
    requires v.Section? && 0 < n <= |parts| && Dotted(parts[..n]) in v.keys
    requires Answers(v.keys[Dotted(parts[..n])], parts[n..], found)
    requires OnlyNode(v, parts, q) && q != [] && q[0] == Dotted(parts[..n])
    ensures At(v, q) == Some(found)
  {
    var m := NodeOf(v, parts, q);
    if m < n {
      LongerRun(parts, m, n);
    } else if n < m {
      LongerRun(parts, n, m);
    }
    OnlyBelow(v, parts, q, n);
  }

  /** A value found under a run is the answer: were only one node named, it
      would be named by this run. */
  lemma {:induction false} FoundIsAnswer(v: Value, parts: seq<string>, n: nat, found: Value)
    requires v.Section? && 0 < n <= |parts| && Dotted(parts[..n]) in v.keys
    requires Answers(v.keys[Dotted(parts[..n])], parts[n..], found)
    requires found != Nil || n == |parts|
    ensures Answers(v, parts, found)
  {
    var child := v.keys[Dotted(parts[..n])];
    var below: Path;
    if n == |parts| {
      below := [];
      assert parts[n..] == [];
      assert NamedNode(child, parts[n..], below);
      assert OnlyNode(child, parts[n..], below) by {
        forall q | NamedNode(child, parts[n..], q) ensures q == [] {
        }
      }
    } else {
      below :| NamedNode(child, parts[n..], below) && At(child, below) == Some(found);
    }
    NodeBelow(v, parts, n, below);
    assert At(v, [Dotted(parts[..n])] + below) == Some(found);
  }

  // ----- the value at the dotted path of a leaf -----

  /** Different nodes of the tree have different dotted paths. */
  ghost predicate DistinctNodes(data: Data) {
    forall p, q :: At(Section(data), p).Some? && At(Section(data), q).Some? && Dotted(p) == Dotted(q) ==> p == q
  }

  lemma {:induction false} SpellingJoins(q: Path, parts: seq<string>)
    requires Spells(q, parts) && forall x :: x in parts ==> '.' !in x
    ensures Dotted(q) == Dotted(parts)
    ensures q == [] <==> parts == []
    decreases |q|
  {
    if q != [] {
      var n :| 0 < n <= |parts| && q[0] == Dotted(parts[..n]) && Spells(q[1..], parts[n..]);
      SpellingJoins(q[1..], parts[n..]);
      JoinTwo(parts[..n], parts[n..]);
      assert parts[..n] + parts[n..] == parts;
      if q[1..] == [] {
        assert q == [q[0]];
      }
    }
  }

  lemma {:induction false} JoinTwo(a: seq<string>, b: seq<string>)
    requires a != []
    ensures Dotted(a + b) == if b == [] then Dotted(a) else Dotted(a) + "." + Dotted(b)
  {
    if b == [] {
      assert a + b == a;
    } else if |a| == 1 {
      assert (a + b)[1..] == b;
    } else {
      assert (a + b)[1..] == a[1..] + b;
      JoinTwo(a[1..], b);
      Assoc(a[0] + ".", Dotted(a[1..]) + ".", Dotted(b));
      Assoc(a[0] + ".", Dotted(a[1..]), ".");
    }
  }

  /** Splitting the dotted path of a key path gives parts that it spells. */
  lemma {:induction false} PathSpells(q: Path)
    requires q != []
    ensures Spells(q, Split(Dotted(q), '.'))
    decreases |q|
  {
    var first := Split(q[0], '.');
    JoinSplit(q[0], '.');
    if |q| == 1 {
      assert q[1..] == [] && first[..|first|] == first && first[|first|..] == [];
      assert Spells(q[1..], first[|first|..]);
    } else {
      var rest := Split(Dotted(q[1..]), '.');
      PathSpells(q[1..]);
      SplitTwo(q[0], Dotted(q[1..]));
      var all := Split(Dotted(q), '.');
      assert all == first + rest;
      assert all[..|first|] == first && all[|first|..] == rest;
    }
  }

  lemma {:induction false} SplitTwo(a: string, b: string)
    ensures Split(a + "." + b, '.') == Split(a, '.') + Split(b, '.')
  {
    var s := a + "." + b;
    if a == "" {
      assert s[1..] == b;
      assert Split(s, '.') == [""] + Split(b, '.');
    } else {
      var t := a[1..] + "." + b;
      SplitTwo(a[1..], b);
      assert s[1..] == t && s[0] == a[0];
      var front, tail := Split(a[1..], '.'), Split(b, '.');
      assert (front + tail)[0] == front[0] && (front + tail)[1..] == front[1..] + tail;
      if a[0] == '.' {
        Assoc([""], front, tail);
      } else {
        Assoc([[a[0]] + front[0]], front[1..], tail);
      }
    }
  }

  /** The value of a path whose nodes have distinct dotted paths is what the
      tree holds there, leaf or section, however its keys are dotted. */
  lemma {:induction false} ValueOfNode(data: Data, p: Path, r: Value)
    requires p != [] && Dotted(p) != "" && DistinctNodes(data)
    requires At(Section(data), p).Some?
    requires Answers(Section(data), SplitPath(Dotted(p)), r)
    ensures At(Section(data), p) == Some(r)
  {
    var parts := SplitPath(Dotted(p));
    PathSpells(p);
    SplitPieces(Dotted(p), '.');
    forall q | NamedNode(Section(data), parts, q) ensures q == p {
      SpellingJoins(q, parts);
      JoinSplit(Dotted(p), '.');
    }
    assert OnlyNode(Section(data), parts, p);
  }

  /** `Value`. */
  method ValueAt(t: Tree, path: string) returns (r: Value)
    ensures Answers(Section(t.data), SplitPath(path), r)
    ensures forall p :: p != [] && path != "" && Dotted(p) == path && DistinctNodes(t.data) && At(Section(t.data), p).Some? ==>
                          At(Section(t.data), p) == Some(r)
  {
    r := LookupKeys(Section(t.data), SplitPath(path));
    forall p | p != [] && path != "" && Dotted(p) == path && DistinctNodes(t.data) && At(Section(t.data), p).Some?
      ensures At(Section(t.data), p) == Some(r)
    {
      ValueOfNode(t.data, p, r);
    }
  }
}
