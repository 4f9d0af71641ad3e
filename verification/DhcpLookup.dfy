/** The host declarations of a node, found by binary search in declarations in
    the order of their names (internal/dhcp/dhcp.go). */
module DhcpLookup {
  import opened Options
  import opened Sorting

  datatype MatchKind = ByName | ByInterface

  /** `matchName`: how a declaration's name belongs to a node, if it does. */
  function MatchName(name: string, node: string): Option<MatchKind> {
    if node == "" then None
    else if name == node || node + "." <= name then Some(ByName)
    else if node <= name && name[|node|] in {'-', '_'} then Some(ByInterface)
    else None
  }

  /** The declarations a node has among the first n, in their order. */
  function Matching(names: seq<string>, node: string, n: nat): seq<nat>
    requires n <= |names|
  {
    if n == 0 then []
    else Matching(names, node, n - 1) + if MatchName(names[n - 1], node).Some? then [n - 1] else []
  }

  predicate NameSorted(names: seq<string>) {
    forall i, j :: 0 <= i < j < |names| ==> StrLe(names[i], names[j])
  }

  // ----- names that start with a prefix -----

  lemma {:induction false} PrefixAtLeast(p: string, b: string)
    requires p <= b
    ensures StrLe(p, b)
  {
    if p != "" {
      assert p[1..] <= b[1..];
      PrefixAtLeast(p[1..], b[1..]);
    }
  }

  /** What lies between a prefix and a name that starts with it starts with it. */
  lemma {:induction false} PrefixBetween(p: string, a: string, b: string)
    requires StrLe(p, a) && StrLe(a, b) && p <= b
    ensures p <= a
  {
    if p != "" {
      assert a != "" && b[0] == p[0] == a[0];
      assert p[1..] <= b[1..];
      PrefixBetween(p[1..], a[1..], b[1..]);
      assert p == [p[0]] + p[1..] && a == [a[0]] + a[1..];
    }
  }

  function Separator(k: nat): string
    requires k < 4
  {
    if k == 0 then "" else if k == 1 then "-" else if k == 2 then "." else "_"
  }

  /** A name of the k-th kind: the node's own, or the node's with something after
      a separator. */
  predicate OfKind(name: string, node: string, k: nat)
    requires k < 4
  {
    if k == 0 then name == node else node + Separator(k) <= name
  }

  predicate OfFirst(name: string, node: string, k: nat)
    requires k <= 4
  {
    exists j :: 0 <= j < k && OfKind(name, node, j)
  }

  lemma {:induction false} SeparatorIs(name: string, node: string, k: nat)
    requires 0 < k < 4
    ensures OfKind(name, node, k) <==> node <= name && |node| < |name| && name[|node|] == Separator(k)[0]
  {
    var p := node + Separator(k);
    if node <= name && |node| < |name| && name[|node|] == Separator(k)[0] {
      assert name[..|p|] == p;
    }
    if p <= name {
      assert p[..|node|] == node && p[|node|] == Separator(k)[0];
      assert name[..|p|] == p;
    }
  }

  lemma {:induction false} KindsAreDisjoint(name: string, node: string, j: nat, k: nat)
    requires j < k < 4 && OfKind(name, node, j)
    ensures !OfKind(name, node, k)
  {
    SeparatorIs(name, node, k);
    if j > 0 {
      SeparatorIs(name, node, j);
    }
  }

  lemma {:induction false} MatchIsOfKind(name: string, node: string)
    requires node != ""
    ensures MatchName(name, node).Some? <==> OfFirst(name, node, 4)
    ensures MatchName(name, node) == Some(ByName) <==> name == node || node + "." <= name
    ensures MatchName(name, node) == Some(ByInterface) <==> node + "-" <= name || node + "_" <= name
  {
    SeparatorIs(name, node, 1);
    SeparatorIs(name, node, 2);
    SeparatorIs(name, node, 3);
    if MatchName(name, node).Some? {
      var k := if name == node then 0 else if node + "." <= name then 2 else if name[|node|] == '-' then 1 else 3;
      assert OfKind(name, node, k);
    }
  }

  // ----- the methods -----

  /** `slices.IsSortedFunc` by name. */
  method IsSorted(names: seq<string>) returns (sorted: bool)
    ensures sorted <==> NameSorted(names)
  {
    if names == [] {
      return true;
    }
    var i := |names| - 1;
    while i > 0
      invariant 0 <= i < |names|
      invariant NameSorted(names[i..])
    {
      if StrLess(names[i], names[i - 1]) {
        return false;
      }
      forall k | i <= k < |names| ensures StrLe(names[i - 1], names[k]) {
        assert names[i..][0] == names[i] && names[i..][k - i] == names[k];
        StrOrder(names[i], names[i], names[k]);
        StrLeTransitive(names[i - 1], names[i], names[k]);
      }
      i := i - 1;
      SortedFront(names, i);
    }
    assert names[0..] == names;
    return true;
  }

  lemma {:induction false} SortedFront(names: seq<string>, i: nat)
    requires i + 1 < |names| && NameSorted(names[i + 1..])
    requires forall k :: i + 1 <= k < |names| ==> StrLe(names[i], names[k])
    ensures NameSorted(names[i..])
  {
    var tail, rest := names[i..], names[i + 1..];
    forall a, b | 0 <= a < b < |tail| ensures StrLe(tail[a], tail[b]) {
      assert tail[b] == names[i + b];
      if a > 0 {
        assert tail[a] == rest[a - 1] && tail[b] == rest[b - 1];
      }
    }
  }

  /** `slices.BinarySearchFunc`: where the names that do not come before p begin. */
  method LowerBound(names: seq<string>, p: string) returns (at: nat)
    requires NameSorted(names)
    ensures at <= |names|
    ensures forall k :: 0 <= k < at ==> StrLess(names[k], p)
    ensures forall k :: at <= k < |names| ==> StrLe(p, names[k])
  {
    var low, high := 0, |names|;
    while low < high
      invariant 0 <= low <= high <= |names|
      invariant forall k :: 0 <= k < low ==> StrLess(names[k], p)
      invariant forall k :: high <= k < |names| ==> StrLe(p, names[k])
    {
      var mid := (low + high) / 2;
      if StrLess(names[mid], p) {
        BelowTo(names, p, mid);
        low := mid + 1;
      } else {
        AboveFrom(names, p, mid);
        high := mid;
      }
    }
    at := low;
  }

  lemma {:induction false} BelowTo(names: seq<string>, p: string, mid: nat)
    requires NameSorted(names) && mid < |names| && StrLess(names[mid], p)
    ensures forall k :: 0 <= k <= mid ==> StrLess(names[k], p)
  {
    forall k | 0 <= k < mid ensures StrLess(names[k], p) {
      StrTrichotomy(names[k], p);
      if !StrLess(names[k], p) {
        StrOrder(p, p, names[k]);
        assert StrLe(names[k], names[mid]);
        if names[k] != p {
          StrAsymmetric(p, names[k]);
        }
        StrLeTransitive(p, names[k], names[mid]);
      }
    }
  }

  lemma {:induction false} AboveFrom(names: seq<string>, p: string, mid: nat)
    requires NameSorted(names) && mid < |names| && StrLe(p, names[mid])
    ensures forall k :: mid <= k < |names| ==> StrLe(p, names[k])
  {
    forall k | mid < k < |names| ensures StrLe(p, names[k]) {
      StrLeTransitive(p, names[mid], names[k]);
    }
  }

  predicate Rising(s: seq<nat>) {
    forall i, j :: 0 <= i < j < |s| ==> s[i] < s[j]
  }

  /** The declarations of the k-th kind side by side, from the first. */
  ghost predicate KindIs(found: seq<nat>, names: seq<string>, node: string, k: nat, n: nat)
    requires k < 4 && n <= |names|
  {
    && Rising(found)
    && forall i: nat :: i in found <==> i < n && node != "" && OfKind(names[i], node, k)
  }

  lemma {:induction false} NoneBefore(names: seq<string>, node: string, k: nat, at: nat)
    requires k < 4 && at <= |names| && forall i :: 0 <= i < at ==> StrLess(names[i], node + Separator(k))
    ensures forall i :: 0 <= i < at ==> !OfKind(names[i], node, k)
  {
    assert node + "" == node;
    forall i | 0 <= i < at ensures !OfKind(names[i], node, k) {
      if OfKind(names[i], node, k) {
        PrefixAtLeast(node + Separator(k), names[i]);
      }
    }
  }

  lemma {:induction false} NoneAfter(names: seq<string>, node: string, k: nat, at: nat)
    requires k < 4 && at < |names| && NameSorted(names) && StrLe(node + Separator(k), names[at])
    requires !OfKind(names[at], node, k)
    ensures forall i :: at <= i < |names| ==> !OfKind(names[i], node, k)
  {
    assert node + "" == node;
    forall i | at < i < |names| ensures !OfKind(names[i], node, k) {
      if OfKind(names[i], node, k) {
        if k == 0 {
          StrOrder(node, names[at], node);
        } else {
          PrefixBetween(node + Separator(k), names[at], names[i]);
        }
      }
    }
  }

  lemma {:induction false} KindMatches(name: string, node: string, k: nat)
    requires k < 4 && OfKind(name, node, k)
    ensures MatchName(name, node).Some? <==> node != ""
  {
    if node != "" {
      assert OfFirst(name, node, 4);
      MatchIsOfKind(name, node);
    }
  }

  /** The walk over the range of one prefix. */
  method Walk(names: seq<string>, node: string, k: nat) returns (found: seq<nat>)
    requires k < 4 && NameSorted(names)
    ensures KindIs(found, names, node, k, |names|)
  {
    var prefix := node + Separator(k);
    var i := LowerBound(names, prefix);
    NoneBefore(names, node, k, i);
    found := [];
    while i < |names| && prefix <= names[i]
      invariant i <= |names| && forall j :: i <= j < |names| ==> StrLe(prefix, names[j])
      invariant KindIs(found, names, node, k, i)
    {
      if prefix == node && names[i] != node {
        NodeIsPrefix(node, k);
        break;
      }
      assert k == 0 ==> prefix == node;
      assert OfKind(names[i], node, k) && forall j :: 0 <= j < |found| ==> found[j] in found;
      KindMatches(names[i], node, k);
      if MatchName(names[i], node).Some? {
        found := found + [i];
      }
      i := i + 1;
    }
    assert k == 0 ==> prefix == node;
    if i < |names| {
      NoneAfter(names, node, k, i);
    }
  }

  lemma {:induction false} NodeIsPrefix(node: string, k: nat)
    requires k < 4 && node + Separator(k) == node
    ensures k == 0
  {
    assert |node + Separator(k)| == |node| + |Separator(k)|;
  }

  predicate IntLe(a: nat, b: nat) {
    a <= b
  }

  lemma {:induction false} InsertRising(x: nat, s: seq<nat>)
    requires Rising(s) && x !in s
    ensures Rising(Insert(IntLe, x, s)) && forall y :: y in Insert(IntLe, x, s) <==> y == x || y in s
  {
    if s != [] && !IntLe(x, s[0]) {
      assert forall y :: y in s <==> y == s[0] || y in s[1..];
      InsertRising(x, s[1..]);
    }
  }

  predicate Once(s: seq<nat>) {
    forall i, j :: 0 <= i < j < |s| ==> s[i] != s[j]
  }

  lemma {:induction false} SortRising(s: seq<nat>)
    requires Once(s)
    ensures Rising(Sort(IntLe, s)) && forall y :: y in Sort(IntLe, s) <==> y in s
  {
    if s != [] {
      SortRising(s[1..]);
      assert s[0] !in s[1..];
      InsertRising(s[0], Sort(IntLe, s[1..]));
      assert forall y :: y in s <==> y == s[0] || y in s[1..];
    }
  }

  lemma {:induction false} MatchingIs(names: seq<string>, node: string, n: nat)
    requires n <= |names|
    ensures Rising(Matching(names, node, n))
    ensures forall i: nat :: i in Matching(names, node, n) <==> i < n && MatchName(names[i], node).Some?
  {
    if n > 0 {
      MatchingIs(names, node, n - 1);
      var before := Matching(names, node, n - 1);
      assert forall j :: 0 <= j < |before| ==> before[j] in before;
    }
  }

  lemma {:induction false} LastIsGreatest(s: seq<nat>, x: nat)
    requires Rising(s) && x in s
    ensures s != [] && x <= s[|s| - 1]
    ensures x in s[..|s| - 1] <==> x != s[|s| - 1]
  {
    var i :| 0 <= i < |s| && s[i] == x;
    assert i < |s| - 1 ==> s[..|s| - 1][i] == x;
  }

  /** Two rising lists of the same numbers are the same. */
  lemma {:induction false} RisingIsUnique(s: seq<nat>, t: seq<nat>)
    requires Rising(s) && Rising(t) && forall x: nat :: x in s <==> x in t
    ensures s == t
  {
    if t != [] {
      assert t[0] in t;
    }
    if s != [] {
      assert s[0] in s;
      var m, n := |s| - 1, |t| - 1;
      assert s[m] in s && t[n] in t;
      LastIsGreatest(s, t[n]);
      LastIsGreatest(t, s[m]);
      forall x: nat ensures x in s[..m] <==> x in t[..n] {
        if x in s || x in t {
          LastIsGreatest(s, x);
          LastIsGreatest(t, x);
        }
      }
      RisingIsUnique(s[..m], t[..n]);
      assert s == s[..m] + [s[m]] && t == t[..n] + [t[n]];
    }
  }

  /** The declarations of the first k kinds, each once. */
  ghost predicate KindsAre(found: seq<nat>, names: seq<string>, node: string, k: nat)
    requires k <= 4
  {
    && Once(found)
    && forall i: nat :: i in found <==> i < |names| && node != "" && OfFirst(names[i], node, k)
  }

  lemma {:induction false} KindsMore(found: seq<nat>, more: seq<nat>, names: seq<string>, node: string, k: nat)
    requires k < 4 && KindsAre(found, names, node, k) && KindIs(more, names, node, k, |names|)
    ensures KindsAre(found + more, names, node, k + 1)
  {
    forall i: nat | i < |names|
      ensures OfFirst(names[i], node, k + 1) <==> OfFirst(names[i], node, k) || OfKind(names[i], node, k)
      ensures OfKind(names[i], node, k) ==> !OfFirst(names[i], node, k)
    {
      OneKindMore(names[i], node, k);
    }
    forall i, j | 0 <= i < |found| && 0 <= j < |more| ensures found[i] != more[j] {
      assert found[i] in found && more[j] in more;
    }
  }

  lemma {:induction false} OneKindMore(name: string, node: string, k: nat)
    requires k < 4
    ensures OfFirst(name, node, k + 1) <==> OfFirst(name, node, k) || OfKind(name, node, k)
    ensures OfKind(name, node, k) ==> !OfFirst(name, node, k)
  {
    if OfKind(name, node, k) && OfFirst(name, node, k) {
      var j: nat :| j < k && OfKind(name, node, j);
      KindsAreDisjoint(name, node, j, k);
    }
  }

  lemma {:induction false} KindsAreMatching(found: seq<nat>, names: seq<string>, node: string)
    requires KindsAre(found, names, node, 4)
    ensures Sort(IntLe, found) == Matching(names, node, |names|)
  {
    SortRising(found);
    MatchingIs(names, node, |names|);
    forall i: nat ensures i in Sort(IntLe, found) <==> i in Matching(names, node, |names|) {
      if i < |names| && node != "" {
        MatchIsOfKind(names[i], node);
      }
    }
    RisingIsUnique(Sort(IntLe, found), Matching(names, node, |names|));
  }

  /** `named`: by four ranges of sorted names as by reading every name. */
  method Named(names: seq<string>, node: string) returns (out: seq<nat>)
    ensures out == Matching(names, node, |names|)
  {
    var sorted := IsSorted(names);
    out := [];
    if !sorted {
      for i := 0 to |names|
        invariant out == Matching(names, node, i)
      {
        if MatchName(names[i], node).Some? {
          out := out + [i];
        }
      }
      return;
    }
    for k := 0 to 4
      invariant KindsAre(out, names, node, k)
    {
      var found := Walk(names, node, k);
      KindsMore(out, found, names, node, k);
      out := out + found;
    }
    KindsAreMatching(out, names, node);
    out := Sort(IntLe, out);
  }
}
