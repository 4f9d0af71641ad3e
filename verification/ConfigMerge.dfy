/** The tree as it is built up layer by layer, its data and its table of
    origins changed together (internal/config/merge.go). */
module ConfigMerge {
  import opened Options
  import opened Text
  import opened Sorting
  import opened ConfigTree

  // ----- the keys of a section in their order -----

  ghost predicate IsLeast(s: set<string>, k: string) {
    k in s && forall x :: x in s ==> StrLe(k, x)
  }

  lemma {:induction false} LeastExists(s: set<string>) returns (k: string)
    requires s != {}
    ensures IsLeast(s, k)
    decreases |s|
  {
    k :| k in s;
    var rest := s - {k};
    StrOrder(k, k, k);
    if rest == {} {
      assert s == {k};
    } else {
      var other := k;
      var m := LeastExists(rest);
      StrOrder(other, m, m);
      k := if StrLe(m, other) then m else other;
      forall x | x in s ensures StrLe(k, x) {
        assert x == other || x in rest;
        StrOrder(k, m, x);
      }
    }
  }

  /** `slices.Sorted(maps.Keys(m))`. */
  ghost function SortedKeys(s: set<string>): seq<string>
    decreases |s|
  {
    if s == {} then []
    else
      var k := var x := LeastOf(s); x;
      [k] + SortedKeys(s - {k})
  }

  ghost function LeastOf(s: set<string>): (k: string)
    requires s != {}
    ensures IsLeast(s, k)
  {
    assert exists k :: IsLeast(s, k) by {
      var k := LeastExists(s);
    }
    var k :| IsLeast(s, k);
    k
  }

  lemma {:induction false} LeastUnique(s: set<string>, a: string, b: string)
    requires IsLeast(s, a) && IsLeast(s, b)
    ensures a == b
  {
    StrOrder(a, b, a);
  }

  lemma {:induction false} SortedKeysAre(s: set<string>)
    ensures forall k :: k in SortedKeys(s) <==> k in s
    decreases |s|
  {
    if s != {} {
      SortedKeysAre(s - {LeastOf(s)});
    }
  }

  method SortKeys(s: set<string>) returns (r: seq<string>)
    ensures r == SortedKeys(s)
  {
    r := [];
    var left := s;
    while left != {}
      invariant r + SortedKeys(left) == SortedKeys(s)
      decreases left
    {
      var k :| k in left;
      var others := left - {k};
      StrOrder(k, k, k);
      while others != {}
        invariant others <= left && k in left
        invariant forall x :: x in left && x !in others ==> StrLe(k, x)
        decreases others
      {
        var x :| x in others;
        ghost var was := k;
        if StrLess(x, k) {
          k := x;
        }
        forall y | y in left && y !in others - {x} ensures StrLe(k, y) {
          StrOrder(k, was, y);
          StrOrder(x, was, y);
          StrOrder(x, x, x);
        }
        others := others - {x};
      }
      LeastUnique(left, k, LeastOf(left));
      r := r + [k];
      left := left - {k};
    }
  }

  // ----- what a merge writes -----

  /** Where the value written at a path of its source was written. */
  type OriginFunc = string -> Origin

  function JoinPath(a: string, b: string): string {
    if a == "" then b else if b == "" then a else a + "." + b
  }

  /** The leaves of a value, in the order they are written. */
  ghost function Writes(layer: string, from: OriginFunc, src: string, dst: Path, value: Value): seq<Write>
    decreases value, 1, 0
  {
    if value.Section? then
      SortedKeysAre(value.keys.Keys);
      KeyWrites(layer, from, src, dst, value, SortedKeys(value.keys.Keys))
    else [Write(dst, value, from(src).(layer := layer))]
  }

  ghost function KeyWrites(layer: string, from: OriginFunc, src: string, dst: Path, value: Value, ks: seq<string>): seq<Write>
    requires value.Section? && forall k :: k in ks ==> k in value.keys
    decreases value, 0, |ks|
  {
    if ks == [] then []
    else
      var k := ks[|ks| - 1];
      KeyWrites(layer, from, src, dst, value, ks[..|ks| - 1])
      + Writes(layer, from, JoinPath(src, k), dst + [k], value.keys[k])
  }

  /** The dotted path below a path of the source. */
  function SourcePath(src: string, p: Path): string
    decreases |p|
  {
    if p == [] then src else SourcePath(JoinPath(src, p[0]), p[1..])
  }

  /** The keys that are not empty. */
  function Spelled(p: Path): Path {
    if p == [] then [] else (if p[0] == "" then [] else [p[0]]) + Spelled(p[1..])
  }

  /** They are what the dotted path is made of. */
  lemma {:induction false} SourcePathIs(src: string, p: Path)
    ensures SourcePath(src, p) == Dotted((if src == "" then [] else [src]) + Spelled(p))
    decreases |p|
  {
    var before := if src == "" then [] else [src];
    if p == [] {
      assert before + [] == before;
    } else {
      var next, rest := JoinPath(src, p[0]), Spelled(p[1..]);
      SourcePathIs(next, p[1..]);
      if p[0] == "" {
        assert Spelled(p) == rest && next == src;
      } else if src == "" {
        assert Spelled(p) == [p[0]] + rest && [] + Spelled(p) == Spelled(p);
      } else {
        DottedFirst(src, p[0], rest);
        assert [src] + Spelled(p) == [src, p[0]] + rest && [next] + rest == [src + "." + p[0]] + rest;
      }
    }
  }

  lemma {:induction false} DottedFirst(a: string, b: string, rest: Path)
    ensures Dotted([a + "." + b] + rest) == Dotted([a, b] + rest)
  {
    assert ([a, b] + rest)[1..] == [b] + rest && ([b] + rest)[1..] == rest && ([a + "." + b] + rest)[1..] == rest;
    if rest == [] {
      assert Dotted([b] + rest) == b && Dotted([a + "." + b] + rest) == a + "." + b;
    } else {
      FourParts(a, b, Dotted(rest));
      assert Dotted([b] + rest) == b + "." + Dotted(rest);
      assert Dotted([a, b] + rest) == a + "." + Dotted([b] + rest);
    }
  }

  lemma {:induction false} FourParts(a: string, b: string, c: string)
    ensures a + "." + b + "." + c == a + "." + (b + "." + c)
  {
  }

  /** A write of a leaf of the value, at its path in it, with the origin its own
      path has in the source. */
  ghost predicate OfLeaf(layer: string, from: OriginFunc, src: string, dst: Path, value: Value, w: Write) {
    && w.path != [] && dst <= w.path && !w.value.Section?
    && At(value, w.path[|dst|..]) == Some(w.value)
    && w.origin == from(SourcePath(src, w.path[|dst|..])).(layer := layer)
  }

  /** A merge writes leaves only. */
  lemma {:induction false} WritesAreLeaves(layer: string, from: OriginFunc, src: string, dst: Path, value: Value)
    requires dst != [] || value.Section?
    ensures forall w :: w in Writes(layer, from, src, dst, value) ==> OfLeaf(layer, from, src, dst, value, w)
    decreases value, 1, 0
  {
    if value.Section? {
      SortedKeysAre(value.keys.Keys);
      KeyWritesAreLeaves(layer, from, src, dst, value, SortedKeys(value.keys.Keys));
    } else {
      assert dst[|dst|..] == [];
    }
  }

  lemma {:induction false} LeafBelow(layer: string, from: OriginFunc, src: string, dst: Path, value: Value, k: string, w: Write)
    requires value.Section? && k in value.keys
    requires OfLeaf(layer, from, JoinPath(src, k), dst + [k], value.keys[k], w)
    ensures OfLeaf(layer, from, src, dst, value, w)
  {
    var p, q := w.path[|dst|..], w.path[|dst + [k]|..];
    assert w.path[..|dst|] == (dst + [k])[..|dst|] == dst;
    assert w.path[|dst|] == (dst + [k])[|dst|];
    assert p == [k] + q && p[1..] == q;
  }

  lemma {:induction false} KeyWritesAreLeaves(layer: string, from: OriginFunc, src: string, dst: Path, value: Value,
                                              ks: seq<string>)
    requires value.Section? && forall k :: k in ks ==> k in value.keys
    ensures forall w :: w in KeyWrites(layer, from, src, dst, value, ks) ==> OfLeaf(layer, from, src, dst, value, w)
    decreases value, 0, |ks|
  {
    if ks != [] {
      var k := ks[|ks| - 1];
      assert k in ks;
      var last := Writes(layer, from, JoinPath(src, k), dst + [k], value.keys[k]);
      KeyWritesAreLeaves(layer, from, src, dst, value, ks[..|ks| - 1]);
      WritesAreLeaves(layer, from, JoinPath(src, k), dst + [k], value.keys[k]);
      forall w | w in last ensures OfLeaf(layer, from, src, dst, value, w) {
        LeafBelow(layer, from, src, dst, value, k, w);
      }
    }
  }

  predicate WritesAt(ws: seq<Write>, p: Path, value: Value) {
    exists i :: 0 <= i < |ws| && ws[i].path == p && ws[i].value == value
  }

  /** And it writes every leaf. */
  lemma {:induction false} EveryLeafIsWritten(layer: string, from: OriginFunc, src: string, dst: Path, value: Value, p: Path)
    requires At(value, p).Some? && !At(value, p).value.Section?
    ensures WritesAt(Writes(layer, from, src, dst, value), dst + p, At(value, p).value)
    decreases value, 1, 0
  {
    if p == [] {
      assert dst + p == dst && Writes(layer, from, src, dst, value)[0].path == dst;
    } else {
      SortedKeysAre(value.keys.Keys);
      KeyLeafIsWritten(layer, from, src, dst, value, SortedKeys(value.keys.Keys), p);
    }
  }

  lemma {:induction false} KeyLeafIsWritten(layer: string, from: OriginFunc, src: string, dst: Path, value: Value,
                                            ks: seq<string>, p: Path)
    requires value.Section? && forall k :: k in ks ==> k in value.keys
    requires p != [] && p[0] in ks && At(value, p).Some? && !At(value, p).value.Section?
    ensures WritesAt(KeyWrites(layer, from, src, dst, value, ks), dst + p, At(value, p).value)
    decreases value, 0, |ks|
  {
    var k := ks[|ks| - 1];
    assert k in ks;
    var front := KeyWrites(layer, from, src, dst, value, ks[..|ks| - 1]);
    var last := Writes(layer, from, JoinPath(src, k), dst + [k], value.keys[k]);
    if p[0] == k {
      EveryLeafIsWritten(layer, from, JoinPath(src, k), dst + [k], value.keys[k], p[1..]);
      assert (dst + [k]) + p[1..] == dst + p;
      var i :| 0 <= i < |last| && last[i].path == dst + p && last[i].value == At(value, p).value;
      assert (front + last)[|front| + i] == last[i];
    } else {
      KeyLeafIsWritten(layer, from, src, dst, value, ks[..|ks| - 1], p);
      var i :| 0 <= i < |front| && front[i].path == dst + p && front[i].value == At(value, p).value;
      assert (front + last)[i] == front[i];
    }
  }

  lemma {:induction false} DistinctJoinsBefore(a: seq<Write>, b: seq<Write>)
    requires DistinctJoins(a + b)
    ensures DistinctJoins(a)
  {
    forall i, j | 0 <= i < |a| && 0 <= j < |a| && Dotted(a[i].path) == Dotted(a[j].path)
      ensures a[i].path == a[j].path
    {
      assert (a + b)[i] == a[i] && (a + b)[j] == a[j];
    }
  }

  datatype OverrideResult = Applied | NeedsPath | EmptyElement | Rejected

  /** The keys of a dotted path. */
  function SplitPath(path: string): Path {
    if path == "" then [] else Split(path, '.')
  }

  /** A document: its body, and where each path of it was written. */
  datatype Document = Document(data: Data, position: OriginFunc)

  /** `lookup`: the value at a dotted path of a plain tree. */
  function Lookup(data: Data, path: string): Value {
    match At(Section(data), SplitPath(path))
    case Some(v) => v
    case None => Nil
  }

  // ----- the tree -----

  /** What the tree was written so far, with the leaves of one more key. */
  lemma {:induction false} MergeStep(layer: string, from: OriginFunc, src: string, dst: Path, value: Value, ks: seq<string>, i: nat,
                  was: seq<Write>)
    requires value.Section? && (forall k :: k in ks ==> k in value.keys) && i < |ks|
    requires DistinctJoins(was + KeyWrites(layer, from, src, dst, value, ks))
    ensures var so := was + KeyWrites(layer, from, src, dst, value, ks[..i]);
            var next := Writes(layer, from, JoinPath(src, ks[i]), dst + [ks[i]], value.keys[ks[i]]);
            && so + next == was + KeyWrites(layer, from, src, dst, value, ks[..i + 1])
            && DistinctJoins(so + next)
  {
    var before, upto := KeyWrites(layer, from, src, dst, value, ks[..i]), KeyWrites(layer, from, src, dst, value, ks[..i + 1]);
    var next := Writes(layer, from, JoinPath(src, ks[i]), dst + [ks[i]], value.keys[ks[i]]);
    assert ks[..i + 1][..i] == ks[..i];
    assert upto == before + next;
    Assoc(was, before, next);
    KeyWritesBefore(layer, from, src, dst, value, ks, i + 1);
    DistinctWhileMerging(was, upto, KeyWrites(layer, from, src, dst, value, ks));
  }

  /** Nothing is left of a table when the root was written. */
  lemma {:induction false} DroppedAll(origins: map<string, Origin>, keys: map<string, Path>,
                   origins': map<string, Origin>, keys': map<string, Path>)
    requires Dropped(origins, keys, [], origins', keys')
    ensures origins' == map[] && keys' == map[]
  {
    assert forall s :: s in keys ==> Comparable([], keys[s]);
    assert origins'.Keys == {} && keys'.Keys == {};
  }

  /** The table after a leaf was written, whether or not paths were dropped. */
  lemma {:induction false} TableWritten(data: Data, origins: map<string, Origin>, keys: map<string, Path>, ws: seq<Write>, w: Write,
                     origins': map<string, Origin>, keys': map<string, Path>)
    requires HoldsLeaves(data, ws) && HoldsOrigins(origins, keys, ws) && DistinctJoins(ws + [w]) && w.path != []
    requires if Replaces(data, w.path) then Dropped(origins, keys, w.path, origins', keys')
             else origins' == origins && keys' == keys
    ensures HoldsOrigins(origins'[Dotted(w.path) := w.origin], keys'[Dotted(w.path) := w.path], ws + [w])
  {
    if Replaces(data, w.path) {
      OriginWritten(origins, keys, ws, w, origins', keys');
    } else {
      OriginOverwritten(data, origins, keys, ws, w);
    }
  }

  /** A leaf that is to replace the whole tree. The program merges none: what it
      merges there is a document's body or its spec, which are sections. */
  predicate RootLeaf(dst: Path, value: Value) {
    dst == [] && !value.Section?
  }

  /** The table of a tree that such a leaf was merged into. */
  ghost predicate RootRecorded(origins: map<string, Origin>, keys: map<string, Path>, origin: Origin) {
    origins == map["" := origin] && keys == map["" := []]
  }

  /** Why a leaf is not merged at the root: whatever the tree holds, the table it
      leaves is that of no history. */
  lemma {:induction false} RootLeafIsNoHistory(data: Data, origins: map<string, Origin>, keys: map<string, Path>, origin: Origin)
    requires RootRecorded(origins, keys, origin)
    ensures !exists ws :: HoldsLeaves(data, ws) && HoldsOrigins(origins, keys, ws)
  {
    forall ws | HoldsLeaves(data, ws) ensures !HoldsOrigins(origins, keys, ws) {
      assert LeafAt(data, []) == None;
      assert "" in keys && [] !in Live(ws);
    }
  }

  class Tree {
    var data: Data
    var origins: map<string, Origin>
    var keys: map<string, Path>
    /** Every leaf written so far. */
    ghost var writes: seq<Write>

    /** Data and table say what the history says, and nothing more. */
    ghost predicate Valid()
      reads this
    {
      HoldsLeaves(data, writes) && HoldsOrigins(origins, keys, writes)
    }

    constructor ()
      ensures Valid() && writes == []
    {
      data, origins, keys, writes := map[], map[], map[], [];
      new;
      forall q: Path ensures LeafAt(data, q) == None {
        assert At(Section(data), q) == if q == [] then Some(Section(data)) else None;
      }
    }

    /** `set`. A leaf written at the root changes nothing, and is reported as
        having replaced everything. */
    method Set(path: Path, value: Value) returns (replaced: bool)
      modifies `data
      ensures path != [] ==> data == SetAt(old(data), path, value) && replaced == Replaces(old(data), path)
      ensures path == [] ==> replaced && data == if value.Section? then value.keys else old(data)
    {
      if path == [] {
        if value.Section? {
          data := value.keys;
        }
        return true;
      }
      data, replaced := SetIn(data, path, value);
    }

    /** Writing below a section, on the nested sections as values. */
    static method SetIn(data: Data, path: Path, value: Value) returns (r: Data, replaced: bool)
      requires path != []
      ensures r == SetAt(data, path, value) && replaced == Replaces(data, path)
      decreases |path|
    {
      var p := path[0];
      if |path| == 1 {
        return data[p := value], p in data && data[p].Section?;
      }
      var child: Data := map[];
      replaced := false;
      if p in data {
        if data[p].Section? {
          child := data[p].keys;
        } else {
          replaced := true;
        }
      }
      assert child == Child(data, p);
      var below, under := SetIn(child, path[1..], value);
      NothingIn(path[1..]);
      return data[p := Section(below)], replaced || under;
    }

    /** The paths comparable with one dropped from the table. */
    method Drop(dst: Path)
      requires origins.Keys == keys.Keys
      modifies `origins, `keys
      ensures Dropped(old(origins), old(keys), dst, origins, keys)
    {
      var todo := keys.Keys;
      while todo != {}
        invariant todo <= old(keys).Keys && origins.Keys == keys.Keys
        invariant forall s :: s in keys <==> s in old(keys) && (s in todo || !Comparable(dst, old(keys)[s]))
        invariant forall s :: s in keys ==> keys[s] == old(keys)[s] && origins[s] == old(origins)[s]
        decreases todo
      {
        var s :| s in todo;
        if dst <= keys[s] || keys[s] <= dst {
          origins, keys := origins - {s}, keys - {s};
        }
        todo := todo - {s};
      }
    }

    /** One leaf written, and its origin recorded in place of those of every
        leaf it takes away. */
    method MergeLeaf(dst: Path, value: Value, origin: Origin)
      requires Valid() && !value.Section? && DistinctJoins(writes + [Write(dst, value, origin)])
      modifies this
      ensures dst != [] ==> Valid() && writes == old(writes) + [Write(dst, value, origin)]
      ensures dst == [] ==> data == old(data) && RootRecorded(origins, keys, origin)
    {
      ghost var w := Write(dst, value, origin);
      ghost var data0, origins0, keys0 := data, origins, keys;
      var replaced := Set(dst, value);
      if replaced {
        Drop(dst);
      }
      if dst == [] {
        DroppedAll(origins0, keys0, origins, keys);
      } else {
        LeafWritten(data0, writes, w);
        TableWritten(data0, origins0, keys0, writes, w, origins, keys);
      }
      origins, keys := origins[Dotted(dst) := origin], keys[Dotted(dst) := dst];
      writes := writes + [w];
    }

    /** `mergeValue`. Of a leaf merged at the root only its origin is kept, and
        every other origin is lost. */
    method MergeValue(layer: string, from: OriginFunc, src: string, dst: Path, value: Value)
      requires Valid()
      requires DistinctJoins(writes + Writes(layer, from, src, dst, value))
      modifies this
      ensures !RootLeaf(dst, value) ==> Valid() && writes == old(writes) + Writes(layer, from, src, dst, value)
      ensures RootLeaf(dst, value) ==>
                data == old(data) && RootRecorded(origins, keys, from(src).(layer := layer))
      decreases value
    {
      if value.Section? {
        var ks := SortKeys(value.keys.Keys);
        SortedKeysAre(value.keys.Keys);
        ghost var was := writes;
        assert KeyWrites(layer, from, src, dst, value, ks[..0]) == [] && was + [] == was;
        for i := 0 to |ks|
          invariant Valid()
          invariant writes == was + KeyWrites(layer, from, src, dst, value, ks[..i])
        {
          var k := ks[i];
          assert k in ks;
          MergeStep(layer, from, src, dst, value, ks, i, was);
          MergeValue(layer, from, JoinPath(src, k), dst + [k], value.keys[k]);
        }
        assert ks[..|ks|] == ks;
        return;
      }
      MergeLeaf(dst, value, from(src).(layer := layer));
    }

    /** `MergeDocumentExcept`: the subtree of a document, without some of its
        top level keys. */
    method MergeDocumentExcept(layer: string, doc: Document, from: string, into: string, except: set<string>)
      requires Valid()
      requires DistinctJoins(writes + DocumentWrites(layer, doc, from, into, except))
      modifies this
      ensures Lookup(doc.data, from) == Nil || !RootLeaf(SplitPath(into), Lookup(doc.data, from)) ==>
                Valid() && writes == old(writes) + DocumentWrites(layer, doc, from, into, except)
      ensures Lookup(doc.data, from) != Nil && RootLeaf(SplitPath(into), Lookup(doc.data, from)) ==>
                data == old(data) && RootRecorded(origins, keys, doc.position(from).(layer := layer))
    {
      var value := Lookup(doc.data, from);
      if value == Nil {
        return;
      }
      if except != {} && value.Section? {
        value := Section(map k | k in value.keys && k !in except :: value.keys[k]);
      } else if value.Section? {
        assert (map k | k in value.keys && k !in except :: value.keys[k]) == value.keys;
      }
      MergeValue(layer, doc.position, from, SplitPath(into), value);
    }

    /** `override`: whether the schema accepts it is the caller's to say. */
    method Override(layer: string, path: string, value: Value, from: OriginFunc, src: string, accepted: bool)
      returns (r: OverrideResult)
      requires Valid()
      requires DistinctJoins(writes + Writes(layer, from, src, SplitPath(path), value))
      modifies this
      ensures Valid()
      ensures r == if path == "" then NeedsPath else if "" in SplitPath(path) then EmptyElement
                   else if accepted then Applied else Rejected
      ensures if r == Applied then writes == old(writes) + Writes(layer, from, src, SplitPath(path), value)
              else unchanged(this)
    {
      if path == "" {
        return NeedsPath;
      }
      var parts := SplitPath(path);
      if "" in parts {
        return EmptyElement;
      }
      if !accepted {
        return Rejected;
      }
      MergeValue(layer, from, src, parts, value);
      return Applied;
    }

    /** After any history: the tree holds v with origin o at p exactly when
        the last write comparable with p wrote (v, o) at p, and the recorded
        paths are exactly the leaves. */
    lemma {:induction false} HoldsLastWrites(p: Path, v: Value, o: Origin)
      requires Valid()
      ensures (LeafAt(data, p) == Some(v) && Records(origins, keys, p, o))
              <==> exists i :: 0 <= i < |writes| && writes[i] == Write(p, v, o) && Stands(writes, i)
      ensures LeafAt(data, p).Some? <==> Dotted(p) in keys && keys[Dotted(p)] == p
      ensures forall s :: s in origins ==> s in keys && Dotted(keys[s]) == s && LeafAt(data, keys[s]).Some?
    {
      LastComparableWins(writes, p);
      if p in Live(writes) {
        assert Records(origins, keys, p, Live(writes)[p].origin);
        var i :| 0 <= i < |writes| && writes[i] == Live(writes)[p] && writes[i].path == p && Stands(writes, i);
        StandsOnce(writes, p, i);
      }
      if i :| 0 <= i < |writes| && writes[i] == Write(p, v, o) && Stands(writes, i) {
        StandsOnce(writes, p, i);
      }
    }
  }

  /** The part of a section that is merged. */
  function Taken(value: Value, except: set<string>): Value {
    if value.Section? then Section(map k | k in value.keys && k !in except :: value.keys[k]) else value
  }

  ghost function DocumentWrites(layer: string, doc: Document, from: string, into: string, except: set<string>): seq<Write> {
    var value := Lookup(doc.data, from);
    if value == Nil then [] else Writes(layer, doc.position, from, SplitPath(into), Taken(value, except))
  }

  /** Of a document whose subtree is a section, a merge writes the leaves below the
      keys that are not left out and no others, each below the path it is merged
      into, with the origin the document has for its own path. */
  lemma {:induction false} DocumentWritesAre(layer: string, doc: Document, from: string, into: string, except: set<string>,
                                             w: Write)
    requires Lookup(doc.data, from).Section? && w in DocumentWrites(layer, doc, from, into, except)
    ensures var dst, n := SplitPath(into), |SplitPath(into)|;
            && dst <= w.path && n < |w.path| && w.path[n] !in except
            && At(Lookup(doc.data, from), w.path[n..]) == Some(w.value) && !w.value.Section?
            && w.origin == doc.position(Dotted((if from == "" then [] else [from]) + Spelled(w.path[n..]))).(layer := layer)
  {
    var value, n := Lookup(doc.data, from), |SplitPath(into)|;
    WritesAreLeaves(layer, doc.position, from, SplitPath(into), Taken(value, except));
    var p := w.path[n..];
    assert p != [] && p[0] == w.path[n];
    SourcePathIs(from, p);
  }

  /** And every such leaf is written. */
  lemma {:induction false} DocumentIsWritten(layer: string, doc: Document, from: string, into: string, except: set<string>,
                                             p: Path)
    requires Lookup(doc.data, from).Section? && p != [] && p[0] !in except
    requires At(Lookup(doc.data, from), p).Some? && !At(Lookup(doc.data, from), p).value.Section?
    ensures WritesAt(DocumentWrites(layer, doc, from, into, except), SplitPath(into) + p, At(Lookup(doc.data, from), p).value)
  {
    var taken := Taken(Lookup(doc.data, from), except);
    assert At(taken, p) == At(Lookup(doc.data, from), p);
    EveryLeafIsWritten(layer, doc.position, from, SplitPath(into), taken, p);
  }

  /** A leaf is merged where the document is, with its own origin, and nothing is
      where the document has nothing. */
  lemma {:induction false} DocumentOtherwise(layer: string, doc: Document, from: string, into: string, except: set<string>)
    requires !Lookup(doc.data, from).Section?
    ensures var value := Lookup(doc.data, from);
            DocumentWrites(layer, doc, from, into, except)
            == if value == Nil then [] else [Write(SplitPath(into), value, doc.position(from).(layer := layer))]
  {
  }

  /** A dotted path is split into its keys again. */
  lemma {:induction false} SplitPathIs(p: Path)
    requires (forall k :: k in p ==> '.' !in k) && p != [""]
    ensures SplitPath(Dotted(p)) == p
  {
    if p != [] {
      SplitJoin(p, '.');
      DottedIsSome(p);
    }
  }

  lemma {:induction false} DottedIsSome(p: Path)
    requires p != [] && p != [""]
    ensures Dotted(p) != ""
  {
    if |p| == 1 {
      assert p == [p[0]];
    }
  }

  lemma {:induction false} StandsOnce(ws: seq<Write>, p: Path, i: nat)
    requires i < |ws| && ws[i].path == p && Stands(ws, i)
    ensures p in Live(ws) && Live(ws)[p] == ws[i]
  {
    LastComparableWins(ws, p);
    var j :| 0 <= j < |ws| && ws[j] == Live(ws)[p] && ws[j].path == p && Stands(ws, j);
    if i < j {
      assert Comparable(ws[j].path, ws[i].path);
    } else if j < i {
      assert Comparable(ws[i].path, ws[j].path);
    }
  }

  lemma {:induction false} NothingIn(p: Path)
    requires p != []
    ensures !Replaces(map[], p)
  {
  }

  lemma {:induction false} KeyWritesBefore(layer: string, from: OriginFunc, src: string, dst: Path, value: Value,
                                           ks: seq<string>, n: nat)
    requires value.Section? && (forall k :: k in ks ==> k in value.keys) && n <= |ks|
    ensures KeyWrites(layer, from, src, dst, value, ks[..n]) <= KeyWrites(layer, from, src, dst, value, ks)
    decreases |ks|
  {
    if n < |ks| {
      KeyWritesBefore(layer, from, src, dst, value, ks[..|ks| - 1], n);
      assert ks[..|ks| - 1][..n] == ks[..n];
    } else {
      assert ks[..n] == ks;
    }
  }

  lemma {:induction false} DistinctWhileMerging(was: seq<Write>, part: seq<Write>, all: seq<Write>)
    requires part <= all && DistinctJoins(was + all)
    ensures DistinctJoins(was + part)
  {
    assert was + all == (was + part) + all[|part|..];
    DistinctJoinsBefore(was + part, all[|part|..]);
  }
}
