/** The layered configuration tree and the origin of every value in it
    (internal/config/merge.go). */
module ConfigTree {
  import opened Options
  import opened Text

  /** A configuration value. Sequences and scalars are leaves: they replace
      what was there as a whole. */
  datatype Value = Nil | Plain(text: string) | Section(keys: map<string, Value>)

  datatype Origin = Origin(layer: string, place: string)

  /** A path, its keys kept apart: a key may have a dot of its own. */
  type Path = seq<string>

  type Data = map<string, Value>

  // ----- reading a tree -----

  /** The value at a path, section or leaf. */
  function At(v: Value, p: Path): Option<Value>
    decreases |p|
  {
    if p == [] then Some(v)
    else if v.Section? && p[0] in v.keys then At(v.keys[p[0]], p[1..])
    else None
  }

  function LeafAt(data: Data, p: Path): Option<Value> {
    match At(Section(data), p)
    case Some(v) => if v.Section? then None else Some(v)
    case None => None
  }

  predicate Comparable(p: Path, q: Path) {
    p <= q || q <= p
  }

  // ----- writing one leaf -----

  /** The section under a key, or an empty one in place of anything else. */
  function Child(data: Data, key: string): Data {
    if key in data && data[key].Section? then data[key].keys else map[]
  }

  /** `set`: the value at a path, with the sections on the way to it. */
  function SetAt(data: Data, p: Path, value: Value): Data
    requires p != []
    decreases |p|
  {
    if |p| == 1 then data[p[0] := value]
    else data[p[0] := Section(SetAt(Child(data, p[0]), p[1..], value))]
  }

  /** What `set` reports: a leaf on the way, or a section at the path. */
  function Replaces(data: Data, p: Path): bool
    requires p != []
    decreases |p|
  {
    if |p| == 1 then p[0] in data && data[p[0]].Section?
    else if p[0] !in data then false
    else !data[p[0]].Section? || Replaces(data[p[0]].keys, p[1..])
  }

  /** A leaf at the first n keys of a path. */
  predicate LeafOnTheWay(data: Data, p: Path, n: nat)
    requires n <= |p|
  {
    At(Section(data), p[..n]).Some? && !At(Section(data), p[..n]).value.Section?
  }

  lemma {:induction false} LeafFurther(data: Data, p: Path, n: nat)
    requires 0 < n < |p| && p[0] in data && data[p[0]].Section?
    ensures LeafOnTheWay(data, p, n + 1) <==> LeafOnTheWay(data[p[0]].keys, p[1..], n)
  {
    TakeFirst(p, n);
    assert p[..n + 1][0] == p[0] && p[..n + 1][1..] == p[1..][..n];
    assert data[p[0]] == Section(data[p[0]].keys);
  }

  /** What `set` reports is that a leaf was on the way to the path, or a section at
      it. */
  lemma {:induction false} ReplacesIs(data: Data, p: Path)
    requires p != []
    ensures Replaces(data, p) <==>
            || (exists n :: 0 < n < |p| && LeafOnTheWay(data, p, n))
            || (At(Section(data), p).Some? && At(Section(data), p).value.Section?)
    decreases |p|
  {
    if |p| > 1 {
      if p[0] !in data {
        NoneBelow(data, p);
      } else if data[p[0]].Section? {
        ReplacesBelow(data, p);
      } else {
        AtOne(data, p);
        assert LeafOnTheWay(data, p, 1);
      }
    }
  }

  lemma {:induction false} AtOne(data: Data, p: Path)
    requires p != [] && p[0] in data
    ensures At(Section(data), p[..1]) == Some(data[p[0]])
  {
    assert p[..1][0] == p[0] && p[..1][1..] == [];
  }

  lemma {:induction false} NoneBelow(data: Data, p: Path)
    requires p != [] && p[0] !in data
    ensures forall n :: 0 < n <= |p| ==> At(Section(data), p[..n]) == None
    ensures At(Section(data), p) == None
  {
  }

  lemma {:induction false} ReplacesBelow(data: Data, p: Path)
    requires |p| > 1 && p[0] in data && data[p[0]].Section?
    ensures Replaces(data, p) <==>
            || (exists n :: 0 < n < |p| && LeafOnTheWay(data, p, n))
            || (At(Section(data), p).Some? && At(Section(data), p).value.Section?)
    decreases |p|, 0
  {
    var below, rest := data[p[0]].keys, p[1..];
    ReplacesIs(below, rest);
    assert data[p[0]] == Section(below);
    AtOne(data, p);
    if n :| 0 < n < |p| && LeafOnTheWay(data, p, n) {
      LeafFurther(data, p, n - 1);
      assert LeafOnTheWay(below, rest, n - 1);
    }
    if n :| 0 < n < |rest| && LeafOnTheWay(below, rest, n) {
      LeafFurther(data, p, n);
      assert LeafOnTheWay(data, p, n + 1);
    }
  }

  function LeafOf(v: Value): Option<Value> {
    if v.Section? then None else Some(v)
  }

  lemma {:induction false} LeafStep(data: Data, q: Path)
    requires q != []
    ensures LeafAt(data, q)
            == if |q| > 1 then LeafAt(Child(data, q[0]), q[1..])
               else if q[0] in data then LeafOf(data[q[0]])
               else None
  {
    var at := At(Section(data), q);
    if q[0] in data {
      assert at == At(data[q[0]], q[1..]);
      if |q| == 1 {
        assert q[1..] == [];
        assert At(data[q[0]], []) == Some(data[q[0]]);
      }
    }
  }

  lemma {:induction false} ComparableStep(p: Path, q: Path)
    requires p != [] && q != []
    ensures Comparable(p, q) <==> p[0] == q[0] && Comparable(p[1..], q[1..])
    ensures p == q <==> p[0] == q[0] && p[1..] == q[1..]
  {
    assert p == [p[0]] + p[1..] && q == [q[0]] + q[1..];
  }

  lemma {:induction false} SetLeaves(data: Data, p: Path, value: Value, q: Path)
    requires p != [] && !value.Section?
    ensures LeafAt(SetAt(data, p, value), q)
            == if q == p then Some(value) else if Comparable(p, q) then None else LeafAt(data, q)
    decreases |p|
  {
    var after := SetAt(data, p, value);
    if q == [] {
      assert q <= p;
    } else {
      LeafStep(data, q);
      LeafStep(after, q);
      ComparableStep(p, q);
      if q[0] == p[0] && |p| > 1 && |q| > 1 {
        SetLeaves(Child(data, p[0]), p[1..], value, q[1..]);
      } else if q[0] == p[0] && |p| == 1 && |q| > 1 {
        assert Child(after, q[0]) == map[];
        LeafStep(map[], q[1..]);
        NoLeaf(q[1..]);
      }
    }
  }

  lemma {:induction false} NoLeaf(q: Path)
    requires q != []
    ensures LeafAt(map[], q) == None
  {
  }

  /** When nothing was replaced, the path had no other leaf above or below. */
  lemma {:induction false} NothingReplaced(data: Data, p: Path, q: Path)
    requires p != [] && !Replaces(data, p) && Comparable(p, q) && q != p
    ensures LeafAt(data, q) == None
    decreases |p|
  {
    if q != [] {
      LeafStep(data, q);
      ComparableStep(p, q);
      if |p| > 1 && |q| > 1 {
        if p[0] in data {
          NothingReplaced(data[p[0]].keys, p[1..], q[1..]);
        } else {
          NoLeaf(q[1..]);
        }
      } else if |q| > 1 {
        assert Child(data, q[0]) == map[];
        NoLeaf(q[1..]);
      }
    }
  }

  // ----- the history of a tree -----

  /** One leaf written: where, what, and where it came from. */
  datatype Write = Write(path: Path, value: Value, origin: Origin)

  /** The leaves that stand after a history: each write takes away what stood
      at its path, above it and below it. */
  ghost function Live(ws: seq<Write>): map<Path, Write> {
    if ws == [] then map[]
    else
      var front, w := Live(ws[..|ws| - 1]), ws[|ws| - 1];
      (map q | q in front && !Comparable(w.path, q) :: front[q])[w.path := w]
  }

  lemma {:induction false} LiveMore(ws: seq<Write>, w: Write)
    ensures Live(ws + [w]) == (map q | q in Live(ws) && !Comparable(w.path, q) :: Live(ws)[q])[w.path := w]
  {
    assert (ws + [w])[..|ws|] == ws;
  }

  /** Write i stands: no later one was comparable. */
  ghost predicate Stands(ws: seq<Write>, i: nat)
    requires i < |ws|
  {
    forall j :: i < j < |ws| ==> !Comparable(ws[j].path, ws[i].path)
  }

  /** The last comparable write wins, and nothing else stands. */
  lemma {:induction false} LastComparableWins(ws: seq<Write>, p: Path)
    ensures p in Live(ws) <==> exists i :: 0 <= i < |ws| && ws[i].path == p && Stands(ws, i)
    ensures p in Live(ws) ==> exists i :: 0 <= i < |ws| && ws[i] == Live(ws)[p] && ws[i].path == p && Stands(ws, i)
  {
    if ws != [] {
      var last := |ws| - 1;
      var front, w := ws[..last], ws[last];
      LastComparableWins(front, p);
      if p == w.path {
        assert Stands(ws, last);
      } else if p in Live(ws) {
        var i :| 0 <= i < |front| && front[i] == Live(front)[p] && front[i].path == p && Stands(front, i);
        StandsLonger(ws, i);
      } else if i :| 0 <= i < |ws| && ws[i].path == p && Stands(ws, i) {
        StandsBefore(ws, i);
      }
    }
  }

  lemma {:induction false} StandsLonger(ws: seq<Write>, i: nat)
    requires i < |ws| - 1 && Stands(ws[..|ws| - 1], i) && !Comparable(ws[|ws| - 1].path, ws[i].path)
    ensures Stands(ws, i)
  {
    forall j | i < j < |ws| ensures !Comparable(ws[j].path, ws[i].path) {
      if j < |ws| - 1 {
        assert ws[..|ws| - 1][j] == ws[j];
      }
    }
  }

  lemma {:induction false} StandsBefore(ws: seq<Write>, i: nat)
    requires i < |ws| - 1 && Stands(ws, i)
    ensures Stands(ws[..|ws| - 1], i) && !Comparable(ws[|ws| - 1].path, ws[i].path)
    ensures ws[..|ws| - 1][i] == ws[i]
  {
  }

  lemma {:induction false} LivePath(ws: seq<Write>, p: Path)
    requires p in Live(ws)
    ensures Live(ws)[p].path == p && exists i :: 0 <= i < |ws| && ws[i] == Live(ws)[p]
  {
    LastComparableWins(ws, p);
  }

  function Dotted(p: Path): string {
    Join(p, ".")
  }

  /** Different paths join to different dotted paths. */
  ghost predicate DistinctJoins(ws: seq<Write>) {
    forall i, j :: 0 <= i < |ws| && 0 <= j < |ws| && Dotted(ws[i].path) == Dotted(ws[j].path) ==>
                     ws[i].path == ws[j].path
  }

  // ----- the tree and its table of origins -----

  /** The tree holds exactly the leaves that stand. */
  ghost predicate HoldsLeaves(data: Data, ws: seq<Write>) {
    forall q :: LeafAt(data, q) == if q in Live(ws) then Some(Live(ws)[q].value) else None
  }

  /** What the table says of one path. */
  ghost predicate Records(origins: map<string, Origin>, keys: map<string, Path>, q: Path, origin: Origin) {
    Dotted(q) in keys && keys[Dotted(q)] == q && Dotted(q) in origins && origins[Dotted(q)] == origin
  }

  /** The table of origins holds exactly the paths of those leaves, and says
      of each where its value came from. */
  ghost predicate HoldsOrigins(origins: map<string, Origin>, keys: map<string, Path>, ws: seq<Write>) {
    && origins.Keys == keys.Keys
    && (forall q :: q in Live(ws) ==> Records(origins, keys, q, Live(ws)[q].origin))
    && (forall s :: s in keys ==> keys[s] in Live(ws) && Dotted(keys[s]) == s)
  }

  /** The table without the paths comparable with p. */
  ghost predicate Dropped(origins: map<string, Origin>, keys: map<string, Path>, p: Path,
                          origins': map<string, Origin>, keys': map<string, Path>) {
    && origins'.Keys == keys'.Keys
    && (forall s :: s in keys' <==> s in keys && !Comparable(p, keys[s]))
    && (forall s :: s in keys' ==> keys'[s] == keys[s] && s in origins && origins'[s] == origins[s])
  }

  lemma {:induction false} LeafWritten(data: Data, ws: seq<Write>, w: Write)
    requires HoldsLeaves(data, ws) && w.path != [] && !w.value.Section?
    ensures HoldsLeaves(SetAt(data, w.path, w.value), ws + [w])
  {
    LiveMore(ws, w);
    forall q ensures LeafAt(SetAt(data, w.path, w.value), q)
                  == if q in Live(ws + [w]) then Some(Live(ws + [w])[q].value) else None
    {
      SetLeaves(data, w.path, w.value, q);
    }
  }

  /** A history is longer by one write whose path joins like no other path. */
  lemma {:induction false} JoinsLikeNoOther(ws: seq<Write>, w: Write, q: Path)
    requires DistinctJoins(ws + [w]) && q in Live(ws) && Dotted(q) == Dotted(w.path)
    ensures q == w.path
  {
    LivePath(ws, q);
    var i :| 0 <= i < |ws| && ws[i] == Live(ws)[q];
    assert (ws + [w])[i] == ws[i] && (ws + [w])[|ws|] == w;
  }

  /** What was recorded of a path that is not comparable with one written still is. */
  lemma {:induction false} RecordStays(origins: map<string, Origin>, keys: map<string, Path>, ws: seq<Write>, w: Write,
                                       origins': map<string, Origin>, keys': map<string, Path>, q: Path)
    requires HoldsOrigins(origins, keys, ws) && DistinctJoins(ws + [w])
    requires Dropped(origins, keys, w.path, origins', keys')
    requires q in Live(ws) && !Comparable(w.path, q)
    ensures Records(origins'[Dotted(w.path) := w.origin], keys'[Dotted(w.path) := w.path], q, Live(ws)[q].origin)
  {
    assert Records(origins, keys, q, Live(ws)[q].origin);
    if Dotted(q) == Dotted(w.path) {
      JoinsLikeNoOther(ws, w, q);
    }
  }

  lemma {:induction false} OriginWritten(origins: map<string, Origin>, keys: map<string, Path>, ws: seq<Write>, w: Write,
                                         origins': map<string, Origin>, keys': map<string, Path>)
    requires HoldsOrigins(origins, keys, ws) && DistinctJoins(ws + [w])
    requires Dropped(origins, keys, w.path, origins', keys')
    ensures HoldsOrigins(origins'[Dotted(w.path) := w.origin], keys'[Dotted(w.path) := w.path], ws + [w])
  {
    LiveMore(ws, w);
    var o, k := origins'[Dotted(w.path) := w.origin], keys'[Dotted(w.path) := w.path];
    assert o.Keys == k.Keys;
    forall q | q in Live(ws + [w]) ensures Records(o, k, q, Live(ws + [w])[q].origin) {
      if q != w.path {
        RecordStays(origins, keys, ws, w, origins', keys', q);
      }
    }
    forall s | s in k ensures k[s] in Live(ws + [w]) && Dotted(k[s]) == s {
      if s != Dotted(w.path) {
        assert keys[s] in Live(ws) && !Comparable(w.path, keys[s]);
      }
    }
  }

  /** When nothing was replaced there is nothing to drop but the path itself. */
  lemma {:induction false} NothingToDrop(data: Data, origins: map<string, Origin>, keys: map<string, Path>, ws: seq<Write>, w: Write)
    requires HoldsLeaves(data, ws) && HoldsOrigins(origins, keys, ws)
    requires w.path != [] && !Replaces(data, w.path)
    ensures forall s :: s in keys && s != Dotted(w.path) ==> !Comparable(w.path, keys[s])
  {
    forall s | s in keys && s != Dotted(w.path) ensures !Comparable(w.path, keys[s]) {
      var q := keys[s];
      assert q in Live(ws) && LeafAt(data, q) == Some(Live(ws)[q].value);
      if Comparable(w.path, q) {
        NothingReplaced(data, w.path, q);
      }
    }
  }

  lemma {:induction false} OriginOverwritten(data: Data, origins: map<string, Origin>, keys: map<string, Path>, ws: seq<Write>, w: Write)
    requires HoldsLeaves(data, ws) && HoldsOrigins(origins, keys, ws) && DistinctJoins(ws + [w])
    requires w.path != [] && !Replaces(data, w.path)
    ensures HoldsOrigins(origins[Dotted(w.path) := w.origin], keys[Dotted(w.path) := w.path], ws + [w])
  {
    var s := Dotted(w.path);
    DropItself(data, origins, keys, ws, w);
    OriginWritten(origins, keys, ws, w, origins - {s}, keys - {s});
    RemoveThenPut(origins, s, w.origin);
    RemoveThenPut(keys, s, w.path);
  }

  lemma {:induction false} DropItself(data: Data, origins: map<string, Origin>, keys: map<string, Path>, ws: seq<Write>, w: Write)
    requires HoldsLeaves(data, ws) && HoldsOrigins(origins, keys, ws) && DistinctJoins(ws + [w])
    requires w.path != [] && !Replaces(data, w.path)
    ensures Dropped(origins, keys, w.path, origins - {Dotted(w.path)}, keys - {Dotted(w.path)})
  {
    NothingToDrop(data, origins, keys, ws, w);
    var s := Dotted(w.path);
    if s in keys {
      assert keys[s] in Live(ws);
      JoinsLikeNoOther(ws, w, keys[s]);
    }
  }

  lemma {:induction false} RemoveThenPut<V>(m: map<string, V>, k: string, v: V)
    ensures (m - {k})[k := v] == m[k := v]
  {
  }
}
