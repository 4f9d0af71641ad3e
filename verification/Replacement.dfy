/** Putting the current keys of hosts in place of the old ones, for all hosts at
    once (internal/hostkeys/hostkeys.go). */
module Replacement {
  import opened Text
  import opened Patterns
  import opened Removal

  /** A key carries the notes written above the old one, unless it has its own. */
  function WithNotes(e: Entry, notes: seq<string>): Entry {
    if e.notes == [] then e.(notes := notes) else e
  }

  // ----- adding one key -----

  /** An entry that a new key of the same host and type replaces. */
  predicate Superseded(hash: HashMatch, existing: Entry, e: Entry) {
    && existing.IsHostKey()
    && existing.typ == e.typ
    && |existing.hosts| == 1
    && |e.hosts| > 0
    && Names(hash, existing.hosts[0], e.hosts[0])
  }

  /** `Add`: the first entry superseded is replaced in its place. */
  function Added(hash: HashMatch, entries: seq<Entry>, e: Entry): seq<Entry> {
    if entries == [] then [e]
    else if Superseded(hash, entries[0], e) then [WithNotes(e, entries[0].notes)] + entries[1..]
    else [entries[0]] + Added(hash, entries[1..], e)
  }

  lemma {:induction false} AddedKeepsMarked(hash: HashMatch, entries: seq<Entry>, e: Entry)
    requires e.IsHostKey()
    ensures Marked(Added(hash, entries, e)) == Marked(entries)
  {
    if entries != [] && !Superseded(hash, entries[0], e) {
      AddedKeepsMarked(hash, entries[1..], e);
    }
  }

  lemma {:induction false} AddedReplaces(hash: HashMatch, entries: seq<Entry>, e: Entry, i: nat)
    requires i < |entries| && Superseded(hash, entries[i], e)
    requires forall j :: 0 <= j < i ==> !Superseded(hash, entries[j], e)
    ensures Added(hash, entries, e) == entries[i := WithNotes(e, entries[i].notes)]
  {
    if i > 0 {
      AddedReplaces(hash, entries[1..], e, i - 1);
    }
  }

  lemma {:induction false} AddedAppends(hash: HashMatch, entries: seq<Entry>, e: Entry)
    requires forall j :: 0 <= j < |entries| ==> !Superseded(hash, entries[j], e)
    ensures Added(hash, entries, e) == entries + [e]
  {
    if entries != [] {
      AddedAppends(hash, entries[1..], e);
    }
  }

  /** The lines a new key takes the place of: a host key of its type whose only
      pattern names its host. */
  ghost function InItsPlace(hash: HashMatch, e: Entry): Entry -> bool {
    (x: Entry) =>
      && x.marker == "" && x.typ == e.typ && |x.hosts| == 1 && e.hosts != []
      && Names(hash, x.hosts[0], e.hosts[0])
  }

  /** One key added takes the place of the first such line, with its notes when it
      has none, and goes to the end when there is none. All else stays. */
  lemma {:induction false} AddedIs(hash: HashMatch, entries: seq<Entry>, e: Entry)
    ensures forall k :: 0 <= k < |entries| && InItsPlace(hash, e)(entries[k])
                        && (forall j :: 0 <= j < k ==> !InItsPlace(hash, e)(entries[j])) ==>
                          Added(hash, entries, e)
                          == entries[k := if e.notes == [] then e.(notes := entries[k].notes) else e]
    ensures (forall k :: 0 <= k < |entries| ==> !InItsPlace(hash, e)(entries[k])) ==>
              Added(hash, entries, e) == entries + [e]
  {
    assert forall k :: 0 <= k < |entries| ==> (InItsPlace(hash, e)(entries[k]) <==> Superseded(hash, entries[k], e));
    forall k | 0 <= k < |entries| && InItsPlace(hash, e)(entries[k])
               && (forall j :: 0 <= j < k ==> !InItsPlace(hash, e)(entries[j]))
      ensures Added(hash, entries, e) == entries[k := if e.notes == [] then e.(notes := entries[k].notes) else e]
    {
      AddedReplaces(hash, entries, e, k);
    }
    if forall k :: 0 <= k < |entries| ==> !InItsPlace(hash, e)(entries[k]) {
      AddedAppends(hash, entries, e);
    }
  }

  lemma {:induction false} AddedSize(hash: HashMatch, entries: seq<Entry>, e: Entry)
    ensures |entries| <= |Added(hash, entries, e)|
  {
    if entries != [] && !Superseded(hash, entries[0], e) {
      AddedSize(hash, entries[1..], e);
    }
  }

  // ----- putting keys in -----

  type Slot = (string, string)

  /** The entries being built, and where the key of each listed host and type
      was added. */
  datatype Placing = Placing(entries: seq<Entry>, added: map<Slot, nat>)
  {
    ghost predicate Valid() {
      forall slot :: slot in added ==> added[slot] < |entries|
    }
  }

  /** The name a key is filed under, and its type. */
  function SlotOf(e: Entry): Slot
    requires e.hosts != []
  {
    (ToLower(e.hosts[0]), e.typ)
  }

  function PutKey(hash: HashMatch, listed: set<string>, st: Placing, e: Entry): (r: Placing)
    requires st.Valid()
    ensures r.Valid()
  {
    if e.hosts == [] then
      Placing(st.entries + [e], st.added)
    else if SlotOf(e).0 !in listed then
      AddedSize(hash, st.entries, e);
      Placing(Added(hash, st.entries, e), st.added)
    else if SlotOf(e) in st.added then
      var k := st.added[SlotOf(e)];
      Placing(st.entries[k := WithNotes(e, st.entries[k].notes)], st.added)
    else
      Placing(st.entries + [e], st.added[SlotOf(e) := |st.entries|])
  }

  function PutKeys(hash: HashMatch, listed: set<string>, st: Placing, keys: seq<Entry>): (r: Placing)
    requires st.Valid()
    ensures r.Valid()
    decreases |keys|
  {
    if keys == [] then st
    else PutKeys(hash, listed, PutKey(hash, listed, st, keys[0]), keys[1..])
  }

  /** The keys of a host, the first with the notes found above the old ones. */
  function Noted(keys: seq<Entry>, notes: seq<string>): seq<Entry> {
    if keys == [] then [] else [WithNotes(keys[0], notes)] + keys[1..]
  }

  // ----- all hosts at once -----

  predicate SameHost(a: string, b: string) {
    ToLower(a) == ToLower(b)
  }

  function FirstSpelling(hosts: seq<string>, i: nat): (k: nat)
    requires i < |hosts|
    ensures k <= i && SameHost(hosts[k], hosts[i])
    ensures forall j :: 0 <= j < k ==> !SameHost(hosts[j], hosts[i])
  {
    FirstSpellingFrom(hosts, i, 0)
  }

  function FirstSpellingFrom(hosts: seq<string>, i: nat, from: nat): (k: nat)
    requires from <= i < |hosts|
    requires forall j :: 0 <= j < from ==> !SameHost(hosts[j], hosts[i])
    ensures from <= k <= i && SameHost(hosts[k], hosts[i])
    ensures forall j :: 0 <= j < k ==> !SameHost(hosts[j], hosts[i])
    decreases i - from
  {
    if SameHost(hosts[from], hosts[i]) then from else FirstSpellingFrom(hosts, i, from + 1)
  }

  predicate LastSpelling(hosts: seq<string>, i: nat)
    requires i < |hosts|
  {
    forall j :: i < j < |hosts| ==> !SameHost(hosts[j], hosts[i])
  }

  function Listed(hosts: seq<string>): set<string> {
    set h | h in hosts :: ToLower(h)
  }

  /** The file after the keys of the first n hosts were put in. Of a host given
      twice the keys given last are, with the notes the first removal found. */
  function Placed(hash: HashMatch, entries: seq<Entry>, hosts: seq<string>, keys: string -> seq<Entry>, n: nat): (r: Placing)
    requires n <= |hosts|
    ensures r.Valid()
  {
    if n == 0 then Placing(Remaining(hash, entries, hosts), map[])
    else if !LastSpelling(hosts, n - 1) then Placed(hash, entries, hosts, keys, n - 1)
    else
      var notes := NotesAt(hash, entries, hosts, FirstSpelling(hosts, n - 1));
      PutKeys(hash, Listed(hosts), Placed(hash, entries, hosts, keys, n - 1), Noted(keys(hosts[n - 1]), notes))
  }

  lemma {:induction false} PlacedNext(hash: HashMatch, entries: seq<Entry>, hosts: seq<string>, keys: string -> seq<Entry>, i: nat)
    requires i < |hosts|
    ensures Placed(hash, entries, hosts, keys, i + 1)
            == if !LastSpelling(hosts, i) then Placed(hash, entries, hosts, keys, i)
               else PutKeys(hash, Listed(hosts), Placed(hash, entries, hosts, keys, i),
                            Noted(keys(hosts[i]), NotesAt(hash, entries, hosts, FirstSpelling(hosts, i))))
  {
  }

  function ReplacedAll(hash: HashMatch, entries: seq<Entry>, hosts: seq<string>, keys: string -> seq<Entry>): seq<Entry> {
    Placed(hash, entries, hosts, keys, |hosts|).entries
  }

  /** `Replace` of one host after another. */
  function ReplacedOneByOne(hash: HashMatch, entries: seq<Entry>, hosts: seq<string>, keys: string -> seq<Entry>): seq<Entry>
    decreases |hosts|
  {
    if hosts == [] then entries
    else ReplacedOneByOne(hash, ReplacedAll(hash, entries, hosts[..1], keys), hosts[1..], keys)
  }

  // ----- revocations and authorities stay -----

  predicate AllHostKeys(es: seq<Entry>) {
    forall e :: e in es ==> e.IsHostKey()
  }

  lemma {:induction false} UpdateKeepsMarked(entries: seq<Entry>, k: nat, e: Entry)
    requires k < |entries| && entries[k].IsHostKey() && e.IsHostKey()
    ensures Marked(entries[k := e]) == Marked(entries)
  {
    if k == 0 {
      assert entries[0 := e][1..] == entries[1..];
    } else {
      assert entries[k := e][1..] == entries[1..][k - 1 := e];
      UpdateKeepsMarked(entries[1..], k - 1, e);
    }
  }

  /** Where keys were added there are host keys. */
  ghost predicate SlotsHoldKeys(st: Placing)
  {
    st.Valid() && forall slot :: slot in st.added ==> st.entries[st.added[slot]].IsHostKey()
  }

  lemma {:induction false} AddedAt(hash: HashMatch, entries: seq<Entry>, e: Entry, k: nat)
    requires k < |entries| && entries[k].IsHostKey() && e.IsHostKey()
    ensures k < |Added(hash, entries, e)| && Added(hash, entries, e)[k].IsHostKey()
  {
    AddedSize(hash, entries, e);
    if !Superseded(hash, entries[0], e) && k > 0 {
      AddedAt(hash, entries[1..], e, k - 1);
    }
  }

  lemma {:induction false} PutKeyKeepsMarked(hash: HashMatch, listed: set<string>, st: Placing, e: Entry)
    requires SlotsHoldKeys(st) && e.IsHostKey()
    ensures SlotsHoldKeys(PutKey(hash, listed, st, e))
    ensures Marked(PutKey(hash, listed, st, e).entries) == Marked(st.entries)
  {
    MarkedAppend(st.entries, [e]);
    if e.hosts != [] {
      if SlotOf(e).0 !in listed {
        AddedKeepsMarked(hash, st.entries, e);
        forall slot | slot in st.added
          ensures var r := PutKey(hash, listed, st, e); r.entries[r.added[slot]].IsHostKey()
        {
          AddedAt(hash, st.entries, e, st.added[slot]);
        }
      } else if SlotOf(e) in st.added {
        var k := st.added[SlotOf(e)];
        UpdateKeepsMarked(st.entries, k, WithNotes(e, st.entries[k].notes));
      }
    }
  }

  lemma {:induction false} PutKeysKeepsMarked(hash: HashMatch, listed: set<string>, st: Placing, keys: seq<Entry>)
    requires SlotsHoldKeys(st) && AllHostKeys(keys)
    ensures SlotsHoldKeys(PutKeys(hash, listed, st, keys))
    ensures Marked(PutKeys(hash, listed, st, keys).entries) == Marked(st.entries)
    decreases |keys|
  {
    if keys != [] {
      PutKeyKeepsMarked(hash, listed, st, keys[0]);
      PutKeysKeepsMarked(hash, listed, PutKey(hash, listed, st, keys[0]), keys[1..]);
    }
  }

  lemma {:induction false} PlacedKeepsMarked(hash: HashMatch, entries: seq<Entry>, hosts: seq<string>,
                                             keys: string -> seq<Entry>, n: nat)
    requires n <= |hosts|
    requires forall i :: 0 <= i < |hosts| ==> AllHostKeys(keys(hosts[i]))
    ensures SlotsHoldKeys(Placed(hash, entries, hosts, keys, n))
    ensures Marked(Placed(hash, entries, hosts, keys, n).entries) == Marked(entries)
  {
    if n == 0 {
      RemovalKeepsMarked(hash, entries, hosts);
    } else {
      PlacedKeepsMarked(hash, entries, hosts, keys, n - 1);
      if LastSpelling(hosts, n - 1) {
        var own := keys(hosts[n - 1]);
        var noted := Noted(own, NotesAt(hash, entries, hosts, FirstSpelling(hosts, n - 1)));
        forall e | e in noted ensures e.IsHostKey() {
          assert own[0] in own;
        }
        PutKeysKeepsMarked(hash, Listed(hosts), Placed(hash, entries, hosts, keys, n - 1), noted);
      }
    }
  }

  /** Replacing host keys, whatever the hosts, touches no revocation and no
      certificate authority. */
  lemma {:induction false} ReplacingKeepsMarked(hash: HashMatch, entries: seq<Entry>, hosts: seq<string>, keys: string -> seq<Entry>)
    requires forall i :: 0 <= i < |hosts| ==> AllHostKeys(keys(hosts[i]))
    ensures Marked(ReplacedAll(hash, entries, hosts, keys)) == Marked(entries)
  {
    PlacedKeepsMarked(hash, entries, hosts, keys, |hosts|);
  }

  // ----- the keys of one host -----

  /** Every key is filed under the host, or under nothing. */
  predicate FiledUnder(es: seq<Entry>, host: string) {
    forall e :: e in es && e.hosts != [] ==> SameHost(e.hosts[0], host)
  }

  /** No host key has a pattern that names one of the hosts. */
  predicate Apart(hash: HashMatch, es: seq<Entry>, hosts: seq<string>) {
    forall e, p :: e in es && e.IsHostKey() && p in e.hosts ==> !NamedBy(hash, p, hosts)
  }

  /** The keys of each host name no other host of the list. */
  predicate NameOnlyTheirs(hash: HashMatch, hosts: seq<string>, keys: string -> seq<Entry>) {
    forall i, j :: 0 <= i < |hosts| && 0 <= j < |hosts| && !SameHost(hosts[i], hosts[j]) ==>
                     Apart(hash, keys(hosts[i]), [hosts[j]])
  }

  /** The keys of one host alone, as they are filed. */
  function Block(hash: HashMatch, host: string, keys: seq<Entry>): seq<Entry> {
    PutKeys(hash, {ToLower(host)}, Placing([], map[]), keys).entries
  }

  /** `st` is what `alone` is, under the entries of `base` and with the slots
      of other hosts beside its own. */
  ghost predicate Stacked(st: Placing, base: seq<Entry>, alone: Placing, host: string) {
    && st.Valid() && alone.Valid()
    && st.entries == base + alone.entries
    && (forall slot: Slot :: slot.0 == ToLower(host) ==>
                         (slot in st.added <==> slot in alone.added)
                         && (slot in alone.added ==> st.added[slot] == |base| + alone.added[slot]))
  }

  lemma {:induction false} PutKeyStacked(hash: HashMatch, listed: set<string>, st: Placing, base: seq<Entry>, alone: Placing,
                      host: string, e: Entry)
    requires Stacked(st, base, alone, host) && ToLower(host) in listed
    requires e.hosts != [] ==> SameHost(e.hosts[0], host)
    ensures Stacked(PutKey(hash, listed, st, e), base, PutKey(hash, {ToLower(host)}, alone, e), host)
    ensures forall slot: Slot :: slot.0 != ToLower(host) ==>
                             (slot in PutKey(hash, listed, st, e).added <==> slot in st.added)
  {
    var r, a := PutKey(hash, listed, st, e), PutKey(hash, {ToLower(host)}, alone, e);
    if e.hosts != [] && SlotOf(e) in st.added {
      var k := alone.added[SlotOf(e)];
      assert r.entries == base + a.entries;
    } else {
      assert (base + alone.entries) + [e] == base + (alone.entries + [e]);
    }
  }

  lemma {:induction false} PutKeysStacked(hash: HashMatch, listed: set<string>, st: Placing, base: seq<Entry>,
                                          alone: Placing, host: string, keys: seq<Entry>)
    requires Stacked(st, base, alone, host) && ToLower(host) in listed
    requires FiledUnder(keys, host)
    ensures PutKeys(hash, listed, st, keys).entries
            == base + PutKeys(hash, {ToLower(host)}, alone, keys).entries
    ensures forall slot: Slot :: slot.0 != ToLower(host) ==>
                             (slot in PutKeys(hash, listed, st, keys).added <==> slot in st.added)
    decreases |keys|
  {
    if keys != [] {
      assert keys[0] in keys;
      PutKeyStacked(hash, listed, st, base, alone, host, keys[0]);
      PutKeysStacked(hash, listed, PutKey(hash, listed, st, keys[0]), base,
                     PutKey(hash, {ToLower(host)}, alone, keys[0]), host, keys[1..]);
    }
  }

  lemma {:induction false} ApartUntouched(hash: HashMatch, es: seq<Entry>, host: string)
    requires Apart(hash, es, [host])
    ensures Remaining(hash, es, [host]) == es
    ensures NotesAt(hash, es, [host], 0) == []
  {
    if es != [] {
      var e := es[0];
      assert e in es;
      if e.IsHostKey() {
        RestUntouched(hash, e.hosts, [host]);
        assert [host][..1] == [host];
        forall p | p in e.hosts ensures !Names(hash, p, host) {
          assert !NamedBy(hash, p, [host]);
          assert [host][0] == host;
        }
        assert !Hits(hash, e.hosts, [host], 0);
      }
      ApartUntouched(hash, es[1..], host);
    }
  }

  /** The entries of a block are the host's keys, with or without notes. */
  ghost predicate PatternsFrom(es: seq<Entry>, keys: seq<Entry>) {
    forall e :: e in es ==> exists k :: k in keys && k.hosts == e.hosts && k.marker == e.marker
  }

  lemma {:induction false} PutKeysPatterns(hash: HashMatch, host: string, st: Placing, keys: seq<Entry>, all: seq<Entry>)
    requires st.Valid() && PatternsFrom(st.entries, all)
    requires FiledUnder(keys, host)
    requires forall k :: k in keys ==> k in all
    ensures PatternsFrom(PutKeys(hash, {ToLower(host)}, st, keys).entries, all)
    decreases |keys|
  {
    if keys != [] {
      var e := keys[0];
      assert e in keys;
      PutKeysPatterns(hash, host, PutKey(hash, {ToLower(host)}, st, e), keys[1..], all);
    }
  }

  lemma {:induction false} NotedPatterns(keys: seq<Entry>, notes: seq<string>)
    ensures PatternsFrom(Noted(keys, notes), keys)
    ensures forall host :: FiledUnder(keys, host) ==> FiledUnder(Noted(keys, notes), host)
  {
    if keys != [] {
      assert keys[0] in keys;
    }
  }

  /** The keys of host i as they are filed, under the notes found above the old
      ones. */
  function BlockUnder(hash: HashMatch, hosts: seq<string>, keys: string -> seq<Entry>, i: nat, notes: seq<string>): seq<Entry>
    requires i < |hosts|
  {
    Block(hash, hosts[i], Noted(keys(hosts[i]), notes))
  }

  lemma {:induction false} BlockApart(hash: HashMatch, hosts: seq<string>, keys: string -> seq<Entry>, i: nat, j: nat,
                                      notes: seq<string>)
    requires i < |hosts| && j < |hosts| && !SameHost(hosts[i], hosts[j])
    requires FiledUnder(keys(hosts[i]), hosts[i]) && NameOnlyTheirs(hash, hosts, keys)
    ensures Apart(hash, BlockUnder(hash, hosts, keys, i, notes), [hosts[j]])
  {
    var own := keys(hosts[i]);
    var noted := Noted(own, notes);
    NotedPatterns(own, notes);
    PutKeysPatterns(hash, hosts[i], Placing([], map[]), noted, noted);
    forall e, p | e in BlockUnder(hash, hosts, keys, i, notes) && e.IsHostKey() && p in e.hosts
      ensures !NamedBy(hash, p, [hosts[j]])
    {
      var k :| k in noted && k.hosts == e.hosts && k.marker == e.marker;
      var k' :| k' in own && k'.hosts == k.hosts && k'.marker == k.marker;
      assert Apart(hash, own, [hosts[j]]);
    }
  }

  // ----- all at once, block by block -----

  /** All at once the notes are those that were above the keys the file held when
      the host was first given. */
  function BlockOf(hash: HashMatch, entries: seq<Entry>, hosts: seq<string>, keys: string -> seq<Entry>, i: nat): seq<Entry>
    requires i < |hosts|
  {
    BlockUnder(hash, hosts, keys, i, NotesAt(hash, entries, hosts, FirstSpelling(hosts, i)))
  }

  /** The blocks of the first m hosts: of a host given twice, that of the last
      time. */
  function Blocks(hash: HashMatch, entries: seq<Entry>, hosts: seq<string>, keys: string -> seq<Entry>, m: nat): seq<Entry>
    requires m <= |hosts|
  {
    if m == 0 then []
    else
      Blocks(hash, entries, hosts, keys, m - 1)
      + if LastSpelling(hosts, m - 1) then BlockOf(hash, entries, hosts, keys, m - 1) else []
  }

  /** No key was added yet for the hosts still to come. */
  ghost predicate Free(st: Placing, hosts: seq<string>, i: nat) {
    forall slot: Slot, j :: slot in st.added && i <= j < |hosts| && LastSpelling(hosts, j) ==> slot.0 != ToLower(hosts[j])
  }

  lemma {:induction false} PutHost(hash: HashMatch, entries: seq<Entry>, hosts: seq<string>, keys: string -> seq<Entry>,
                i: nat, st: Placing)
    requires i < |hosts| && st.Valid() && LastSpelling(hosts, i)
    requires FiledUnder(keys(hosts[i]), hosts[i])
    requires Free(st, hosts, i)
    ensures var notes := NotesAt(hash, entries, hosts, FirstSpelling(hosts, i));
            var next := PutKeys(hash, Listed(hosts), st, Noted(keys(hosts[i]), notes));
            && next.entries == st.entries + BlockOf(hash, entries, hosts, keys, i)
            && Free(next, hosts, i + 1)
  {
    var h := hosts[i];
    assert h in hosts;
    var notes := NotesAt(hash, entries, hosts, FirstSpelling(hosts, i));
    NotedPatterns(keys(h), notes);
    PutKeysStacked(hash, Listed(hosts), st, st.entries, Placing([], map[]), h, Noted(keys(h), notes));
    assert forall j :: i < j < |hosts| ==> ToLower(hosts[j]) != ToLower(h);
  }

  ghost predicate Filed(hosts: seq<string>, keys: string -> seq<Entry>) {
    forall i :: 0 <= i < |hosts| ==> FiledUnder(keys(hosts[i]), hosts[i])
  }

  /** The file after the keys of the first n hosts were put in is what was
      left of it and their blocks. */
  ghost predicate InBlocks(hash: HashMatch, entries: seq<Entry>, hosts: seq<string>, keys: string -> seq<Entry>, n: nat)
    requires n <= |hosts|
  {
    var st := Placed(hash, entries, hosts, keys, n);
    && Free(st, hosts, n)
    && st.entries == Remaining(hash, entries, hosts) + Blocks(hash, entries, hosts, keys, n)
  }

  lemma {:induction false} InBlocksFirst(hash: HashMatch, entries: seq<Entry>, hosts: seq<string>, keys: string -> seq<Entry>)
    ensures InBlocks(hash, entries, hosts, keys, 0)
  {
    assert Blocks(hash, entries, hosts, keys, 0) == [];
    assert Placed(hash, entries, hosts, keys, 0) == Placing(Remaining(hash, entries, hosts), map[]);
  }

  lemma {:induction false} InBlocksPut(hash: HashMatch, entries: seq<Entry>, hosts: seq<string>, keys: string -> seq<Entry>, n: nat)
    requires 0 < n <= |hosts| && Filed(hosts, keys) && LastSpelling(hosts, n - 1)
    requires InBlocks(hash, entries, hosts, keys, n - 1)
    ensures InBlocks(hash, entries, hosts, keys, n)
  {
    PutHost(hash, entries, hosts, keys, n - 1, Placed(hash, entries, hosts, keys, n - 1));
    Assoc(Remaining(hash, entries, hosts), Blocks(hash, entries, hosts, keys, n - 1),
          BlockOf(hash, entries, hosts, keys, n - 1));
  }

  lemma {:induction false} InBlocksSkip(hash: HashMatch, entries: seq<Entry>, hosts: seq<string>, keys: string -> seq<Entry>, n: nat)
    requires 0 < n <= |hosts| && !LastSpelling(hosts, n - 1)
    requires InBlocks(hash, entries, hosts, keys, n - 1)
    ensures InBlocks(hash, entries, hosts, keys, n)
  {
    var before := Blocks(hash, entries, hosts, keys, n - 1);
    assert before + [] == before;
  }

  lemma {:induction false} InBlocksNext(hash: HashMatch, entries: seq<Entry>, hosts: seq<string>, keys: string -> seq<Entry>, n: nat)
    requires 0 < n <= |hosts| && Filed(hosts, keys)
    requires InBlocks(hash, entries, hosts, keys, n - 1)
    ensures InBlocks(hash, entries, hosts, keys, n)
  {
    if LastSpelling(hosts, n - 1) {
      InBlocksPut(hash, entries, hosts, keys, n);
    } else {
      InBlocksSkip(hash, entries, hosts, keys, n);
    }
  }

  lemma {:induction false} PlacedBlocks(hash: HashMatch, entries: seq<Entry>, hosts: seq<string>,
                                        keys: string -> seq<Entry>, n: nat)
    requires n <= |hosts| && Filed(hosts, keys)
    ensures InBlocks(hash, entries, hosts, keys, n)
  {
    if n == 0 {
      InBlocksFirst(hash, entries, hosts, keys);
    } else {
      PlacedBlocks(hash, entries, hosts, keys, n - 1);
      InBlocksNext(hash, entries, hosts, keys, n);
    }
  }

  // ----- the keys of one host -----

  lemma {:induction false} PutKeysLast(hash: HashMatch, listed: set<string>, st: Placing, keys: seq<Entry>, e: Entry)
    requires st.Valid()
    ensures PutKeys(hash, listed, st, keys + [e]) == PutKey(hash, listed, PutKeys(hash, listed, st, keys), e)
    decreases |keys|
  {
    if keys == [] {
      assert ([e])[1..] == [] && [] + [e] == [e];
    } else {
      PutKeysLast(hash, listed, PutKey(hash, listed, st, keys[0]), keys[1..], e);
      assert (keys + [e])[1..] == keys[1..] + [e];
    }
  }

  /** The key types of some keys, each once, in the order they first come. */
  function Types(keys: seq<Entry>): seq<string> {
    if keys == [] then []
    else
      var front, typ := Types(keys[..|keys| - 1]), keys[|keys| - 1].typ;
      if typ in front then front else front + [typ]
  }

  /** The last key of a type. */
  ghost predicate LastOfType(keys: seq<Entry>, typ: string, n: nat) {
    n < |keys| && keys[n].typ == typ && forall m :: n < m < |keys| ==> keys[m].typ != typ
  }

  /** The notes of a type's keys: those of the last that has any. */
  function LastNotes(keys: seq<Entry>, typ: string): seq<string> {
    if keys == [] then []
    else
      var front, last := keys[..|keys| - 1], keys[|keys| - 1];
      if last.typ == typ && last.notes != [] then last.notes else LastNotes(front, typ)
  }

  /** Of each type the last key, under the last notes given for it, where the type
      came first. */
  ghost predicate OneOfEachType(keys: seq<Entry>, block: seq<Entry>) {
    && |block| == |Types(keys)|
    && forall i :: 0 <= i < |block| ==> LatestOf(keys, Types(keys)[i], block[i])
  }

  ghost predicate LatestOf(keys: seq<Entry>, typ: string, e: Entry) {
    exists n: nat :: LastOfType(keys, typ, n) && e == keys[n].(notes := LastNotes(keys, typ))
  }

  /** The table tells where each type stands. */
  ghost predicate Tabled(st: Placing, host: string, types: seq<string>) {
    && |st.entries| == |types|
    && (forall i, j :: 0 <= i < j < |types| ==> types[i] != types[j])
    && (forall slot :: slot in st.added ==> slot.0 == ToLower(host) && slot.1 in types)
    && (forall i :: 0 <= i < |types| ==>
                      (ToLower(host), types[i]) in st.added && st.added[(ToLower(host), types[i])] == i)
  }

  lemma {:induction false} LatestMore(keys: seq<Entry>, typ: string, e: Entry, last: Entry)
    requires LatestOf(keys, typ, e)
    ensures last.typ != typ ==> LatestOf(keys + [last], typ, e)
    ensures last.typ == typ ==> LatestOf(keys + [last], typ, WithNotes(last, e.notes))
  {
    var n: nat :| LastOfType(keys, typ, n) && e == keys[n].(notes := LastNotes(keys, typ));
    var more := keys + [last];
    assert more[..|more| - 1] == keys;
    if last.typ != typ {
      assert LastOfType(more, typ, n) && more[n] == keys[n];
    } else {
      assert LastOfType(more, typ, |keys|) && more[|keys|] == last;
    }
  }

  lemma {:induction false} NoLastNotes(keys: seq<Entry>, typ: string)
    requires typ !in Types(keys)
    ensures LastNotes(keys, typ) == []
  {
    if keys != [] {
      NoLastNotes(keys[..|keys| - 1], typ);
    }
  }

  lemma {:induction false} LatestNew(keys: seq<Entry>, last: Entry)
    requires last.typ !in Types(keys)
    ensures LatestOf(keys + [last], last.typ, last)
  {
    NoLastNotes(keys, last.typ);
    var more := keys + [last];
    assert more[..|more| - 1] == keys;
    assert LastOfType(more, last.typ, |keys|) && more[|keys|] == last;
    assert last == last.(notes := LastNotes(more, last.typ));
  }

  /** The keys of a host put in where none stand yet: one of each type. */
  lemma {:induction false} BlockIs(hash: HashMatch, host: string, keys: seq<Entry>)
    requires forall e :: e in keys ==> e.hosts != [] && SameHost(e.hosts[0], host)
    ensures OneOfEachType(keys, Block(hash, host, keys))
    ensures Tabled(PutKeys(hash, {ToLower(host)}, Placing([], map[]), keys), host, Types(keys))
  {
    if keys != [] {
      var front, last, listed := keys[..|keys| - 1], keys[|keys| - 1], {ToLower(host)};
      BlockIs(hash, host, front);
      PutKeysLast(hash, listed, Placing([], map[]), front, last);
      assert front + [last] == keys && last in keys;
      BlockNext(hash, host, front, last, PutKeys(hash, listed, Placing([], map[]), front));
    }
  }

  lemma {:induction false} BlockNext(hash: HashMatch, host: string, keys: seq<Entry>, last: Entry, st: Placing)
    requires last.hosts != [] && SameHost(last.hosts[0], host) && st.Valid()
    requires OneOfEachType(keys, st.entries) && Tabled(st, host, Types(keys))
    ensures var next := PutKey(hash, {ToLower(host)}, st, last);
            OneOfEachType(keys + [last], next.entries) && Tabled(next, host, Types(keys + [last]))
  {
    assert (keys + [last])[..|keys + [last]| - 1] == keys;
    assert last.typ in Types(keys) <==> SlotOf(last) in st.added;
    if last.typ in Types(keys) {
      BlockSameTypes(hash, host, keys, last, st);
    } else {
      BlockNewType(hash, host, keys, last, st);
    }
  }

  lemma {:induction false} BlockSameTypes(hash: HashMatch, host: string, keys: seq<Entry>, last: Entry, st: Placing)
    requires last.hosts != [] && SameHost(last.hosts[0], host) && st.Valid() && SlotOf(last) in st.added
    requires OneOfEachType(keys, st.entries) && Tabled(st, host, Types(keys))
    requires Types(keys + [last]) == Types(keys)
    ensures var next := PutKey(hash, {ToLower(host)}, st, last);
            OneOfEachType(keys + [last], next.entries) && Tabled(next, host, Types(keys))
  {
    var types, next := Types(keys), PutKey(hash, {ToLower(host)}, st, last);
    var k := st.added[SlotOf(last)];
    assert types[k] == last.typ && next.entries == st.entries[k := WithNotes(last, st.entries[k].notes)];
    forall i | 0 <= i < |types| ensures LatestOf(keys + [last], types[i], next.entries[i]) {
      LatestMore(keys, types[i], st.entries[i], last);
    }
  }

  lemma {:induction false} BlockNewType(hash: HashMatch, host: string, keys: seq<Entry>, last: Entry, st: Placing)
    requires last.hosts != [] && SameHost(last.hosts[0], host) && st.Valid() && SlotOf(last) !in st.added
    requires OneOfEachType(keys, st.entries) && Tabled(st, host, Types(keys)) && last.typ !in Types(keys)
    requires Types(keys + [last]) == Types(keys) + [last.typ]
    ensures var next := PutKey(hash, {ToLower(host)}, st, last);
            OneOfEachType(keys + [last], next.entries) && Tabled(next, host, Types(keys) + [last.typ])
  {
    var types := Types(keys);
    forall i | 0 <= i < |types| ensures LatestOf(keys + [last], types[i], st.entries[i]) {
      LatestMore(keys, types[i], st.entries[i], last);
    }
    LatestNew(keys, last);
    TabledMore(st, host, types, last);
  }

  lemma {:induction false} TabledMore(st: Placing, host: string, types: seq<string>, last: Entry)
    requires last.hosts != [] && SameHost(last.hosts[0], host) && Tabled(st, host, types) && last.typ !in types
    ensures Tabled(Placing(st.entries + [last], st.added[SlotOf(last) := |st.entries|]), host, types + [last.typ])
  {
    forall i | 0 <= i < |types| ensures (types + [last.typ])[i] == types[i] != last.typ {
      assert types[i] in types;
    }
  }
}
