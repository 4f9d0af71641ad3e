/** Keys that name another host of the list: when replacing the keys of all hosts at
    once is replacing those of one host after another, for hosts each given once
    (internal/hostkeys/hostkeys.go). */
module NamingOthers {
  import opened Text
  import opened Patterns
  import opened Removal
  import opened Replacement
  import opened OneAfterAnother
  import opened RepeatedHosts

  // ----- what removing hosts leaves as it is -----

  lemma {:induction false} NoLongerAfter(hash: HashMatch, es: seq<Entry>, hosts: seq<string>)
    ensures |Remaining(hash, es, hosts)| <= |es|
  {
    if es != [] {
      NoLongerAfter(hash, es[1..], hosts);
    }
  }

  lemma {:induction false} RestWhole(hash: HashMatch, patterns: seq<string>, hosts: seq<string>)
    ensures Rest(hash, patterns, hosts) == patterns <==> forall p :: p in patterns ==> !NamedBy(hash, p, hosts)
  {
    RestIs(hash, patterns, hosts);
    if forall p :: p in patterns ==> !NamedBy(hash, p, hosts) {
      RestUntouched(hash, patterns, hosts);
    }
  }

  /** The same entries but for their notes and keys. */
  predicate SamePatterns(es: seq<Entry>, fs: seq<Entry>) {
    |es| == |fs| && forall i :: 0 <= i < |es| ==> es[i].hosts == fs[i].hosts && es[i].marker == fs[i].marker
  }

  /** Entries that a removal leaves with the patterns they had name none of the
      hosts. */
  lemma {:induction false} KeptWhole(hash: HashMatch, es: seq<Entry>, hosts: seq<string>)
    requires SamePatterns(es, Remaining(hash, es, hosts))
    ensures Apart(hash, es, hosts)
  {
    if es != [] {
      var e, rest, left := es[0], es[1..], Remaining(hash, es[1..], hosts);
      NoLongerAfter(hash, rest, hosts);
      var all := Remaining(hash, es, hosts);
      assert all == Kept(hash, e, hosts) + left && |Kept(hash, e, hosts)| == 1;
      assert all[0] == Kept(hash, e, hosts)[0] && all[0].hosts == e.hosts;
      RestWhole(hash, e.hosts, hosts);
      forall i | 0 <= i < |rest| ensures left[i] == all[i + 1] && rest[i] == es[i + 1] {
      }
      KeptWhole(hash, rest, hosts);
      assert forall x :: x in es <==> x == e || x in rest;
    }
  }

  lemma {:induction false} ApartKept(hash: HashMatch, es: seq<Entry>, hosts: seq<string>)
    requires Apart(hash, es, hosts)
    ensures Remaining(hash, es, hosts) == es
  {
    if es != [] {
      assert es[0] in es && forall x :: x in es[1..] ==> x in es;
      RestWhole(hash, es[0].hosts, hosts);
      ApartKept(hash, es[1..], hosts);
      if es[0].IsHostKey() && es[0].hosts == [] {
        assert Rest(hash, es[0].hosts, hosts) == [];
      }
    }
  }

  lemma {:induction false} ApartOne(hash: HashMatch, es: seq<Entry>, hosts: seq<string>, from: nat, j: nat)
    requires from <= j < |hosts| && Apart(hash, es, hosts[from..])
    ensures Apart(hash, es, [hosts[j]])
  {
    var later := hosts[from..];
    assert later[j - from] == hosts[j];
    forall e, p | e in es && e.IsHostKey() && p in e.hosts ensures !NamedBy(hash, p, [hosts[j]]) {
      assert !NamedBy(hash, p, later);
      NamedAlone(hash, p, hosts[j]);
    }
  }

  lemma {:induction false} ApartAll(hash: HashMatch, es: seq<Entry>, hosts: seq<string>, from: nat)
    requires from <= |hosts| && forall j :: from <= j < |hosts| ==> Apart(hash, es, [hosts[j]])
    ensures Apart(hash, es, hosts[from..])
  {
    var later := hosts[from..];
    forall e, p, k | e in es && e.IsHostKey() && p in e.hosts && 0 <= k < |later| ensures !Names(hash, p, later[k]) {
      assert later[k] == hosts[from + k] && Apart(hash, es, [hosts[from + k]]) && !NamedBy(hash, p, [hosts[from + k]]);
      NamedAlone(hash, p, hosts[from + k]);
    }
  }

  // ----- the keys of hosts each given once -----

  predicate GivenOnce(hosts: seq<string>) {
    forall i, j :: 0 <= i < j < |hosts| ==> !SameHost(hosts[i], hosts[j])
  }

  lemma {:induction false} OnlySpelling(hosts: seq<string>, i: nat)
    requires GivenOnce(hosts) && i < |hosts|
    ensures LastSpelling(hosts, i) && FirstSpelling(hosts, i) == i
  {
    assert forall j :: i < j < |hosts| ==> !SameHost(hosts[i], hosts[j]);
  }

  /** No key of a host, as they are filed, names a host given after it. */
  ghost predicate NamesNoLater(hash: HashMatch, hosts: seq<string>, keys: string -> seq<Entry>) {
    forall i: nat, j: nat :: i < j < |hosts| ==> Apart(hash, Block(hash, hosts[i], keys(hosts[i])), [hosts[j]])
  }

  /** Notes have no part in what entries name. */
  lemma {:induction false} ApartUnder(hash: HashMatch, hosts: seq<string>, keys: string -> seq<Entry>, i: nat,
                                      notes: seq<string>, others: seq<string>)
    requires i < |hosts| && Filed(hosts, keys)
    ensures Apart(hash, BlockUnder(hash, hosts, keys, i, notes), others)
            <==> Apart(hash, Block(hash, hosts[i], keys(hosts[i])), others)
    ensures SamePatterns(BlockUnder(hash, hosts, keys, i, notes), Block(hash, hosts[i], keys(hosts[i])))
  {
    var own := keys(hosts[i]);
    NotesTaken(hash, hosts[i], own, notes);
    if TakesNotes(own) {
      var block := Block(hash, hosts[i], own);
      var first := block[0].(notes := notes);
      assert Renoted(block, notes) == [first] + block[1..] && block == [block[0]] + block[1..];
    }
  }

  /** The keys of host i are left as they are filed at once. */
  ghost predicate LeftWhole(hash: HashMatch, entries: seq<Entry>, hosts: seq<string>, keys: string -> seq<Entry>, i: nat)
    requires i < |hosts|
  {
    BlockOf(hash, entries, hosts, keys, i) == Left(hash, entries, hosts, keys, |hosts|, i)
  }

  lemma {:induction false} BlocksMore(hash: HashMatch, entries: seq<Entry>, hosts: seq<string>,
                                      keys: string -> seq<Entry>, i: nat)
    requires i < |hosts| && GivenOnce(hosts)
    ensures Blocks(hash, entries, hosts, keys, i + 1)
            == Blocks(hash, entries, hosts, keys, i) + BlockOf(hash, entries, hosts, keys, i)
  {
    OnlySpelling(hosts, i);
  }

  lemma {:induction false} LeftNoLonger(hash: HashMatch, entries: seq<Entry>, hosts: seq<string>,
                                        keys: string -> seq<Entry>, i: nat)
    requires i < |hosts| && Filed(hosts, keys)
    ensures |Left(hash, entries, hosts, keys, |hosts|, i)| <= |BlockOf(hash, entries, hosts, keys, i)|
  {
    NotesTell(hash, hosts[i], keys(hosts[i]), NotesAt(hash, entries, hosts, FirstSpelling(hosts, i)),
              Carried(hash, entries, hosts, keys, i));
    NoLongerAfter(hash, Put(hash, entries, hosts, keys, i), hosts[i + 1..|hosts|]);
  }

  ghost predicate NoShorter(hash: HashMatch, entries: seq<Entry>, hosts: seq<string>, keys: string -> seq<Entry>, m: nat)
    requires m <= |hosts|
  {
    |Lefts(hash, entries, hosts, keys, |hosts|, m)| <= |Blocks(hash, entries, hosts, keys, m)|
  }

  ghost predicate AsFiled(hash: HashMatch, entries: seq<Entry>, hosts: seq<string>, keys: string -> seq<Entry>, m: nat)
    requires m <= |hosts|
  {
    Lefts(hash, entries, hosts, keys, |hosts|, m) == Blocks(hash, entries, hosts, keys, m)
  }

  lemma {:induction false} OneMoreFiled(hash: HashMatch, entries: seq<Entry>, hosts: seq<string>,
                                        keys: string -> seq<Entry>, i: nat)
    requires i < |hosts| && Filed(hosts, keys) && GivenOnce(hosts) && NoShorter(hash, entries, hosts, keys, i)
    ensures NoShorter(hash, entries, hosts, keys, i + 1)
    ensures AsFiled(hash, entries, hosts, keys, i + 1)
            <==> AsFiled(hash, entries, hosts, keys, i) && LeftWhole(hash, entries, hosts, keys, i)
  {
    LeftNoLonger(hash, entries, hosts, keys, i);
    BlocksMore(hash, entries, hosts, keys, i);
    LeftsMore(hash, entries, hosts, keys, |hosts|, i);
    SameBoth(Lefts(hash, entries, hosts, keys, |hosts|, i), Left(hash, entries, hosts, keys, |hosts|, i),
             Blocks(hash, entries, hosts, keys, i), BlockOf(hash, entries, hosts, keys, i));
  }

  ghost predicate AllWhole(hash: HashMatch, entries: seq<Entry>, hosts: seq<string>, keys: string -> seq<Entry>, m: nat)
    requires m <= |hosts|
  {
    forall i: nat :: i < m ==> LeftWhole(hash, entries, hosts, keys, i)
  }

  lemma {:induction false} AllWholeMore(hash: HashMatch, entries: seq<Entry>, hosts: seq<string>,
                                        keys: string -> seq<Entry>, i: nat)
    requires i < |hosts|
    ensures AllWhole(hash, entries, hosts, keys, i + 1)
            <==> AllWhole(hash, entries, hosts, keys, i) && LeftWhole(hash, entries, hosts, keys, i)
  {
  }

  lemma {:induction false} FiledWhenWhole(hash: HashMatch, entries: seq<Entry>, hosts: seq<string>,
                                          keys: string -> seq<Entry>)
    requires Filed(hosts, keys) && GivenOnce(hosts)
    ensures AsFiled(hash, entries, hosts, keys, |hosts|) <==> AllWhole(hash, entries, hosts, keys, |hosts|)
  {
    for m := 0 to |hosts|
      invariant NoShorter(hash, entries, hosts, keys, m)
      invariant AsFiled(hash, entries, hosts, keys, m) <==> AllWhole(hash, entries, hosts, keys, m)
    {
      OneMoreFiled(hash, entries, hosts, keys, m);
      AllWholeMore(hash, entries, hosts, keys, m);
    }
  }

  /** Keys that name no later host are found by none, and stay whole. */
  lemma {:induction false} FoundByNone(hash: HashMatch, entries: seq<Entry>, hosts: seq<string>,
                                       keys: string -> seq<Entry>, n: nat)
    requires n < |hosts| && Filed(hosts, keys) && GivenOnce(hosts) && NamesNoLater(hash, hosts, keys)
    ensures NotesAt(hash, Lefts(hash, entries, hosts, keys, n, n), [hosts[n]], 0) == []
  {
    for m := 0 to n
      invariant NotesAt(hash, Lefts(hash, entries, hosts, keys, n, m), [hosts[n]], 0) == []
    {
      LeftsMore(hash, entries, hosts, keys, n, m);
      NotesAppend(hash, Lefts(hash, entries, hosts, keys, n, m), Left(hash, entries, hosts, keys, n, m), [hosts[n]], 0);
      StaysWhole(hash, entries, hosts, keys, n, m);
      ApartUnder(hash, hosts, keys, m, Carried(hash, entries, hosts, keys, m), [hosts[n]]);
      ApartUntouched(hash, Put(hash, entries, hosts, keys, m), hosts[n]);
    }
  }

  lemma {:induction false} StaysWhole(hash: HashMatch, entries: seq<Entry>, hosts: seq<string>,
                                      keys: string -> seq<Entry>, n: nat, i: nat)
    requires i < n <= |hosts| && Filed(hosts, keys) && NamesNoLater(hash, hosts, keys)
    ensures Left(hash, entries, hosts, keys, n, i) == Put(hash, entries, hosts, keys, i)
  {
    var put, later := Put(hash, entries, hosts, keys, i), hosts[..n];
    assert hosts[i + 1..n] == later[i + 1..];
    forall j | i + 1 <= j < n ensures Apart(hash, put, [later[j]]) {
      assert Apart(hash, Block(hash, hosts[i], keys(hosts[i])), [hosts[j]]);
      ApartUnder(hash, hosts, keys, i, Carried(hash, entries, hosts, keys, i), [hosts[j]]);
    }
    ApartAll(hash, put, later, i + 1);
    ApartKept(hash, put, later[i + 1..]);
  }

  /** The keys put in for host i are filed the same at once and are not changed by the
      turns after it. */
  lemma {:induction false} SameWhole(hash: HashMatch, entries: seq<Entry>, hosts: seq<string>,
                                     keys: string -> seq<Entry>, i: nat)
    requires i < |hosts| && Filed(hosts, keys) && GivenOnce(hosts) && NamesNoLater(hash, hosts, keys)
    ensures LeftWhole(hash, entries, hosts, keys, i)
  {
    var own := NotesAt(hash, entries, hosts, i);
    OnlySpelling(hosts, i);
    FoundByNone(hash, entries, hosts, keys, i);
    assert own + [] == own;
    StaysWhole(hash, entries, hosts, keys, |hosts|, i);
  }

  lemma {:induction false} PutAsFiled(hash: HashMatch, entries: seq<Entry>, hosts: seq<string>,
                                      keys: string -> seq<Entry>, i: nat)
    requires i < |hosts| && Filed(hosts, keys)
    ensures SamePatterns(Put(hash, entries, hosts, keys, i), BlockOf(hash, entries, hosts, keys, i))
  {
    ApartUnder(hash, hosts, keys, i, Carried(hash, entries, hosts, keys, i), []);
    ApartUnder(hash, hosts, keys, i, NotesAt(hash, entries, hosts, FirstSpelling(hosts, i)), []);
  }

  lemma {:induction false} PutNamesNone(hash: HashMatch, entries: seq<Entry>, hosts: seq<string>,
                                        keys: string -> seq<Entry>, i: nat)
    requires i < |hosts| && Filed(hosts, keys) && LeftWhole(hash, entries, hosts, keys, i)
    ensures Apart(hash, Put(hash, entries, hosts, keys, i), hosts[i + 1..])
  {
    PutAsFiled(hash, entries, hosts, keys, i);
    assert hosts[i + 1..|hosts|] == hosts[i + 1..];
    KeptWhole(hash, Put(hash, entries, hosts, keys, i), hosts[i + 1..]);
  }

  /** Keys that both ways leave the same name no later host. */
  lemma {:induction false} WholeNamesNone(hash: HashMatch, entries: seq<Entry>, hosts: seq<string>,
                                          keys: string -> seq<Entry>, i: nat)
    requires i < |hosts| && Filed(hosts, keys) && LeftWhole(hash, entries, hosts, keys, i)
    ensures Apart(hash, Block(hash, hosts[i], keys(hosts[i])), hosts[i + 1..])
  {
    PutNamesNone(hash, entries, hosts, keys, i);
    ApartUnder(hash, hosts, keys, i, Carried(hash, entries, hosts, keys, i), hosts[i + 1..]);
  }

  /** For hosts each given once and keys filed under their host, whatever else they name:
      on every file the two ways leave the same exactly when no key names a host that is
      given after its own. */
  lemma {:induction false} HostsGivenOnce(hash: HashMatch, entries: seq<Entry>, hosts: seq<string>,
                                          keys: string -> seq<Entry>)
    requires Filed(hosts, keys) && GivenOnce(hosts)
    ensures SameEitherWay(hash, entries, hosts, keys) <==> NamesNoLater(hash, hosts, keys)
  {
    SameWhenLeft(hash, entries, hosts, keys);
    FiledWhenWhole(hash, entries, hosts, keys);
    if NamesNoLater(hash, hosts, keys) {
      forall i: nat | i < |hosts| ensures LeftWhole(hash, entries, hosts, keys, i) {
        SameWhole(hash, entries, hosts, keys, i);
      }
    }
    if AllWhole(hash, entries, hosts, keys, |hosts|) {
      forall i: nat, j: nat | i < j < |hosts| ensures Apart(hash, Block(hash, hosts[i], keys(hosts[i])), [hosts[j]]) {
        WholeNamesNone(hash, entries, hosts, keys, i);
        ApartOne(hash, Block(hash, hosts[i], keys(hosts[i])), hosts, i + 1, j);
      }
    }
  }

  // ----- inputs that fail -----

  /** A host key line of these patterns. */
  function LineOf(hosts: seq<string>): Entry {
    Entry("", hosts, "t", "k", "", [])
  }

  /** Two hosts, of which the first has this key and the second none. */
  function OneKey(h: string, key: Entry): string -> seq<Entry> {
    (host: string) => if host == h then [key] else []
  }

  lemma {:induction false} BlockOfOne(hash: HashMatch, h: string, key: Entry)
    requires key.hosts == [] || SameHost(key.hosts[0], h)
    ensures Block(hash, h, [key]) == [key]
  {
    var listed, start := {ToLower(h)}, Placing([], map[]);
    var st := PutKey(hash, listed, start, key);
    assert [] + [key] == [key] && [key][1..] == [] && PutKeys(hash, listed, st, []) == st;
    assert PutKeys(hash, listed, start, [key]) == PutKeys(hash, listed, st, [key][1..]);
  }

  /** A key of host a that also names host b, given after it: one after another, b is
      taken off the key again; all at once, it stays. Given before a, it does not
      matter. */
  lemma {:induction false} LaterTurnTakesOff(hash: HashMatch, entries: seq<Entry>, a: string, b: string)
    requires PlainName(b) && !SameHost(a, b)
    ensures !SameEitherWay(hash, entries, [a, b], OneKey(a, LineOf([a, b])))
    ensures SameEitherWay(hash, entries, [b, a], OneKey(a, LineOf([a, b])))
  {
    var key := LineOf([a, b]);
    var keys := OneKey(a, key);
    assert keys(b) == [] && keys(a) == [key];
    BlockOfOne(hash, a, key);
    HostsGivenOnce(hash, entries, [a, b], keys);
    HostsGivenOnce(hash, entries, [b, a], keys);
    NamedAlone(hash, b, b);
    assert key in [key] && b in key.hosts;
    assert !Apart(hash, Block(hash, [a, b][0], keys([a, b][0])), [[a, b][1]]);
    assert Block(hash, b, []) == [];
    assert Apart(hash, Block(hash, [b, a][0], keys([b, a][0])), [[b, a][1]]);
  }

  /** A key of host a filed under a host that is not on the list, and a line that names
      that one and host b. */
  ghost predicate FiledElsewhere(a: string, b: string, z: string) {
    PlainName(a) && PlainName(b) && PlainName(z) && !SameHost(a, b) && !SameHost(a, z) && !SameHost(b, z)
  }

  lemma {:induction false} LineWithout(hash: HashMatch, a: string, b: string, z: string, hosts: seq<string>)
    requires FiledElsewhere(a, b, z) && hosts in {[a], [b], [a, b]}
    ensures Remaining(hash, [LineOf([z, b])], hosts) == [LineOf(if hosts == [a] then [z, b] else [z])]
    ensures Remaining(hash, [LineOf([z])], hosts) == [LineOf([z])]
    ensures NotesAt(hash, [LineOf([z, b])], hosts, 0) == []
  {
    assert !NamedBy(hash, z, hosts) && (NamedBy(hash, b, hosts) <==> hosts != [a]) by {
      assert hosts[|hosts| - 1] == if hosts == [a] then a else b;
      assert hosts != [a] ==> Names(hash, b, hosts[|hosts| - 1]);
    }
    assert [z, b][1..] == [b] && [b][1..] == [] && [z][1..] == [];
    assert Rest(hash, [b], hosts) == if hosts == [a] then [b] else [];
    assert Rest(hash, [z, b], hosts) == if hosts == [a] then [z, b] else [z];
    assert Rest(hash, [z], hosts) == [z];
    assert [LineOf([z, b])][1..] == [] && [LineOf([z])][1..] == [];
  }

  lemma {:induction false} PutElsewhere(hash: HashMatch, entries: seq<Entry>, hosts: seq<string>, key: Entry)
    requires key.hosts != [] && ToLower(key.hosts[0]) !in Listed(hosts) && key.notes == []
    ensures PutKeys(hash, Listed(hosts), Placing(entries, map[]), Noted([key], [])) == Placing(Added(hash, entries, key), map[])
  {
    assert Noted([key], []) == [key] && [key][1..] == [];
    var st := PutKey(hash, Listed(hosts), Placing(entries, map[]), key);
    assert PutKeys(hash, Listed(hosts), st, []) == st;
    assert PutKeys(hash, Listed(hosts), Placing(entries, map[]), [key]) == PutKeys(hash, Listed(hosts), st, [key][1..]);
  }

  /** What the turn of a alone makes of a file, and what both at once do. */
  lemma {:induction false} TurnOfFirst(hash: HashMatch, entries: seq<Entry>, hosts: seq<string>, a: string, key: Entry)
    requires hosts != [] && hosts[0] == a && |hosts| <= 2 && (|hosts| == 2 ==> !SameHost(hosts[1], a))
    requires key.hosts != [] && ToLower(key.hosts[0]) !in Listed(hosts) && key.notes == []
    requires NotesAt(hash, entries, hosts, 0) == []
    ensures ReplacedAll(hash, entries, hosts, OneKey(a, key)) == Added(hash, Remaining(hash, entries, hosts), key)
  {
    var keys := OneKey(a, key);
    var start := Placing(Remaining(hash, entries, hosts), map[]);
    assert Placed(hash, entries, hosts, keys, 0) == start;
    PlacedNext(hash, entries, hosts, keys, 0);
    assert LastSpelling(hosts, 0) && FirstSpelling(hosts, 0) == 0 && keys(a) == [key];
    PutElsewhere(hash, Remaining(hash, entries, hosts), hosts, key);
    if |hosts| == 2 {
      PlacedNext(hash, entries, hosts, keys, 1);
      assert keys(hosts[1]) == [];
    }
  }

  lemma {:induction false} TurnOfNone(hash: HashMatch, entries: seq<Entry>, b: string, keys: string -> seq<Entry>)
    requires keys(b) == []
    ensures ReplacedAll(hash, entries, [b], keys) == Remaining(hash, entries, [b])
  {
    assert Placed(hash, entries, [b], keys, 0) == Placing(Remaining(hash, entries, [b]), map[]);
    PlacedNext(hash, entries, [b], keys, 0);
  }

  lemma {:induction false} TwoTurns(hash: HashMatch, entries: seq<Entry>, a: string, b: string, keys: string -> seq<Entry>)
    ensures ReplacedOneByOne(hash, entries, [a, b], keys)
            == ReplacedAll(hash, ReplacedAll(hash, entries, [a], keys), [b], keys)
  {
    var hosts := [a, b];
    assert hosts[..1] == [a] && hosts[1..] == [b];
    OneByOneOfOne(hash, ReplacedAll(hash, entries, [a], keys), [b], keys);
  }

  lemma {:induction false} TakesItsPlace(hash: HashMatch, a: string, b: string, z: string)
    requires FiledElsewhere(a, b, z)
    ensures ReplacedAll(hash, [LineOf([z, b])], [a, b], OneKey(a, LineOf([z]))) == [LineOf([z])]
  {
    var key := LineOf([z]);
    LineWithout(hash, a, b, z, [a, b]);
    TurnOfFirst(hash, [LineOf([z, b])], [a, b], a, key);
    assert Superseded(hash, key, key) && [key][1..] == [] && key.(notes := []) == key;
    assert Added(hash, [key], key) == [WithNotes(key, key.notes)] + [key][1..];
  }

  lemma {:induction false} IsAppended(hash: HashMatch, a: string, b: string, z: string)
    requires FiledElsewhere(a, b, z)
    ensures ReplacedAll(hash, [LineOf([z, b])], [a], OneKey(a, LineOf([z]))) == [LineOf([z, b])] + [LineOf([z])]
  {
    var file, key := [LineOf([z, b])], LineOf([z]);
    LineWithout(hash, a, b, z, [a]);
    TurnOfFirst(hash, file, [a], a, key);
    assert !Superseded(hash, file[0], key);
    AddedAppends(hash, file, key);
  }

  /** A key filed under a host that is not on the list: all at once, it takes the place
      of a line that the turn of b leaves to that host alone; one after another, its
      turn comes before, and both stay. */
  lemma {:induction false} FiledElsewhereStays(hash: HashMatch, a: string, b: string, z: string)
    requires FiledElsewhere(a, b, z)
    ensures ReplacedAll(hash, [LineOf([z, b])], [a, b], OneKey(a, LineOf([z]))) == [LineOf([z])]
    ensures ReplacedOneByOne(hash, [LineOf([z, b])], [a, b], OneKey(a, LineOf([z]))) == [LineOf([z])] + [LineOf([z])]
  {
    var keys := OneKey(a, LineOf([z]));
    TakesItsPlace(hash, a, b, z);
    IsAppended(hash, a, b, z);
    TwoTurns(hash, [LineOf([z, b])], a, b, keys);
    assert keys(b) == [];
    TurnOfNone(hash, [LineOf([z, b])] + [LineOf([z])], b, keys);
    LineWithout(hash, a, b, z, [b]);
    RemainingAppend(hash, [LineOf([z, b])], [LineOf([z])], [b]);
  }
}
