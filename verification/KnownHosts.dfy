/** The known_hosts file as it is edited in memory, and the index that answers
    for it (internal/hostkeys/hostkeys.go). */
module KnownHosts {
  import opened Options
  import opened Text
  import opened Patterns
  import opened Removal
  import opened Replacement
  import opened KnownHostsText
  import opened Selection

  // ----- what a lookup answers -----

  ghost predicate KeyFor(hash: HashMatch, e: Entry, host: string) {
    e.IsHostKey() && Covers(hash, e.hosts, host)
  }

  ghost predicate RevokedFor(hash: HashMatch, e: Entry, host: string, key: string) {
    e.marker == REVOKED && e.key == key && Covers(hash, e.hosts, host)
  }

  /** The host keys that cover a host, in the file's order. */
  ghost function KeysFor(hash: HashMatch, entries: seq<Entry>, host: string): seq<Entry> {
    if entries == [] then []
    else
      var front, last := entries[..|entries| - 1], entries[|entries| - 1];
      KeysFor(hash, front, host) + if KeyFor(hash, last, host) then [last] else []
  }

  /** A line without a marker whose patterns cover a host. */
  ghost function HoldsKeyOf(hash: HashMatch, host: string): Entry -> bool {
    (e: Entry) => e.marker == "" && Covers(hash, e.hosts, host)
  }

  /** A lookup answers those lines, each once and in their order, whatever
      revocations and certificate authorities cover the host too. */
  lemma {:induction false} KeysForAre(hash: HashMatch, entries: seq<Entry>, host: string)
    ensures Filters(entries, KeysFor(hash, entries, host), HoldsKeyOf(hash, host))
  {
    if entries != [] {
      var front, last := entries[..|entries| - 1], entries[|entries| - 1];
      var keys := KeysFor(hash, front, host);
      KeysForAre(hash, front, host);
      FiltersLast(front, keys, HoldsKeyOf(hash, host), last);
      assert front + [last] == entries && keys + [] == keys;
    }
  }

  lemma {:induction false} FoundKeys(hash: HashMatch, entries: seq<Entry>, host: string, out: seq<Entry>)
    requires Filters(entries, out, HoldsKeyOf(hash, host))
    ensures forall e :: e in out <==> e in entries && e.marker == "" && Covers(hash, e.hosts, host)
  {
    FiltersMembers(entries, out, HoldsKeyOf(hash, host));
  }

  // ----- one pattern of a removal -----

  /** The lowered hosts of a list and the place each has first in it. */
  ghost predicate FirstPlaces(first: map<string, nat>, order: seq<string>, hosts: seq<string>) {
    && (forall h :: h in first ==>
                      && first[h] < |hosts| && ToLower(hosts[first[h]]) == h
                      && forall j :: 0 <= j < first[h] ==> ToLower(hosts[j]) != h)
    && (forall k :: 0 <= k < |hosts| ==> ToLower(hosts[k]) in first)
    && (forall i :: 0 <= i < |order| ==> order[i] in first)
    && (forall h :: h in first ==> h in order)
    && (forall i, j :: 0 <= i < j < |order| ==> first[order[i]] < first[order[j]])
  }

  /** Host k is the first of the list that a pattern names. */
  ghost predicate FirstNamed(hash: HashMatch, pattern: string, hosts: seq<string>, k: Option<nat>) {
    match k
    case None => !NamedBy(hash, pattern, hosts)
    case Some(i) => i < |hosts| && Names(hash, pattern, hosts[i]) && !NamedBy(hash, pattern, hosts[..i])
  }

  method Named(hash: HashMatch, pattern: string, first: map<string, nat>, order: seq<string>, ghost hosts: seq<string>)
    returns (k: Option<nat>)
    requires FirstPlaces(first, order, hosts)
    ensures FirstNamed(hash, pattern, hosts, k)
  {
    if Negated(pattern) || HasWildcard(pattern) {
      return None;
    }
    if Hashed(pattern) {
      for i := 0 to |order|
        invariant forall j :: 0 <= j < i ==> !hash(pattern, order[j])
      {
        if hash(pattern, order[i]) {
          assert Names(hash, pattern, hosts[first[order[i]]]);
          forall j | 0 <= j < first[order[i]] ensures !Names(hash, pattern, hosts[j]) {
            var h := ToLower(hosts[j]);
            var n :| 0 <= n < |order| && order[n] == h;
            assert first[h] <= j;
          }
          return Some(first[order[i]]);
        }
      }
      forall j | 0 <= j < |hosts| ensures !Names(hash, pattern, hosts[j]) {
        assert ToLower(hosts[j]) in order;
      }
      return None;
    }
    var lower := ToLower(pattern);
    if lower in first {
      return Some(first[lower]);
    }
    return None;
  }

  lemma {:induction false} SeenPlace(first: map<string, nat>, order: seq<string>, hosts: seq<string>, h: string)
    requires FirstPlaces(first, order, hosts) && ToLower(h) in first
    ensures FirstPlaces(first, order, hosts + [h])
  {
    var more := hosts + [h];
    assert forall k :: 0 <= k < |hosts| ==> more[k] == hosts[k];
  }

  lemma {:induction false} NewPlace(first: map<string, nat>, order: seq<string>, hosts: seq<string>, h: string)
    requires FirstPlaces(first, order, hosts) && ToLower(h) !in first
    ensures FirstPlaces(first[ToLower(h) := |hosts|], order + [ToLower(h)], hosts + [h])
  {
    var more, after, listed := hosts + [h], first[ToLower(h) := |hosts|], order + [ToLower(h)];
    assert forall k :: 0 <= k < |hosts| ==> more[k] == hosts[k];
    assert listed[|order|] == ToLower(h);
    forall x | x in after ensures x in listed {
      if x in first {
        assert x in order;
      }
    }
    forall i | 0 <= i < |order| ensures listed[i] in first && listed[i] != ToLower(h) {
      assert order[i] in first;
    }
  }

  method Places(hosts: seq<string>) returns (first: map<string, nat>, order: seq<string>)
    ensures FirstPlaces(first, order, hosts)
  {
    first, order := map[], [];
    for i := 0 to |hosts|
      invariant FirstPlaces(first, order, hosts[..i])
    {
      assert hosts[..i + 1] == hosts[..i] + [hosts[i]];
      var lower := ToLower(hosts[i]);
      if lower !in first {
        NewPlace(first, order, hosts[..i], hosts[i]);
        first := first[lower := i];
        order := order + [lower];
      } else {
        SeenPlace(first, order, hosts[..i], hosts[i]);
      }
    }
    assert hosts[..|hosts|] == hosts;
  }

  /** What scanning one line's patterns found: the hosts it names, and what
      of the line is left. */
  ghost predicate LineScanned(hash: HashMatch, patterns: seq<string>, hosts: seq<string>, hit: seq<nat>, rest: seq<string>) {
    && (forall k: nat :: k in hit <==> k < |hosts| && Hits(hash, patterns, hosts, k))
    && (forall i, j :: 0 <= i < j < |hit| ==> hit[i] != hit[j])
    && (hit == [] ==> rest == [] && forall p :: p in patterns ==> !NamedBy(hash, p, hosts))
    && (hit != [] ==> rest == Rest(hash, patterns, hosts))
  }

  lemma {:induction false} HitsAppend(hash: HashMatch, patterns: seq<string>, p: string, hosts: seq<string>, first: Option<nat>)
    requires FirstNamed(hash, p, hosts, first)
    ensures forall k: nat :: k < |hosts| ==>
                          (Hits(hash, patterns + [p], hosts, k) <==> Hits(hash, patterns, hosts, k) || first == Some(k))
  {
    forall k: nat | k < |hosts|
      ensures Hits(hash, patterns + [p], hosts, k) <==> Hits(hash, patterns, hosts, k) || first == Some(k)
    {
      assert p in patterns + [p];
      assert Names(hash, p, hosts[k]) && !NamedBy(hash, p, hosts[..k]) <==> first == Some(k) by {
        match first {
          case None =>
          case Some(i) =>
            if i < k {
              assert hosts[..k][i] == hosts[i];
            } else if k < i {
              assert hosts[..i][k] == hosts[k];
            }
        }
      }
    }
  }

  method ScanLine(hash: HashMatch, patterns: seq<string>, first: map<string, nat>, order: seq<string>,
                  ghost hosts: seq<string>)
    returns (hit: seq<nat>, rest: seq<string>)
    requires FirstPlaces(first, order, hosts)
    ensures LineScanned(hash, patterns, hosts, hit, rest)
  {
    hit, rest := [], [];
    for j := 0 to |patterns|
      invariant LineScanned(hash, patterns[..j], hosts, hit, rest)
    {
      var pattern := patterns[j];
      var k := Named(hash, pattern, first, order, hosts);
      assert patterns[..j + 1] == patterns[..j] + [pattern];
      HitsAppend(hash, patterns[..j], pattern, hosts, k);
      RestAppend(hash, patterns[..j], [pattern], hosts);
      if k.None? {
        if hit != [] {
          rest := rest + [pattern];
        }
      } else {
        assert NamedBy(hash, pattern, hosts);
        if hit == [] {
          rest := patterns[..j];
          RestUntouched(hash, patterns[..j], hosts);
        }
        if k.value !in hit {
          hit := hit + [k.value];
        }
      }
    }
    assert patterns[..|patterns|] == patterns;
  }

  method Max(s: seq<nat>) returns (m: nat)
    requires s != []
    ensures m in s && forall x :: x in s ==> x <= m
  {
    m := s[0];
    for i := 1 to |s|
      invariant m in s[..i] && forall x :: x in s[..i] ==> x <= m
    {
      assert s[..i + 1] == s[..i] + [s[i]];
      if s[i] > m {
        m := s[i];
      }
    }
    assert s[..|s|] == s;
  }

  /** A line with nothing left goes with the last of the hosts it names. */
  lemma {:induction false} GoesWithLast(hash: HashMatch, e: Entry, hosts: seq<string>, last: nat)
    requires e.IsHostKey() && Rest(hash, e.hosts, hosts) == []
    requires last < |hosts| && Hits(hash, e.hosts, hosts, last)
    requires forall n: nat :: n < |hosts| && Hits(hash, e.hosts, hosts, n) ==> n <= last
    ensures GoesWith(hash, e, hosts, last)
  {
    RestNothing(hash, e.hosts, hosts);
    forall p | p in e.hosts ensures NamedBy(hash, p, hosts[..last + 1]) {
      var n := FirstNamer(hash, p, hosts);
      assert Hits(hash, e.hosts, hosts, n);
      assert hosts[..last + 1][n] == hosts[n];
    }
    RestNothing(hash, e.hosts, hosts[..last + 1]);
  }

  lemma {:induction false} StaysBeforeLast(hash: HashMatch, e: Entry, hosts: seq<string>, last: nat, k: nat)
    requires k < last < |hosts| && Hits(hash, e.hosts, hosts, last)
    ensures !GoesWith(hash, e, hosts, k)
  {
    RestNothing(hash, e.hosts, hosts[..k + 1]);
    var p :| p in e.hosts && Names(hash, p, hosts[last]) && !NamedBy(hash, p, hosts[..last]);
    NamedByMore(hash, p, hosts, k + 1, last);
  }

  lemma {:induction false} FirstNamer(hash: HashMatch, p: string, hosts: seq<string>) returns (n: nat)
    requires NamedBy(hash, p, hosts)
    ensures FirstNamed(hash, p, hosts, Some(n))
  {
    n := 0;
    while !Names(hash, p, hosts[n])
      invariant n < |hosts| && !NamedBy(hash, p, hosts[..n])
      invariant exists k :: n <= k < |hosts| && Names(hash, p, hosts[k])
      decreases |hosts| - n
    {
      n := n + 1;
    }
  }

  lemma {:induction false} StaysWithRest(hash: HashMatch, e: Entry, hosts: seq<string>, k: nat)
    requires k < |hosts| && Rest(hash, e.hosts, hosts) != []
    ensures !GoesWith(hash, e, hosts, k)
  {
    assert hosts[..k + 1] + hosts[k + 1..] == hosts;
    if Rest(hash, e.hosts, hosts[..k + 1]) == [] {
      NothingLeftStays(hash, e.hosts, hosts[..k + 1], hosts[k + 1..]);
    }
  }

  /** What one line adds to the counts and the notes. */
  ghost predicate Credited(hash: HashMatch, e: Entry, hosts: seq<string>, counts: seq<nat>, notes: seq<seq<string>>,
                           counts': seq<nat>, notes': seq<seq<string>>)
    requires |counts| == |notes| == |hosts|
  {
    && |counts'| == |notes'| == |hosts|
    && (forall k :: 0 <= k < |hosts| ==>
                      counts'[k] == counts[k] + if e.IsHostKey() && Hits(hash, e.hosts, hosts, k) then 1 else 0)
    && (forall k :: 0 <= k < |hosts| ==>
                      notes'[k] == notes[k] + if GoesWith(hash, e, hosts, k) then e.notes else [])
  }

  /** The body of the pass: what is left of one line, and whom it counts for. */
  method RemoveLine(hash: HashMatch, e: Entry, first: map<string, nat>, order: seq<string>, ghost hosts: seq<string>,
                    counts: seq<nat>, notes: seq<seq<string>>)
    returns (left: Option<Entry>, counts': seq<nat>, notes': seq<seq<string>>)
    requires FirstPlaces(first, order, hosts) && |counts| == |notes| == |hosts|
    ensures Kept(hash, e, hosts) == if left.Some? then [left.value] else []
    ensures Credited(hash, e, hosts, counts, notes, counts', notes')
  {
    left, counts', notes' := Some(e), counts, notes;
    if !e.IsHostKey() {
      return;
    }
    var hit, rest := ScanLine(hash, e.hosts, first, order, hosts);
    if hit == [] {
      RestUntouched(hash, e.hosts, hosts);
      assert forall k: nat :: k < |hosts| ==> !Hits(hash, e.hosts, hosts, k);
      return;
    }
    assert hit[0] in hit;
    counts' := Credit(counts, hit);
    if rest == [] {
      var last := Max(hit);
      GoesWithLast(hash, e, hosts, last);
      forall k | 0 <= k < last ensures !GoesWith(hash, e, hosts, k) {
        StaysBeforeLast(hash, e, hosts, last, k);
      }
      left, notes' := None, notes[last := notes[last] + e.notes];
    } else {
      forall k | 0 <= k < |hosts| ensures !GoesWith(hash, e, hosts, k) {
        StaysWithRest(hash, e, hosts, k);
      }
      left := Some(e.(hosts := rest));
    }
  }

  // ----- the file -----

  /** Writing at n, behind the place r being read, keeps what is yet to read. */
  lemma {:induction false} CompactStep<T>(was: seq<T>, now: seq<T>, n: nat, r: nat, x: T)
    requires |now| == |was| && n <= r < |was| && now[r..] == was[r..]
    ensures now[r] == was[r] && now[r + 1..] == was[r + 1..]
    ensures now[n := x][r + 1..] == was[r + 1..] && now[n := x][..n + 1] == now[..n] + [x]
  {
    assert now[r..][0] == was[r..][0];
    assert now[r + 1..] == now[r..][1..] && was[r + 1..] == was[r..][1..];
    assert now[n := x][r + 1..] == now[r + 1..];
  }

  /** The pass has read r entries and left the n before it; the others are yet to be
      read. */
  ghost predicate Compacting(hash: HashMatch, was: seq<Entry>, hosts: seq<string>, now: seq<Entry>, n: nat, r: nat)
  {
    n <= r <= |was| == |now| && now[r..] == was[r..] && now[..n] == Remaining(hash, was[..r], hosts)
  }

  lemma {:induction false} CompactMore(hash: HashMatch, was: seq<Entry>, hosts: seq<string>, now: seq<Entry>, n: nat, r: nat,
                                       left: Option<Entry>)
    requires r < |was| && Compacting(hash, was, hosts, now, n, r)
    requires Kept(hash, was[r], hosts) == if left.Some? then [left.value] else []
    ensures if left.Some? then Compacting(hash, was, hosts, now[n := left.value], n + 1, r + 1)
            else Compacting(hash, was, hosts, now, n, r + 1)
  {
    TakeOneMore(was, r);
    RemainingMore(hash, was[..r], was[r], hosts);
    CompactStep(was, now, n, r, if left.Some? then left.value else was[r]);
  }

  class File {
    const hash: HashMatch
    var header: seq<string>
    var entries: seq<Entry>
    var trailer: seq<string>

    constructor (hash: HashMatch, header: seq<string>, entries: seq<Entry>, trailer: seq<string>)
      ensures this.hash == hash && this.header == header && this.entries == entries && this.trailer == trailer
    {
      this.hash, this.header, this.entries, this.trailer := hash, header, entries, trailer;
    }

    /** `removeAll`: one pass that compacts the entries in place. */
    method RemoveAll(hosts: seq<string>) returns (counts: seq<nat>, notes: seq<seq<string>>)
      modifies `entries
      ensures Outcome(entries, counts, notes) == OnePass(hash, old(entries), hosts)
    {
      var first, order := Places(hosts);
      counts := seq(|hosts|, _ => 0);
      notes := seq(|hosts|, _ => []);
      ghost var was := entries;
      var n := 0;
      for r := 0 to |entries|
        invariant |entries| == |was|
        invariant Compacting(hash, was, hosts, entries, n, r)
        invariant Tallied(hash, was[..r], hosts, counts, notes)
      {
        ghost var counts', notes' := counts, notes;
        var left;
        assert entries[r] == entries[r..][0] == was[r..][0] == was[r];
        left, counts, notes := RemoveLine(hash, entries[r], first, order, hosts, counts, notes);
        TallyMore(hash, was[..r], was[r], hosts, counts', notes', counts, notes);
        TakeOneMore(was, r);
        CompactMore(hash, was, hosts, entries, n, r, left);
        if left.Some? {
          entries := entries[n := left.value];
          n := n + 1;
        }
      }
      entries := entries[..n];
      assert was[..|was|] == was;
    }

    /** `Remove`. */
    method Remove(host: string) returns (count: nat)
      modifies `entries
      ensures entries == Remaining(hash, old(entries), [host])
      ensures count == CountAt(hash, old(entries), [host], 0)
      ensures Selects(old(entries), entries, Stays(hash, [host]), LeftAs(hash, [host]))
      ensures exists naming :: Filters(old(entries), naming, NamesIt(hash, host)) && count == |naming|
    {
      RemainingIs(hash, entries, [host]);
      ghost var naming, _ := ReportIs(hash, entries, host);
      var counts, _ := RemoveAll([host]);
      count := counts[0];
    }

    /** `Add`. */
    method Add(e: Entry)
      modifies `entries
      ensures entries == Added(hash, old(entries), e)
    {
      for i := 0 to |entries|
        invariant entries == old(entries)
        invariant forall j :: 0 <= j < i ==> !Superseded(hash, entries[j], e)
      {
        var x := entries[i];
        if x.IsHostKey() && x.typ == e.typ && |x.hosts| == 1 && |e.hosts| > 0 {
          var same := NamesHost(hash, x.hosts[0], e.hosts[0]);
          if same {
            AddedReplaces(hash, entries, e, i);
            entries := entries[i := if e.notes == [] then e.(notes := x.notes) else e];
            return;
          }
        }
      }
      AddedAppends(hash, entries, e);
      entries := entries + [e];
    }

    /** `ReplaceAll`. */
    method ReplaceAll(hosts: seq<string>, keys: string -> seq<Entry>)
      modifies `entries
      ensures entries == ReplacedAll(hash, old(entries), hosts, keys)
    {
      ghost var was := entries;
      var _, notes := RemoveAll(hosts);
      var last := FindLastPlaces(hosts);
      notes := MoveNotes(hash, was, hosts, last, notes);
      PutAllKeys(was, hosts, keys, last, notes);
    }

    /** The keys of every host put in, once the old ones are out. */
    method PutAllKeys(ghost was: seq<Entry>, hosts: seq<string>, keys: string -> seq<Entry>,
                      last: map<string, nat>, notes: seq<seq<string>>)
      requires LastPlaces(last, hosts) && Moved(hash, was, hosts, notes, |hosts|)
      requires entries == Remaining(hash, was, hosts)
      modifies `entries
      ensures entries == ReplacedAll(hash, was, hosts, keys)
    {
      var added: map<Slot, nat> := map[];
      for i := 0 to |hosts|
        invariant Placing(entries, added) == Placed(hash, was, hosts, keys, i)
      {
        LastPlace(last, hosts, i);
        PlacedNext(hash, was, hosts, keys, i);
        if last[ToLower(hosts[i])] == i {
          added := PutHostKeys(keys(hosts[i]), notes[i], last, added);
        }
      }
    }

    /** The keys of one host put in, one after another. */
    method PutHostKeys(own: seq<Entry>, notes: seq<string>, last: map<string, nat>, added: map<Slot, nat>)
      returns (added': map<Slot, nat>)
      requires Placing(entries, added).Valid()
      modifies `entries
      ensures Placing(entries, added')
           == PutKeys(hash, last.Keys, Placing(old(entries), added), Noted(own, notes))
    {
      added' := added;
      ghost var before, noted := Placing(entries, added), Noted(own, notes);
      for j := 0 to |own|
        invariant Placing(entries, added').Valid()
        invariant PutKeys(hash, last.Keys, Placing(entries, added'), noted[j..]) == PutKeys(hash, last.Keys, before, noted)
      {
        var e := own[j];
        if j == 0 && e.notes == [] {
          e := e.(notes := notes);
        }
        assert e == noted[j] && noted[j..][1..] == noted[j + 1..];
        added' := PutOne(e, last, added');
      }
    }

    /** One key put in: appended, put in place of an earlier key of the same
        host and type, or added as a single key is. */
    method PutOne(key: Entry, last: map<string, nat>, added: map<Slot, nat>) returns (added': map<Slot, nat>)
      requires Placing(entries, added).Valid()
      modifies `entries
      ensures Placing(entries, added') == PutKey(hash, last.Keys, Placing(old(entries), added), key)
    {
      var e := key;
      added' := added;
      if e.hosts == [] {
        entries := entries + [e];
        return;
      }
      var name := ToLower(e.hosts[0]);
      if name !in last {
        Add(e);
      } else if (name, e.typ) in added {
        var k := added[(name, e.typ)];
        if e.notes == [] {
          e := e.(notes := entries[k].notes);
        }
        entries := entries[k := e];
      } else {
        added' := added[(name, e.typ) := |entries|];
        entries := entries + [e];
      }
    }

    /** `Find`. */
    method Find(host: string) returns (out: seq<Entry>)
      ensures out == KeysFor(hash, entries, host)
      ensures Filters(entries, out, HoldsKeyOf(hash, host))
    {
      out := [];
      for i := 0 to |entries|
        invariant out == KeysFor(hash, entries[..i], host)
      {
        assert entries[..i + 1][..i] == entries[..i];
        var e := entries[i];
        if e.IsHostKey() {
          var hit := Matches(hash, e.hosts, host);
          if hit {
            out := out + [e];
          }
        }
      }
      assert entries[..|entries|] == entries;
      KeysForAre(hash, entries, host);
    }

    /** `Revoked`. */
    method Revoked(host: string, key: string) returns (r: bool)
      ensures r <==> exists e :: e in entries && e.marker == "@revoked" && e.key == key && Covers(hash, e.hosts, host)
    {
      for i := 0 to |entries|
        invariant forall j :: 0 <= j < i ==> !RevokedFor(hash, entries[j], host, key)
      {
        var e := entries[i];
        if e.marker == REVOKED && e.key == key {
          var hit := Matches(hash, e.hosts, host);
          if hit {
            return true;
          }
        }
      }
      return false;
    }
  }

  /** The counts and the notes of a removal. */
  ghost predicate Tallied(hash: HashMatch, entries: seq<Entry>, hosts: seq<string>,
                          counts: seq<nat>, notes: seq<seq<string>>) {
    && |counts| == |notes| == |hosts|
    && (forall k :: 0 <= k < |hosts| ==> counts[k] == CountAt(hash, entries, hosts, k))
    && (forall k :: 0 <= k < |hosts| ==> notes[k] == NotesAt(hash, entries, hosts, k))
  }

  lemma {:induction false} TallyMore(hash: HashMatch, entries: seq<Entry>, e: Entry, hosts: seq<string>,
                  counts: seq<nat>, notes: seq<seq<string>>, counts': seq<nat>, notes': seq<seq<string>>)
    requires Tallied(hash, entries, hosts, counts, notes)
    requires Credited(hash, e, hosts, counts, notes, counts', notes')
    ensures Tallied(hash, entries + [e], hosts, counts', notes')
  {
    forall k | 0 <= k < |hosts|
      ensures counts'[k] == CountAt(hash, entries + [e], hosts, k)
      ensures notes'[k] == NotesAt(hash, entries + [e], hosts, k)
    {
      CountAppend(hash, entries, [e], hosts, k);
      NotesAppend(hash, entries, [e], hosts, k);
      assert CountAt(hash, [e], hosts, k) == if e.IsHostKey() && Hits(hash, e.hosts, hosts, k) then 1 else 0;
      assert NotesAt(hash, [e], hosts, k) == if GoesWith(hash, e, hosts, k) then e.notes else [];
    }
  }

  lemma {:induction false} RemainingMore(hash: HashMatch, entries: seq<Entry>, e: Entry, hosts: seq<string>)
    ensures Remaining(hash, entries + [e], hosts) == Remaining(hash, entries, hosts) + Kept(hash, e, hosts)
  {
    RemainingAppend(hash, entries, [e], hosts);
    assert Remaining(hash, [e], hosts) == Kept(hash, e, hosts);
  }

  /** A line counts once for each host it names. */
  method Credit(counts: seq<nat>, hit: seq<nat>) returns (r: seq<nat>)
    requires forall k :: k in hit ==> k < |counts|
    requires forall i, j :: 0 <= i < j < |hit| ==> hit[i] != hit[j]
    ensures |r| == |counts|
    ensures forall k :: 0 <= k < |counts| ==> r[k] == counts[k] + if k in hit then 1 else 0
  {
    r := counts;
    for i := 0 to |hit|
      invariant |r| == |counts|
      invariant forall k :: 0 <= k < |counts| ==> r[k] == counts[k] + if k in hit[..i] then 1 else 0
    {
      assert hit[..i + 1] == hit[..i] + [hit[i]];
      assert hit[i] in hit && hit[i] !in hit[..i];
      r := r[hit[i] := r[hit[i]] + 1];
    }
    assert hit[..|hit|] == hit;
  }

  /** The place each host has last in a list. */
  ghost predicate LastPlaces(last: map<string, nat>, hosts: seq<string>) {
    && last.Keys == Listed(hosts)
    && forall k :: 0 <= k < |hosts| ==>
                     && last[ToLower(hosts[k])] < |hosts|
                     && SameHost(hosts[last[ToLower(hosts[k])]], hosts[k])
                     && LastSpelling(hosts, last[ToLower(hosts[k])])
  }

  method FindLastPlaces(hosts: seq<string>) returns (last: map<string, nat>)
    ensures LastPlaces(last, hosts)
  {
    last := map[];
    for i := 0 to |hosts|
      invariant forall h :: h in last ==>
                              && last[h] < i && ToLower(hosts[last[h]]) == h
                              && forall j :: last[h] < j < i ==> ToLower(hosts[j]) != h
      invariant forall k :: 0 <= k < i ==> ToLower(hosts[k]) in last
    {
      last := last[ToLower(hosts[i]) := i];
    }
    assert forall h :: h in last ==> hosts[last[h]] in hosts;
  }

  lemma {:induction false} LastPlace(last: map<string, nat>, hosts: seq<string>, k: nat)
    requires LastPlaces(last, hosts) && k < |hosts|
    ensures ToLower(hosts[k]) in last
    ensures last[ToLower(hosts[k])] == k <==> LastSpelling(hosts, k)
  {
    assert hosts[k] in hosts;
  }

  /** The notes at place k once those of places before i were moved on. */
  ghost function NotesMoved(hash: HashMatch, was: seq<Entry>, hosts: seq<string>, i: nat, k: nat): seq<string>
    requires k < |hosts|
  {
    if LastSpelling(hosts, k) && FirstSpelling(hosts, k) < i
    then NotesAt(hash, was, hosts, FirstSpelling(hosts, k))
    else NotesAt(hash, was, hosts, k)
  }

  /** The notes of a host's earlier spellings moved to its last place. */
  ghost predicate Moved(hash: HashMatch, was: seq<Entry>, hosts: seq<string>, notes: seq<seq<string>>, i: nat) {
    |notes| == |hosts| && forall k :: 0 <= k < |hosts| ==> notes[k] == NotesMoved(hash, was, hosts, i, k)
  }

  lemma {:induction false} SpellingsAgree(hosts: seq<string>, i: nat, j: nat)
    requires i < |hosts| && j < |hosts| && SameHost(hosts[i], hosts[j])
    ensures FirstSpelling(hosts, i) == FirstSpelling(hosts, j)
    ensures LastSpelling(hosts, i) && LastSpelling(hosts, j) ==> i == j
  {
  }

  /** Moving the notes of place i changes those of its last place alone. */
  lemma {:induction false} MoveElsewhere(hash: HashMatch, was: seq<Entry>, hosts: seq<string>, i: nat, j: nat, k: nat)
    requires i < |hosts| && j < |hosts| && SameHost(hosts[i], hosts[j]) && LastSpelling(hosts, j)
    requires k < |hosts| && k != j
    ensures NotesMoved(hash, was, hosts, i + 1, k) == NotesMoved(hash, was, hosts, i, k)
  {
    if LastSpelling(hosts, k) && FirstSpelling(hosts, k) == i {
      SpellingsAgree(hosts, k, j);
    }
  }

  /** Only the first spelling of a host has notes of its own. */
  lemma {:induction false} NoNotesAgain(hash: HashMatch, was: seq<Entry>, hosts: seq<string>, i: nat)
    requires i < |hosts|
    ensures FirstSpelling(hosts, i) < i ==> NotesAt(hash, was, hosts, i) == []
  {
    if FirstSpelling(hosts, i) < i {
      RepeatedHostChangesNothing(hash, was, hosts, FirstSpelling(hosts, i), i);
    }
  }

  /** Of two spellings of a host one that is last: the other is last only if it is the
      same, and both have the same first. */
  lemma {:induction false} LastOnly(hosts: seq<string>, i: nat, j: nat)
    requires i < |hosts| && j < |hosts| && SameHost(hosts[i], hosts[j]) && LastSpelling(hosts, j)
    ensures LastSpelling(hosts, i) <==> i == j
    ensures FirstSpelling(hosts, i) == FirstSpelling(hosts, j)
    ensures FirstSpelling(hosts, j) <= i && FirstSpelling(hosts, j) <= j
  {
    SpellingsAgree(hosts, i, j);
  }

  lemma {:induction false} MoveThere(hash: HashMatch, was: seq<Entry>, hosts: seq<string>, i: nat, j: nat)
    requires i < |hosts| && j < |hosts| && SameHost(hosts[i], hosts[j]) && LastSpelling(hosts, j)
    ensures NotesMoved(hash, was, hosts, i + 1, j)
            == if j == i then NotesMoved(hash, was, hosts, i, i)
               else NotesMoved(hash, was, hosts, i, i) + NotesMoved(hash, was, hosts, i, j)
  {
    LastOnly(hosts, i, j);
    var f := FirstSpelling(hosts, j);
    var found, there := NotesAt(hash, was, hosts, f), NotesAt(hash, was, hosts, j);
    assert NotesMoved(hash, was, hosts, i + 1, j) == found;
    assert [] + found == found && found + [] == found;
    if j != i {
      assert NotesMoved(hash, was, hosts, i, i) == NotesAt(hash, was, hosts, i);
      if f < i {
        NoNotesAgain(hash, was, hosts, i);
      } else {
        NoNotesAgain(hash, was, hosts, j);
        assert there == [];
      }
    }
  }

  lemma {:induction false} MoveOne(hash: HashMatch, was: seq<Entry>, hosts: seq<string>, notes: seq<seq<string>>, i: nat, j: nat)
    requires i < |hosts| && Moved(hash, was, hosts, notes, i)
    requires j < |hosts| && SameHost(hosts[i], hosts[j]) && LastSpelling(hosts, j)
    ensures Moved(hash, was, hosts, if j == i then notes else notes[j := notes[i] + notes[j]], i + 1)
  {
    var next := if j == i then notes else notes[j := notes[i] + notes[j]];
    MoveThere(hash, was, hosts, i, j);
    forall k | 0 <= k < |hosts| ensures next[k] == NotesMoved(hash, was, hosts, i + 1, k) {
      if k != j {
        MoveElsewhere(hash, was, hosts, i, j, k);
      }
    }
  }

  method MoveNotes(hash: HashMatch, ghost was: seq<Entry>, hosts: seq<string>, last: map<string, nat>,
                   found: seq<seq<string>>)
    returns (notes: seq<seq<string>>)
    requires LastPlaces(last, hosts) && Moved(hash, was, hosts, found, 0)
    ensures Moved(hash, was, hosts, notes, |hosts|)
  {
    notes := found;
    for i := 0 to |hosts|
      invariant Moved(hash, was, hosts, notes, i)
    {
      LastPlace(last, hosts, i);
      var j := last[ToLower(hosts[i])];
      MoveOne(hash, was, hosts, notes, i, j);
      if j != i {
        notes := notes[j := notes[i] + notes[j]];
      }
    }
  }
}
