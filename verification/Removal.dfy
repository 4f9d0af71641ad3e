/** Removing the host keys of several hosts from a known_hosts file: what one
    pass over the file leaves, and that it is what removing the hosts one
    after another leaves (internal/hostkeys/hostkeys.go). */
module Removal {
  import opened Text
  import opened Patterns
  import opened Selection

  /** One line of a known_hosts file. */
  datatype Entry = Entry(marker: string, hosts: seq<string>, typ: string, key: string,
                         comment: string, notes: seq<string>)
  {
    predicate IsHostKey() {
      marker == ""
    }
  }

  const REVOKED := "@revoked"
  const CERT_AUTHORITY := "@cert-authority"

  // ----- one line -----

  predicate NamedBy(hash: HashMatch, pattern: string, hosts: seq<string>) {
    exists k :: 0 <= k < |hosts| && Names(hash, pattern, hosts[k])
  }

  /** The patterns of a line that name none of the hosts. */
  function Rest(hash: HashMatch, patterns: seq<string>, hosts: seq<string>): seq<string> {
    if patterns == [] then []
    else (if NamedBy(hash, patterns[0], hosts) then [] else [patterns[0]]) + Rest(hash, patterns[1..], hosts)
  }

  /** A pattern of the line names host k and no host before it. */
  predicate Hits(hash: HashMatch, patterns: seq<string>, hosts: seq<string>, k: nat)
    requires k < |hosts|
  {
    exists p :: p in patterns && Names(hash, p, hosts[k]) && !NamedBy(hash, p, hosts[..k])
  }

  /** The line goes when host k does: it names k and nothing is left after k. */
  predicate GoesWith(hash: HashMatch, e: Entry, hosts: seq<string>, k: nat)
    requires k < |hosts|
  {
    e.IsHostKey() && Hits(hash, e.hosts, hosts, k) && Rest(hash, e.hosts, hosts[..k + 1]) == []
  }

  /** What is left of a line: a line all of whose patterns name listed hosts
      goes, and a marked line stays as it is. */
  function Kept(hash: HashMatch, e: Entry, hosts: seq<string>): seq<Entry> {
    if !e.IsHostKey() then [e]
    else if e.hosts != [] && Rest(hash, e.hosts, hosts) == [] then []
    else [e.(hosts := Rest(hash, e.hosts, hosts))]
  }

  // ----- the whole file -----

  function Remaining(hash: HashMatch, entries: seq<Entry>, hosts: seq<string>): seq<Entry> {
    if entries == [] then []
    else Kept(hash, entries[0], hosts) + Remaining(hash, entries[1..], hosts)
  }

  /** How many lines host k changes. */
  function CountAt(hash: HashMatch, entries: seq<Entry>, hosts: seq<string>, k: nat): nat
    requires k < |hosts|
  {
    if entries == [] then 0
    else (if entries[0].IsHostKey() && Hits(hash, entries[0].hosts, hosts, k) then 1 else 0)
         + CountAt(hash, entries[1..], hosts, k)
  }

  /** The notes of the lines that go with host k. */
  function NotesAt(hash: HashMatch, entries: seq<Entry>, hosts: seq<string>, k: nat): seq<string>
    requires k < |hosts|
  {
    if entries == [] then []
    else (if GoesWith(hash, entries[0], hosts, k) then entries[0].notes else [])
         + NotesAt(hash, entries[1..], hosts, k)
  }

  /** What a removal leaves, and what it reports for each host. */
  datatype Outcome = Outcome(entries: seq<Entry>, counts: seq<nat>, notes: seq<seq<string>>)

  function OnePass(hash: HashMatch, entries: seq<Entry>, hosts: seq<string>): Outcome {
    Outcome(
      Remaining(hash, entries, hosts),
      seq(|hosts|, k requires 0 <= k < |hosts| => CountAt(hash, entries, hosts, k)),
      seq(|hosts|, k requires 0 <= k < |hosts| => NotesAt(hash, entries, hosts, k)))
  }

  /** Removing one host after another, each from what the one before left. */
  function OneByOne(hash: HashMatch, entries: seq<Entry>, hosts: seq<string>): Outcome
    decreases |hosts|
  {
    if hosts == [] then Outcome(entries, [], [])
    else
      var first := OnePass(hash, entries, hosts[..1]);
      var rest := OneByOne(hash, first.entries, hosts[1..]);
      Outcome(rest.entries, first.counts + rest.counts, first.notes + rest.notes)
  }

  // ----- the rest of a line -----

  lemma {:induction false} RestIs(hash: HashMatch, patterns: seq<string>, hosts: seq<string>)
    ensures forall p :: p in Rest(hash, patterns, hosts) <==> p in patterns && !NamedBy(hash, p, hosts)
  {
    if patterns != [] {
      RestIs(hash, patterns[1..], hosts);
    }
  }

  /** Nothing is left of a line whose patterns are all named. */
  lemma {:induction false} RestNothing(hash: HashMatch, patterns: seq<string>, hosts: seq<string>)
    ensures Rest(hash, patterns, hosts) == [] <==> forall p :: p in patterns ==> NamedBy(hash, p, hosts)
  {
    RestIs(hash, patterns, hosts);
    if Rest(hash, patterns, hosts) != [] {
      assert Rest(hash, patterns, hosts)[0] in patterns;
    }
  }

  lemma {:induction false} RestAppend(hash: HashMatch, a: seq<string>, b: seq<string>, hosts: seq<string>)
    ensures Rest(hash, a + b, hosts) == Rest(hash, a, hosts) + Rest(hash, b, hosts)
  {
    if a == [] {
      assert a + b == b;
    } else {
      assert (a + b)[1..] == a[1..] + b;
      RestAppend(hash, a[1..], b, hosts);
    }
  }

  lemma {:induction false} RestUntouched(hash: HashMatch, patterns: seq<string>, hosts: seq<string>)
    requires forall p :: p in patterns ==> !NamedBy(hash, p, hosts)
    ensures Rest(hash, patterns, hosts) == patterns
  {
    if patterns != [] {
      assert patterns[0] in patterns;
      RestUntouched(hash, patterns[1..], hosts);
    }
  }

  lemma {:induction false} NamedByAppend(hash: HashMatch, p: string, a: seq<string>, b: seq<string>)
    ensures NamedBy(hash, p, a + b) <==> NamedBy(hash, p, a) || NamedBy(hash, p, b)
  {
    if NamedBy(hash, p, a) {
      var k :| 0 <= k < |a| && Names(hash, p, a[k]);
      assert Names(hash, p, (a + b)[k]);
    }
    if NamedBy(hash, p, b) {
      var k :| 0 <= k < |b| && Names(hash, p, b[k]);
      assert Names(hash, p, (a + b)[|a| + k]);
    }
  }

  lemma {:induction false} NamedByMore(hash: HashMatch, p: string, hosts: seq<string>, i: nat, j: nat)
    requires i <= j <= |hosts|
    ensures NamedBy(hash, p, hosts[..i]) ==> NamedBy(hash, p, hosts[..j])
  {
    assert hosts[..j] == hosts[..i] + hosts[i..j];
    NamedByAppend(hash, p, hosts[..i], hosts[i..j]);
  }

  lemma {:induction false} RestTwice(hash: HashMatch, patterns: seq<string>, a: seq<string>, b: seq<string>)
    ensures Rest(hash, Rest(hash, patterns, a), b) == Rest(hash, patterns, a + b)
  {
    if patterns != [] {
      NamedByAppend(hash, patterns[0], a, b);
      RestTwice(hash, patterns[1..], a, b);
      RestAppend(hash, if NamedBy(hash, patterns[0], a) then [] else [patterns[0]],
                 Rest(hash, patterns[1..], a), b);
    }
  }

  /** A host of the second list hits what the first list leaves exactly as it
      hits the line when both are removed at once. */
  lemma {:induction false} HitsAfter(hash: HashMatch, patterns: seq<string>, a: seq<string>, b: seq<string>, k: nat)
    requires k < |b|
    ensures Hits(hash, patterns, a + b, |a| + k) <==> Hits(hash, Rest(hash, patterns, a), b, k)
  {
    var hosts := a + b;
    assert hosts[..|a| + k] == a + b[..k];
    RestIs(hash, patterns, a);
    forall p ensures NamedBy(hash, p, hosts[..|a| + k]) <==> NamedBy(hash, p, a) || NamedBy(hash, p, b[..k]) {
      NamedByAppend(hash, p, a, b[..k]);
    }
  }

  lemma {:induction false} HitsBefore(hash: HashMatch, patterns: seq<string>, a: seq<string>, b: seq<string>, k: nat)
    requires k < |a|
    ensures Hits(hash, patterns, a + b, k) <==> Hits(hash, patterns, a, k)
  {
    assert (a + b)[..k] == a[..k];
  }

  lemma {:induction false} NothingLeftStays(hash: HashMatch, patterns: seq<string>, a: seq<string>, b: seq<string>)
    requires Rest(hash, patterns, a) == []
    ensures Rest(hash, patterns, a + b) == []
  {
    RestTwice(hash, patterns, a, b);
  }

  // ----- the whole file, in two steps -----

  lemma {:induction false} RemainingAppend(hash: HashMatch, x: seq<Entry>, y: seq<Entry>, hosts: seq<string>)
    ensures Remaining(hash, x + y, hosts) == Remaining(hash, x, hosts) + Remaining(hash, y, hosts)
  {
    if x == [] {
      assert x + y == y;
    } else {
      assert (x + y)[1..] == x[1..] + y;
      RemainingAppend(hash, x[1..], y, hosts);
    }
  }

  lemma {:induction false} CountAppend(hash: HashMatch, x: seq<Entry>, y: seq<Entry>, hosts: seq<string>, k: nat)
    requires k < |hosts|
    ensures CountAt(hash, x + y, hosts, k) == CountAt(hash, x, hosts, k) + CountAt(hash, y, hosts, k)
  {
    if x == [] {
      assert x + y == y;
    } else {
      assert (x + y)[1..] == x[1..] + y;
      CountAppend(hash, x[1..], y, hosts, k);
    }
  }

  lemma {:induction false} NotesAppend(hash: HashMatch, x: seq<Entry>, y: seq<Entry>, hosts: seq<string>, k: nat)
    requires k < |hosts|
    ensures NotesAt(hash, x + y, hosts, k) == NotesAt(hash, x, hosts, k) + NotesAt(hash, y, hosts, k)
  {
    if x == [] {
      assert x + y == y;
    } else {
      assert (x + y)[1..] == x[1..] + y;
      NotesAppend(hash, x[1..], y, hosts, k);
    }
  }

  lemma {:induction false} RemainingTwice(hash: HashMatch, entries: seq<Entry>, a: seq<string>, b: seq<string>)
    ensures Remaining(hash, Remaining(hash, entries, a), b) == Remaining(hash, entries, a + b)
  {
    if entries != [] {
      var e := entries[0];
      RemainingTwice(hash, entries[1..], a, b);
      RemainingAppend(hash, Kept(hash, e, a), Remaining(hash, entries[1..], a), b);
      RestTwice(hash, e.hosts, a, b);
      if Kept(hash, e, a) != [] {
        assert Kept(hash, e, a)[1..] == [];
        if e.hosts == [] {
          assert Rest(hash, e.hosts, a) == [];
        }
      }
      assert Remaining(hash, Kept(hash, e, a), b) == Kept(hash, e, a + b);
    }
  }

  lemma {:induction false} KeptHitsAfter(hash: HashMatch, e: Entry, a: seq<string>, b: seq<string>, k: nat)
    requires k < |b|
    ensures CountAt(hash, Kept(hash, e, a), b, k)
            == if e.IsHostKey() && Hits(hash, e.hosts, a + b, |a| + k) then 1 else 0
    ensures NotesAt(hash, Kept(hash, e, a), b, k)
            == if GoesWith(hash, e, a + b, |a| + k) then e.notes else []
  {
    HitsAfter(hash, e.hosts, a, b, k);
    RestTwice(hash, e.hosts, a, b[..k + 1]);
    assert (a + b)[..|a| + k + 1] == a + b[..k + 1];
    if Kept(hash, e, a) != [] {
      assert Kept(hash, e, a)[1..] == [];
    }
  }

  lemma {:induction false} ReportsAfter(hash: HashMatch, entries: seq<Entry>, a: seq<string>, b: seq<string>, k: nat)
    requires k < |b|
    ensures CountAt(hash, Remaining(hash, entries, a), b, k) == CountAt(hash, entries, a + b, |a| + k)
    ensures NotesAt(hash, Remaining(hash, entries, a), b, k) == NotesAt(hash, entries, a + b, |a| + k)
  {
    if entries != [] {
      var kept := Kept(hash, entries[0], a);
      ReportsAfter(hash, entries[1..], a, b, k);
      KeptHitsAfter(hash, entries[0], a, b, k);
      CountAppend(hash, kept, Remaining(hash, entries[1..], a), b, k);
      NotesAppend(hash, kept, Remaining(hash, entries[1..], a), b, k);
    }
  }

  lemma {:induction false} ReportsBefore(hash: HashMatch, entries: seq<Entry>, a: seq<string>, b: seq<string>, k: nat)
    requires k < |a|
    ensures CountAt(hash, entries, a, k) == CountAt(hash, entries, a + b, k)
    ensures NotesAt(hash, entries, a, k) == NotesAt(hash, entries, a + b, k)
  {
    if entries != [] {
      HitsBefore(hash, entries[0].hosts, a, b, k);
      assert (a + b)[..k + 1] == a[..k + 1];
      ReportsBefore(hash, entries[1..], a, b, k);
    }
  }

  /** Removing host n from what the hosts before it left, followed by entries
      that do not name it. */
  lemma {:induction false} RemoveNextHost(hash: HashMatch, entries: seq<Entry>, hosts: seq<string>, n: nat, tail: seq<Entry>)
    requires n < |hosts|
    requires Remaining(hash, tail, [hosts[n]]) == tail && NotesAt(hash, tail, [hosts[n]], 0) == []
    ensures Remaining(hash, Remaining(hash, entries, hosts[..n]) + tail, [hosts[n]])
            == Remaining(hash, entries, hosts[..n + 1]) + tail
    ensures NotesAt(hash, Remaining(hash, entries, hosts[..n]) + tail, [hosts[n]], 0) == NotesAt(hash, entries, hosts, n)
  {
    var left, h := Remaining(hash, entries, hosts[..n]), hosts[n];
    RemainingAppend(hash, left, tail, [h]);
    NotesAppend(hash, left, tail, [h], 0);
    assert hosts[..n] + [h] == hosts[..n + 1];
    RemainingTwice(hash, entries, hosts[..n], [h]);
    ReportsAfter(hash, entries, hosts[..n], [h], 0);
    assert hosts[..n + 1] + hosts[n + 1..] == hosts;
    ReportsBefore(hash, entries, hosts[..n + 1], hosts[n + 1..], n);
  }

  lemma {:induction false} RemainingNone(hash: HashMatch, entries: seq<Entry>)
    ensures Remaining(hash, entries, []) == entries
  {
    if entries != [] {
      RestUntouched(hash, entries[0].hosts, []);
      RemainingNone(hash, entries[1..]);
    }
  }

  /** One pass over the file leaves the entries, the counts and the notes that
      removing the hosts one after another in their order leaves. */
  lemma {:induction false} OnePassIsOneByOne(hash: HashMatch, entries: seq<Entry>, hosts: seq<string>)
    ensures OnePass(hash, entries, hosts) == OneByOne(hash, entries, hosts)
    decreases |hosts|
  {
    if hosts == [] {
      RemainingNone(hash, entries);
    } else {
      var a, b := hosts[..1], hosts[1..];
      assert a + b == hosts;
      var left := Remaining(hash, entries, a);
      OnePassIsOneByOne(hash, left, b);
      RemainingTwice(hash, entries, a, b);
      forall k | 0 <= k < |hosts|
        ensures OnePass(hash, entries, hosts).counts[k] == OneByOne(hash, entries, hosts).counts[k]
        ensures OnePass(hash, entries, hosts).notes[k] == OneByOne(hash, entries, hosts).notes[k]
      {
        if k == 0 {
          ReportsBefore(hash, entries, a, b, 0);
        } else {
          ReportsAfter(hash, entries, a, b, k - 1);
        }
      }
      assert OnePass(hash, entries, hosts).counts == OneByOne(hash, entries, hosts).counts;
      assert OnePass(hash, entries, hosts).notes == OneByOne(hash, entries, hosts).notes;
    }
  }

  /** Afterwards no host key names a listed host. */
  lemma {:induction false} NoneNamedAfterwards(hash: HashMatch, entries: seq<Entry>, hosts: seq<string>)
    ensures forall e, p :: e in Remaining(hash, entries, hosts) && e.IsHostKey() && p in e.hosts ==>
                             !NamedBy(hash, p, hosts)
  {
    if entries != [] {
      RestIs(hash, entries[0].hosts, hosts);
      NoneNamedAfterwards(hash, entries[1..], hosts);
    }
  }

  /** The revocations and certificate authorities of a file, in order. */
  function Marked(entries: seq<Entry>): seq<Entry> {
    if entries == [] then []
    else (if entries[0].marker == "" then [] else [entries[0]]) + Marked(entries[1..])
  }

  lemma {:induction false} MarkedAppend(x: seq<Entry>, y: seq<Entry>)
    ensures Marked(x + y) == Marked(x) + Marked(y)
  {
    if x == [] {
      assert x + y == y;
    } else {
      assert (x + y)[1..] == x[1..] + y;
      MarkedAppend(x[1..], y);
    }
  }

  lemma {:induction false} RemovalKeepsMarked(hash: HashMatch, entries: seq<Entry>, hosts: seq<string>)
    ensures Marked(Remaining(hash, entries, hosts)) == Marked(entries)
  {
    if entries != [] {
      RemovalKeepsMarked(hash, entries[1..], hosts);
      MarkedAppend(Kept(hash, entries[0], hosts), Remaining(hash, entries[1..], hosts));
    }
  }

  /** A host given again in another case removes nothing the second time. */
  lemma {:induction false} RepeatedHostChangesNothing(hash: HashMatch, entries: seq<Entry>, hosts: seq<string>,
                                                      first: nat, again: nat)
    requires first < again < |hosts| && ToLower(hosts[first]) == ToLower(hosts[again])
    ensures CountAt(hash, entries, hosts, again) == 0
    ensures NotesAt(hash, entries, hosts, again) == []
  {
    if entries != [] {
      RepeatedHostChangesNothing(hash, entries[1..], hosts, first, again);
      assert hosts[..again][first] == hosts[first];
      assert !Hits(hash, entries[0].hosts, hosts, again);
    }
  }

  // ----- what is left, line by line -----

  /** Every pattern of a host key line is one of the hosts', and there are some. */
  ghost function GoesWhole(hash: HashMatch, hosts: seq<string>): Entry -> bool {
    (e: Entry) => e.marker == "" && e.hosts != [] && forall p :: p in e.hosts ==> NamedBy(hash, p, hosts)
  }

  ghost function Stays(hash: HashMatch, hosts: seq<string>): Entry -> bool {
    (e: Entry) => !GoesWhole(hash, hosts)(e)
  }

  ghost function NotNamed(hash: HashMatch, hosts: seq<string>): string -> bool {
    (p: string) => !NamedBy(hash, p, hosts)
  }

  /** A host key line as it stays: without the patterns that name a host, the
      others in their order, and all else as it was. Any other line is untouched. */
  ghost function LeftAs(hash: HashMatch, hosts: seq<string>): (Entry, Entry) -> bool {
    (e: Entry, left: Entry) =>
      if e.marker != "" then left == e
      else left == e.(hosts := left.hosts) && Filters(e.hosts, left.hosts, NotNamed(hash, hosts))
  }

  lemma {:induction false} RestFilters(hash: HashMatch, patterns: seq<string>, hosts: seq<string>)
    ensures Filters(patterns, Rest(hash, patterns, hosts), NotNamed(hash, hosts))
  {
    if patterns != [] {
      var rest := Rest(hash, patterns[1..], hosts);
      RestFilters(hash, patterns[1..], hosts);
      FiltersFirst(patterns[1..], rest, NotNamed(hash, hosts), patterns[0]);
      assert [] + rest == rest;
      assert [patterns[0]] + patterns[1..] == patterns;
    }
  }

  lemma {:induction false} KeptAs(hash: HashMatch, e: Entry, hosts: seq<string>)
    ensures Kept(hash, e, hosts) == [] <==> GoesWhole(hash, hosts)(e)
    ensures Kept(hash, e, hosts) != [] ==>
              |Kept(hash, e, hosts)| == 1 && LeftAs(hash, hosts)(e, Kept(hash, e, hosts)[0])
  {
    RestNothing(hash, e.hosts, hosts);
    RestFilters(hash, e.hosts, hosts);
  }

  /** Removing hosts leaves the lines of the file but those that go whole, in
      their order, each as it stays. */
  lemma {:induction false} RemainingIs(hash: HashMatch, entries: seq<Entry>, hosts: seq<string>)
    ensures Selects(entries, Remaining(hash, entries, hosts), Stays(hash, hosts), LeftAs(hash, hosts))
  {
    if entries != [] {
      var kept, rest := Kept(hash, entries[0], hosts), Remaining(hash, entries[1..], hosts);
      RemainingIs(hash, entries[1..], hosts);
      KeptAs(hash, entries[0], hosts);
      SelectsFirst(entries[1..], rest, Stays(hash, hosts), LeftAs(hash, hosts), entries[0],
                   if kept == [] then entries[0] else kept[0]);
      assert [entries[0]] + entries[1..] == entries;
      assert kept == [] || kept == [kept[0]];
      assert [] + rest == rest;
    }
  }

  ghost function NamesIt(hash: HashMatch, host: string): Entry -> bool {
    (e: Entry) => e.marker == "" && exists p :: p in e.hosts && Names(hash, p, host)
  }

  function NotesTogether(entries: seq<Entry>): seq<string> {
    if entries == [] then [] else entries[0].notes + NotesTogether(entries[1..])
  }

  lemma {:induction false} OfOneHost(hash: HashMatch, e: Entry, host: string)
    ensures e.IsHostKey() && Hits(hash, e.hosts, [host], 0) <==> NamesIt(hash, host)(e)
    ensures GoesWith(hash, e, [host], 0) <==> GoesWhole(hash, [host])(e)
  {
    assert [host][..1] == [host] && [host][..0] == [] && [host][0] == host;
    RestNothing(hash, e.hosts, [host]);
    if Hits(hash, e.hosts, [host], 0) {
      var p :| p in e.hosts && Names(hash, p, [host][0]);
      assert NamedBy(hash, p, [host]);
    }
    if GoesWhole(hash, [host])(e) {
      assert e.hosts[0] in e.hosts && NamedBy(hash, e.hosts[0], [host]);
      assert !NamedBy(hash, e.hosts[0], []);
    }
  }

  /** What is reported of one host: how many host key lines named it, and the
      notes of those that went whole. */
  lemma {:induction false} ReportIs(hash: HashMatch, entries: seq<Entry>, host: string)
    returns (naming: seq<Entry>, gone: seq<Entry>)
    ensures Filters(entries, naming, NamesIt(hash, host)) && CountAt(hash, entries, [host], 0) == |naming|
    ensures Filters(entries, gone, GoesWhole(hash, [host])) && NotesAt(hash, entries, [host], 0) == NotesTogether(gone)
  {
    naming, gone := [], [];
    if entries != [] {
      var e, tail := entries[0], entries[1..];
      naming, gone := ReportIs(hash, tail, host);
      OfOneHost(hash, e, host);
      FiltersFirst(tail, naming, NamesIt(hash, host), e);
      FiltersFirst(tail, gone, GoesWhole(hash, [host]), e);
      assert [e] + tail == entries;
      assert ([e] + gone)[1..] == gone;
      naming := if NamesIt(hash, host)(e) then [e] + naming else naming;
      gone := if GoesWhole(hash, [host])(e) then [e] + gone else gone;
    }
  }
}
