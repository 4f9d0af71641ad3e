/** A host that is given again: when replacing the keys of all hosts at once is
    replacing those of one host after another, exactly
    (internal/hostkeys/hostkeys.go). */
module RepeatedHosts {
  import opened Text
  import opened Patterns
  import opened Removal
  import opened Replacement
  import opened OneAfterAnother

  // ----- a host under another spelling -----

  lemma {:induction false} NamedAlone(hash: HashMatch, p: string, h: string)
    ensures NamedBy(hash, p, [h]) <==> Names(hash, p, h)
  {
    if Names(hash, p, h) {
      assert Names(hash, p, [h][0]);
    }
  }

  lemma {:induction false} RestSame(hash: HashMatch, patterns: seq<string>, h: string, h': string)
    requires SameHost(h, h')
    ensures Rest(hash, patterns, [h]) == Rest(hash, patterns, [h'])
  {
    if patterns != [] {
      NamedAlone(hash, patterns[0], h);
      NamedAlone(hash, patterns[0], h');
      RestSame(hash, patterns[1..], h, h');
    }
  }

  lemma {:induction false} GoesSame(hash: HashMatch, e: Entry, h: string, h': string)
    requires SameHost(h, h')
    ensures Kept(hash, e, [h]) == Kept(hash, e, [h'])
    ensures GoesWith(hash, e, [h], 0) <==> GoesWith(hash, e, [h'], 0)
  {
    RestSame(hash, e.hosts, h, h');
    assert [h][..1] == [h] && [h'][..1] == [h'] && [h][..0] == [] && [h'][..0] == [];
    assert forall p :: Names(hash, p, h) <==> Names(hash, p, h');
  }

  lemma {:induction false} SameRemoval(hash: HashMatch, es: seq<Entry>, h: string, h': string)
    requires SameHost(h, h')
    ensures Remaining(hash, es, [h]) == Remaining(hash, es, [h'])
    ensures NotesAt(hash, es, [h], 0) == NotesAt(hash, es, [h'], 0)
  {
    if es != [] {
      GoesSame(hash, es[0], h, h');
      SameRemoval(hash, es[1..], h, h');
    }
  }

  /** What removing a host leaves, removing it again leaves as it is. */
  lemma {:induction false} RemovedAgain(hash: HashMatch, es: seq<Entry>, h: string, h': string)
    requires SameHost(h, h')
    ensures Remaining(hash, Remaining(hash, es, [h]), [h']) == Remaining(hash, es, [h])
    ensures NotesAt(hash, Remaining(hash, es, [h]), [h'], 0) == []
  {
    var left := Remaining(hash, es, [h]);
    SameRemoval(hash, left, h, h');
    NoneNamedAfterwards(hash, es, [h]);
    ApartUntouched(hash, left, h);
  }

  lemma {:induction false} RemainingApart(hash: HashMatch, es: seq<Entry>, h: string, other: string)
    requires Apart(hash, es, [other])
    ensures Apart(hash, Remaining(hash, es, [h]), [other])
  {
    if es != [] {
      var e := es[0];
      assert e in es && forall x :: x in es[1..] ==> x in es;
      RestIs(hash, e.hosts, [h]);
      RemainingApart(hash, es[1..], h, other);
    }
  }

  // ----- what is left of keys that name no other host of the list -----

  predicate GivenBefore(hosts: seq<string>, i: nat)
    requires i < |hosts|
  {
    exists j :: 0 <= j < i && SameHost(hosts[j], hosts[i])
  }

  /** The last spelling of host i before it. */
  function Previous(hosts: seq<string>, i: nat): (p: nat)
    requires i < |hosts| && GivenBefore(hosts, i)
    ensures p < i && SameHost(hosts[p], hosts[i]) && LastAmong(hosts, p, i)
  {
    PreviousBelow(hosts, i, i)
  }

  function PreviousBelow(hosts: seq<string>, i: nat, n: nat): (p: nat)
    requires n <= i < |hosts| && exists j :: 0 <= j < n && SameHost(hosts[j], hosts[i])
    requires forall j :: n <= j < i ==> !SameHost(hosts[j], hosts[i])
    ensures p < n && SameHost(hosts[p], hosts[i]) && forall j :: p < j < i ==> !SameHost(hosts[j], hosts[i])
  {
    if SameHost(hosts[n - 1], hosts[i]) then n - 1 else PreviousBelow(hosts, i, n - 1)
  }

  /** Host i is not given again among the first n. */
  predicate LastAmong(hosts: seq<string>, i: nat, n: nat)
    requires i < n <= |hosts|
  {
    forall j :: i < j < n ==> !SameHost(hosts[j], hosts[i])
  }

  /** What is left of the keys of host i after the turns of n hosts: all, until the host
      is given again. */
  function Piece(hash: HashMatch, entries: seq<Entry>, hosts: seq<string>,
                 keys: string -> seq<Entry>, n: nat, i: nat): seq<Entry>
    requires i < n <= |hosts|
  {
    var put := Put(hash, entries, hosts, keys, i);
    if LastAmong(hosts, i, n) then put else Remaining(hash, put, [hosts[i]])
  }

  /** Host n comes to a piece that is its own and still whole. */
  predicate Takes(hosts: seq<string>, n: nat, i: nat)
    requires i < n < |hosts|
  {
    LastAmong(hosts, i, n) && SameHost(hosts[i], hosts[n])
  }

  /** What removing host n makes of a piece, and the notes it finds there. */
  ghost predicate PieceReady(hash: HashMatch, entries: seq<Entry>, hosts: seq<string>,
                             keys: string -> seq<Entry>, n: nat, i: nat)
    requires i < n < |hosts|
  {
    var piece := Piece(hash, entries, hosts, keys, n, i);
    && Remaining(hash, piece, [hosts[n]]) == Piece(hash, entries, hosts, keys, n + 1, i)
    && NotesAt(hash, piece, [hosts[n]], 0)
       == if Takes(hosts, n, i) then NotesAt(hash, Put(hash, entries, hosts, keys, i), [hosts[n]], 0) else []
  }

  lemma {:induction false} OwnPieceReady(hash: HashMatch, entries: seq<Entry>, hosts: seq<string>,
                                         keys: string -> seq<Entry>, n: nat, i: nat)
    requires i < n < |hosts| && SameHost(hosts[i], hosts[n])
    ensures PieceReady(hash, entries, hosts, keys, n, i)
  {
    var put := Put(hash, entries, hosts, keys, i);
    SameRemoval(hash, put, hosts[i], hosts[n]);
    assert !LastAmong(hosts, i, n + 1);
    if !LastAmong(hosts, i, n) {
      RemovedAgain(hash, put, hosts[i], hosts[n]);
    }
  }

  lemma {:induction false} OtherPieceReady(hash: HashMatch, entries: seq<Entry>, hosts: seq<string>,
                                           keys: string -> seq<Entry>, n: nat, i: nat)
    requires i < n < |hosts| && !SameHost(hosts[i], hosts[n]) && Filed(hosts, keys) && NameOnlyTheirs(hash, hosts, keys)
    ensures PieceReady(hash, entries, hosts, keys, n, i)
  {
    var put := Put(hash, entries, hosts, keys, i);
    BlockApart(hash, hosts, keys, i, n, Carried(hash, entries, hosts, keys, i));
    RemainingApart(hash, put, hosts[i], hosts[n]);
    ApartUntouched(hash, Piece(hash, entries, hosts, keys, n, i), hosts[n]);
    assert LastAmong(hosts, i, n + 1) <==> LastAmong(hosts, i, n);
  }

  lemma {:induction false} PieceIsReady(hash: HashMatch, entries: seq<Entry>, hosts: seq<string>,
                                        keys: string -> seq<Entry>, n: nat, i: nat)
    requires i < n < |hosts| && Filed(hosts, keys) && NameOnlyTheirs(hash, hosts, keys)
    ensures PieceReady(hash, entries, hosts, keys, n, i)
  {
    if SameHost(hosts[i], hosts[n]) {
      OwnPieceReady(hash, entries, hosts, keys, n, i);
    } else {
      OtherPieceReady(hash, entries, hosts, keys, n, i);
    }
  }

  lemma {:induction false} LeftIsPiece(hash: HashMatch, entries: seq<Entry>, hosts: seq<string>,
                                       keys: string -> seq<Entry>, n: nat, i: nat)
    requires i < n <= |hosts| && Filed(hosts, keys) && NameOnlyTheirs(hash, hosts, keys)
    ensures Left(hash, entries, hosts, keys, n, i) == Piece(hash, entries, hosts, keys, n, i)
  {
    LeftFirst(hash, entries, hosts, keys, i);
    for k := i + 1 to n
      invariant Left(hash, entries, hosts, keys, k, i) == Piece(hash, entries, hosts, keys, k, i)
    {
      LeftNext(hash, entries, hosts, keys, k, i);
      PieceIsReady(hash, entries, hosts, keys, k, i);
    }
  }

  /** Among the first m pieces is one host n takes. */
  predicate TakesOne(hosts: seq<string>, n: nat, m: nat)
    requires m <= n < |hosts|
  {
    exists i :: 0 <= i < m && Takes(hosts, n, i)
  }

  lemma {:induction false} TakesMore(hosts: seq<string>, n: nat, i: nat)
    requires i < n < |hosts|
    ensures TakesOne(hosts, n, i + 1) <==> TakesOne(hosts, n, i) || Takes(hosts, n, i)
    ensures Takes(hosts, n, i) ==> !TakesOne(hosts, n, i) && GivenBefore(hosts, n) && Previous(hosts, n) == i
  {
  }

  /** The notes above the keys put in for the spelling before. */
  function NotesBefore(hash: HashMatch, entries: seq<Entry>, hosts: seq<string>,
                       keys: string -> seq<Entry>, n: nat): seq<string>
    requires n < |hosts|
  {
    if GivenBefore(hosts, n) then NotesAt(hash, Put(hash, entries, hosts, keys, Previous(hosts, n)), [hosts[n]], 0) else []
  }

  ghost predicate FindsOwn(hash: HashMatch, entries: seq<Entry>, hosts: seq<string>,
                           keys: string -> seq<Entry>, n: nat, m: nat)
    requires m <= n < |hosts|
  {
    NotesAt(hash, Lefts(hash, entries, hosts, keys, n, m), [hosts[n]], 0)
    == if TakesOne(hosts, n, m) then NotesBefore(hash, entries, hosts, keys, n) else []
  }

  lemma {:induction false} FindsMore(hash: HashMatch, entries: seq<Entry>, hosts: seq<string>,
                                     keys: string -> seq<Entry>, n: nat, m: nat)
    requires m < n < |hosts| && Filed(hosts, keys) && NameOnlyTheirs(hash, hosts, keys)
    requires FindsOwn(hash, entries, hosts, keys, n, m)
    ensures FindsOwn(hash, entries, hosts, keys, n, m + 1)
  {
    TakesMore(hosts, n, m);
    LeftsMore(hash, entries, hosts, keys, n, m);
    LeftIsPiece(hash, entries, hosts, keys, n, m);
    PieceIsReady(hash, entries, hosts, keys, n, m);
    NotesAppend(hash, Lefts(hash, entries, hosts, keys, n, m), Left(hash, entries, hosts, keys, n, m), [hosts[n]], 0);
    var before := NotesBefore(hash, entries, hosts, keys, n);
    assert before + [] == before && [] + before == before;
  }

  /** The notes a host finds when its turn comes: those above its lines of the file, or
      those above the keys put in for the spelling before it, if there is one. */
  lemma {:induction false} CarriedIs(hash: HashMatch, entries: seq<Entry>, hosts: seq<string>,
                                     keys: string -> seq<Entry>, n: nat)
    requires n < |hosts| && Filed(hosts, keys) && NameOnlyTheirs(hash, hosts, keys)
    ensures Carried(hash, entries, hosts, keys, n)
            == if GivenBefore(hosts, n) then NotesBefore(hash, entries, hosts, keys, n) else NotesAt(hash, entries, hosts, n)
  {
    for m := 0 to n
      invariant FindsOwn(hash, entries, hosts, keys, n, m)
    {
      FindsMore(hash, entries, hosts, keys, n, m);
    }
    var own, before := NotesAt(hash, entries, hosts, n), NotesBefore(hash, entries, hosts, keys, n);
    assert own + [] == own && [] + before == before;
    if GivenBefore(hosts, n) {
      assert Takes(hosts, n, Previous(hosts, n));
      RepeatedHostChangesNothing(hash, entries, hosts, Previous(hosts, n), n);
    }
  }

  // ----- which notes a host's keys take -----

  /** The type of the keys that take the place of this one; one without hosts keeps
      its place. */
  function PlaceOf(k: Entry): set<string> {
    if k.hosts == [] then {} else {k.typ}
  }

  /** The key takes a place of such a type, with notes of its own. */
  predicate BringsNotes(k: Entry, types: set<string>) {
    k.hosts != [] && k.typ in types && k.notes != []
  }

  predicate SomeBringsNotes(keys: seq<Entry>, types: set<string>) {
    exists k :: k in keys && BringsNotes(k, types)
  }

  /** The notes found above the old keys are put above the first key, and stay:
      neither it nor a key that takes its place has notes of its own. */
  predicate TakesNotes(keys: seq<Entry>) {
    keys != [] && keys[0].notes == [] && !SomeBringsNotes(keys[1..], PlaceOf(keys[0]))
  }

  function Renoted(es: seq<Entry>, notes: seq<string>): seq<Entry>
    requires es != []
  {
    es[0 := es[0].(notes := notes)]
  }

  /** The same entries and slots, but for the notes of the first. */
  function RenotedAt(st: Placing, notes: seq<string>): (r: Placing)
    requires st.entries != []
  {
    st.(entries := Renoted(st.entries, notes))
  }

  /** The first entry is the one that keys of these types replace. */
  ghost predicate FirstSlot(st: Placing, host: string, types: set<string>) {
    && st.Valid() && st.entries != []
    && forall t: string :: ((ToLower(host), t) in st.added && st.added[(ToLower(host), t)] == 0) <==> t in types
  }

  lemma {:induction false} PutKeyRenoted(hash: HashMatch, host: string, st: Placing, notes: seq<string>, k: Entry,
                                         types: set<string>)
    requires FirstSlot(st, host, types) && (k.hosts != [] ==> SameHost(k.hosts[0], host))
    ensures var r := PutKey(hash, {ToLower(host)}, st, k);
            && FirstSlot(r, host, types)
            && PutKey(hash, {ToLower(host)}, RenotedAt(st, notes), k)
               == (if BringsNotes(k, types) then r else RenotedAt(r, notes))
            && (!BringsNotes(k, types) ==> r.entries[0].notes == st.entries[0].notes)
  {
    var r, r' := PutKey(hash, {ToLower(host)}, st, k), PutKey(hash, {ToLower(host)}, RenotedAt(st, notes), k);
    if k.hosts != [] && SlotOf(k) in st.added {
      assert st.added[SlotOf(k)] == 0 <==> k.typ in types;
      assert r'.entries == if BringsNotes(k, types) then r.entries else Renoted(r.entries, notes);
    } else {
      assert r'.entries == Renoted(st.entries, notes) + [k] == Renoted(st.entries + [k], notes);
    }
  }

  lemma {:induction false} PutKeysRenoted(hash: HashMatch, host: string, st: Placing, notes: seq<string>, keys: seq<Entry>,
                                          types: set<string>)
    requires FirstSlot(st, host, types) && FiledUnder(keys, host)
    ensures var r := PutKeys(hash, {ToLower(host)}, st, keys);
            && r.entries != []
            && PutKeys(hash, {ToLower(host)}, RenotedAt(st, notes), keys)
               == (if SomeBringsNotes(keys, types) then r else RenotedAt(r, notes))
            && (!SomeBringsNotes(keys, types) ==> r.entries[0].notes == st.entries[0].notes)
    decreases |keys|
  {
    if keys != [] {
      var k, rest := keys[0], keys[1..];
      assert k in keys && forall x :: x in keys <==> x == k || x in rest;
      PutKeyRenoted(hash, host, st, notes, k, types);
      PutKeysRenoted(hash, host, PutKey(hash, {ToLower(host)}, st, k), notes, rest, types);
    }
  }

  /** The keys of a host filed under any notes: what they are under none, but for the
      notes of the first, if they take them. */
  lemma {:induction false} NotesTaken(hash: HashMatch, host: string, keys: seq<Entry>, notes: seq<string>)
    requires FiledUnder(keys, host)
    ensures var block := Block(hash, host, keys);
            && (TakesNotes(keys) ==> block != [] && block[0].notes == [])
            && Block(hash, host, Noted(keys, notes)) == if TakesNotes(keys) then Renoted(block, notes) else block
  {
    if keys != [] && keys[0].notes == [] {
      var k, rest := keys[0], keys[1..];
      assert k in keys;
      var st := PutKey(hash, {ToLower(host)}, Placing([], map[]), k);
      var st' := PutKey(hash, {ToLower(host)}, Placing([], map[]), k.(notes := notes));
      assert st.entries == [k] && st'.entries == [k.(notes := notes)] == Renoted([k], notes);
      assert Noted(keys, notes)[0] == k.(notes := notes) && Noted(keys, notes)[1..] == rest;
      PutKeysRenoted(hash, host, st, notes, rest, PlaceOf(k));
    } else {
      assert Noted(keys, notes) == keys;
    }
  }

  /** Two ways to note them are one exactly when the notes are the same, or the keys
      take none. */
  lemma {:induction false} NotesTell(hash: HashMatch, host: string, keys: seq<Entry>, a: seq<string>, b: seq<string>)
    requires FiledUnder(keys, host)
    ensures |Block(hash, host, Noted(keys, a))| == |Block(hash, host, Noted(keys, b))|
    ensures Block(hash, host, Noted(keys, a)) == Block(hash, host, Noted(keys, b)) <==> a == b || !TakesNotes(keys)
  {
    NotesTaken(hash, host, keys, a);
    NotesTaken(hash, host, keys, b);
    if TakesNotes(keys) {
      var block := Block(hash, host, keys);
      assert Renoted(block, a)[0].notes == a && Renoted(block, b)[0].notes == b;
    }
  }

  // ----- which keys go with their host -----

  /** Removing the host takes the entry away. */
  predicate OnlyNames(hash: HashMatch, e: Entry, host: string) {
    e.IsHostKey() && e.hosts != [] && forall p :: p in e.hosts ==> Names(hash, p, host)
  }

  predicate AllOnlyName(hash: HashMatch, es: seq<Entry>, host: string) {
    forall e :: e in es ==> OnlyNames(hash, e, host)
  }

  /** The keys as they are filed name only their host: removing it takes them all. */
  predicate GoWhole(hash: HashMatch, keys: seq<Entry>, host: string) {
    AllOnlyName(hash, Block(hash, host, keys), host)
  }

  lemma {:induction false} KeptNothing(hash: HashMatch, e: Entry, host: string)
    ensures Kept(hash, e, [host]) == [] <==> OnlyNames(hash, e, host)
    ensures OnlyNames(hash, e, host) ==> GoesWith(hash, e, [host], 0)
  {
    assert [host][..1] == [host] && [host][..0] == [] && [host][0] == host;
    forall p ensures NamedBy(hash, p, [host]) <==> Names(hash, p, host) {
      NamedAlone(hash, p, host);
    }
    RestNothing(hash, e.hosts, [host]);
    if OnlyNames(hash, e, host) {
      assert e.hosts[0] in e.hosts && Names(hash, e.hosts[0], host) && !NamedBy(hash, e.hosts[0], []);
    }
  }

  function AllNotes(es: seq<Entry>): seq<string> {
    if es == [] then [] else es[0].notes + AllNotes(es[1..])
  }

  /** Removing the host leaves nothing of entries exactly when each names it alone,
      and then finds all their notes. */
  lemma {:induction false} GoneWhole(hash: HashMatch, es: seq<Entry>, host: string)
    ensures Remaining(hash, es, [host]) == [] <==> AllOnlyName(hash, es, host)
    ensures AllOnlyName(hash, es, host) ==> NotesAt(hash, es, [host], 0) == AllNotes(es)
  {
    if es != [] {
      var rest := es[1..];
      assert es[0] in es && forall e :: e in es <==> e == es[0] || e in rest;
      KeptNothing(hash, es[0], host);
      GoneWhole(hash, rest, host);
    }
  }

  /** Whatever their notes. */
  lemma {:induction false} GoneUnder(hash: HashMatch, host: string, keys: seq<Entry>, notes: seq<string>)
    requires FiledUnder(keys, host)
    ensures AllOnlyName(hash, Block(hash, host, Noted(keys, notes)), host) <==> GoWhole(hash, keys, host)
  {
    NotesTaken(hash, host, keys, notes);
    if TakesNotes(keys) {
      var block := Block(hash, host, keys);
      var first := block[0].(notes := notes);
      assert Renoted(block, notes) == [first] + block[1..] && block == [block[0]] + block[1..];
      assert OnlyNames(hash, first, host) <==> OnlyNames(hash, block[0], host);
    }
  }

  // ----- one file -----

  /** Both ways leave the same of host i: its keys as it was given last, under the
      same notes, and nothing of those given before. */
  ghost predicate SamePiece(hash: HashMatch, entries: seq<Entry>, hosts: seq<string>, keys: string -> seq<Entry>, i: nat)
    requires i < |hosts|
  {
    if LastSpelling(hosts, i) then BlockOf(hash, entries, hosts, keys, i) == Put(hash, entries, hosts, keys, i)
    else Remaining(hash, Put(hash, entries, hosts, keys, i), [hosts[i]]) == []
  }

  lemma {:induction false} SamePieceWhen(hash: HashMatch, entries: seq<Entry>, hosts: seq<string>,
                                         keys: string -> seq<Entry>, i: nat)
    requires i < |hosts| && Filed(hosts, keys)
    ensures SamePiece(hash, entries, hosts, keys, i) <==>
            if LastSpelling(hosts, i) then
              TakesNotes(keys(hosts[i])) ==>
                Carried(hash, entries, hosts, keys, i) == NotesAt(hash, entries, hosts, FirstSpelling(hosts, i))
            else GoWhole(hash, keys(hosts[i]), hosts[i])
    ensures LastSpelling(hosts, i) ==> |BlockOf(hash, entries, hosts, keys, i)| == |Put(hash, entries, hosts, keys, i)|
  {
    var own, carried := keys(hosts[i]), Carried(hash, entries, hosts, keys, i);
    NotesTell(hash, hosts[i], own, NotesAt(hash, entries, hosts, FirstSpelling(hosts, i)), carried);
    GoneUnder(hash, hosts[i], own, carried);
    GoneWhole(hash, Put(hash, entries, hosts, keys, i), hosts[i]);
  }

  /** Of the first m hosts, what is filed at once is no longer than what is put in at
      each turn. */
  ghost predicate NoLonger(hash: HashMatch, entries: seq<Entry>, hosts: seq<string>, keys: string -> seq<Entry>, m: nat)
    requires m <= |hosts|
  {
    |Blocks(hash, entries, hosts, keys, m)| <= |Lefts(hash, entries, hosts, keys, |hosts|, m)|
  }

  ghost predicate SameSoFar(hash: HashMatch, entries: seq<Entry>, hosts: seq<string>, keys: string -> seq<Entry>, m: nat)
    requires m <= |hosts|
  {
    Blocks(hash, entries, hosts, keys, m) == Lefts(hash, entries, hosts, keys, |hosts|, m)
  }

  lemma {:induction false} SamePieceMore(hash: HashMatch, entries: seq<Entry>, hosts: seq<string>,
                                         keys: string -> seq<Entry>,
                                         i: nat)
    requires i < |hosts| && Filed(hosts, keys) && NameOnlyTheirs(hash, hosts, keys)
    requires NoLonger(hash, entries, hosts, keys, i)
    ensures NoLonger(hash, entries, hosts, keys, i + 1)
    ensures SameSoFar(hash, entries, hosts, keys, i + 1) <==>
            SameSoFar(hash, entries, hosts, keys, i) && SamePiece(hash, entries, hosts, keys, i)
  {
    SamePieceWhen(hash, entries, hosts, keys, i);
    LeftIsPiece(hash, entries, hosts, keys, |hosts|, i);
    LeftsMore(hash, entries, hosts, keys, |hosts|, i);
    assert LastAmong(hosts, i, |hosts|) <==> LastSpelling(hosts, i);
    SameBoth(Blocks(hash, entries, hosts, keys, i),
             if LastSpelling(hosts, i) then BlockOf(hash, entries, hosts, keys, i) else [],
             Lefts(hash, entries, hosts, keys, |hosts|, i), Left(hash, entries, hosts, keys, |hosts|, i));
  }

  ghost predicate AllSame(hash: HashMatch, entries: seq<Entry>, hosts: seq<string>, keys: string -> seq<Entry>, m: nat)
    requires m <= |hosts|
  {
    forall i: nat :: i < m ==> SamePiece(hash, entries, hosts, keys, i)
  }

  lemma {:induction false} AllSameMore(hash: HashMatch, entries: seq<Entry>, hosts: seq<string>, keys: string -> seq<Entry>,
                                       i: nat)
    requires i < |hosts|
    ensures AllSame(hash, entries, hosts, keys, i + 1) <==>
            AllSame(hash, entries, hosts, keys, i) && SamePiece(hash, entries, hosts, keys, i)
  {
  }

  lemma {:induction false} NoneDiffers(hash: HashMatch, entries: seq<Entry>, hosts: seq<string>, keys: string -> seq<Entry>)
    ensures NoLonger(hash, entries, hosts, keys, 0)
    ensures SameSoFar(hash, entries, hosts, keys, 0) && AllSame(hash, entries, hosts, keys, 0)
  {
    assert Blocks(hash, entries, hosts, keys, 0) == [] && Lefts(hash, entries, hosts, keys, |hosts|, 0) == [];
  }

  /** Piece by piece: the two ways leave the same exactly when they leave the same of
      each host. */
  lemma {:induction false} SamePieces(hash: HashMatch, entries: seq<Entry>, hosts: seq<string>, keys: string -> seq<Entry>)
    requires Filed(hosts, keys) && NameOnlyTheirs(hash, hosts, keys)
    ensures SameSoFar(hash, entries, hosts, keys, |hosts|) <==> AllSame(hash, entries, hosts, keys, |hosts|)
    ensures NoLonger(hash, entries, hosts, keys, |hosts|)
  {
    NoneDiffers(hash, entries, hosts, keys);
    for i := 0 to |hosts|
      invariant NoLonger(hash, entries, hosts, keys, i)
      invariant SameSoFar(hash, entries, hosts, keys, i) <==> AllSame(hash, entries, hosts, keys, i)
    {
      SamePieceMore(hash, entries, hosts, keys, i);
      AllSameMore(hash, entries, hosts, keys, i);
    }
  }

  /** The keys given for a host that is given again later go whole, and the notes
      its last keys take are, once all the keys before them were put in and removed
      again, still those that were above its old keys. */
  ghost predicate NotesCarried(hash: HashMatch, entries: seq<Entry>, hosts: seq<string>, keys: string -> seq<Entry>) {
    forall i: nat :: i < |hosts| ==>
      if LastSpelling(hosts, i) then
        TakesNotes(keys(hosts[i])) ==>
          Carried(hash, entries, hosts, keys, i) == NotesAt(hash, entries, hosts, FirstSpelling(hosts, i))
      else GoWhole(hash, keys(hosts[i]), hosts[i])
  }

  /** For every file, and keys filed under their host that name no other of the list:
      replacing the keys of all hosts at once leaves the entries, notes and order that
      replacing them one after another leaves, exactly when the keys of hosts given
      again go whole and carry the notes. */
  lemma {:induction false} AtOnceIsOneByOne(hash: HashMatch, entries: seq<Entry>, hosts: seq<string>,
                                            keys: string -> seq<Entry>)
    requires Filed(hosts, keys) && NameOnlyTheirs(hash, hosts, keys)
    ensures SameEitherWay(hash, entries, hosts, keys) <==> NotesCarried(hash, entries, hosts, keys)
  {
    SameWhenLeft(hash, entries, hosts, keys);
    SamePieces(hash, entries, hosts, keys);
    forall i: nat | i < |hosts|
      ensures SamePiece(hash, entries, hosts, keys, i) <==>
              if LastSpelling(hosts, i) then
                TakesNotes(keys(hosts[i])) ==>
                  Carried(hash, entries, hosts, keys, i) == NotesAt(hash, entries, hosts, FirstSpelling(hosts, i))
              else GoWhole(hash, keys(hosts[i]), hosts[i])
    {
      SamePieceWhen(hash, entries, hosts, keys, i);
    }
  }

  lemma {:induction false} FirstOfOnce(hosts: seq<string>, i: nat)
    requires i < |hosts| && !GivenBefore(hosts, i)
    ensures FirstSpelling(hosts, i) == i
  {
  }

  // ----- every file -----

  predicate NoNotes(keys: seq<Entry>) {
    forall k :: k in keys ==> k.notes == []
  }

  /** Put in under any notes and removed again, the keys give these notes back. */
  predicate PassNotes(keys: seq<Entry>) {
    keys != [] && NoNotes(keys)
  }

  predicate Annotated(es: seq<Entry>) {
    exists i :: 0 <= i < |es| && es[i].notes != []
  }

  lemma {:induction false} AllNotesNone(es: seq<Entry>)
    ensures AllNotes(es) == [] <==> !Annotated(es)
  {
    if es != [] {
      var rest := es[1..];
      AllNotesNone(rest);
      assert |AllNotes(es)| == |es[0].notes| + |AllNotes(rest)|;
      forall i | 0 < i < |es| ensures es[i] == rest[i - 1] {
      }
      if Annotated(rest) {
        var i :| 0 <= i < |rest| && rest[i].notes != [];
        assert es[i + 1].notes != [];
      }
    }
  }

  lemma {:induction false} PutKeyAnnotates(hash: HashMatch, host: string, st: Placing, k: Entry)
    requires st.Valid() && (k.hosts != [] ==> SameHost(k.hosts[0], host))
    ensures Annotated(PutKey(hash, {ToLower(host)}, st, k).entries) <==> Annotated(st.entries) || k.notes != []
  {
    var r := PutKey(hash, {ToLower(host)}, st, k);
    if k.hosts != [] && SlotOf(k) in st.added {
      var at := st.added[SlotOf(k)];
      assert r.entries[at].notes == if k.notes == [] then st.entries[at].notes else k.notes;
      forall i | 0 <= i < |r.entries| && i != at ensures r.entries[i] == st.entries[i] {
      }
      if i :| 0 <= i < |st.entries| && st.entries[i].notes != [] {
        assert r.entries[i].notes != [];
      }
    } else {
      var n := |st.entries|;
      assert r.entries == st.entries + [k] && r.entries[n] == k;
      if i :| 0 <= i < n && st.entries[i].notes != [] {
        assert r.entries[i].notes != [];
      }
    }
  }

  lemma {:induction false} PutKeysAnnotate(hash: HashMatch, host: string, st: Placing, keys: seq<Entry>)
    requires st.Valid() && FiledUnder(keys, host)
    ensures Annotated(PutKeys(hash, {ToLower(host)}, st, keys).entries) <==> Annotated(st.entries) || !NoNotes(keys)
    decreases |keys|
  {
    if keys != [] {
      var k, rest := keys[0], keys[1..];
      assert k in keys && forall x :: x in keys <==> x == k || x in rest;
      PutKeyAnnotates(hash, host, st, k);
      PutKeysAnnotate(hash, host, PutKey(hash, {ToLower(host)}, st, k), rest);
    }
  }

  /** The notes a host's keys have when no other are found. */
  function OwnNotes(hash: HashMatch, host: string, keys: seq<Entry>): seq<string> {
    AllNotes(Block(hash, host, keys))
  }

  lemma {:induction false} OwnNotesNone(hash: HashMatch, host: string, keys: seq<Entry>)
    requires FiledUnder(keys, host)
    ensures OwnNotes(hash, host, keys) == [] <==> NoNotes(keys)
  {
    PutKeysAnnotate(hash, host, Placing([], map[]), keys);
    AllNotesNone(Block(hash, host, keys));
  }

  /** The notes of keys put in under others: with those found, or without. */
  lemma {:induction false} NotesUnder(hash: HashMatch, host: string, keys: seq<Entry>, notes: seq<string>)
    requires FiledUnder(keys, host)
    ensures AllNotes(Block(hash, host, Noted(keys, notes)))
            == (if TakesNotes(keys) then notes else []) + OwnNotes(hash, host, keys)
  {
    NotesTaken(hash, host, keys, notes);
    var block := Block(hash, host, keys);
    assert [] + AllNotes(block) == AllNotes(block);
    if TakesNotes(keys) {
      assert Renoted(block, notes)[1..] == block[1..];
      assert AllNotes(block) == [] + AllNotes(block[1..]) == AllNotes(block[1..]);
    }
  }

  /** The notes a host given again finds. */
  lemma {:induction false} CarriedOn(hash: HashMatch, entries: seq<Entry>, hosts: seq<string>,
                                     keys: string -> seq<Entry>, i: nat)
    requires i < |hosts| && GivenBefore(hosts, i)
    requires var p := Previous(hosts, i); GoWhole(hash, keys(hosts[p]), hosts[p])
    requires Filed(hosts, keys) && NameOnlyTheirs(hash, hosts, keys)
    ensures var p := Previous(hosts, i);
            Carried(hash, entries, hosts, keys, i)
            == (if TakesNotes(keys(hosts[p])) then Carried(hash, entries, hosts, keys, p) else [])
               + OwnNotes(hash, hosts[p], keys(hosts[p]))
  {
    CarriedIs(hash, entries, hosts, keys, i);
    var p := Previous(hosts, i);
    var carried := Carried(hash, entries, hosts, keys, p);
    var put := BlockUnder(hash, hosts, keys, p, carried);
    SameRemoval(hash, put, hosts[p], hosts[i]);
    GoneUnder(hash, hosts[p], keys(hosts[p]), carried);
    GoneWhole(hash, put, hosts[p]);
    NotesUnder(hash, hosts[p], keys(hosts[p]), carried);
  }

  /** Every key list given for the host before pass i passes the notes on. */
  ghost predicate PassedUpTo(hosts: seq<string>, keys: string -> seq<Entry>, i: nat)
    requires i < |hosts|
  {
    forall j: nat :: j < i && SameHost(hosts[j], hosts[i]) ==> PassNotes(keys(hosts[j]))
  }

  ghost predicate AllGoWhole(hash: HashMatch, hosts: seq<string>, keys: string -> seq<Entry>) {
    forall i: nat :: i < |hosts| && !LastSpelling(hosts, i) ==> GoWhole(hash, keys(hosts[i]), hosts[i])
  }

  lemma {:induction false} FirstOfBoth(hosts: seq<string>, i: nat, j: nat)
    requires i < |hosts| && j < |hosts| && SameHost(hosts[i], hosts[j])
    ensures FirstSpelling(hosts, i) == FirstSpelling(hosts, j)
  {
  }

  lemma {:induction false} PassedMore(hosts: seq<string>, keys: string -> seq<Entry>, i: nat)
    requires i < |hosts| && GivenBefore(hosts, i)
    ensures PassedUpTo(hosts, keys, i) <==>
            PassedUpTo(hosts, keys, Previous(hosts, i)) && PassNotes(keys(hosts[Previous(hosts, i)]))
  {
  }

  lemma {:induction false} PassesOn(hash: HashMatch, entries: seq<Entry>, hosts: seq<string>, keys: string -> seq<Entry>, i: nat)
    requires i < |hosts| && GivenBefore(hosts, i)
    requires Filed(hosts, keys) && NameOnlyTheirs(hash, hosts, keys)
    requires var p := Previous(hosts, i);
             GoWhole(hash, keys(hosts[p]), hosts[p]) && PassNotes(keys(hosts[p]))
    ensures Carried(hash, entries, hosts, keys, i) == Carried(hash, entries, hosts, keys, Previous(hosts, i))
  {
    var p := Previous(hosts, i);
    var own, carried := keys(hosts[p]), Carried(hash, entries, hosts, keys, p);
    CarriedOn(hash, entries, hosts, keys, i);
    OwnNotesNone(hash, hosts[p], own);
    assert own[0] in own && !SomeBringsNotes(own[1..], PlaceOf(own[0]));
    assert carried + [] == carried;
  }

  lemma {:induction false} FirstFinds(hash: HashMatch, entries: seq<Entry>, hosts: seq<string>, keys: string -> seq<Entry>,
                                      i: nat)
    requires i < |hosts| && !GivenBefore(hosts, i)
    requires Filed(hosts, keys) && NameOnlyTheirs(hash, hosts, keys)
    ensures Carried(hash, entries, hosts, keys, i) == NotesAt(hash, entries, hosts, FirstSpelling(hosts, i))
  {
    CarriedIs(hash, entries, hosts, keys, i);
    FirstOfOnce(hosts, i);
  }

  lemma {:induction false} PassedOn(hash: HashMatch, entries: seq<Entry>, hosts: seq<string>, keys: string -> seq<Entry>, i: nat)
    requires i < |hosts| && AllGoWhole(hash, hosts, keys) && PassedUpTo(hosts, keys, i)
    requires Filed(hosts, keys) && NameOnlyTheirs(hash, hosts, keys)
    ensures Carried(hash, entries, hosts, keys, i) == NotesAt(hash, entries, hosts, FirstSpelling(hosts, i))
    decreases i
  {
    if GivenBefore(hosts, i) {
      var p := Previous(hosts, i);
      PassedMore(hosts, keys, i);
      PassedOn(hash, entries, hosts, keys, p);
      assert !LastSpelling(hosts, p);
      PassesOn(hash, entries, hosts, keys, i);
      FirstOfBoth(hosts, i, p);
    } else {
      FirstFinds(hash, entries, hosts, keys, i);
    }
  }

  /** A host name as it is written: no pattern. */
  predicate PlainName(h: string) {
    !Negated(h) && !HasWildcard(h) && !Hashed(h)
  }

  /** A file of one line, the host's, under these notes. */
  function FileOf(h: string, notes: seq<string>): seq<Entry> {
    [Entry("", [h], "t", "k", "", notes)]
  }

  lemma {:induction false} NotesOfFile(hash: HashMatch, hosts: seq<string>, i: nat, notes: seq<string>)
    requires i < |hosts| && PlainName(hosts[i])
    ensures NotesAt(hash, FileOf(hosts[i], notes), hosts, FirstSpelling(hosts, i)) == notes
  {
    var h, f, e := hosts[i], FirstSpelling(hosts, i), FileOf(hosts[i], notes)[0];
    assert Names(hash, h, hosts[f]);
    forall j | 0 <= j < f ensures !Names(hash, h, hosts[..f][j]) {
    }
    assert !NamedBy(hash, h, hosts[..f]) && h in e.hosts;
    assert hosts[..f + 1][f] == hosts[f];
    assert NamedBy(hash, h, hosts[..f + 1]);
    RestNothing(hash, e.hosts, hosts[..f + 1]);
    assert GoesWith(hash, e, hosts, f);
    assert FileOf(h, notes)[1..] == [] && notes + [] == notes;
  }

  const NOTE: seq<string> := ["# note"]

  /** Of two files, one with a note and one without: either the notes carried are the
      same by now, or the note is still above what was added; and nothing was added
      only by keys that pass notes on. */
  ghost predicate TellsApart(hash: HashMatch, hosts: seq<string>, keys: string -> seq<Entry>, h: string, i: nat)
    requires i < |hosts|
  {
    var bare, noted := Carried(hash, FileOf(h, []), hosts, keys, i), Carried(hash, FileOf(h, NOTE), hosts, keys, i);
    bare == noted || (noted == NOTE + bare && (bare == [] ==> PassedUpTo(hosts, keys, i)))
  }

  lemma {:induction false} TellsApartFirst(hash: HashMatch, hosts: seq<string>,
                                           keys: string -> seq<Entry>, last: nat, i: nat)
    requires last < |hosts| && i < |hosts| && SameHost(hosts[i], hosts[last]) && PlainName(hosts[last])
    requires !GivenBefore(hosts, i)
    requires Filed(hosts, keys) && NameOnlyTheirs(hash, hosts, keys)
    ensures TellsApart(hash, hosts, keys, hosts[last], i)
  {
    FirstFinds(hash, FileOf(hosts[last], []), hosts, keys, i);
    FirstFinds(hash, FileOf(hosts[last], NOTE), hosts, keys, i);
    FirstOfBoth(hosts, i, last);
    NotesOfFile(hash, hosts, last, []);
    NotesOfFile(hash, hosts, last, NOTE);
    assert NOTE + [] == NOTE;
  }

  lemma {:induction false} TellsApartNext(hash: HashMatch, hosts: seq<string>, keys: string -> seq<Entry>, h: string, i: nat)
    requires i < |hosts| && GivenBefore(hosts, i) && AllGoWhole(hash, hosts, keys)
    requires TellsApart(hash, hosts, keys, h, Previous(hosts, i))
    requires Filed(hosts, keys) && NameOnlyTheirs(hash, hosts, keys)
    ensures TellsApart(hash, hosts, keys, h, i)
  {
    var p := Previous(hosts, i);
    assert !LastSpelling(hosts, p);
    CarriedOn(hash, FileOf(h, []), hosts, keys, i);
    CarriedOn(hash, FileOf(h, NOTE), hosts, keys, i);
    OwnNotesNone(hash, hosts[p], keys(hosts[p]));
    PassedMore(hosts, keys, i);
    Assoc(NOTE, Carried(hash, FileOf(h, []), hosts, keys, p), OwnNotes(hash, hosts[p], keys(hosts[p])));
  }

  lemma {:induction false} TellsApartAt(hash: HashMatch, hosts: seq<string>, keys: string -> seq<Entry>, last: nat, i: nat)
    requires last < |hosts| && i < |hosts| && SameHost(hosts[i], hosts[last]) && PlainName(hosts[last])
    requires AllGoWhole(hash, hosts, keys)
    requires Filed(hosts, keys) && NameOnlyTheirs(hash, hosts, keys)
    ensures TellsApart(hash, hosts, keys, hosts[last], i)
    decreases i
  {
    if GivenBefore(hosts, i) {
      TellsApartAt(hash, hosts, keys, last, Previous(hosts, i));
      TellsApartNext(hash, hosts, keys, hosts[last], i);
    } else {
      TellsApartFirst(hash, hosts, keys, last, i);
    }
  }

  /** Of every host given again: the keys given before go whole, and they pass notes
      on if the keys given last take them. */
  ghost predicate RepeatsPass(hash: HashMatch, hosts: seq<string>, keys: string -> seq<Entry>) {
    && AllGoWhole(hash, hosts, keys)
    && forall i: nat :: i < |hosts| && LastSpelling(hosts, i) && TakesNotes(keys(hosts[i])) ==> PassedUpTo(hosts, keys, i)
  }

  lemma {:induction false} RepeatsPassed(hash: HashMatch, entries: seq<Entry>, hosts: seq<string>,
                                         keys: string -> seq<Entry>)
    requires Filed(hosts, keys) && NameOnlyTheirs(hash, hosts, keys) && RepeatsPass(hash, hosts, keys)
    ensures SameEitherWay(hash, entries, hosts, keys)
  {
    AtOnceIsOneByOne(hash, entries, hosts, keys);
    forall i: nat | i < |hosts| && LastSpelling(hosts, i) && TakesNotes(keys(hosts[i]))
      ensures Carried(hash, entries, hosts, keys, i) == NotesAt(hash, entries, hosts, FirstSpelling(hosts, i))
    {
      PassedOn(hash, entries, hosts, keys, i);
    }
  }

  lemma {:induction false} LastPassed(hash: HashMatch, hosts: seq<string>, keys: string -> seq<Entry>, i: nat)
    requires i < |hosts| && LastSpelling(hosts, i) && TakesNotes(keys(hosts[i])) && PlainName(hosts[i])
    requires AllGoWhole(hash, hosts, keys)
    requires NotesCarried(hash, FileOf(hosts[i], []), hosts, keys) && NotesCarried(hash, FileOf(hosts[i], NOTE), hosts, keys)
    requires Filed(hosts, keys) && NameOnlyTheirs(hash, hosts, keys)
    ensures PassedUpTo(hosts, keys, i)
  {
    NotesOfFile(hash, hosts, i, []);
    NotesOfFile(hash, hosts, i, NOTE);
    TellsApartAt(hash, hosts, keys, i, i);
  }

  /** What a caller can tell before: for plain host names, the two ways leave the same
      of every file exactly when, of each host given again, the keys given before go
      whole, and pass notes on if the keys given last take them. */
  lemma {:induction false} SameForEveryFile(hash: HashMatch, hosts: seq<string>, keys: string -> seq<Entry>)
    requires Filed(hosts, keys) && NameOnlyTheirs(hash, hosts, keys) && forall h :: h in hosts ==> PlainName(h)
    ensures (forall entries :: SameEitherWay(hash, entries, hosts, keys)) <==> RepeatsPass(hash, hosts, keys)
  {
    if RepeatsPass(hash, hosts, keys) {
      forall entries ensures SameEitherWay(hash, entries, hosts, keys) {
        RepeatsPassed(hash, entries, hosts, keys);
      }
    }
    if forall entries :: SameEitherWay(hash, entries, hosts, keys) {
      assert SameEitherWay(hash, [], hosts, keys);
      AtOnceIsOneByOne(hash, [], hosts, keys);
      forall i: nat | i < |hosts| && LastSpelling(hosts, i) && TakesNotes(keys(hosts[i])) ensures PassedUpTo(hosts, keys, i) {
        assert SameEitherWay(hash, FileOf(hosts[i], []), hosts, keys);
        assert SameEitherWay(hash, FileOf(hosts[i], NOTE), hosts, keys);
        AtOnceIsOneByOne(hash, FileOf(hosts[i], []), hosts, keys);
        AtOnceIsOneByOne(hash, FileOf(hosts[i], NOTE), hosts, keys);
        LastPassed(hash, hosts, keys, i);
      }
    }
  }

  // ----- why a host given again asks for more -----

  ghost predicate GivenTwice(hash: HashMatch, hosts: seq<string>, keys: string -> seq<Entry>) {
    |hosts| == 2 && SameHost(hosts[0], hosts[1]) && Filed(hosts, keys) && NameOnlyTheirs(hash, hosts, keys)
  }

  /** Of a host given twice, what is left is a block under the notes found first. */
  lemma {:induction false} TwiceAtOnce(hash: HashMatch, entries: seq<Entry>, hosts: seq<string>, keys: string -> seq<Entry>)
    requires GivenTwice(hash, hosts, keys)
    ensures ReplacedAll(hash, entries, hosts, keys)
            == Remaining(hash, entries, hosts) + Block(hash, hosts[1], Noted(keys(hosts[1]), NotesAt(hash, entries, hosts, 0)))
  {
    PlacedBlocks(hash, entries, hosts, keys, 2);
    assert FirstSpelling(hosts, 1) == 0 && !LastSpelling(hosts, 0) && LastSpelling(hosts, 1);
    assert Blocks(hash, entries, hosts, keys, 0) == [];
    assert [] + [] == Blocks(hash, entries, hosts, keys, 1);
    var block := BlockOf(hash, entries, hosts, keys, 1);
    assert [] + block == block;
  }

  /** Replaced one after another, it is a block under the notes found the second
      time. */
  lemma {:induction false} TwiceOneByOne(hash: HashMatch, entries: seq<Entry>, hosts: seq<string>,
                                         keys: string -> seq<Entry>,
                                         between: seq<Entry>)
    requires GivenTwice(hash, hosts, keys)
    requires between == Remaining(hash, entries, hosts[..1])
                        + Block(hash, hosts[0], Noted(keys(hosts[0]), NotesAt(hash, entries, hosts[..1], 0)))
    ensures ReplacedOneByOne(hash, entries, hosts, keys)
            == Remaining(hash, between, hosts[1..])
               + Block(hash, hosts[1], Noted(keys(hosts[1]), NotesAt(hash, between, hosts[1..], 0)))
  {
    assert hosts[..1] == [hosts[0]] && hosts[1..] == [hosts[1]] && hosts[1..][..1] == [hosts[1]] && hosts[1..][1..] == [];
    ReplaceOne(hash, entries, hosts[0], keys);
    ReplaceOne(hash, between, hosts[1], keys);
    OneByOneOfOne(hash, between, hosts[1..], keys);
  }

  lemma {:induction false} OneByOneOfOne(hash: HashMatch, entries: seq<Entry>, hosts: seq<string>,
                                         keys: string -> seq<Entry>)
    requires |hosts| == 1
    ensures ReplacedOneByOne(hash, entries, hosts, keys) == ReplacedAll(hash, entries, hosts, keys)
  {
    assert hosts[..1] == hosts && hosts[1..] == [];
  }

  /** A host given again whose keys were none the first time: one after another, the
      notes above its old key are lost; all at once, they are kept. */
  lemma {:induction false} NoKeysLoseNotes(hash: HashMatch, old': Entry, hosts: seq<string>,
                                           keys: string -> seq<Entry>, k: Entry)
    requires GivenTwice(hash, hosts, keys) && keys(hosts[0]) == [] && keys(hosts[1]) == [k] && k.notes == []
    requires OnlyNames(hash, old', hosts[0]) && OnlyNames(hash, k, hosts[1])
    ensures ReplacedAll(hash, [old'], hosts, keys) == [k.(notes := old'.notes)]
    ensures ReplacedOneByOne(hash, [old'], hosts, keys) == [k]
  {
    var entries := [old'];
    assert [hosts[0]] == hosts[..1];
    OneKeyBlock(hash, hosts[1], k, old'.notes);
    OneKeyBlock(hash, hosts[1], k, []);
    GoneOfTwo(hash, old', hosts);
    TwiceAtOnce(hash, entries, hosts, keys);
    GoneWhole(hash, entries, hosts[0]);
    assert Block(hash, hosts[0], Noted([], NotesAt(hash, entries, hosts[..1], 0))) == [];
    TwiceOneByOne(hash, entries, hosts, keys, []);
  }

  lemma {:induction false} OneKeyBlock(hash: HashMatch, host: string, k: Entry, notes: seq<string>)
    requires FiledUnder([k], host) && k.notes == []
    ensures Block(hash, host, Noted([k], notes)) == [k.(notes := notes)]
  {
    var noted := k.(notes := notes);
    assert [k][1..] == [] && k in [k] && [noted][1..] == [];
    assert Noted([k], notes) == [noted] && [] + [noted] == [noted];
    var listed, start := {ToLower(host)}, Placing([], map[]);
    var st := PutKey(hash, listed, start, noted);
    assert st.entries == [noted] && PutKeys(hash, listed, st, []) == st;
    assert PutKeys(hash, listed, start, [noted]) == PutKeys(hash, listed, st, [noted][1..]);
  }

  lemma {:induction false} GoneOfTwo(hash: HashMatch, e: Entry, hosts: seq<string>)
    requires |hosts| == 2 && OnlyNames(hash, e, hosts[0])
    ensures Remaining(hash, [e], hosts) == [] && NotesAt(hash, [e], hosts, 0) == e.notes
  {
    forall p | p in e.hosts ensures NamedBy(hash, p, hosts) {
      assert Names(hash, p, hosts[0]);
    }
    RestNothing(hash, e.hosts, hosts);
    assert hosts[..1] == [hosts[0]] && hosts[..0] == [];
    KeptNothing(hash, e, hosts[0]);
    assert e.hosts[0] in e.hosts && Names(hash, e.hosts[0], hosts[0]) && !NamedBy(hash, e.hosts[0], []);
    assert [e][1..] == [] && e.notes + [] == e.notes;
  }

  lemma {:induction false} TwoKeyBlock(hash: HashMatch, host: string, k: Entry, other: Entry, notes: seq<string>)
    requires FiledUnder([k, other], host) && k.notes == [] && k.hosts != [] && other.hosts != [] && k.typ != other.typ
    ensures Block(hash, host, Noted([k, other], notes)) == [k.(notes := notes), other]
  {
    var keys, noted := [k, other], k.(notes := notes);
    assert keys[0] in keys && keys[1] in keys && keys[1..] == [other] && [noted, other][1..] == [other] && [other][1..] == [];
    assert Noted(keys, notes) == [noted, other];
    var listed, start := {ToLower(host)}, Placing([], map[]);
    var one := PutKey(hash, listed, start, noted);
    assert [] + [noted] == [noted] && one.entries == [noted] && one.added.Keys == {SlotOf(noted)};
    var two := PutKey(hash, listed, one, other);
    assert two.entries == [noted] + [other] == [noted, other];
    assert PutKeys(hash, listed, two, []) == two;
    assert PutKeys(hash, listed, one, [other]) == PutKeys(hash, listed, two, [other][1..]);
    assert PutKeys(hash, listed, start, [noted, other]) == PutKeys(hash, listed, one, [noted, other][1..]);
  }

  ghost predicate TwoKeysTwice(hash: HashMatch, hosts: seq<string>, keys: string -> seq<Entry>, k: Entry, other: Entry) {
    && GivenTwice(hash, hosts, keys) && keys(hosts[0]) == keys(hosts[1]) == [k, other]
    && k.notes == [] && k.typ != other.typ
    && OnlyNames(hash, k, hosts[1]) && OnlyNames(hash, other, hosts[1])
  }

  lemma {:induction false} TwoKeysAtOnce(hash: HashMatch, hosts: seq<string>,
                                         keys: string -> seq<Entry>, k: Entry, other: Entry)
    requires TwoKeysTwice(hash, hosts, keys, k, other)
    ensures ReplacedAll(hash, [], hosts, keys) == [k, other]
  {
    TwoKeyBlock(hash, hosts[1], k, other, []);
    assert k.(notes := []) == k && [] + [k, other] == [k, other];
    TwiceAtOnce(hash, [], hosts, keys);
  }

  lemma {:induction false} TwoKeysOneByOne(hash: HashMatch, hosts: seq<string>, keys: string -> seq<Entry>, k: Entry,
                                           other: Entry)
    requires TwoKeysTwice(hash, hosts, keys, k, other)
    ensures ReplacedOneByOne(hash, [], hosts, keys) == [k.(notes := other.notes), other]
  {
    var both, last := [k, other], [k.(notes := other.notes), other];
    BothFirst(hash, hosts, keys, k, other);
    TwiceOneByOne(hash, [], hosts, keys, both);
    assert hosts[1..] == [hosts[1]] && [] + last == last;
    BothGone(hash, hosts[1], k, other);
    TwoKeyBlock(hash, hosts[1], k, other, other.notes);
  }

  lemma {:induction false} BothFirst(hash: HashMatch, hosts: seq<string>, keys: string -> seq<Entry>, k: Entry, other: Entry)
    requires TwoKeysTwice(hash, hosts, keys, k, other)
    ensures [k, other] == Remaining(hash, [], hosts[..1])
                          + Block(hash, hosts[0], Noted(keys(hosts[0]), NotesAt(hash, [], hosts[..1], 0)))
  {
    TwoKeyBlock(hash, hosts[0], k, other, []);
    assert k.(notes := []) == k && [] + [k, other] == [k, other];
  }

  /** A host given again one of whose keys has notes of its own: one after another,
      these are found above the old keys and put above the first; all at once, they
      are not. */
  lemma {:induction false} OwnNotesSpread(hash: HashMatch, hosts: seq<string>,
                                          keys: string -> seq<Entry>, k: Entry, other: Entry)
    requires TwoKeysTwice(hash, hosts, keys, k, other)
    ensures ReplacedAll(hash, [], hosts, keys) == [k, other]
    ensures ReplacedOneByOne(hash, [], hosts, keys) == [k.(notes := other.notes), other]
  {
    TwoKeysAtOnce(hash, hosts, keys, k, other);
    TwoKeysOneByOne(hash, hosts, keys, k, other);
  }

  lemma {:induction false} BothGone(hash: HashMatch, host: string, k: Entry, other: Entry)
    requires OnlyNames(hash, k, host) && OnlyNames(hash, other, host) && k.notes == []
    ensures Remaining(hash, [k, other], [host]) == [] && NotesAt(hash, [k, other], [host], 0) == other.notes
  {
    var both := [k, other];
    GoneWhole(hash, both, host);
    assert both[1..] == [other] && [other][1..] == [];
    assert AllNotes([other]) == other.notes + [] == other.notes && [] + other.notes == other.notes;
  }
}
