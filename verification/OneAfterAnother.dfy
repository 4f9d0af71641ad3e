/** Replacing the keys of all hosts at once, and replacing those of one host
    after another: what each leaves (internal/hostkeys/hostkeys.go). */
module OneAfterAnother {
  import opened Text
  import opened Patterns
  import opened Removal
  import opened Replacement

  /** The notes found above the old keys of host n when its turn comes: those of the
      lines of the file that go with it, and those of the keys put in before it that
      do. */
  function Carried(hash: HashMatch, entries: seq<Entry>, hosts: seq<string>, keys: string -> seq<Entry>, n: nat): seq<string>
    requires n < |hosts|
    decreases n, 1
  {
    NotesAt(hash, entries, hosts, n) + NotesAt(hash, Lefts(hash, entries, hosts, keys, n, n), [hosts[n]], 0)
  }

  /** The keys of host i as they are put in when its turn comes. */
  function Put(hash: HashMatch, entries: seq<Entry>, hosts: seq<string>, keys: string -> seq<Entry>, i: nat): seq<Entry>
    requires i < |hosts|
    decreases i, 2
  {
    BlockUnder(hash, hosts, keys, i, Carried(hash, entries, hosts, keys, i))
  }

  /** What the turns up to the n-th leave of them. */
  function Left(hash: HashMatch, entries: seq<Entry>, hosts: seq<string>,
                keys: string -> seq<Entry>, n: nat, i: nat): seq<Entry>
    requires i < n <= |hosts|
    decreases i, 3
  {
    Remaining(hash, Put(hash, entries, hosts, keys, i), hosts[i + 1..n])
  }

  /** And of those of the first m hosts. */
  function Lefts(hash: HashMatch, entries: seq<Entry>, hosts: seq<string>,
                 keys: string -> seq<Entry>, n: nat, m: nat): seq<Entry>
    requires m <= n <= |hosts|
    decreases m, 0
  {
    if m == 0 then [] else Lefts(hash, entries, hosts, keys, n, m - 1) + Left(hash, entries, hosts, keys, n, m - 1)
  }

  lemma {:induction false} LeftsMore(hash: HashMatch, entries: seq<Entry>, hosts: seq<string>,
                                     keys: string -> seq<Entry>, n: nat, m: nat)
    requires m < n <= |hosts|
    ensures Lefts(hash, entries, hosts, keys, n, m + 1)
            == Lefts(hash, entries, hosts, keys, n, m) + Left(hash, entries, hosts, keys, n, m)
  {
  }

  lemma {:induction false} LeftFirst(hash: HashMatch, entries: seq<Entry>, hosts: seq<string>,
                                     keys: string -> seq<Entry>, i: nat)
    requires i < |hosts|
    ensures Left(hash, entries, hosts, keys, i + 1, i) == Put(hash, entries, hosts, keys, i)
  {
    assert hosts[i + 1..i + 1] == [];
    RemainingNone(hash, Put(hash, entries, hosts, keys, i));
  }

  lemma {:induction false} LeftNext(hash: HashMatch, entries: seq<Entry>, hosts: seq<string>,
                                    keys: string -> seq<Entry>, n: nat, i: nat)
    requires i < n < |hosts|
    ensures Remaining(hash, Left(hash, entries, hosts, keys, n, i), [hosts[n]]) == Left(hash, entries, hosts, keys, n + 1, i)
  {
    RemainingTwice(hash, Put(hash, entries, hosts, keys, i), hosts[i + 1..n], [hosts[n]]);
    assert hosts[i + 1..n] + [hosts[n]] == hosts[i + 1..n + 1];
  }

  lemma {:induction false} LeftsNext(hash: HashMatch, entries: seq<Entry>, hosts: seq<string>,
                                     keys: string -> seq<Entry>, n: nat)
    requires n < |hosts|
    ensures Remaining(hash, Lefts(hash, entries, hosts, keys, n, n), [hosts[n]]) == Lefts(hash, entries, hosts, keys, n + 1, n)
  {
    for m := 0 to n
      invariant Remaining(hash, Lefts(hash, entries, hosts, keys, n, m), [hosts[n]])
        == Lefts(hash, entries, hosts, keys, n + 1, m)
    {
      LeftsMore(hash, entries, hosts, keys, n, m);
      LeftsMore(hash, entries, hosts, keys, n + 1, m);
      LeftNext(hash, entries, hosts, keys, n, m);
      RemainingAppend(hash, Lefts(hash, entries, hosts, keys, n, m), Left(hash, entries, hosts, keys, n, m), [hosts[n]]);
    }
  }

  /** The file after the turns of the first n hosts. */
  function AfterHosts(hash: HashMatch, entries: seq<Entry>, hosts: seq<string>,
                      keys: string -> seq<Entry>, n: nat): seq<Entry>
    requires n <= |hosts|
  {
    Remaining(hash, entries, hosts[..n]) + Lefts(hash, entries, hosts, keys, n, n)
  }

  lemma {:induction false} RemoveNext(hash: HashMatch, entries: seq<Entry>, hosts: seq<string>,
                                      keys: string -> seq<Entry>, n: nat)
    requires n < |hosts|
    ensures Remaining(hash, AfterHosts(hash, entries, hosts, keys, n), [hosts[n]])
            == Remaining(hash, entries, hosts[..n + 1]) + Lefts(hash, entries, hosts, keys, n + 1, n)
    ensures NotesAt(hash, AfterHosts(hash, entries, hosts, keys, n), [hosts[n]], 0) == Carried(hash, entries, hosts, keys, n)
  {
    var left, lefts := Remaining(hash, entries, hosts[..n]), Lefts(hash, entries, hosts, keys, n, n);
    RemainingAppend(hash, left, lefts, [hosts[n]]);
    NotesAppend(hash, left, lefts, [hosts[n]], 0);
    LeftsNext(hash, entries, hosts, keys, n);
    RemoveNextHost(hash, entries, hosts, n, []);
    assert left + [] == left && Remaining(hash, entries, hosts[..n + 1]) + [] == Remaining(hash, entries, hosts[..n + 1]);
  }

  /** Replacing one host: what is left of the others, and then its keys. */
  lemma {:induction false} ReplaceOne(hash: HashMatch, before: seq<Entry>, h: string, keys: string -> seq<Entry>)
    requires FiledUnder(keys(h), h)
    ensures ReplacedAll(hash, before, [h], keys)
            == Remaining(hash, before, [h]) + Block(hash, h, Noted(keys(h), NotesAt(hash, before, [h], 0)))
  {
    var hosts := [h];
    PlacedBlocks(hash, before, hosts, keys, 1);
    assert Blocks(hash, before, hosts, keys, 0) == [] && LastSpelling(hosts, 0);
    assert [] + BlockOf(hash, before, hosts, keys, 0) == BlockOf(hash, before, hosts, keys, 0);
  }

  lemma {:induction false} ReplaceNext(hash: HashMatch, entries: seq<Entry>, hosts: seq<string>,
                                       keys: string -> seq<Entry>, n: nat)
    requires n < |hosts| && Filed(hosts, keys)
    ensures ReplacedAll(hash, AfterHosts(hash, entries, hosts, keys, n), [hosts[n]], keys)
            == AfterHosts(hash, entries, hosts, keys, n + 1)
  {
    ReplaceOne(hash, AfterHosts(hash, entries, hosts, keys, n), hosts[n], keys);
    RemoveNext(hash, entries, hosts, keys, n);
    LeftsMore(hash, entries, hosts, keys, n + 1, n);
    LeftFirst(hash, entries, hosts, keys, n);
    Assoc(Remaining(hash, entries, hosts[..n + 1]), Lefts(hash, entries, hosts, keys, n + 1, n),
          Put(hash, entries, hosts, keys, n));
  }

  /** From there on, one after another. */
  function Onwards(hash: HashMatch, entries: seq<Entry>, hosts: seq<string>, keys: string -> seq<Entry>, n: nat): seq<Entry>
    requires n <= |hosts|
  {
    ReplacedOneByOne(hash, AfterHosts(hash, entries, hosts, keys, n), hosts[n..], keys)
  }

  lemma {:induction false} OneByOneStep(hash: HashMatch, entries: seq<Entry>, hosts: seq<string>,
                                        keys: string -> seq<Entry>, n: nat)
    requires n < |hosts| && Filed(hosts, keys)
    ensures Onwards(hash, entries, hosts, keys, n) == Onwards(hash, entries, hosts, keys, n + 1)
  {
    ReplaceNext(hash, entries, hosts, keys, n);
    DropOne(hosts, n);
  }

  lemma {:induction false} OneByOneEnds(hash: HashMatch, entries: seq<Entry>, hosts: seq<string>, keys: string -> seq<Entry>)
    requires Filed(hosts, keys)
    ensures Onwards(hash, entries, hosts, keys, 0) == AfterHosts(hash, entries, hosts, keys, |hosts|)
  {
    for n := 0 to |hosts|
      invariant Onwards(hash, entries, hosts, keys, 0) == Onwards(hash, entries, hosts, keys, n)
    {
      OneByOneStep(hash, entries, hosts, keys, n);
    }
    assert hosts[|hosts|..] == [];
  }

  /** What either way leaves: the same entries of the file, and then the keys of each
      host, at once as they are filed, and one after another as they are put in at its
      turn and as the turns after it leave them. */
  lemma {:induction false} EitherWay(hash: HashMatch, entries: seq<Entry>, hosts: seq<string>, keys: string -> seq<Entry>)
    requires Filed(hosts, keys)
    ensures ReplacedAll(hash, entries, hosts, keys)
            == Remaining(hash, entries, hosts) + Blocks(hash, entries, hosts, keys, |hosts|)
    ensures ReplacedOneByOne(hash, entries, hosts, keys)
            == Remaining(hash, entries, hosts) + Lefts(hash, entries, hosts, keys, |hosts|, |hosts|)
  {
    PlacedBlocks(hash, entries, hosts, keys, |hosts|);
    OneByOneEnds(hash, entries, hosts, keys);
    RemainingNone(hash, entries);
    assert hosts[..0] == [] && hosts[0..] == hosts && hosts[..|hosts|] == hosts;
    assert AfterHosts(hash, entries, hosts, keys, 0) == entries;
  }

  ghost predicate SameEitherWay(hash: HashMatch, entries: seq<Entry>, hosts: seq<string>, keys: string -> seq<Entry>) {
    ReplacedAll(hash, entries, hosts, keys) == ReplacedOneByOne(hash, entries, hosts, keys)
  }

  lemma {:induction false} SameBoth<T>(a: seq<T>, x: seq<T>, b: seq<T>, y: seq<T>)
    requires |a| <= |b| && |x| <= |y|
    ensures |a + x| <= |b + y| && (a + x == b + y <==> a == b && x == y)
  {
    if a + x == b + y {
      assert a == (a + x)[..|a|] == (b + y)[..|b|] == b;
      assert x == (a + x)[|a|..] == (b + y)[|b|..] == y;
    }
  }

  /** The two are the same exactly when what is filed is what is left. */
  lemma {:induction false} SameWhenLeft(hash: HashMatch, entries: seq<Entry>, hosts: seq<string>, keys: string -> seq<Entry>)
    requires Filed(hosts, keys)
    ensures SameEitherWay(hash, entries, hosts, keys)
            <==> Blocks(hash, entries, hosts, keys, |hosts|) == Lefts(hash, entries, hosts, keys, |hosts|, |hosts|)
  {
    EitherWay(hash, entries, hosts, keys);
    var left, blocks := Remaining(hash, entries, hosts), Blocks(hash, entries, hosts, keys, |hosts|);
    var lefts := Lefts(hash, entries, hosts, keys, |hosts|, |hosts|);
    if |blocks| <= |lefts| {
      SameBoth(left, blocks, left, lefts);
    } else {
      SameBoth(left, lefts, left, blocks);
    }
  }
}
