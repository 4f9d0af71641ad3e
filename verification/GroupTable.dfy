/** The lookups of a group resolver: each answer searched for once, whoever asks
    meanwhile (internal/groups/groups.go). */
module GroupTable {
  /** What a lookup is for: every group of a source, one group, or the source's
      list of groups, as it may be cached or asked for afresh. */
  datatype Kind = All | Map | List | FreshList

  datatype Key = Key(source: string, kind: Kind, group: string)

  /** What a search found: an expression, that the source has no such group, or a
      failure that says nothing about the source's groups. */
  datatype Answer = Found(expr: string) | Missing | Failed

  type Id = nat

  /** The answers kept, and, for each key under way, who searches. */
  datatype Table = Table(cache: map<Key, string>, missing: set<Key>, flights: map<Key, Id>)

  datatype Decision = Kept(answer: Answer) | Wait(leader: Id) | Search

  /** What a caller that asks for a key is to do. */
  function Decide(t: Table, key: Key): Decision {
    if key in t.cache then Kept(Found(t.cache[key]))
    else if key in t.missing then Kept(Missing)
    else if key in t.flights then Wait(t.flights[key])
    else Search
  }

  function Entered(t: Table, key: Key, me: Id): Table {
    if Decide(t, key).Search? then t.(flights := t.flights[key := me]) else t
  }

  /** The table once a search is over: only what is known of the source is kept. */
  function Published(t: Table, key: Key, answer: Answer): Table {
    Table(if answer.Found? then t.cache[key := answer.expr] else t.cache,
          if answer.Missing? then t.missing + {key} else t.missing,
          t.flights - {key})
  }

  /** No key has two answers, and none is searched for that has one. */
  predicate Consistent(t: Table) {
    && t.cache.Keys !! t.missing
    && t.flights.Keys !! t.cache.Keys
    && t.flights.Keys !! t.missing
  }

  /** A kept answer never changes, nothing is kept of a search that failed, and no
      other key is touched. */
  lemma {:induction false} KeptForGood(t: Table, key: Key, answer: Answer, k: Key)
    requires Consistent(t) && key in t.flights
    ensures Consistent(Published(t, key, answer))
    ensures Decide(t, k).Kept? ==> Decide(Published(t, key, answer), k) == Decide(t, k)
    ensures answer.Failed? ==> Decide(Published(t, key, answer), key) == Search
    ensures !answer.Failed? ==> Decide(Published(t, key, answer), key) == Kept(answer)
    ensures k != key ==> Decide(Published(t, key, answer), k) == Decide(t, k)
  {
    if Decide(t, k).Kept? {
      assert k != key;
    }
  }

  class Resolver {
    var cache: map<Key, string>
    var missing: set<Key>
    var flights: map<Key, Id>

    constructor ()
      ensures Now() == Table(map[], {}, map[])
    {
      cache, missing, flights := map[], {}, map[];
    }

    function Now(): Table
      reads this
    {
      Table(cache, missing, flights)
    }

    /** The first critical section of `lookup`. */
    method Enter(key: Key, me: Id) returns (d: Decision)
      modifies this
      ensures d == Decide(old(Now()), key)
      ensures Now() == Entered(old(Now()), key, me)
    {
      if key in cache {
        return Kept(Found(cache[key]));
      }
      if key in missing {
        return Kept(Missing);
      }
      if key in flights {
        return Wait(flights[key]);
      }
      flights := flights[key := me];
      return Search;
    }

    /** The second: the search is over. */
    method Leave(key: Key, answer: Answer)
      modifies this
      ensures Now() == Published(old(Now()), key, answer)
    {
      flights := flights - {key};
      match answer {
        case Found(expr) => cache := cache[key := expr];
        case Missing => missing := missing + {key};
        case Failed =>
      }
    }
  }
}
