/** The credentials of a process: each read once, whoever asks meanwhile
    (internal/credentials/credentials.go). */
module CredentialTable {
  datatype Credential = Credential(name: string, username: string, password: string)

  /** Why a read failed, and whether that is a context that ended. */
  datatype Error = Error(text: string, interrupted: bool)

  datatype Outcome = Read(credential: Credential) | Fail(error: Error)

  type Id = nat

  datatype Table = Table(cache: map<string, Credential>, failed: map<string, Error>, reading: map<string, Id>)

  datatype Decision = Kept(outcome: Outcome) | Wait(reader: Id) | Start

  function Decide(t: Table, name: string): Decision {
    if name in t.cache then Kept(Read(t.cache[name]))
    else if name in t.failed then Kept(Fail(t.failed[name]))
    else if name in t.reading then Wait(t.reading[name])
    else Start
  }

  function Entered(t: Table, name: string, me: Id): Table {
    if Decide(t, name).Start? then t.(reading := t.reading[name := me]) else t
  }

  /** Whether an outcome says something about the source: a failure does unless the
      reader's own context has ended, or the failure is that of one that has. */
  predicate Telling(outcome: Outcome, ended: bool) {
    outcome.Fail? ==> !ended && !outcome.error.interrupted
  }

  /** The table once a read is over. */
  function Published(t: Table, name: string, outcome: Outcome, ended: bool): Table {
    Table(if outcome.Read? then t.cache[name := outcome.credential] else t.cache,
          if outcome.Fail? && Telling(outcome, ended) then t.failed[name := outcome.error] else t.failed,
          t.reading - {name})
  }

  predicate Consistent(t: Table) {
    && t.cache.Keys !! t.failed.Keys
    && t.reading.Keys !! t.cache.Keys
    && t.reading.Keys !! t.failed.Keys
  }

  /** What is kept stays, nothing is kept of a read an interrupt stopped, and no
      other name is touched. */
  lemma {:induction false} KeptForGood(t: Table, name: string, outcome: Outcome, ended: bool, n: string)
    requires Consistent(t) && name in t.reading
    ensures Consistent(Published(t, name, outcome, ended))
    ensures Decide(t, n).Kept? ==> Decide(Published(t, name, outcome, ended), n) == Decide(t, n)
    ensures Decide(Published(t, name, outcome, ended), name)
            == if outcome.Read? || (!ended && !outcome.error.interrupted) then Kept(outcome) else Start
    ensures n != name ==> Decide(Published(t, name, outcome, ended), n) == Decide(t, n)
  {
    if Decide(t, n).Kept? {
      assert n != name;
    }
  }

  class Resolver {
    var cache: map<string, Credential>
    var failed: map<string, Error>
    var reading: map<string, Id>

    constructor ()
      ensures Now() == Table(map[], map[], map[])
    {
      cache, failed, reading := map[], map[], map[];
    }

    function Now(): Table
      reads this
    {
      Table(cache, failed, reading)
    }

    /** The critical section at the top of `Get`'s loop. */
    method Enter(name: string, me: Id) returns (d: Decision)
      modifies this
      ensures d == Decide(old(Now()), name)
      ensures Now() == Entered(old(Now()), name, me)
    {
      if name in cache {
        return Kept(Read(cache[name]));
      }
      if name in failed {
        return Kept(Fail(failed[name]));
      }
      if name in reading {
        return Wait(reading[name]);
      }
      reading := reading[name := me];
      return Start;
    }

    /** The critical section that ends `readOnce`. */
    method Leave(name: string, outcome: Outcome, ended: bool)
      modifies this
      ensures Now() == Published(old(Now()), name, outcome, ended)
    {
      match outcome {
        case Read(credential) => cache := cache[name := credential];
        case Fail(error) =>
          if !ended && !error.interrupted {
            failed := failed[name := error];
          }
      }
      reading := reading - {name};
    }
  }
}
