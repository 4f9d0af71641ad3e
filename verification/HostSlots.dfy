/** Taking places on several hosts at once, as a system of steps: one step for
    each channel operation of a caller (internal/fanout/hosts.go). */
module HostSlots {
  import opened Sorting
  import opened Text

  const PER_HOST: nat := 4

  // ----- the names a caller takes places on -----

  predicate Ascending(names: seq<string>) {
    forall i, j :: 0 <= i < j < |names| ==> StrLess(names[i], names[j])
  }

  /** The hosts given, in the order of their names, each once. */
  predicate NamesOf(names: seq<string>, hosts: seq<string>) {
    && Ascending(names)
    && (forall h :: h in names ==> h in hosts && h != "")
    && (forall h :: h in hosts && h != "" ==> h in names)
  }

  lemma {:induction false} StrOrderHolds()
    ensures TotalPreorder(StrLe)
  {
    forall a, b ensures StrLe(a, b) || StrLe(b, a) {
      StrOrder(a, b, b);
    }
    forall a, b, c | StrLe(a, b) && StrLe(b, c) ensures StrLe(a, c) {
      StrOrder(a, b, c);
    }
  }

  /** `slices.Compact(slices.Sorted(...))`, without the empty name. */
  method Names(hosts: seq<string>) returns (names: seq<string>)
    ensures NamesOf(names, hosts)
  {
    var sorted := Sort(StrLe, hosts);
    StrOrderHolds();
    SortSorts(StrLe, hosts);
    names := [];
    for i := 0 to |sorted|
      invariant Ascending(names) && forall h :: h in names <==> h in sorted[..i] && h != ""
    {
      assert sorted[..i + 1] == sorted[..i] + [sorted[i]];
      if sorted[i] == "" || (i > 0 && sorted[i] == sorted[i - 1]) {
        assert i > 0 && sorted[i] == sorted[i - 1] ==> sorted[i] in sorted[..i];
        continue;
      }
      forall k | 0 <= k < |names| ensures StrLess(names[k], sorted[i]) {
        assert names[k] in names;
        var j :| 0 <= j < i && sorted[j] == names[k];
        if j < i - 1 {
          assert StrLe(sorted[j], sorted[i - 1]);
        } else {
          StrOrder(names[k], names[k], names[k]);
        }
        assert StrLe(sorted[i - 1], sorted[i]);
        StrTrichotomy(sorted[i - 1], sorted[i]);
        LeThenLess(sorted[j], sorted[i - 1], sorted[i]);
      }
      names := names + [sorted[i]];
    }
    assert sorted[..|sorted|] == sorted;
  }

  lemma {:induction false} LeThenLess(a: string, b: string, c: string)
    requires StrLe(a, b) && StrLess(b, c)
    ensures StrLess(a, c)
  {
    StrTrichotomy(a, b);
    if a != b {
      StrTransitive(a, b, c);
    }
  }

  // ----- states -----

  /** Where a caller of Acquire is. */
  datatype Phase =
    | Idle          // not called yet
    | Taking        // waiting for the place on the next host
    | Checking      // a place taken, the context about to be asked
    | Holding       // returned, every place held
    | GivingBack    // release under way
    | Returned      // no place left to give back
    | Refused       // returned with the context's error

  type Id = nat

  /** One call: the hosts, their names in order, the places it holds, whether
      its context has ended. */
  datatype Caller = Caller(hosts: seq<string>, names: seq<string>, held: seq<string>, ended: bool, failed: bool, phase: Phase)

  /** How many places of each host are taken, and the callers. */
  datatype State = State(limit: nat, slots: map<string, nat>, callers: map<Id, Caller>)

  /** How many places a host has, as it is configured. */
  function Limit(configured: int): (limit: nat)
    ensures limit >= 1
  {
    if configured < 1 then PER_HOST else configured
  }

  function Taken(s: State, h: string): nat {
    if h in s.slots then s.slots[h] else 0
  }

  predicate Init(s: State, configured: int) {
    && s.limit == Limit(configured) && s.slots == map[]
    && forall c :: c in s.callers ==>
                     var k := s.callers[c];
                     k.phase == Idle && k.names == [] && k.held == [] && !k.failed
  }

  // ----- steps -----

  datatype Step =
    | Begin(c: Id, names: seq<string>)
    | Take(c: Id)
    | Ask(c: Id)
    | SeeEnd(c: Id)
    | Cancel(c: Id)
    | Release(c: Id)
    | GiveBack(c: Id)
    | Finish(c: Id)

  /** Whether a step can be made: a send waits for room in the channel, a
      receive for something in it. */
  predicate Enabled(s: State, step: Step) {
    step.c in s.callers &&
    var k := s.callers[step.c];
    match step
    case Begin(_, names) => k.phase == Idle && NamesOf(names, k.hosts)
    case Take(_) => k.phase == Taking && |k.held| < |k.names| && Taken(s, k.names[|k.held|]) < s.limit
    case Ask(_) => k.phase == Checking
    case SeeEnd(_) => k.phase == Taking && k.ended
    case Cancel(_) => !k.ended
    case Release(_) => k.phase == Holding
    case GiveBack(_) => k.phase == GivingBack && k.held != [] && Taken(s, k.held[0]) > 0
    case Finish(_) => k.phase == GivingBack && k.held == []
  }

  function Moved(k: Caller, step: Step): Caller
    requires step.Take? ==> |k.held| < |k.names|
    requires step.GiveBack? ==> k.held != []
  {
    match step
    case Begin(_, names) => k.(names := names, phase := if names == [] then Holding else Taking)
    case Take(_) => k.(held := k.held + [k.names[|k.held|]], phase := Checking)
    case Ask(_) =>
      if k.ended then k.(failed := true, phase := GivingBack)
      else k.(phase := if |k.held| == |k.names| then Holding else Taking)
    case SeeEnd(_) => k.(failed := true, phase := GivingBack)
    case Cancel(_) => k.(ended := true)
    case Release(_) => k.(phase := GivingBack)
    case GiveBack(_) => k.(held := k.held[1..])
    case Finish(_) => k.(phase := if k.failed then Refused else Returned)
  }

  function SlotsAfter(s: State, step: Step): map<string, nat>
    requires Enabled(s, step)
  {
    var k := s.callers[step.c];
    match step
    case Take(_) =>
      var h := k.names[|k.held|];
      s.slots[h := Taken(s, h) + 1]
    case GiveBack(_) =>
      var h := k.held[0];
      s.slots[h := Taken(s, h) - 1]
    case _ => s.slots
  }

  function Next(s: State, step: Step): State
    requires Enabled(s, step)
  {
    s.(slots := SlotsAfter(s, step), callers := s.callers[step.c := Moved(s.callers[step.c], step)])
  }

  // ----- what every step keeps -----

  ghost function Holders(s: State, h: string): set<Id> {
    set c | c in s.callers && h in s.callers[c].held
  }

  /** What a caller holds fits where it is. */
  predicate CallerOk(k: Caller) {
    && Ascending(k.names)
    && (forall h :: h in k.names ==> h in k.hosts && h != "")
    && Ascending(k.held)
    && match k.phase
       case Idle => k.held == [] && k.names == [] && !k.failed
       case Taking => !k.failed && |k.held| < |k.names| && k.held == k.names[..|k.held|]
       case Checking => !k.failed && 0 < |k.held| <= |k.names| && k.held == k.names[..|k.held|]
       case Holding => !k.failed && k.held == k.names
       case GivingBack => (forall h :: h in k.held ==> h in k.names) && |k.held| <= |k.names| && (k.failed ==> k.ended)
       case Returned => k.held == [] && !k.failed
       case Refused => k.held == [] && k.failed && k.ended
  }

  /** The places taken on a host are those its holders hold, one each, and no
      more than its limit. */
  ghost predicate Inv(s: State) {
    && s.limit >= 1
    && (forall c :: c in s.callers ==> CallerOk(s.callers[c]))
    && (forall h :: Taken(s, h) == |Holders(s, h)|)
    && (forall h :: Taken(s, h) <= s.limit)
  }

  lemma {:induction false} InitInv(s: State, configured: int)
    requires Init(s, configured)
    ensures Inv(s)
  {
    forall h ensures Holders(s, h) == {} {
    }
  }

  lemma {:induction false} MovedOk(s: State, step: Step)
    requires Inv(s) && Enabled(s, step)
    ensures CallerOk(Moved(s.callers[step.c], step))
  {
    var k := s.callers[step.c];
    assert CallerOk(k);
    match step {
      case Take(_) => TakeOneMore(k.names, |k.held|);
      case Ask(_) => assert k.names[..|k.names|] == k.names;
      case GiveBack(_) => assert k.held == [k.held[0]] + k.held[1..];
      case _ =>
    }
  }

  lemma {:induction false} HoldersElsewhere(s: State, step: Step, h: string)
    requires Enabled(s, step)
    requires h in Moved(s.callers[step.c], step).held <==> h in s.callers[step.c].held
    ensures Holders(Next(s, step), h) == Holders(s, h)
  {
  }

  /** A caller never holds the place it takes, and holds a place it gives back
      once. */
  lemma {:induction false} HeldOnce(k: Caller)
    requires CallerOk(k)
    ensures k.phase == Taking ==> k.names[|k.held|] !in k.held
    ensures k.held != [] ==> k.held[0] !in k.held[1..]
  {
    if k.phase == Taking {
      var h := k.names[|k.held|];
      StrIrreflexive(h);
      assert forall i :: 0 <= i < |k.held| ==> k.held[i] == k.names[i] && StrLess(k.names[i], h);
    }
    if k.held != [] {
      StrIrreflexive(k.held[0]);
      var tail := k.held[1..];
      assert forall i :: 0 <= i < |tail| ==> tail[i] == k.held[i + 1] && StrLess(k.held[0], tail[i]);
    }
  }

  /** The places taken of a host are those held, and no more than its limit. */
  ghost predicate Counted(s: State, h: string) {
    Taken(s, h) == |Holders(s, h)| <= s.limit
  }

  lemma {:induction false} OneHolderMore(s: State, c: Id)
    requires Inv(s) && Enabled(s, Take(c))
    ensures var h := s.callers[c].names[|s.callers[c].held|];
            Holders(Next(s, Take(c)), h) == Holders(s, h) + {c} && c !in Holders(s, h)
  {
    HeldOnce(s.callers[c]);
  }

  lemma {:induction false} OneHolderLess(s: State, c: Id)
    requires Inv(s) && Enabled(s, GiveBack(c))
    ensures var h := s.callers[c].held[0];
            Holders(Next(s, GiveBack(c)), h) == Holders(s, h) - {c} && c in Holders(s, h)
  {
    HeldOnce(s.callers[c]);
  }

  lemma {:induction false} TakeCounted(s: State, c: Id)
    requires Inv(s) && Enabled(s, Take(c))
    ensures Counted(Next(s, Take(c)), s.callers[c].names[|s.callers[c].held|])
  {
    OneHolderMore(s, c);
    assert Counted(s, s.callers[c].names[|s.callers[c].held|]);
  }

  lemma {:induction false} GiveBackCounted(s: State, c: Id)
    requires Inv(s) && Enabled(s, GiveBack(c))
    ensures Counted(Next(s, GiveBack(c)), s.callers[c].held[0])
  {
    OneHolderLess(s, c);
    assert Counted(s, s.callers[c].held[0]);
  }

  lemma {:induction false} ElsewhereCounted(s: State, step: Step, h: string)
    requires Inv(s) && Enabled(s, step)
    requires step.Take? ==> h != s.callers[step.c].names[|s.callers[step.c].held|]
    requires step.GiveBack? ==> h != s.callers[step.c].held[0]
    ensures Counted(Next(s, step), h)
  {
    var k := s.callers[step.c];
    assert Taken(s, h) == |Holders(s, h)| <= s.limit;
    if step.GiveBack? {
      assert k.held == [k.held[0]] + k.held[1..];
    }
    HoldersElsewhere(s, step, h);
  }

  lemma {:induction false} TakenCounted(s: State, step: Step, h: string)
    requires Inv(s) && Enabled(s, step)
    ensures Counted(Next(s, step), h)
  {
    var k := s.callers[step.c];
    if step.Take? && h == k.names[|k.held|] {
      TakeCounted(s, step.c);
    } else if step.GiveBack? && h == k.held[0] {
      GiveBackCounted(s, step.c);
    } else {
      ElsewhereCounted(s, step, h);
    }
  }

  lemma {:induction false} StepKeepsInv(s: State, step: Step)
    requires Inv(s) && Enabled(s, step)
    ensures Inv(Next(s, step))
  {
    var t := Next(s, step);
    forall c | c in t.callers ensures CallerOk(t.callers[c]) {
      MovedOk(s, step);
      assert c != step.c ==> t.callers[c] == s.callers[c];
    }
    forall h ensures Taken(t, h) == |Holders(t, h)| <= t.limit {
      TakenCounted(s, step, h);
    }
  }

  // ----- runs -----

  /** A run: a state, the steps made from it, and the state reached. */
  ghost predicate Run(s: State, steps: seq<Step>, t: State)
    decreases |steps|
  {
    if steps == [] then s == t
    else Enabled(s, steps[0]) && Run(Next(s, steps[0]), steps[1..], t)
  }

  lemma {:induction false} RunKeepsInv(s: State, steps: seq<Step>, t: State)
    requires Inv(s) && Run(s, steps, t)
    ensures Inv(t) && t.callers.Keys == s.callers.Keys && t.limit == s.limit
    decreases |steps|
  {
    if steps != [] {
      StepKeepsInv(s, steps[0]);
      RunKeepsInv(Next(s, steps[0]), steps[1..], t);
    }
  }

  /** In every state of every run, at most the limit of places of each host is
      held, and a caller that was refused, or has given back, holds none. */
  lemma {:induction false} NeverOverLimit(s: State, configured: int, steps: seq<Step>, t: State)
    requires Init(s, configured) && Run(s, steps, t)
    ensures forall h :: |Holders(t, h)| <= Limit(configured)
    ensures forall c :: c in t.callers && t.callers[c].phase in {Refused, Returned} ==>
                          forall h :: c !in Holders(t, h)
    ensures forall c :: c in t.callers && t.callers[c].phase == Refused ==> t.callers[c].ended
  {
    InitInv(s, configured);
    RunKeepsInv(s, steps, t);
    forall c | c in t.callers && t.callers[c].phase in {Refused, Returned}
      ensures forall h :: c !in Holders(t, h)
    {
      assert CallerOk(t.callers[c]);
    }
  }

  // ----- no deadlock -----

  predicate Waits(s: State, c: Id) {
    c in s.callers && s.callers[c].phase == Taking && |s.callers[c].held| < |s.callers[c].names|
  }

  function Wanted(s: State, c: Id): string
    requires Waits(s, c)
  {
    s.callers[c].names[|s.callers[c].held|]
  }

  /** A step other than a cancellation that a caller can make. */
  predicate CanMove(s: State, step: Step) {
    Enabled(s, step) && !step.Cancel?
  }

  lemma {:induction false} HolderOfFull(s: State, h: string) returns (c: Id)
    requires Inv(s) && Taken(s, h) == s.limit
    ensures c in s.callers && h in s.callers[c].held
  {
    assert |Holders(s, h)| > 0;
    c :| c in Holders(s, h);
  }

  /** A caller that holds a place can move, unless it waits for a place of a
      greater name. */
  lemma {:induction false} HolderMovesOrWaits(s: State, c: Id, h: string) returns (step: Step)
    requires Inv(s) && c in s.callers && h in s.callers[c].held
    ensures CanMove(s, step) || (Waits(s, c) && StrLess(h, Wanted(s, c)))
  {
    var k := s.callers[c];
    assert CallerOk(k);
    match k.phase {
      case Taking =>
        step := SeeEnd(c);
        var i :| 0 <= i < |k.held| && k.held[i] == h;
        assert k.names[i] == h;
      case Checking => step := Ask(c);
      case Holding => step := Release(c);
      case GivingBack =>
        step := GiveBack(c);
        assert c in Holders(s, k.held[0]);
      case _ => step := Ask(c);
    }
  }

  /** No reachable state is deadlocked: while a caller waits for a place, some
      caller can take one, or can give one back. */
  lemma {:induction false} WaitingIsNotDeadlock(s: State, c: Id) returns (step: Step)
    requires Inv(s) && Waits(s, c)
    ensures CanMove(s, step)
  {
    var wanted := set w | w in s.callers && Waits(s, w) :: Wanted(s, w);
    assert Wanted(s, c) in wanted;
    var h := GreatestName(wanted);
    if Taken(s, h) < s.limit {
      var g :| g in s.callers && Waits(s, g) && Wanted(s, g) == h;
      step := Take(g);
    } else {
      var d := HolderOfFull(s, h);
      step := HolderMovesOrWaits(s, d, h);
      assert Waits(s, d) ==> Wanted(s, d) in wanted;
    }
  }

  predicate Done(k: Caller) {
    k.phase == Returned || k.phase == Refused
  }

  /** While a caller is not done, some caller can move. */
  lemma {:induction false} NotDoneMoves(s: State, c: Id, names: seq<string>) returns (step: Step)
    requires Inv(s) && c in s.callers && !Done(s.callers[c])
    requires NamesOf(names, s.callers[c].hosts)
    ensures CanMove(s, step)
  {
    var k := s.callers[c];
    assert CallerOk(k);
    match k.phase {
      case Idle => step := Begin(c, names);
      case Taking => step := WaitingIsNotDeadlock(s, c);
      case Checking => step := Ask(c);
      case Holding => step := Release(c);
      case GivingBack =>
        if k.held == [] {
          step := Finish(c);
        } else {
          step := GiveBack(c);
          assert c in Holders(s, k.held[0]);
        }
      case _ => assert false;
    }
  }

  // ----- every run ends -----

  /** What a caller has still to do. */
  function Work(k: Caller): nat
    requires CallerOk(k)
  {
    (if k.ended then 0 else 1) +
    match k.phase
    case Idle => 3 * |k.hosts| + 5
    case Taking => 2 * (|k.names| - |k.held|) + |k.names| + 4
    case Checking => 2 * (|k.names| - |k.held|) + |k.names| + 5
    case Holding => |k.names| + 3
    case GivingBack => |k.held| + 1
    case _ => 0
  }

  lemma {:induction false} AscendingSize(names: seq<string>, hosts: seq<string>)
    requires Ascending(names) && forall h :: h in names ==> h in hosts
    ensures |names| <= |hosts|
  {
    if names != [] {
      var last := names[|names| - 1];
      assert last in names;
      var i :| 0 <= i < |hosts| && hosts[i] == last;
      var front, others := names[..|names| - 1], hosts[..i] + hosts[i + 1..];
      forall h | h in front ensures h in others {
        var j :| 0 <= j < |front| && front[j] == h;
        assert StrLess(names[j], last);
        StrIrreflexive(last);
        assert names[j] in names;
        var n :| 0 <= n < |hosts| && hosts[n] == h;
        assert n != i;
        if n < i {
          assert others[n] == h;
        } else {
          assert others[n - 1] == h;
        }
      }
      AscendingSize(front, others);
    }
  }

  lemma {:induction false} StepDoesWork(s: State, step: Step)
    requires Inv(s) && Enabled(s, step)
    ensures CallerOk(Moved(s.callers[step.c], step))
    ensures Work(Moved(s.callers[step.c], step)) < Work(s.callers[step.c])
  {
    MovedOk(s, step);
    if step.Begin? {
      AscendingSize(step.names, s.callers[step.c].hosts);
    }
  }

  ghost function TotalWork(callers: map<Id, Caller>): nat
    requires forall c :: c in callers ==> CallerOk(callers[c])
    decreases |callers|
  {
    if callers == map[] then 0
    else
      var c :| c in callers;
      Work(callers[c]) + TotalWork(callers - {c})
  }

  lemma {:induction false} Swapped(callers: map<Id, Caller>, c: Id, d: Id)
    ensures callers - {d} - {c} == callers - {c} - {d}
  {
  }

  lemma {:induction false} TotalWithout(callers: map<Id, Caller>, c: Id)
    requires (forall d :: d in callers ==> CallerOk(callers[d])) && c in callers
    ensures TotalWork(callers) == Work(callers[c]) + TotalWork(callers - {c})
    decreases |callers|
  {
    var d :| d in callers && TotalWork(callers) == Work(callers[d]) + TotalWork(callers - {d});
    if d != c {
      Swapped(callers, c, d);
      TotalWithout(callers - {d}, c);
      TotalWithout(callers - {c}, d);
    }
  }

  lemma {:induction false} StepLessWork(s: State, step: Step)
    requires Inv(s) && Enabled(s, step)
    ensures Inv(Next(s, step))
    ensures TotalWork(Next(s, step).callers) < TotalWork(s.callers)
  {
    StepKeepsInv(s, step);
    StepDoesWork(s, step);
    var t := Next(s, step);
    TotalWithout(s.callers, step.c);
    TotalWithout(t.callers, step.c);
    assert t.callers - {step.c} == s.callers - {step.c};
  }

  /** No run makes more steps than the callers have work at its start. With
      NotDoneMoves: every run can be continued until each caller is done, and
      after finitely many steps each is. */
  lemma {:induction false} RunsAreFinite(s: State, steps: seq<Step>, t: State)
    requires Inv(s) && Run(s, steps, t)
    ensures Inv(t) && |steps| + TotalWork(t.callers) <= TotalWork(s.callers)
    decreases |steps|
  {
    if steps != [] {
      StepLessWork(s, steps[0]);
      RunsAreFinite(Next(s, steps[0]), steps[1..], t);
    }
  }
}
