/** Any number of group lookups under way at once, as a system of steps: one for
    each critical section, each wait and each command (internal/groups/groups.go). */
module GroupLookups {
  import opened Options
  import opened Text
  import opened Sorting
  import opened GroupTable
  import HostSlots

  const PER_HOST: nat := 4

  function Rank(kind: Kind): nat {
    match kind
    case All => 2
    case Map => 1
    case _ => 0
  }

  /** How far the search for a key is. */
  datatype Stage =
    | Searching
    | Acquiring(held: nat)           // has places on so many of the source's hosts, waits for the next
    | Running                        // has them all, and the command runs
    | GivingBack(given: nat, held: nat, out: Option<string>)
    | Ran(out: Option<string>)
    | Asking(child: Id)              // waits for the list of the source's groups
    | Uniting(left: seq<string>, active: set<Id>, failed: Option<Answer>)

  datatype Phase =
    | Begun
    | Waiting(leader: Id)
    | Leading(stage: Stage)
    | Told(answer: Answer)           // the table is written, those waiting not yet told
    | Done(answer: Answer)

  /** One lookup. */
  datatype Lookup = Lookup(key: Key, phase: Phase)

  /** The lookups, the resolver's table, the hosts each source's commands reach, in
      the order of their names, and the places on each. At most bound groups are
      listed of a source, and at most reach hosts are reached for one. */
  datatype State = State(lookups: map<Id, Lookup>, table: Table, hosts: map<string, seq<string>>, limit: nat, bound: nat,
                         reach: nat)

  predicate InOrder(s: State) {
    forall source :: source in s.hosts ==> HostSlots.Ascending(s.hosts[source]) && |s.hosts[source]| <= s.reach
  }

  predicate Init(s: State) {
    && s.limit >= 1 && s.table == Table(map[], {}, map[]) && InOrder(s)
    && forall c :: c in s.lookups ==> s.lookups[c].phase == Begun
  }

  datatype Step =
    | Enter(c: Id)
    | Wake(c: Id)
    | Close(c: Id)
    | Answered(c: Id, answer: Answer)
    | StartRun(c: Id)
    | Take(c: Id)
    | Interrupt(c: Id)
    | Launch(c: Id)
    | EndRun(c: Id, out: Option<string>)
    | GiveBack(c: Id)
    | Released(c: Id)
    | Settle(c: Id, answer: Answer)
    | AskFresh(c: Id, child: Id)
    | AskList(c: Id, child: Id)
    | Listed(c: Id, listed: bool)
    | ListFailed(c: Id)
    | Unite(c: Id, names: seq<string>)
    | Spawn(c: Id, child: Id)
    | Reap(c: Id, child: Id, refused: bool)
    | Finish(c: Id, expr: string)
    | Abandon(c: Id)

  predicate AtStage(s: State, c: Id) {
    c in s.lookups && s.lookups[c].phase.Leading?
  }

  function StageOf(s: State, c: Id): Stage
    requires AtStage(s, c)
  {
    s.lookups[c].phase.stage
  }

  predicate Over(s: State, c: Id) {
    c in s.lookups && s.lookups[c].phase.Done?
  }

  function HostsOf(s: State, key: Key): seq<string> {
    if key.source in s.hosts then s.hosts[key.source] else []
  }

  /** The lookup has a place on the host. */
  predicate Holds(s: State, c: Id, h: string) {
    AtStage(s, c) &&
    var hosts := HostsOf(s, s.lookups[c].key);
    match StageOf(s, c)
    case Acquiring(held) => held <= |hosts| && h in hosts[..held]
    case Running => h in hosts
    case GivingBack(given, held, _) => given <= held <= |hosts| && h in hosts[given..held]
    case _ => false
  }

  ghost function Holders(s: State, h: string): set<Id> {
    set c | c in s.lookups && Holds(s, c, h)
  }

  /** The lookup waits for a place on the next of its hosts. */
  predicate Waits(s: State, c: Id) {
    AtStage(s, c) && StageOf(s, c).Acquiring? && StageOf(s, c).held < |HostsOf(s, s.lookups[c].key)|
  }

  function Wanted(s: State, c: Id): string
    requires Waits(s, c)
  {
    HostsOf(s, s.lookups[c].key)[StageOf(s, c).held]
  }

  ghost predicate Enabled(s: State, step: Step) {
    step.c in s.lookups &&
    var l := s.lookups[step.c];
    match step
    case Enter(c) => l.phase == Begun
    case Wake(c) => l.phase.Waiting? && Over(s, l.phase.leader)
    case Close(c) => l.phase.Told?
    case Answered(c, _) => l.phase == Leading(Searching)
    case StartRun(c) => l.phase == Leading(Searching)
    case Take(c) => Waits(s, c) && |Holders(s, Wanted(s, c))| < s.limit
    case Interrupt(c) => l.phase.Leading? && l.phase.stage.Acquiring?
    case Launch(c) => l.phase == Leading(Acquiring(|HostsOf(s, l.key)|))
    case EndRun(c, _) => l.phase == Leading(Running)
    case GiveBack(c) => l.phase.Leading? && l.phase.stage.GivingBack? && l.phase.stage.given < l.phase.stage.held
    case Released(c) => l.phase.Leading? && l.phase.stage.GivingBack? && l.phase.stage.given == l.phase.stage.held
    case Settle(c, answer) =>
      l.phase.Leading? && l.phase.stage.Ran? && AnswerTo(l.key.kind, l.phase.stage.out, answer)
    case AskFresh(c, child) => l.phase.Leading? && l.phase.stage.Ran? && l.key.kind == Map && child !in s.lookups
    case AskList(c, child) => l.phase == Leading(Searching) && l.key.kind == All && child !in s.lookups
    case Listed(c, _) => l.phase.Leading? && l.phase.stage.Asking? && l.key.kind == Map && Over(s, l.phase.stage.child)
    case ListFailed(c) =>
      && l.phase.Leading? && l.phase.stage.Asking? && l.key.kind == All && Over(s, l.phase.stage.child)
      && !s.lookups[l.phase.stage.child].phase.answer.Found?
    case Unite(c, names) =>
      && l.phase.Leading? && l.key.kind == All && |names| <= s.bound
      && (l.phase.stage.Searching? || (l.phase.stage.Asking? && Over(s, l.phase.stage.child)
                                       && s.lookups[l.phase.stage.child].phase.answer.Found?))
    case Spawn(c, child) =>
      && l.phase.Leading? && l.phase.stage.Uniting? && l.phase.stage.left != [] && l.phase.stage.failed.None?
      && |l.phase.stage.active| < PER_HOST && child !in s.lookups
    case Reap(c, child, _) =>
      l.phase.Leading? && l.phase.stage.Uniting? && child in l.phase.stage.active && Over(s, child)
    case Finish(c, _) =>
      && l.phase.Leading? && l.phase.stage.Uniting? && l.phase.stage.active == {}
      && (l.phase.stage.left == [] || l.phase.stage.failed.Some?)
    case Abandon(c) => l.phase.Leading? && l.phase.stage.Uniting? && l.phase.stage.active == {}
  }

  /** What a command's outcome may be taken for without asking for the list. */
  predicate AnswerTo(kind: Kind, out: Option<string>, answer: Answer) {
    if out.Some? then answer == Found(out.value) || (kind == Map && answer.Failed?) else answer.Failed?
  }

  /** The answer a step publishes, if it ends a search. */
  function Ending(s: State, step: Step): Option<Answer>
    requires Enabled(s, step)
  {
    match step
    case Answered(_, answer) => Some(answer)
    case Settle(_, answer) => Some(answer)
    case Listed(c, listed) =>
      Some(if s.lookups[s.lookups[c].phase.stage.child].phase.answer.Found? && !listed then Missing else Failed)
    case ListFailed(_) => Some(Failed)
    case Finish(c, expr) =>
      var failed := s.lookups[c].phase.stage.failed;
      Some(if failed.Some? then failed.value else Found(expr))
    case Abandon(_) => Some(Failed)
    case _ => None
  }

  /** Where a step that does not end the search leaves the lookup. */
  function Moved(s: State, step: Step): Phase
    requires Enabled(s, step)
  {
    var l := s.lookups[step.c];
    match step
    case Enter(c) => (
      match Decide(s.table, l.key)
      case Kept(answer) => Done(answer)
      case Wait(leader) => Waiting(leader)
      case Search => Leading(Searching))
    case Wake(c) => Done(s.lookups[l.phase.leader].phase.answer)
    case Close(c) => Done(l.phase.answer)
    case StartRun(c) => Leading(Acquiring(0))
    case Take(c) => Leading(Acquiring(l.phase.stage.held + 1))
    case Interrupt(c) => Leading(GivingBack(0, l.phase.stage.held, None))
    case Launch(c) => Leading(Running)
    case EndRun(c, out) => Leading(GivingBack(0, |HostsOf(s, l.key)|, out))
    case GiveBack(c) => Leading(GivingBack(l.phase.stage.given + 1, l.phase.stage.held, l.phase.stage.out))
    case Released(c) => Leading(Ran(l.phase.stage.out))
    case AskFresh(c, child) => Leading(Asking(child))
    case AskList(c, child) => Leading(Asking(child))
    case Unite(c, names) => Leading(Uniting(names, {}, None))
    case Spawn(c, child) =>
      Leading(Uniting(l.phase.stage.left[1..], l.phase.stage.active + {child}, l.phase.stage.failed))
    case Reap(c, child, refused) =>
      var answer := s.lookups[child].phase.answer;
      var failure := if !answer.Found? then Some(answer) else if refused then Some(Failed) else None;
      Leading(Uniting(l.phase.stage.left, l.phase.stage.active - {child},
                      if l.phase.stage.failed.Some? then l.phase.stage.failed else failure))
    case _ => var answer := Ending(s, step); if answer.Some? then Told(answer.value) else l.phase
  }

  /** The lookup a step starts within its own. */
  function Started(s: State, step: Step): Option<(Id, Lookup)>
    requires Enabled(s, step)
  {
    var key := s.lookups[step.c].key;
    match step
    case AskFresh(c, child) => Some((child, Lookup(Key(key.source, FreshList, ""), Begun)))
    case AskList(c, child) => Some((child, Lookup(Key(key.source, List, ""), Begun)))
    case Spawn(c, child) => Some((child, Lookup(Key(key.source, Map, s.lookups[c].phase.stage.left[0]), Begun)))
    case _ => None
  }

  function TableAfter(s: State, step: Step): Table
    requires Enabled(s, step)
  {
    var key := s.lookups[step.c].key;
    if step.Enter? then Entered(s.table, key, step.c)
    else match Ending(s, step)
      case Some(answer) => Published(s.table, key, answer)
      case None => s.table
  }

  function Next(s: State, step: Step): State
    requires Enabled(s, step)
  {
    var lookups := s.lookups[step.c := s.lookups[step.c].(phase := Moved(s, step))];
    s.(table := TableAfter(s, step),
       lookups := match Started(s, step)
                  case Some((child, l)) => lookups[child := l]
                  case None => lookups)
  }

  // ----- what every step keeps -----

  /** A lookup waits for one that searches, or searched, for its own key; and only
      for the searches of lesser rank that its own is made of. */
  predicate LookupOk(s: State, c: Id, l: Lookup) {
    match l.phase
    case Waiting(leader) =>
      && leader in s.lookups && s.lookups[leader].key == l.key
      && !s.lookups[leader].phase.Begun? && !s.lookups[leader].phase.Waiting?
    case Leading(stage) =>
      && l.key in s.table.flights && s.table.flights[l.key] == c
      && StageOk(s, l.key, stage)
    case _ => true
  }

  predicate StageOk(s: State, key: Key, stage: Stage) {
    match stage
    case Acquiring(held) => held <= |HostsOf(s, key)|
    case GivingBack(given, held, _) => given <= held <= |HostsOf(s, key)|
    case Asking(child) => Below(s, key.kind, child) && (key.kind == Map || key.kind == All)
    case Uniting(left, active, failed) =>
      && |left| <= s.bound && key.kind == All
      && (forall child :: child in active ==> Below(s, key.kind, child))
      && (failed.Some? ==> !failed.value.Found?)
    case _ => true
  }

  predicate Below(s: State, kind: Kind, child: Id) {
    child in s.lookups && Rank(s.lookups[child].key.kind) < Rank(kind)
  }

  predicate FlightOk(s: State, key: Key) {
    && key in s.table.flights && s.table.flights[key] in s.lookups
    && s.lookups[s.table.flights[key]].key == key && s.lookups[s.table.flights[key]].phase.Leading?
  }

  ghost predicate Inv(s: State) {
    && s.limit >= 1 && Consistent(s.table) && InOrder(s)
    && (forall c :: c in s.lookups ==> LookupOk(s, c, s.lookups[c]))
    && (forall key :: key in s.table.flights ==> FlightOk(s, key))
    && (forall h :: |Holders(s, h)| <= s.limit)
  }

  lemma {:induction false} InitInv(s: State)
    requires Init(s)
    ensures Inv(s)
  {
    forall h ensures Holders(s, h) == {} {
    }
  }

  /** Every lookup but the one that makes the step stays as it is; that one keeps
      its key, and is past asking and waiting. */
  lemma {:induction false} NextLookup(s: State, step: Step, c: Id)
    requires Inv(s) && Enabled(s, step) && c in s.lookups
    ensures c in Next(s, step).lookups && Next(s, step).lookups[c].key == s.lookups[c].key
    ensures c != step.c ==> Next(s, step).lookups[c] == s.lookups[c]
    ensures c == step.c ==> Next(s, step).lookups[c].phase == Moved(s, step)
    ensures !s.lookups[c].phase.Begun? && !s.lookups[c].phase.Waiting? ==>
              !Next(s, step).lookups[c].phase.Begun? && !Next(s, step).lookups[c].phase.Waiting?
  {
  }

  lemma {:induction false} StageStays(s: State, step: Step, key: Key, stage: Stage)
    requires Inv(s) && Enabled(s, step) && StageOk(s, key, stage)
    ensures StageOk(Next(s, step), key, stage)
  {
    match stage {
      case Asking(child) => NextLookup(s, step, child);
      case Uniting(left, active, failed) =>
        forall child | child in active ensures Below(Next(s, step), key.kind, child) {
          NextLookup(s, step, child);
        }
      case _ =>
    }
  }

  /** A flight stays its leader's until the leader ends it. */
  lemma {:induction false} FlightStays(s: State, step: Step, key: Key)
    requires Inv(s) && Enabled(s, step) && key in s.table.flights
    requires Ending(s, step).Some? ==> key != s.lookups[step.c].key
    ensures key in Next(s, step).table.flights && Next(s, step).table.flights[key] == s.table.flights[key]
  {
  }

  /** A search that is under way still is after a step of another lookup. */
  lemma {:induction false} OthersOk(s: State, step: Step, c: Id)
    requires Inv(s) && Enabled(s, step) && c in s.lookups && c != step.c
    ensures LookupOk(Next(s, step), c, s.lookups[c])
  {
    var l := s.lookups[c];
    assert LookupOk(s, c, l) && LookupOk(s, step.c, s.lookups[step.c]);
    match l.phase {
      case Waiting(leader) => NextLookup(s, step, leader);
      case Leading(stage) =>
        StageStays(s, step, l.key, stage);
        FlightStays(s, step, l.key);
      case _ =>
    }
  }

  lemma {:induction false} EnterOk(s: State, c: Id)
    requires Inv(s) && Enabled(s, Enter(c))
    ensures LookupOk(Next(s, Enter(c)), c, Next(s, Enter(c)).lookups[c])
  {
    var key := s.lookups[c].key;
    if key in s.table.flights {
      assert FlightOk(s, key);
      NextLookup(s, Enter(c), s.table.flights[key]);
    }
  }

  lemma {:induction false} StartedOk(s: State, step: Step)
    requires Inv(s) && Enabled(s, step) && Started(s, step).Some?
    ensures StageOk(Next(s, step), s.lookups[step.c].key, Moved(s, step).stage)
  {
    var l := s.lookups[step.c];
    assert LookupOk(s, step.c, l);
    StageStays(s, step, l.key, l.phase.stage);
  }

  lemma {:induction false} MoverOk(s: State, step: Step)
    requires Inv(s) && Enabled(s, step) && !step.Enter?
    ensures LookupOk(Next(s, step), step.c, Next(s, step).lookups[step.c])
  {
    var l := s.lookups[step.c];
    assert LookupOk(s, step.c, l);
    if Moved(s, step).Leading? {
      FlightStays(s, step, l.key);
      if Started(s, step).Some? {
        StartedOk(s, step);
      } else {
        StageStays(s, step, l.key, l.phase.stage);
      }
    }
  }

  lemma {:induction false} StepLookups(s: State, step: Step, c: Id)
    requires Inv(s) && Enabled(s, step) && c in Next(s, step).lookups
    ensures LookupOk(Next(s, step), c, Next(s, step).lookups[c])
  {
    if c !in s.lookups {
    } else if c != step.c {
      OthersOk(s, step, c);
      NextLookup(s, step, c);
    } else if step.Enter? {
      EnterOk(s, c);
    } else {
      MoverOk(s, step);
    }
  }

  lemma {:induction false} StepFlights(s: State, step: Step, key: Key)
    requires Inv(s) && Enabled(s, step) && key in Next(s, step).table.flights
    ensures FlightOk(Next(s, step), key)
  {
    var c := step.c;
    assert LookupOk(s, c, s.lookups[c]);
    if key in s.table.flights {
      assert FlightOk(s, key);
      NextLookup(s, step, s.table.flights[key]);
    }
  }

  lemma {:induction false} StepTable(s: State, step: Step)
    requires Inv(s) && Enabled(s, step)
    ensures Consistent(Next(s, step).table)
  {
    var key := s.lookups[step.c].key;
    assert LookupOk(s, step.c, s.lookups[step.c]);
    if Ending(s, step).Some? {
      KeptForGood(s.table, key, Ending(s, step).value, key);
    }
  }

  /** The places of a lookup that makes a step: one more when it takes one. */
  lemma {:induction false} MoverHolds(s: State, step: Step, h: string)
    requires Inv(s) && Enabled(s, step) && Holds(Next(s, step), step.c, h)
    ensures Holds(s, step.c, h) || (step.Take? && Wanted(s, step.c) == h)
  {
    var l := s.lookups[step.c];
    var hosts := HostsOf(s, l.key);
    assert LookupOk(s, step.c, l);
    assert hosts[..|hosts|] == hosts;
    if step.Take? {
      TakeOneMore(hosts, l.phase.stage.held);
    }
  }

  /** Only taking a place adds to those who hold one, and on that host only. */
  lemma {:induction false} HolderBefore(s: State, step: Step, c: Id, h: string)
    requires Inv(s) && Enabled(s, step) && Holds(Next(s, step), c, h)
    ensures Holds(s, c, h) || (step == Take(c) && Wanted(s, c) == h)
  {
    if c == step.c {
      MoverHolds(s, step, h);
    } else if c in s.lookups {
      NextLookup(s, step, c);
    }
  }

  lemma {:induction false} StepHolders(s: State, step: Step, h: string)
    requires Inv(s) && Enabled(s, step)
    ensures |Holders(Next(s, step), h)| <= s.limit
  {
    var t, before := Next(s, step), Holders(s, h);
    assert |before| <= s.limit;
    var taker := if step.Take? && Wanted(s, step.c) == h then {step.c} else {};
    forall c | c in Holders(t, h) ensures c in before + taker {
      HolderBefore(s, step, c, h);
    }
    Smaller(Holders(t, h), before + taker);
  }

  lemma {:induction false} Smaller(a: set<Id>, b: set<Id>)
    requires a <= b
    ensures |a| <= |b|
  {
    assert b == a + (b - a);
  }

  lemma {:induction false} StepKeepsInv(s: State, step: Step)
    requires Inv(s) && Enabled(s, step)
    ensures Inv(Next(s, step))
  {
    var t := Next(s, step);
    StepTable(s, step);
    forall c | c in t.lookups ensures LookupOk(t, c, t.lookups[c]) {
      StepLookups(s, step, c);
    }
    forall key | key in t.table.flights ensures FlightOk(t, key) {
      StepFlights(s, step, key);
    }
    forall h ensures |Holders(t, h)| <= t.limit {
      StepHolders(s, step, h);
    }
  }

  // ----- runs -----

  ghost predicate Run(s: State, steps: seq<Step>, t: State)
    decreases |steps|
  {
    if steps == [] then s == t
    else Enabled(s, steps[0]) && Run(Next(s, steps[0]), steps[1..], t)
  }

  lemma {:induction false} RunKeepsInv(s: State, steps: seq<Step>, t: State)
    requires Inv(s) && Run(s, steps, t)
    ensures Inv(t)
    decreases |steps|
  {
    if steps != [] {
      StepKeepsInv(s, steps[0]);
      RunKeepsInv(Next(s, steps[0]), steps[1..], t);
    }
  }

  /** In every state of every run at most one search for a key is under way, and
      none for a key that has an answer; and at most the limit of commands run on
      a host. */
  lemma {:induction false} OneSearchAtATime(s: State, steps: seq<Step>, t: State, c: Id, d: Id)
    requires Init(s) && Run(s, steps, t)
    ensures AtStage(t, c) && AtStage(t, d) && t.lookups[c].key == t.lookups[d].key ==> c == d
    ensures AtStage(t, c) ==> !Decide(t.table, t.lookups[c].key).Kept?
    ensures forall h :: |Holders(t, h)| <= t.limit
  {
    InitInv(s);
    RunKeepsInv(s, steps, t);
    if AtStage(t, c) {
      assert LookupOk(t, c, t.lookups[c]);
    }
    if AtStage(t, d) {
      assert LookupOk(t, d, t.lookups[d]);
    }
  }

  /** An answer that is kept never changes, and its key is never searched for
      again, however the run goes on. */
  lemma {:induction false} KeptAnswerStays(s: State, steps: seq<Step>, t: State, key: Key)
    requires Inv(s) && Run(s, steps, t) && Decide(s.table, key).Kept?
    ensures Decide(t.table, key) == Decide(s.table, key)
    ensures forall c :: AtStage(t, c) ==> t.lookups[c].key != key
    decreases |steps|
  {
    if steps == [] {
      forall c | AtStage(s, c) ensures s.lookups[c].key != key {
        assert LookupOk(s, c, s.lookups[c]);
      }
    } else {
      var step := steps[0];
      var l := s.lookups[step.c];
      assert LookupOk(s, step.c, l);
      if Ending(s, step).Some? {
        KeptForGood(s.table, l.key, Ending(s, step).value, key);
      }
      StepKeepsInv(s, step);
      KeptAnswerStays(Next(s, step), steps[1..], t, key);
    }
  }

  /** Only a search that found something out is kept: an answer that is new was
      published by its own key's search, and is no failure. */
  lemma {:induction false} KeptBySearch(s: State, step: Step, key: Key)
    requires Inv(s) && Enabled(s, step)
    requires Decide(Next(s, step).table, key).Kept? && !Decide(s.table, key).Kept?
    ensures AtStage(s, step.c) && s.lookups[step.c].key == key
    ensures Ending(s, step) == Some(Decide(Next(s, step).table, key).answer)
    ensures !Ending(s, step).value.Failed?
  {
    var l := s.lookups[step.c];
    assert LookupOk(s, step.c, l);
    if Ending(s, step).Some? {
      KeptForGood(s.table, l.key, Ending(s, step).value, key);
    }
  }

  // ----- no deadlock -----

  /** A step that is no interrupt. */
  predicate Unforced(step: Step) {
    !step.Interrupt? && !step.Abandon?
  }

  lemma {:induction false} Unborn(ids: set<Id>) returns (n: Id)
    ensures forall i :: i in ids ==> i < n
    decreases |ids|
  {
    if ids == {} {
      n := 0;
    } else {
      var i :| i in ids;
      var m := Unborn(ids - {i});
      n := if i < m then m else i + 1;
      assert forall j :: j in ids ==> j == i || j in ids - {i};
    }
  }

  /** A lookup that has a place can move, unless it waits for one of a greater
      name. */
  lemma {:induction false} HolderMovesOrWaits(s: State, c: Id, h: string) returns (step: Step)
    requires Inv(s) && Holds(s, c, h)
    ensures (Enabled(s, step) && Unforced(step)) || (Waits(s, c) && StrLess(h, Wanted(s, c)))
  {
    assert LookupOk(s, c, s.lookups[c]);
    var hosts := HostsOf(s, s.lookups[c].key);
    var stage := StageOf(s, c);
    if stage.Running? {
      step := EndRun(c, None);
    } else if stage.GivingBack? {
      step := GiveBack(c);
    } else {
      step := Launch(c);
      if stage.held < |hosts| {
        var i :| 0 <= i < stage.held && hosts[..stage.held][i] == h;
        assert hosts[i] == h && HostSlots.Ascending(hosts);
      }
    }
  }

  /** A search waiting for places: of those that wait, the one that waits for the
      greatest name can take it, or one that has it can move. */
  lemma {:induction false} AcquirerMoves(s: State, c: Id) returns (step: Step)
    requires Inv(s) && AtStage(s, c) && StageOf(s, c).Acquiring?
    ensures Enabled(s, step) && Unforced(step)
  {
    assert LookupOk(s, c, s.lookups[c]);
    if !Waits(s, c) {
      step := Launch(c);
    } else {
      var wanted := set w | w in s.lookups && Waits(s, w) :: Wanted(s, w);
      assert Wanted(s, c) in wanted;
      var h := GreatestName(wanted);
      if |Holders(s, h)| < s.limit {
        var g :| g in s.lookups && Waits(s, g) && Wanted(s, g) == h;
        step := Take(g);
      } else {
        var d :| d in Holders(s, h);
        step := HolderMovesOrWaits(s, d, h);
        assert Waits(s, d) ==> Wanted(s, d) in wanted;
      }
    }
  }

  lemma {:induction false} UniterMoves(s: State, c: Id) returns (step: Step)
    requires Inv(s) && AtStage(s, c) && StageOf(s, c).Uniting? && StageOf(s, c).active == {}
    ensures Enabled(s, step) && Unforced(step)
  {
    var stage := StageOf(s, c);
    if stage.left == [] || stage.failed.Some? {
      step := Finish(c, "");
    } else {
      var child := Unborn(s.lookups.Keys);
      step := Spawn(c, child);
    }
  }

  /** Whatever a lookup waits for, some lookup can move: waiting leads to a search
      for the same key, and a search to those of lesser rank, down to one that waits
      for places; and those are taken in the order of the hosts' names. A lookup that
      waits for another has none. */
  lemma {:induction false} NoDeadlock(s: State, c: Id) returns (step: Step)
    requires Inv(s) && c in s.lookups && !Over(s, c)
    ensures Enabled(s, step) && Unforced(step)
    decreases Rank(s.lookups[c].key.kind), if s.lookups[c].phase.Waiting? then 1 else 0
  {
    var l := s.lookups[c];
    assert LookupOk(s, c, l);
    match l.phase {
      case Begun => step := Enter(c);
      case Waiting(leader) =>
        if Over(s, leader) {
          step := Wake(c);
        } else {
          step := NoDeadlock(s, leader);
        }
      case Told(_) => step := Close(c);
      case Leading(stage) =>
        match stage {
          case Searching => step := StartRun(c);
          case Acquiring(_) => step := AcquirerMoves(s, c);
          case Running => step := EndRun(c, None);
          case GivingBack(given, held, _) => step := if given < held then GiveBack(c) else Released(c);
          case Ran(out) => step := Settle(c, if out.Some? then Found(out.value) else Failed);
          case Asking(child) =>
            if !Over(s, child) {
              step := NoDeadlock(s, child);
            } else if l.key.kind == Map {
              step := Listed(c, true);
            } else if s.lookups[child].phase.answer.Found? {
              step := Unite(c, []);
            } else {
              step := ListFailed(c);
            }
          case Uniting(left, active, failed) =>
            if active == {} {
              step := UniterMoves(s, c);
            } else {
              var child :| child in active;
              assert Below(s, l.key.kind, child);
              if Over(s, child) {
                step := Reap(c, child, false);
              } else {
                step := NoDeadlock(s, child);
              }
            }
        }
      case Done(_) => assert false;
    }
  }

  // ----- every run ends -----

  /** What a lookup of a list, and one of a group, may have to do. */
  function ListWork(reach: nat): nat {
    7 + 2 * reach
  }

  function MapWork(reach: nat): nat {
    15 + 4 * reach
  }

  /** The work a union has left, given that of each group. */
  function UnionWork(left: nat, active: nat, each: nat): nat {
    left * (each + 2) + active
  }

  /** What a lookup has still to do, the lookups it may start among it. */
  function Work(l: Lookup, bound: nat, reach: nat): nat {
    var union := UnionWork(bound, 0, MapWork(reach));
    match l.phase
    case Done(_) => 0
    case Told(_) => 1
    case Waiting(_) => 1
    case Begun =>
      (match l.key.kind case All => 5 + union + ListWork(reach) case Map => MapWork(reach) case _ => ListWork(reach))
    case Leading(stage) =>
      var child := if l.key.kind == Map then ListWork(reach) + 1 else 0;
      match stage
      case Searching => if l.key.kind == All then 4 + union + ListWork(reach) else 6 + child + 2 * reach
      case Acquiring(held) => 5 + child + reach + if held <= reach then reach - held else 0
      case Running => 4 + child + reach
      case GivingBack(given, held, _) => 3 + child + if given <= held then held - given else 0
      case Ran(_) => 2 + child
      case Asking(_) => if l.key.kind == All then 3 + union else 2
      case Uniting(left, active, _) => 2 + UnionWork(|left|, |active|, MapWork(reach))
  }

  lemma {:induction false} TimesMore(left: nat, more: nat, each: nat)
    requires left <= more
    ensures left * each <= more * each
  {
    assert more * each == left * each + (more - left) * each;
  }

  lemma {:induction false} UnionSteps(left: nat, more: nat, active: set<Id>, child: Id, each: nat)
    ensures left <= more ==> UnionWork(left, 0, each) <= UnionWork(more, 0, each)
    ensures child !in active ==> UnionWork(left, |active + {child}|, each) + each < UnionWork(left + 1, |active|, each)
    ensures child in active ==> UnionWork(left, |active - {child}|, each) < UnionWork(left, |active|, each)
  {
    if left <= more {
      TimesMore(left, more, each + 2);
    }
    assert (left + 1) * (each + 2) == left * (each + 2) + (each + 2);
  }

  /** The work of the lookup a step starts. */
  function StartedWork(s: State, step: Step): nat
    requires Enabled(s, step)
  {
    match Started(s, step)
    case Some((_, l)) => Work(l, s.bound, s.reach)
    case None => 0
  }

  ghost predicate DoesWork(s: State, step: Step)
    requires Enabled(s, step)
  {
    Work(s.lookups[step.c].(phase := Moved(s, step)), s.bound, s.reach) + StartedWork(s, step)
    < Work(s.lookups[step.c], s.bound, s.reach)
  }

  predicate OfUnion(step: Step) {
    step.Unite? || step.Spawn? || step.Reap? || step.Finish? || step.Abandon?
  }

  lemma {:induction false} UniteDoesWork(s: State, c: Id, names: seq<string>)
    requires Inv(s) && Enabled(s, Unite(c, names))
    ensures DoesWork(s, Unite(c, names))
  {
    UnionSteps(|names|, s.bound, {}, 0, MapWork(s.reach));
  }

  lemma {:induction false} ReapDoesWork(s: State, step: Step)
    requires Inv(s) && Enabled(s, step) && step.Reap?
    ensures DoesWork(s, step)
  {
    var stage := s.lookups[step.c].phase.stage;
    UnionSteps(|stage.left|, 0, stage.active, step.child, MapWork(s.reach));
  }

  lemma {:induction false} UnionDoesWork(s: State, step: Step)
    requires Inv(s) && Enabled(s, step) && OfUnion(step)
    ensures DoesWork(s, step)
  {
    if step.Spawn? {
      SpawnDoesWork(s, step.c, step.child);
    } else if step.Unite? {
      UniteDoesWork(s, step.c, step.names);
    } else if step.Reap? {
      ReapDoesWork(s, step);
    }
  }

  lemma {:induction false} SpawnDoesWork(s: State, c: Id, child: Id)
    requires Inv(s) && Enabled(s, Spawn(c, child))
    ensures DoesWork(s, Spawn(c, child))
  {
    var l := s.lookups[c];
    assert LookupOk(s, c, l);
    assert child !in l.phase.stage.active by {
      assert forall d :: d in l.phase.stage.active ==> Below(s, l.key.kind, d);
    }
    UnionSteps(|l.phase.stage.left| - 1, 0, l.phase.stage.active, child, MapWork(s.reach));
  }

  predicate OfCommand(step: Step) {
    || step.StartRun? || step.Take? || step.Interrupt? || step.Launch? || step.EndRun? || step.GiveBack? || step.Released?
  }

  lemma {:induction false} CommandDoesWork(s: State, step: Step)
    requires Inv(s) && Enabled(s, step) && OfCommand(step)
    ensures DoesWork(s, step)
  {
    assert LookupOk(s, step.c, s.lookups[step.c]);
    assert |HostsOf(s, s.lookups[step.c].key)| <= s.reach;
  }

  lemma {:induction false} SearchDoesWork(s: State, step: Step)
    requires Inv(s) && Enabled(s, step) && !OfUnion(step) && !OfCommand(step)
    ensures DoesWork(s, step)
  {
    assert LookupOk(s, step.c, s.lookups[step.c]);
  }

  /** A step takes more work off the lookup that makes it than the one it starts
      has. */
  lemma {:induction false} StepDoesWork(s: State, step: Step)
    requires Inv(s) && Enabled(s, step)
    ensures DoesWork(s, step)
  {
    if OfUnion(step) {
      UnionDoesWork(s, step);
    } else if OfCommand(step) {
      CommandDoesWork(s, step);
    } else {
      SearchDoesWork(s, step);
    }
  }

  ghost function TotalWork(lookups: map<Id, Lookup>, bound: nat, reach: nat): nat
    decreases |lookups|
  {
    if lookups == map[] then 0
    else
      var c :| c in lookups;
      Work(lookups[c], bound, reach) + TotalWork(lookups - {c}, bound, reach)
  }

  lemma {:induction false} TotalWithout(lookups: map<Id, Lookup>, bound: nat, reach: nat, c: Id)
    requires c in lookups
    ensures TotalWork(lookups, bound, reach) == Work(lookups[c], bound, reach) + TotalWork(lookups - {c}, bound, reach)
    decreases |lookups|
  {
    var d :| d in lookups && TotalWork(lookups, bound, reach) == Work(lookups[d], bound, reach) + TotalWork(lookups - {d}, bound, reach);
    if d != c {
      TotalWithout(lookups - {d}, bound, reach, c);
      TotalWithout(lookups - {c}, bound, reach, d);
      assert lookups - {d} - {c} == lookups - {c} - {d};
    }
  }

  lemma {:induction false} StepLessWork(s: State, step: Step)
    requires Inv(s) && Enabled(s, step)
    ensures TotalWork(Next(s, step).lookups, s.bound, s.reach) < TotalWork(s.lookups, s.bound, s.reach)
  {
    StepDoesWork(s, step);
    var t := Next(s, step);
    var moved := s.lookups[step.c := s.lookups[step.c].(phase := Moved(s, step))];
    TotalWithout(s.lookups, s.bound, s.reach, step.c);
    TotalWithout(moved, s.bound, s.reach, step.c);
    assert moved - {step.c} == s.lookups - {step.c};
    match Started(s, step) {
      case Some((child, l)) =>
        TotalWithout(t.lookups, s.bound, s.reach, child);
        assert t.lookups - {child} == moved;
      case None =>
    }
  }

  /** No run makes more steps than its lookups have work. With NoDeadlock: every
      run can be continued until each lookup has its answer, and after finitely
      many steps each has. */
  lemma {:induction false} RunsAreFinite(s: State, steps: seq<Step>, t: State)
    requires Inv(s) && Run(s, steps, t)
    ensures |steps| + TotalWork(t.lookups, t.bound, t.reach) <= TotalWork(s.lookups, s.bound, s.reach)
    decreases |steps|
  {
    if steps != [] {
      StepLessWork(s, steps[0]);
      StepKeepsInv(s, steps[0]);
      RunsAreFinite(Next(s, steps[0]), steps[1..], t);
    }
  }
}
