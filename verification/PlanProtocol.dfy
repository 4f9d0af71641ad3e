/** Any number of apply_plan calls under way at once, as a system of steps: one
    for each use of the plan store, and one for each part of a call between two
    (internal/mcpserver/plan.go). */
module PlanProtocol {
  import opened Options
  import opened PlanStore

  type Call = nat

  /** A plan, whichever name it is stored under. */
  type Ref = nat

  datatype Reply = Reply(state: string, yes: bool)

  /** A call: the plan it names and repeats, and, on the call after a question,
      the administrator's answer. */
  datatype Input = Input(plan: string, targets: string, count: int, answer: Option<Reply>)

  datatype Offer = Offer(id: string, terms: Terms)

  datatype Phase =
    | Begun
    | Found(r: Ref)
    | Checked(r: Ref)
    | Confirmed(r: Ref)
    | Taken(r: Ref)
    | Recorded(r: Ref)
    | Ended

  datatype Event =
    | Ticked(to: int)
    | Stored(r: Ref, at: int)
    | Got(c: Call, r: Ref, at: int)
    | Matched(c: Call, r: Ref, current: Terms)
    | Asked(c: Call, r: Ref, state: string)
    | Accepted(c: Call, r: Ref, state: string)
    | Took(c: Call, r: Ref, at: int)
    | Executed(c: Call, r: Ref, at: int)

  /** Inputs, offers, the mode, the time to live and the time of the start never
      change; plans and the store are what the store's
      lock guards; the log says what happened, in order, and when. */
  datatype State = State(elicit: bool, ttl: int, start: int, inputs: map<Call, Input>, offers: map<Ref, Offer>,
                         now: int, plans: map<Ref, Status>, store: map<string, Ref>, phases: map<Call, Phase>,
                         log: seq<Event>)

  predicate Init(s: State) {
    && s.plans == map[] && s.store == map[] && s.log == [] && s.now == s.start
    && s.phases.Keys == s.inputs.Keys
    && forall c :: c in s.phases ==> s.phases[c] == Begun
  }

  datatype Step =
    | Tick(now: int)
    | Add(r: Ref)
    | Get(c: Call)
    | Check(c: Call, current: Option<Terms>)
    | Ask(c: Call, state: string)
    | Answer(c: Call)
    | Skip(c: Call)
    | Take(c: Call)
    | Record(c: Call, ok: bool)
    | Execute(c: Call)
    | GiveUp(c: Call)

  predicate In(s: State, c: Call) {
    c in s.phases && c in s.inputs
  }

  /** The call has found a plan and is past this point. */
  predicate At(s: State, c: Call, phase: Phase) {
    In(s, c) && s.phases[c] == phase && !phase.Begun? && !phase.Ended? && phase.r in s.plans && phase.r in s.offers
  }

  /** Whether a step can be made. The state of a question is fresh: no question
      before it had the same. */
  predicate Enabled(s: State, step: Step) {
    match step
    case Tick(now) => now >= s.now
    case Add(r) => r in s.offers && r !in s.plans
    case Get(c) => In(s, c) && s.phases[c].Begun?
    case Check(c, _) => In(s, c) && s.phases[c].Found? && At(s, c, s.phases[c])
    case Ask(c, state) =>
      && In(s, c) && s.phases[c].Checked? && At(s, c, s.phases[c])
      && s.elicit && s.inputs[c].answer.None? && state != "" && !WasAsked(s.log, state)
    case Answer(c) =>
      In(s, c) && s.phases[c].Checked? && At(s, c, s.phases[c]) && s.elicit && s.inputs[c].answer.Some?
    case Skip(c) => In(s, c) && s.phases[c].Checked? && At(s, c, s.phases[c]) && !s.elicit
    case Take(c) => In(s, c) && s.phases[c].Confirmed? && At(s, c, s.phases[c])
    case Record(c, _) => In(s, c) && s.phases[c].Taken? && At(s, c, s.phases[c])
    case Execute(c) => In(s, c) && s.phases[c].Recorded? && At(s, c, s.phases[c])
    case GiveUp(c) => In(s, c) && (s.phases[c].Found? || s.phases[c].Checked? || s.phases[c].Confirmed?)
  }

  function Pruned(s: State): map<string, Ref> {
    map id | id in s.store && s.store[id] in s.plans && !Expired(s.plans[s.store[id]], s.now) :: s.store[id]
  }

  /** The plan a call finds under the name it gives. */
  function FoundBy(s: State, c: Call): Option<Ref>
    requires In(s, c)
  {
    var store, id := Pruned(s), s.inputs[c].plan;
    if id in store && store[id] in s.offers then Some(store[id]) else None
  }

  /** The plan matches when the call repeats it, and the configuration still
      gives what it was made for. */
  predicate Matches(input: Input, offer: Offer, current: Option<Terms>) {
    && input.targets == offer.terms.targets && input.count == offer.terms.count
    && current == Some(offer.terms)
  }

  /** The answer is to the question last put for the plan, and is yes. */
  predicate Confirms(s: State, c: Call)
    requires Enabled(s, Answer(c))
  {
    Answers(s.plans[s.phases[c].r], s.inputs[c].answer.value.state) && s.inputs[c].answer.value.yes
  }

  /** Where a step leaves the call that makes it. */
  function PhaseAfter(s: State, step: Step): Phase
    requires Enabled(s, step) && !step.Tick? && !step.Add?
  {
    match step
    case Get(c) => (match FoundBy(s, c) case Some(r) => Found(r) case None => Ended)
    case Check(c, current) =>
      if Matches(s.inputs[c], s.offers[s.phases[c].r], current) then Checked(s.phases[c].r) else Ended
    case Answer(c) => if Confirms(s, c) then Confirmed(s.phases[c].r) else Ended
    case Skip(c) => Confirmed(s.phases[c].r)
    case Take(c) => if s.plans[s.phases[c].r].used then Ended else Taken(s.phases[c].r)
    case Record(c, ok) => if ok then Recorded(s.phases[c].r) else Ended
    case _ => Ended
  }

  function PlansAfter(s: State, step: Step): map<Ref, Status>
    requires Enabled(s, step)
  {
    match step
    case Add(r) => s.plans[r := AddedAt(Status(0, "", false), s.now, s.ttl)]
    case Ask(c, state) => s.plans[s.phases[c].r := AskedWith(s.plans[s.phases[c].r], state)]
    case Answer(c) => s.plans[s.phases[c].r := AskedWith(s.plans[s.phases[c].r], "")]
    case Take(c) => s.plans[s.phases[c].r := s.plans[s.phases[c].r].(used := true)]
    case _ => s.plans
  }

  function StoreAfter(s: State, step: Step): map<string, Ref>
    requires Enabled(s, step)
  {
    match step
    case Add(r) => Pruned(s)[s.offers[r].id := r]
    case Get(c) => Pruned(s)
    case Take(c) => if s.plans[s.phases[c].r].used then s.store else s.store - {s.offers[s.phases[c].r].id}
    case _ => s.store
  }

  function EventsOf(s: State, step: Step): (events: seq<Event>)
    requires Enabled(s, step)
    ensures |events| <= 1
  {
    match step
    case Tick(now) => [Ticked(now)]
    case Add(r) => [Stored(r, s.now)]
    case Get(c) => (match FoundBy(s, c) case Some(r) => [Got(c, r, s.now)] case None => [])
    case Check(c, current) =>
      var r := s.phases[c].r;
      if Matches(s.inputs[c], s.offers[r], current) then [Matched(c, r, current.value)] else []
    case Ask(c, state) => [Asked(c, s.phases[c].r, state)]
    case Answer(c) => if Confirms(s, c) then [Accepted(c, s.phases[c].r, s.inputs[c].answer.value.state)] else []
    case Take(c) => if s.plans[s.phases[c].r].used then [] else [Took(c, s.phases[c].r, s.now)]
    case Execute(c) => [Executed(c, s.phases[c].r, s.now)]
    case _ => []
  }

  function Next(s: State, step: Step): State
    requires Enabled(s, step)
  {
    s.(now := if step.Tick? then step.now else s.now,
       plans := PlansAfter(s, step),
       store := StoreAfter(s, step),
       phases := if step.Tick? || step.Add? then s.phases else s.phases[step.c := PhaseAfter(s, step)],
       log := s.log + EventsOf(s, step))
  }

  // ----- what the log says -----

  /** What the clock shows after these events. */
  function Clock(start: int, log: seq<Event>): int {
    if log == [] then start
    else
      var e := log[|log| - 1];
      if e.Ticked? then e.to else Clock(start, log[..|log| - 1])
  }

  /** When a plan was added. */
  function AddedTime(log: seq<Event>, r: Ref): Option<int> {
    if log == [] then None
    else
      var e := log[|log| - 1];
      if e.Stored? && e.r == r then Some(e.at) else AddedTime(log[..|log| - 1], r)
  }

  predicate WasAsked(log: seq<Event>, state: string) {
    log != [] && (WasAsked(log[..|log| - 1], state) || (var e := log[|log| - 1]; e.Asked? && e.state == state))
  }

  /** Some answer that carried this state was accepted. */
  predicate WasAccepted(log: seq<Event>, state: string) {
    log != [] && (WasAccepted(log[..|log| - 1], state) || (var e := log[|log| - 1]; e.Accepted? && e.state == state))
  }

  /** The state of the latest question put for a plan. */
  function Latest(log: seq<Event>, r: Ref): Option<string> {
    if log == [] then None
    else
      var e := log[|log| - 1];
      if e.Asked? && e.r == r then Some(e.state) else Latest(log[..|log| - 1], r)
  }

  predicate WasTaken(log: seq<Event>, r: Ref) {
    log != [] && (WasTaken(log[..|log| - 1], r) || (var e := log[|log| - 1]; e.Took? && e.r == r))
  }

  predicate WasExecuted(log: seq<Event>, r: Ref) {
    log != [] && (WasExecuted(log[..|log| - 1], r) || (var e := log[|log| - 1]; e.Executed? && e.r == r))
  }

  predicate Matching(log: seq<Event>, c: Call, r: Ref) {
    log != [] && (Matching(log[..|log| - 1], c, r) || (var e := log[|log| - 1]; e.Matched? && e.c == c && e.r == r))
  }

  predicate Vouched(log: seq<Event>, c: Call, r: Ref) {
    log != [] && (Vouched(log[..|log| - 1], c, r) || (var e := log[|log| - 1]; e.Accepted? && e.c == c && e.r == r))
  }

  predicate TookIt(log: seq<Event>, c: Call, r: Ref) {
    log != [] && (TookIt(log[..|log| - 1], c, r) || (var e := log[|log| - 1]; e.Took? && e.c == c && e.r == r))
  }

  predicate Finding(log: seq<Event>, c: Call, r: Ref) {
    log != [] && (Finding(log[..|log| - 1], c, r) || (var e := log[|log| - 1]; e.Got? && e.c == c && e.r == r))
  }

  /** What lets an event happen, given what happened before it. */
  predicate Justified(s: State, before: seq<Event>, e: Event) {
    match e
    case Ticked(to) => to >= Clock(s.start, before)
    case Stored(r, at) => r in s.offers && at == Clock(s.start, before) && AddedTime(before, r) == None
    case Got(c, r, at) => && c in s.inputs && r in s.offers && at == Clock(s.start, before)
                          && AddedTime(before, r).Some? && at <= AddedTime(before, r).value + s.ttl
    case Matched(c, r, current) => && c in s.inputs && r in s.offers && Finding(before, c, r)
                                   && current == s.offers[r].terms
                          && s.inputs[c].targets == s.offers[r].terms.targets
                          && s.inputs[c].count == s.offers[r].terms.count
    case Asked(c, r, state) => s.elicit && state != "" && !WasAsked(before, state)
    case Accepted(c, r, state) => && s.elicit && c in s.inputs && s.inputs[c].answer == Some(Reply(state, true))
                                  && Latest(before, r) == Some(state) && !WasAccepted(before, state)
                                  && Matching(before, c, r)
    case Took(c, r, at) => && !WasTaken(before, r) && Matching(before, c, r) && (s.elicit ==> Vouched(before, c, r))
                           && at == Clock(s.start, before)
    case Executed(c, r, at) => TookIt(before, c, r) && !WasExecuted(before, r) && at == Clock(s.start, before)
  }

  predicate Sound(s: State, log: seq<Event>) {
    log == [] || (var n := |log| - 1; Sound(s, log[..n]) && Justified(s, log[..n], log[n]))
  }

  // ----- what every step keeps -----

  predicate PhaseOk(s: State, c: Call, phase: Phase) {
    match phase
    case Begun => true
    case Ended => true
    case Found(r) => r in s.plans && r in s.offers && Finding(s.log, c, r)
    case Checked(r) => r in s.plans && r in s.offers && Matching(s.log, c, r)
    case Confirmed(r) => r in s.plans && r in s.offers && Matching(s.log, c, r) && (s.elicit ==> Vouched(s.log, c, r))
    case Taken(r) => r in s.plans && r in s.offers && TookIt(s.log, c, r) && !WasExecuted(s.log, r)
    case Recorded(r) => r in s.plans && r in s.offers && TookIt(s.log, c, r) && !WasExecuted(s.log, r)
  }

  /** When a plan was added, and whether it was taken. */
  predicate TimesOk(s: State, r: Ref) {
    && r in s.plans && r in s.offers
    && AddedTime(s.log, r) == Some(s.plans[r].expires - s.ttl)
    && (s.plans[r].used <==> WasTaken(s.log, r))
  }

  /** The question last put for a plan. */
  predicate AskedOk(s: State, r: Ref) {
    r in s.plans && s.plans[r].asked != "" ==>
      Latest(s.log, r) == Some(s.plans[r].asked) && !WasAccepted(s.log, s.plans[r].asked)
  }

  predicate PlanOk(s: State, r: Ref) {
    TimesOk(s, r) && AskedOk(s, r)
  }

  ghost predicate Inv(s: State) {
    && Sound(s, s.log) && s.now == Clock(s.start, s.log)
    && s.phases.Keys == s.inputs.Keys
    && (forall c :: c in s.phases ==> PhaseOk(s, c, s.phases[c]))
    && (forall r :: r in s.plans ==> PlanOk(s, r))
    && (forall r :: r in s.offers && r !in s.plans ==> Unused(s.log, r))
    && (forall c, d :: c in s.phases && d in s.phases && c != d ==> !SameTaken(s.phases[c], s.phases[d]))
  }

  predicate Unused(log: seq<Event>, r: Ref) {
    !WasTaken(log, r) && Latest(log, r) == None && AddedTime(log, r) == None
  }

  predicate Holds(phase: Phase, r: Ref) {
    (phase.Taken? || phase.Recorded?) && phase.r == r
  }

  /** Two calls never hold the same plan taken. */
  predicate SameTaken(a: Phase, b: Phase) {
    (a.Taken? || a.Recorded?) && Holds(b, a.r)
  }

  lemma {:induction false} Grows(log: seq<Event>, e: Event)
    ensures (log + [e])[..|log|] == log && (log + [e])[|log|] == e && |log + [e]| == |log| + 1
  {
  }

  lemma {:induction false} Still(log: seq<Event>)
    ensures log + [] == log
  {
  }

  /** Nothing an event was justified by is changed later. */
  lemma {:induction false} SoundStays(s: State, t: State, log: seq<Event>)
    requires Sound(s, log) && t.elicit == s.elicit && t.inputs == s.inputs && t.offers == s.offers
    requires t.ttl == s.ttl && t.start == s.start
    ensures Sound(t, log)
  {
    if log != [] {
      SoundStays(s, t, log[..|log| - 1]);
    }
  }

  lemma {:induction false} LatestWasAsked(log: seq<Event>, r: Ref)
    ensures Latest(log, r).Some? ==> WasAsked(log, Latest(log, r).value)
  {
    if log != [] {
      LatestWasAsked(log[..|log| - 1], r);
    }
  }

  lemma {:induction false} AcceptedWasAsked(s: State, log: seq<Event>, state: string)
    requires Sound(s, log) && WasAccepted(log, state)
    ensures WasAsked(log, state)
  {
    var n := |log| - 1;
    if WasAccepted(log[..n], state) {
      AcceptedWasAsked(s, log[..n], state);
    } else {
      LatestWasAsked(log[..n], log[n].r);
    }
  }

  /** No two plans have a question with the same state. */
  lemma {:induction false} LatestDiffer(s: State, log: seq<Event>, q: Ref, r: Ref)
    requires Sound(s, log) && q != r && Latest(log, q).Some? && Latest(log, r).Some?
    ensures Latest(log, q) != Latest(log, r)
  {
    var n := |log| - 1;
    var e := log[n];
    LatestWasAsked(log[..n], q);
    LatestWasAsked(log[..n], r);
    if !(e.Asked? && (e.r == q || e.r == r)) {
      LatestDiffer(s, log[..n], q, r);
    }
  }

  lemma {:induction false} TookWasTaken(log: seq<Event>, c: Call, r: Ref)
    requires TookIt(log, c, r)
    ensures WasTaken(log, r)
  {
    var n := |log| - 1;
    if TookIt(log[..n], c, r) {
      TookWasTaken(log[..n], c, r);
    }
  }

  lemma {:induction false} ExecutedWasTaken(s: State, log: seq<Event>, r: Ref)
    requires Sound(s, log) && WasExecuted(log, r)
    ensures WasTaken(log, r)
  {
    var n := |log| - 1;
    if WasExecuted(log[..n], r) {
      ExecutedWasTaken(s, log[..n], r);
    } else {
      TookWasTaken(log[..n], log[n].c, r);
    }
  }

  /** The event of a step is justified. */
  lemma {:induction false} EventJustified(s: State, step: Step)
    requires Inv(s) && Enabled(s, step) && EventsOf(s, step) != []
    ensures Justified(Next(s, step), s.log, EventsOf(s, step)[0])
  {
    if !step.Tick? && !step.Add? {
      var c := step.c;
      assert PhaseOk(s, c, s.phases[c]);
      if !s.phases[c].Begun? && !s.phases[c].Ended? {
        assert PlanOk(s, s.phases[c].r);
      }
    }
  }

  lemma {:induction false} StepSound(s: State, step: Step)
    requires Inv(s) && Enabled(s, step)
    ensures Sound(Next(s, step), Next(s, step).log)
  {
    var t, events := Next(s, step), EventsOf(s, step);
    SoundStays(s, t, s.log);
    if events == [] {
      Still(s.log);
    } else {
      EventJustified(s, step);
      Grows(s.log, events[0]);
      assert events == [events[0]];
    }
  }

  /** What a call counts on stays so, whatever event follows, but for the plan it
      has taken being carried out. */
  lemma {:induction false} PhaseStays(s: State, t: State, c: Call, phase: Phase, events: seq<Event>)
    requires PhaseOk(s, c, phase) && t.log == s.log + events && |events| <= 1
    requires t.elicit == s.elicit && t.offers == s.offers && s.plans.Keys <= t.plans.Keys
    requires forall e :: e in events && e.Executed? ==> !Holds(phase, e.r)
    ensures PhaseOk(t, c, phase)
  {
    if events == [] {
      Still(s.log);
    } else {
      Grows(s.log, events[0]);
      assert events == [events[0]] && events[0] in events;
    }
  }

  /** The call that makes a step. */
  lemma {:induction false} MoverOk(s: State, step: Step)
    requires Inv(s) && Enabled(s, step) && !step.Tick? && !step.Add?
    ensures PhaseOk(Next(s, step), step.c, PhaseAfter(s, step))
  {
    var c, events := step.c, EventsOf(s, step);
    assert PhaseOk(s, c, s.phases[c]);
    if events == [] {
      Still(s.log);
    } else {
      Grows(s.log, events[0]);
      assert events == [events[0]];
    }
    if step.Take? {
      var r := s.phases[c].r;
      assert PlanOk(s, r);
      if WasExecuted(s.log, r) {
        ExecutedWasTaken(s, s.log, r);
      }
    }
  }

  lemma {:induction false} StepPhases(s: State, step: Step, c: Call)
    requires Inv(s) && Enabled(s, step) && c in s.phases
    ensures PhaseOk(Next(s, step), c, Next(s, step).phases[c])
  {
    var t, events := Next(s, step), EventsOf(s, step);
    if step.Tick? || step.Add? || c != step.c {
      if step.Execute? {
        assert Holds(s.phases[step.c], s.phases[step.c].r) && !SameTaken(s.phases[step.c], s.phases[c]);
      }
      PhaseStays(s, t, c, s.phases[c], events);
    } else {
      MoverOk(s, step);
    }
  }

  lemma {:induction false} TimesGrow(log: seq<Event>, events: seq<Event>, r: Ref)
    requires |events| <= 1
    ensures AddedTime(log + events, r)
            == if events != [] && events[0].Stored? && events[0].r == r then Some(events[0].at) else AddedTime(log, r)
    ensures WasTaken(log + events, r) <==> WasTaken(log, r) || (events != [] && events[0].Took? && events[0].r == r)
  {
    if events == [] {
      Still(log);
    } else {
      Grows(log, events[0]);
      assert events == [events[0]];
    }
  }

  lemma {:induction false} StepTimes(s: State, step: Step, r: Ref)
    requires Inv(s) && Enabled(s, step) && r in Next(s, step).plans
    ensures TimesOk(Next(s, step), r)
  {
    TimesGrow(s.log, EventsOf(s, step), r);
    if r in s.plans {
      assert PlanOk(s, r);
    } else {
      assert Unused(s.log, r);
    }
  }

  lemma {:induction false} StepAsked(s: State, step: Step, r: Ref)
    requires Inv(s) && Enabled(s, step) && r in Next(s, step).plans
    ensures AskedOk(Next(s, step), r)
  {
    var events := EventsOf(s, step);
    if r in s.plans {
      assert PlanOk(s, r);
    }
    if events == [] {
      Still(s.log);
    } else {
      var e := events[0];
      Grows(s.log, e);
      assert events == [e];
      if e.Asked? && e.r == r && WasAccepted(s.log, e.state) {
        AcceptedWasAsked(s, s.log, e.state);
      }
      if e.Accepted? && e.r != r && r in s.plans && s.plans[r].asked != "" {
        assert PlanOk(s, e.r);
        LatestDiffer(s, s.log, e.r, r);
      }
    }
  }

  lemma {:induction false} StepPlans(s: State, step: Step, r: Ref)
    requires Inv(s) && Enabled(s, step) && r in Next(s, step).plans
    ensures PlanOk(Next(s, step), r)
  {
    StepTimes(s, step, r);
    StepAsked(s, step, r);
  }

  lemma {:induction false} StepUnused(s: State, step: Step, r: Ref)
    requires Inv(s) && Enabled(s, step) && r in s.offers && r !in Next(s, step).plans
    ensures Unused(Next(s, step).log, r)
  {
    assert r !in s.plans && Unused(s.log, r);
    var events := EventsOf(s, step);
    if events == [] {
      Still(s.log);
    } else {
      Grows(s.log, events[0]);
      assert events == [events[0]];
    }
  }

  /** A plan not taken yet is held by no call. */
  lemma {:induction false} UntakenUnheld(s: State, r: Ref, c: Call)
    requires Inv(s) && r in s.plans && !s.plans[r].used && c in s.phases
    ensures !Holds(s.phases[c], r)
  {
    assert PlanOk(s, r) && PhaseOk(s, c, s.phases[c]);
    if Holds(s.phases[c], r) {
      TookWasTaken(s.log, c, r);
    }
  }

  /** A call comes to hold a plan only by taking one not taken before. */
  lemma {:induction false} HeldAfter(s: State, step: Step, c: Call, r: Ref)
    requires Enabled(s, step) && c in s.phases && Holds(Next(s, step).phases[c], r)
    ensures Holds(s.phases[c], r) || (step == Take(c) && s.phases[c].Confirmed? && s.phases[c].r == r && !s.plans[r].used)
  {
  }

  lemma {:induction false} StepTaken(s: State, step: Step, c: Call, d: Call)
    requires Inv(s) && Enabled(s, step) && c in s.phases && d in s.phases && c != d
    ensures !SameTaken(Next(s, step).phases[c], Next(s, step).phases[d])
  {
    var p, q := Next(s, step).phases[c], Next(s, step).phases[d];
    if SameTaken(p, q) {
      HeldAfter(s, step, c, p.r);
      HeldAfter(s, step, d, p.r);
      assert !SameTaken(s.phases[c], s.phases[d]);
      if Holds(s.phases[c], p.r) {
        UntakenUnheld(s, p.r, c);
      } else {
        UntakenUnheld(s, p.r, d);
      }
    }
  }

  lemma {:induction false} StepClock(s: State, step: Step)
    requires Inv(s) && Enabled(s, step)
    ensures Next(s, step).now == Clock(s.start, Next(s, step).log)
  {
    var events := EventsOf(s, step);
    if events == [] {
      Still(s.log);
    } else {
      Grows(s.log, events[0]);
      assert events == [events[0]];
    }
  }

  lemma {:induction false} StepKeepsInv(s: State, step: Step)
    requires Inv(s) && Enabled(s, step)
    ensures Inv(Next(s, step))
  {
    var t := Next(s, step);
    StepSound(s, step);
    StepClock(s, step);
    forall c | c in t.phases ensures PhaseOk(t, c, t.phases[c]) {
      StepPhases(s, step, c);
    }
    forall r | r in t.plans ensures PlanOk(t, r) {
      StepPlans(s, step, r);
    }
    forall r | r in t.offers && r !in t.plans ensures Unused(t.log, r) {
      StepUnused(s, step, r);
    }
    forall c, d | c in t.phases && d in t.phases && c != d ensures !SameTaken(t.phases[c], t.phases[d]) {
      StepTaken(s, step, c, d);
    }
  }

  // ----- runs -----

  /** A run: a state, the steps made from it, and the state reached. */
  ghost predicate Run(s: State, steps: seq<Step>, t: State)
    decreases |steps|
  {
    if steps == [] then s == t
    else Enabled(s, steps[0]) && Run(Next(s, steps[0]), steps[1..], t)
  }

  lemma {:induction false} InitInv(s: State)
    requires Init(s)
    ensures Inv(s)
  {
    assert forall r :: Unused(s.log, r);
  }

  lemma {:induction false} RunKeepsInv(s: State, steps: seq<Step>, t: State)
    requires Inv(s) && Run(s, steps, t)
    ensures Inv(t) && t.elicit == s.elicit && t.inputs == s.inputs && t.offers == s.offers && t.ttl == s.ttl
    decreases |steps|
  {
    if steps != [] {
      StepKeepsInv(s, steps[0]);
      RunKeepsInv(Next(s, steps[0]), steps[1..], t);
    }
  }

  lemma {:induction false} SoundAt(s: State, log: seq<Event>, k: nat)
    requires Sound(s, log) && k < |log|
    ensures Justified(s, log[..k], log[k])
  {
    var n := |log| - 1;
    if k < n {
      SoundAt(s, log[..n], k);
      assert log[..n][..k] == log[..k];
    }
  }

  /** An event before the n-th is one of the first n. */
  lemma {:induction false} Happened(log: seq<Event>, n: nat, i: nat)
    requires i < n <= |log|
    ensures log[i].Executed? ==> WasExecuted(log[..n], log[i].r)
    ensures log[i].Took? ==> WasTaken(log[..n], log[i].r)
    ensures log[i].Accepted? ==> WasAccepted(log[..n], log[i].state)
    decreases n
  {
    assert log[..n][..n - 1] == log[..n - 1] && log[..n][n - 1] == log[n - 1];
    if i < n - 1 {
      Happened(log, n - 1, i);
    }
  }

  lemma {:induction false} VouchedAt(log: seq<Event>, n: nat, c: Call, r: Ref) returns (i: nat)
    requires n <= |log| && Vouched(log[..n], c, r)
    ensures i < n && log[i].Accepted? && log[i].c == c && log[i].r == r
    decreases n
  {
    assert log[..n][..n - 1] == log[..n - 1] && log[..n][n - 1] == log[n - 1];
    if Vouched(log[..n - 1], c, r) {
      i := VouchedAt(log, n - 1, c, r);
    } else {
      i := n - 1;
    }
  }

  lemma {:induction false} TookAt(log: seq<Event>, n: nat, c: Call, r: Ref) returns (i: nat)
    requires n <= |log| && TookIt(log[..n], c, r)
    ensures i < n && log[i].Took? && log[i].c == c && log[i].r == r
    decreases n
  {
    assert log[..n][..n - 1] == log[..n - 1] && log[..n][n - 1] == log[n - 1];
    if TookIt(log[..n - 1], c, r) {
      i := TookAt(log, n - 1, c, r);
    } else {
      i := n - 1;
    }
  }

  lemma {:induction false} MatchedAt(log: seq<Event>, n: nat, c: Call, r: Ref) returns (i: nat)
    requires n <= |log| && Matching(log[..n], c, r)
    ensures i < n && log[i].Matched? && log[i].c == c && log[i].r == r
    decreases n
  {
    assert log[..n][..n - 1] == log[..n - 1] && log[..n][n - 1] == log[n - 1];
    if Matching(log[..n - 1], c, r) {
      i := MatchedAt(log, n - 1, c, r);
    } else {
      i := n - 1;
    }
  }

  lemma {:induction false} FoundAt(log: seq<Event>, n: nat, c: Call, r: Ref) returns (i: nat)
    requires n <= |log| && Finding(log[..n], c, r)
    ensures i < n && log[i].Got? && log[i].c == c && log[i].r == r
    decreases n
  {
    assert log[..n][..n - 1] == log[..n - 1] && log[..n][n - 1] == log[n - 1];
    if Finding(log[..n - 1], c, r) {
      i := FoundAt(log, n - 1, c, r);
    } else {
      i := n - 1;
    }
  }

  /** However many calls race, a plan is carried out at most once, and taken by
      one call only. */
  lemma {:induction false} AppliedAtMostOnce(s: State, steps: seq<Step>, t: State, i: nat, j: nat)
    requires Init(s) && Run(s, steps, t) && i < |t.log| && j < |t.log|
    ensures t.log[i].Executed? && t.log[j].Executed? && t.log[i].r == t.log[j].r ==> i == j
    ensures t.log[i].Took? && t.log[j].Took? && t.log[i].r == t.log[j].r ==> i == j
  {
    InitInv(s);
    RunKeepsInv(s, steps, t);
    SoundAt(t, t.log, i);
    SoundAt(t, t.log, j);
    if i < j {
      Happened(t.log, j, i);
    } else if j < i {
      Happened(t.log, i, j);
    }
  }

  /** Where the administrator has to confirm, whatever is carried out was: the
      call that carries a plan out took it after its own answer was accepted, a yes
      with the state of the question that was then the latest put for the plan. */
  lemma {:induction false} AppliedAsConfirmed(s: State, steps: seq<Step>, t: State, k: nat) returns (i: nat, j: nat)
    requires Init(s) && Run(s, steps, t) && t.elicit && k < |t.log| && t.log[k].Executed?
    ensures i < j < k && t.log[j].Took? && t.log[j].c == t.log[k].c && t.log[j].r == t.log[k].r
    ensures t.log[i].Accepted? && t.log[i].c == t.log[k].c && t.log[i].r == t.log[k].r
    ensures t.log[i].c in t.inputs && t.inputs[t.log[i].c].answer == Some(Reply(t.log[i].state, true))
    ensures Latest(t.log[..i], t.log[k].r) == Some(t.log[i].state)
  {
    InitInv(s);
    RunKeepsInv(s, steps, t);
    SoundAt(t, t.log, k);
    j := TookAt(t.log, k, t.log[k].c, t.log[k].r);
    SoundAt(t, t.log, j);
    i := VouchedAt(t.log, j, t.log[k].c, t.log[k].r);
    SoundAt(t, t.log, i);
  }

  /** No question confirms two attempts: an answer is accepted once. */
  lemma {:induction false} OneAnswerOneAttempt(s: State, steps: seq<Step>, t: State, i: nat, j: nat)
    requires Init(s) && Run(s, steps, t) && i < |t.log| && j < |t.log|
    requires t.log[i].Accepted? && t.log[j].Accepted? && t.log[i].state == t.log[j].state
    ensures i == j
  {
    InitInv(s);
    RunKeepsInv(s, steps, t);
    SoundAt(t, t.log, i);
    SoundAt(t, t.log, j);
    if i < j {
      Happened(t.log, j, i);
    } else if j < i {
      Happened(t.log, i, j);
    }
  }

  /** What is carried out is what was planned: the call repeated the plan's hosts
      and their count, and after it began the configuration gave the cluster and
      the commands the plan was made for; and the plan had not expired when the
      call found it. */
  lemma {:induction false} AppliedAsPlanned(s: State, steps: seq<Step>, t: State, k: nat) returns (i: nat, j: nat)
    requires Init(s) && Run(s, steps, t) && k < |t.log| && t.log[k].Executed?
    ensures i < j < k && t.log[i].Got? && t.log[j].Matched?
    ensures t.log[i].c == t.log[j].c == t.log[k].c && t.log[i].r == t.log[j].r == t.log[k].r
    ensures var c, r := t.log[k].c, t.log[k].r;
            && c in t.inputs && r in t.offers
            && t.inputs[c].targets == t.offers[r].terms.targets && t.inputs[c].count == t.offers[r].terms.count
            && t.log[j].current == t.offers[r].terms
            && AddedTime(t.log[..i], r).Some? && t.log[i].at <= AddedTime(t.log[..i], r).value + t.ttl
  {
    InitInv(s);
    RunKeepsInv(s, steps, t);
    var c, r := t.log[k].c, t.log[k].r;
    SoundAt(t, t.log, k);
    var m := TookAt(t.log, k, c, r);
    SoundAt(t, t.log, m);
    j := MatchedAt(t.log, m, c, r);
    SoundAt(t, t.log, j);
    i := FoundAt(t.log, j, c, r);
    SoundAt(t, t.log, i);
  }
}
