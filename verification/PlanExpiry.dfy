/** Whether a plan is carried out in time: only finding it asks the time
    (internal/mcpserver/plan.go). */
module PlanExpiry {
  import opened Options
  import opened PlanStore
  import opened PlanProtocol

  // ----- the clock in the log -----

  lemma {:induction false} ClockGoesOn(s: State, log: seq<Event>, i: nat, j: nat)
    requires Sound(s, log) && i <= j <= |log|
    ensures Clock(s.start, log[..i]) <= Clock(s.start, log[..j])
    decreases j
  {
    if i < j {
      ClockGoesOn(s, log, i, j - 1);
      SoundAt(s, log, j - 1);
      assert log[..j][..j - 1] == log[..j - 1];
    }
  }

  /** This event is the one by which the clock goes past a time. */
  predicate Passes(start: int, log: seq<Event>, m: nat, time: int)
    requires m < |log|
  {
    log[m].Ticked? && Clock(start, log[..m]) <= time < log[m].to
  }

  lemma {:induction false} PassedBetween(start: int, log: seq<Event>, i: nat, k: nat, time: int) returns (m: nat)
    requires i <= k <= |log| && Clock(start, log[..i]) <= time < Clock(start, log[..k])
    ensures i <= m < k && Passes(start, log, m, time)
    decreases k
  {
    assert log[..k][..k - 1] == log[..k - 1];
    if Clock(start, log[..k - 1]) > time {
      m := PassedBetween(start, log, i, k - 1, time);
    } else {
      m := k - 1;
    }
  }

  lemma {:induction false} PassedIsPast(s: State, log: seq<Event>, m: nat, k: nat, time: int)
    requires Sound(s, log) && m < k <= |log| && Passes(s.start, log, m, time)
    ensures Clock(s.start, log[..k]) > time
  {
    assert log[..m + 1][..m] == log[..m];
    ClockGoesOn(s, log, m + 1, k);
  }

  // ----- when a plan was added -----

  lemma {:induction false} AddedAtSome(log: seq<Event>, n: nat, r: Ref) returns (a: nat)
    requires n <= |log| && AddedTime(log[..n], r).Some?
    ensures a < n && log[a] == Stored(r, AddedTime(log[..n], r).value)
    decreases n
  {
    assert log[..n][..n - 1] == log[..n - 1];
    if log[n - 1].Stored? && log[n - 1].r == r {
      a := n - 1;
    } else {
      a := AddedAtSome(log, n - 1, r);
    }
  }

  /** A plan is added once, so the time it was added does not change. */
  lemma {:induction false} AddedOnce(s: State, log: seq<Event>, i: nat, n: nat, r: Ref)
    requires Sound(s, log) && i <= n <= |log| && AddedTime(log[..i], r).Some?
    ensures AddedTime(log[..n], r) == AddedTime(log[..i], r)
    decreases n
  {
    if i < n {
      AddedOnce(s, log, i, n - 1, r);
      SoundAt(s, log, n - 1);
      assert log[..n][..n - 1] == log[..n - 1];
    }
  }

  /** In every state of every run a plan expires its time to live after it was
      added, once, whatever was asked, answered or taken since. */
  lemma {:induction false} ExpiresAfterAdded(s: State, steps: seq<Step>, t: State, a: nat)
    requires Init(s) && Run(s, steps, t) && a < |t.log| && t.log[a].Stored?
    ensures t.log[a].r in t.plans && t.plans[t.log[a].r].expires == t.log[a].at + t.ttl
  {
    InitInv(s);
    RunKeepsInv(s, steps, t);
    var r := t.log[a].r;
    SoundAt(t, t.log, a);
    assert t.log[..a + 1][..a] == t.log[..a];
    AddedOnce(t, t.log, a + 1, |t.log|, r);
    assert t.log[..|t.log|] == t.log;
    assert r in t.plans ==> PlanOk(t, r);
    assert r in t.offers && !Unused(t.log, r);
  }

  // ----- when it is carried out -----

  /** The calls on the way to a plan being carried out: it was added, the call found
      it, and took it. */
  predicate OnTheWay(log: seq<Event>, a: nat, i: nat, j: nat, k: nat)
    requires k < |log|
  {
    && a < i < j < k && log[k].Executed?
    && log[a].Stored? && log[i].Got? && log[j].Took?
    && log[i].c == log[j].c == log[k].c && log[a].r == log[i].r == log[j].r == log[k].r
  }

  lemma {:induction false} WayOf(s: State, log: seq<Event>, k: nat) returns (a: nat, i: nat, j: nat)
    requires Sound(s, log) && k < |log| && log[k].Executed?
    ensures OnTheWay(log, a, i, j, k)
    ensures log[i].at <= log[a].at + s.ttl
  {
    var c, r := log[k].c, log[k].r;
    SoundAt(s, log, k);
    j := TookAt(log, k, c, r);
    SoundAt(s, log, j);
    var m := MatchedAt(log, j, c, r);
    SoundAt(s, log, m);
    i := FoundAt(log, m, c, r);
    SoundAt(s, log, i);
    a := AddedAtSome(log, i, r);
  }

  /** The clock goes past a time between two events. */
  predicate PassedIn(start: int, log: seq<Event>, i: nat, k: nat, time: int)
    requires k <= |log|
  {
    exists m :: i < m < k && Passes(start, log, m, time)
  }

  lemma {:induction false} PassedInWhen(s: State, log: seq<Event>, i: nat, k: nat, time: int)
    requires Sound(s, log) && i < k < |log| && log[i].Got? && log[k].Executed? && log[i].at <= time
    ensures log[k].at > time <==> PassedIn(s.start, log, i, k, time)
  {
    SoundAt(s, log, i);
    SoundAt(s, log, k);
    if log[k].at > time {
      var m := PassedBetween(s.start, log, i, k, time);
      assert m != i;
    }
    if PassedIn(s.start, log, i, k, time) {
      var m :| i < m < k && Passes(s.start, log, m, time);
      PassedIsPast(s, log, m, k, time);
    }
  }

  lemma {:induction false} TimesInOrder(s: State, log: seq<Event>, a: nat, i: nat, j: nat, k: nat)
    requires Sound(s, log) && k < |log| && OnTheWay(log, a, i, j, k)
    ensures log[a].at <= log[i].at <= log[j].at <= log[k].at
  {
    SoundAt(s, log, a);
    SoundAt(s, log, i);
    SoundAt(s, log, j);
    SoundAt(s, log, k);
    ClockGoesOn(s, log, a, i);
    ClockGoesOn(s, log, i, j);
    ClockGoesOn(s, log, j, k);
  }

  /** Of every plan that is carried out, in every run: it was added, then the same
      call found it before it expired, took it and carried it out; and that is past
      its expiry exactly when, after the call found it, the clock went past the time
      it was added and its time to live. */
  lemma {:induction false} LateWhenClockPassed(s: State, steps: seq<Step>, t: State, k: nat) returns (a: nat, i: nat, j: nat)
    requires Init(s) && Run(s, steps, t) && k < |t.log| && t.log[k].Executed?
    ensures OnTheWay(t.log, a, i, j, k)
    ensures t.log[a].at <= t.log[i].at <= t.log[j].at <= t.log[k].at
    ensures t.log[k].r in t.plans && t.plans[t.log[k].r].expires == t.log[a].at + t.ttl >= t.log[i].at
    ensures t.log[k].at > t.plans[t.log[k].r].expires <==>
            PassedIn(t.start, t.log, i, k, t.plans[t.log[k].r].expires)
  {
    InitInv(s);
    RunKeepsInv(s, steps, t);
    a, i, j := WayOf(t, t.log, k);
    ExpiresAfterAdded(s, steps, t, a);
    TimesInOrder(t, t.log, a, i, j, k);
    PassedInWhen(t, t.log, i, k, t.log[a].at + t.ttl);
  }

  // ----- what can still be carried out -----

  /** The plan is past its expiry. */
  predicate Late(s: State, r: Ref) {
    r in s.plans && r in s.offers && Expired(s.plans[r], s.now)
  }

  /** A call that found the plan and whose own repetition of it matches. */
  predicate Past(s: State, c: Call, r: Ref) {
    In(s, c) && (s.phases[c] == Checked(r) || (s.phases[c] == Found(r) && Repeats(s, c, r)))
  }

  /** The call names the plan's hosts and their count. */
  predicate Repeats(s: State, c: Call, r: Ref) {
    && c in s.inputs && r in s.offers
    && s.inputs[c].targets == s.offers[r].terms.targets && s.inputs[c].count == s.offers[r].terms.count
  }

  /** A call that may still put a question for the plan. */
  predicate MayAsk(s: State, b: Call, r: Ref) {
    Past(s, b, r) && s.elicit && s.inputs[b].answer.None?
  }

  /** A call's answer is a yes to the question last put, or to one that may still be. */
  ghost predicate AnswerHolds(s: State, c: Call, r: Ref) {
    && In(s, c) && r in s.plans && s.inputs[c].answer.Some?
    && s.inputs[c].answer.value.yes && s.inputs[c].answer.value.state != ""
    && (|| s.plans[r].asked == s.inputs[c].answer.value.state
        || (!WasAsked(s.log, s.inputs[c].answer.value.state) && exists b :: MayAsk(s, b, r)))
  }

  /** A call that is past finding the plan and can go on: it has taken it, or no call
      has and it is confirmed, needs no confirmation or carries the answer. */
  ghost predicate MayGoOn(s: State, c: Call, r: Ref) {
    && In(s, c) && r in s.plans
    && (|| s.phases[c] == Taken(r) || s.phases[c] == Recorded(r)
        || (!s.plans[r].used
            && (s.phases[c] == Confirmed(r) || (Past(s, c, r) && (!s.elicit || AnswerHolds(s, c, r))))))
  }

  // A step of a run makes no call able to go on.

  lemma {:induction false} WasAskedGrows(s: State, step: Step, state: string)
    requires Enabled(s, step)
    ensures WasAsked(Next(s, step).log, state) <==>
            WasAsked(s.log, state) || (step.Ask? && step.state == state)
  {
    var events := EventsOf(s, step);
    if events == [] {
      Still(s.log);
    } else {
      Grows(s.log, events[0]);
      assert events == [events[0]];
    }
  }

  lemma {:induction false} ExecutedGrows(s: State, step: Step, r: Ref)
    requires Enabled(s, step)
    ensures WasExecuted(Next(s, step).log, r) <==>
            WasExecuted(s.log, r) || (step.Execute? && s.phases[step.c].r == r)
  {
    var events := EventsOf(s, step);
    if events == [] {
      Still(s.log);
    } else {
      Grows(s.log, events[0]);
      assert events == [events[0]];
    }
  }

  /** Nobody finds a plan that is past its expiry. */
  lemma {:induction false} PastBefore(s: State, step: Step, c: Call, r: Ref)
    requires Enabled(s, step) && Late(s, r) && Past(Next(s, step), c, r)
    ensures Past(s, c, r)
  {
    assert r !in Pruned(s).Values;
  }

  lemma {:induction false} StaysLate(s: State, step: Step, r: Ref)
    requires Enabled(s, step) && Late(s, r)
    ensures Late(Next(s, step), r) && Next(s, step).plans[r].expires == s.plans[r].expires
    ensures s.plans[r].used ==> Next(s, step).plans[r].used
  {
  }

  lemma {:induction false} AnswerHeld(s: State, step: Step, c: Call, r: Ref)
    requires Enabled(s, step) && Late(s, r) && AnswerHolds(Next(s, step), c, r)
    ensures AnswerHolds(s, c, r)
  {
    var t, state := Next(s, step), s.inputs[c].answer.value.state;
    WasAskedGrows(s, step, state);
    if t.plans[r].asked == state {
      if s.plans[r].asked != state {
        assert step.Ask? && s.phases[step.c] == Checked(r) && step.state == state;
        assert MayAsk(s, step.c, r);
      }
    } else {
      var b :| MayAsk(t, b, r);
      PastBefore(s, step, b, r);
      assert MayAsk(s, b, r);
    }
  }

  lemma {:induction false} CouldGoOn(s: State, step: Step, c: Call, r: Ref)
    requires Enabled(s, step) && Late(s, r) && MayGoOn(Next(s, step), c, r)
    ensures MayGoOn(s, c, r)
  {
    var t := Next(s, step);
    StaysLate(s, step, r);
    if Past(t, c, r) {
      PastBefore(s, step, c, r);
      if s.elicit {
        AnswerHeld(s, step, c, r);
      }
    } else if t.phases[c] == Confirmed(r) && s.phases[c] != Confirmed(r) {
      assert step == Answer(c) || step == Skip(c);
      assert Past(s, c, r);
    }
  }

  ghost predicate SomeMayGoOn(s: State, r: Ref) {
    exists c :: MayGoOn(s, c, r)
  }

  lemma {:induction false} NotCarriedOut(s: State, steps: seq<Step>, t: State, r: Ref)
    requires Run(s, steps, t) && Late(s, r) && !SomeMayGoOn(s, r)
    ensures WasExecuted(t.log, r) <==> WasExecuted(s.log, r)
    decreases |steps|
  {
    if steps != [] {
      var step := steps[0];
      var u := Next(s, step);
      StaysLate(s, step, r);
      ExecutedGrows(s, step, r);
      if step.Execute? && s.phases[step.c].r == r {
        assert MayGoOn(s, step.c, r);
      }
      if SomeMayGoOn(u, r) {
        var c :| MayGoOn(u, c, r);
        CouldGoOn(s, step, c, r);
      }
      NotCarriedOut(u, steps[1..], t, r);
    }
  }

  // And one that may go on does, if it is let.

  lemma {:induction false} FirstStep(s: State, step: Step, rest: seq<Step>, t: State)
    requires Enabled(s, step) && Run(Next(s, step), rest, t)
    ensures Run(s, [step] + rest, t)
  {
    assert ([step] + rest)[1..] == rest;
  }

  /** The run ends with the call carrying the plan out, at the time it begins. */
  ghost predicate CarriesOut(s: State, steps: seq<Step>, t: State, c: Call, r: Ref) {
    && Run(s, steps, t) && t.log != [] && t.log[|t.log| - 1] == Executed(c, r, s.now)
    && r in s.plans && r in t.plans && t.plans[r].expires == s.plans[r].expires
  }

  lemma {:induction false} AfterFirst(s: State, step: Step, rest: seq<Step>, t: State, c: Call, r: Ref)
    requires Enabled(s, step) && !step.Tick? && r in s.plans && CarriesOut(Next(s, step), rest, t, c, r)
    requires Next(s, step).plans[r].expires == s.plans[r].expires
    ensures CarriesOut(s, [step] + rest, t, c, r)
  {
    FirstStep(s, step, rest, t);
  }

  lemma {:induction false} FromTaken(s: State, c: Call, r: Ref) returns (steps: seq<Step>, t: State)
    requires In(s, c) && r in s.plans && r in s.offers && (s.phases[c] == Taken(r) || s.phases[c] == Recorded(r))
    ensures CarriesOut(s, steps, t, c, r)
    decreases if s.phases[c] == Taken(r) then 1 else 0
  {
    if s.phases[c] == Taken(r) {
      steps, t := FromTaken(Next(s, Record(c, true)), c, r);
      AfterFirst(s, Record(c, true), steps, t, c, r);
      steps := [Record(c, true)] + steps;
    } else {
      t := Next(s, Execute(c));
      Grows(s.log, Executed(c, r, s.now));
      assert Run(t, [], t);
      FirstStep(s, Execute(c), [], t);
      steps := [Execute(c)] + [];
    }
  }

  lemma {:induction false} FromConfirmed(s: State, c: Call, r: Ref) returns (steps: seq<Step>, t: State)
    requires In(s, c) && r in s.plans && r in s.offers && s.phases[c] == Confirmed(r) && !s.plans[r].used
    ensures CarriesOut(s, steps, t, c, r)
  {
    steps, t := FromTaken(Next(s, Take(c)), c, r);
    AfterFirst(s, Take(c), steps, t, c, r);
    steps := [Take(c)] + steps;
  }

  /** The call needs no confirmation, or carries the answer to the question last put. */
  predicate NowHolds(s: State, c: Call, r: Ref) {
    && In(s, c) && r in s.plans
    && (s.elicit ==> s.inputs[c].answer.Some? && Answers(s.plans[r], s.inputs[c].answer.value.state)
                     && s.inputs[c].answer.value.yes)
  }

  lemma {:induction false} FromPast(s: State, c: Call, r: Ref) returns (steps: seq<Step>, t: State)
    requires Past(s, c, r) && r in s.plans && r in s.offers && !s.plans[r].used && NowHolds(s, c, r)
    ensures CarriesOut(s, steps, t, c, r)
    decreases if s.phases[c] == Found(r) then 1 else 0
  {
    if s.phases[c] == Found(r) {
      var step := Check(c, Some(s.offers[r].terms));
      steps, t := FromPast(Next(s, step), c, r);
      AfterFirst(s, step, steps, t, c, r);
      steps := [step] + steps;
    } else {
      var step := if s.elicit then Answer(c) else Skip(c);
      steps, t := FromConfirmed(Next(s, step), c, r);
      AfterFirst(s, step, steps, t, c, r);
      steps := [step] + steps;
    }
  }

  /** Another call puts the question first that this one's answer is to. */
  lemma {:induction false} FromAsked(s: State, b: Call, c: Call, r: Ref) returns (steps: seq<Step>, t: State)
    requires MayAsk(s, b, r) && Past(s, c, r) && r in s.plans && r in s.offers && !s.plans[r].used
    requires s.inputs[c].answer.Some? && s.inputs[c].answer.value.yes && s.inputs[c].answer.value.state != ""
    requires !WasAsked(s.log, s.inputs[c].answer.value.state)
    ensures CarriesOut(s, steps, t, c, r)
    decreases if s.phases[b] == Found(r) then 1 else 0
  {
    var state := s.inputs[c].answer.value.state;
    if s.phases[b] == Found(r) {
      var step := Check(b, Some(s.offers[r].terms));
      WasAskedGrows(s, step, state);
      steps, t := FromAsked(Next(s, step), b, c, r);
      AfterFirst(s, step, steps, t, c, r);
      steps := [step] + steps;
    } else {
      var step := Ask(b, state);
      steps, t := FromPast(Next(s, step), c, r);
      AfterFirst(s, step, steps, t, c, r);
      steps := [step] + steps;
    }
  }

  lemma {:induction false} GoesOn(s: State, c: Call, r: Ref) returns (steps: seq<Step>, t: State)
    requires MayGoOn(s, c, r) && r in s.offers
    ensures CarriesOut(s, steps, t, c, r)
  {
    if s.phases[c] == Taken(r) || s.phases[c] == Recorded(r) {
      steps, t := FromTaken(s, c, r);
    } else if s.phases[c] == Confirmed(r) {
      steps, t := FromConfirmed(s, c, r);
    } else if NowHolds(s, c, r) {
      steps, t := FromPast(s, c, r);
    } else {
      var b :| MayAsk(s, b, r);
      steps, t := FromAsked(s, b, c, r);
    }
  }

  lemma {:induction false} NotYetExecuted(s: State, c: Call, r: Ref)
    requires Inv(s) && MayGoOn(s, c, r)
    ensures !WasExecuted(s.log, r)
  {
    assert PhaseOk(s, c, s.phases[c]) && PlanOk(s, r);
    if WasExecuted(s.log, r) {
      ExecutedWasTaken(s, s.log, r);
    }
  }

  /** The plan is yet to be carried out, and some run does. */
  ghost predicate CanStillBe(s: State, r: Ref) {
    !WasExecuted(s.log, r) && exists steps, t :: Run(s, steps, t) && WasExecuted(t.log, r)
  }

  /** What is left of a plan past its expiry, in every state of every run: it can still
      be carried out exactly when some call is already past finding it and can go on. */
  lemma {:induction false} LateOnlyByThosePast(s: State, steps: seq<Step>, t: State, r: Ref)
    requires Init(s) && Run(s, steps, t) && r in t.plans && t.now > t.plans[r].expires
    ensures CanStillBe(t, r) <==> exists c :: MayGoOn(t, c, r)
  {
    InitInv(s);
    RunKeepsInv(s, steps, t);
    assert PlanOk(t, r);
    if c :| MayGoOn(t, c, r) {
      NotYetExecuted(t, c, r);
      var more, u := GoesOn(t, c, r);
      assert Run(t, more, u) && WasExecuted(u.log, r);
    }
    if CanStillBe(t, r) {
      var more, u :| Run(t, more, u) && WasExecuted(u.log, r);
      if !SomeMayGoOn(t, r) {
        NotCarriedOut(t, more, u, r);
      }
    }
  }

  // ----- that it happens -----

  lemma {:induction false} OneStepMore(s: State, steps: seq<Step>, t: State, step: Step)
    requires Run(s, steps, t) && Enabled(t, step)
    ensures Run(s, steps + [step], Next(t, step))
    decreases |steps|
  {
    if steps == [] {
      assert [step][1..] == [] && [] + [step] == [step];
    } else {
      OneStepMore(Next(s, steps[0]), steps[1..], t, step);
      assert (steps + [step])[1..] == steps[1..] + [step];
    }
  }

  predicate NoneAsked(log: seq<Event>) {
    log == [] || (NoneAsked(log[..|log| - 1]) && !log[|log| - 1].Asked?)
  }

  lemma {:induction false} NoneWasAsked(log: seq<Event>, state: string)
    requires NoneAsked(log)
    ensures !WasAsked(log, state)
  {
    if log != [] {
      NoneWasAsked(log[..|log| - 1], state);
    }
  }

  /** A server with one plan, not taken yet and stored under its name. */
  ghost predicate Serving(s: State, steps: seq<Step>, t: State, r: Ref) {
    && Run(s, steps, t)
    && t.elicit == s.elicit && t.ttl == s.ttl && t.inputs == s.inputs && t.offers == s.offers
    && t.phases.Keys == s.inputs.Keys
    && r in s.offers && t.store == map[s.offers[r].id := r]
    && t.plans.Keys == {r} && t.plans[r].expires == s.now + s.ttl && !t.plans[r].used
  }

  /** The call names the plan and repeats it. */
  predicate Calls(s: State, c: Call, r: Ref) {
    Repeats(s, c, r) && s.inputs[c].plan == s.offers[r].id
  }

  lemma {:induction false} Adds(s: State, r: Ref) returns (steps: seq<Step>, t: State)
    requires Init(s) && r in s.offers
    ensures Serving(s, steps, t, r) && t.now == s.now && t.phases == s.phases && NoneAsked(t.log)
  {
    steps, t := [Add(r)], Next(s, Add(r));
    assert Run(s, [], s) && [] + [Add(r)] == [Add(r)];
    OneStepMore(s, [], s, Add(r));
    assert Pruned(s) == map[];
    Grows(s.log, Stored(r, s.now));
  }

  lemma {:induction false} Finds(s: State, steps: seq<Step>, t: State, r: Ref, c: Call)
    returns (steps': seq<Step>, t': State)
    requires Serving(s, steps, t, r) && Calls(s, c, r) && t.now <= s.now + s.ttl && t.phases[c].Begun?
    ensures Serving(s, steps', t', r) && t'.now == t.now && t'.phases == t.phases[c := Found(r)] && t'.plans == t.plans
    ensures NoneAsked(t.log) ==> NoneAsked(t'.log)
  {
    assert Pruned(t) == t.store;
    steps', t' := steps + [Get(c)], Next(t, Get(c));
    OneStepMore(s, steps, t, Get(c));
    Grows(t.log, Got(c, r, t.now));
  }

  lemma {:induction false} Checks(s: State, steps: seq<Step>, t: State, r: Ref, c: Call)
    returns (steps': seq<Step>, t': State)
    requires Serving(s, steps, t, r) && Calls(s, c, r) && t.now <= s.now + s.ttl && t.phases[c].Begun?
    ensures Serving(s, steps', t', r) && t'.now == t.now && t'.phases == t.phases[c := Checked(r)] && t'.plans == t.plans
    ensures NoneAsked(t.log) ==> NoneAsked(t'.log)
  {
    var u;
    steps', u := Finds(s, steps, t, r, c);
    var terms := s.offers[r].terms;
    t' := Next(u, Check(c, Some(terms)));
    OneStepMore(s, steps', u, Check(c, Some(terms)));
    steps' := steps' + [Check(c, Some(terms))];
    Grows(u.log, Matched(c, r, terms));
  }

  lemma {:induction false} Waits(s: State, steps: seq<Step>, t: State, r: Ref, late: int)
    returns (steps': seq<Step>, t': State)
    requires Serving(s, steps, t, r) && late >= t.now
    ensures Serving(s, steps', t', r) && t'.now == late && t'.phases == t.phases && t'.plans == t.plans
  {
    steps', t' := steps + [Tick(late)], Next(t, Tick(late));
    OneStepMore(s, steps, t, Tick(late));
  }

  /** The last thing that happened is that the plan was carried out, at a time past
      its expiry. */
  ghost predicate EndsLate(s: State, steps: seq<Step>, t: State, c: Call, r: Ref, late: int) {
    && Run(s, steps, t) && t.log != [] && t.log[|t.log| - 1] == Executed(c, r, late)
    && r in t.plans && t.plans[r].expires == s.now + s.ttl < late
  }

  lemma {:induction false} RunTogether(s: State, a: seq<Step>, t: State, b: seq<Step>, u: State)
    requires Run(s, a, t) && Run(t, b, u)
    ensures Run(s, a + b, u)
    decreases |a|
  {
    if a == [] {
      assert a + b == b;
    } else {
      RunTogether(Next(s, a[0]), a[1..], t, b, u);
      assert (a + b)[1..] == a[1..] + b;
    }
  }

  /** A call that can go on, late, does. */
  lemma {:induction false} ThenLate(s: State, steps: seq<Step>, t: State, r: Ref, c: Call)
    returns (steps': seq<Step>, t': State)
    requires Serving(s, steps, t, r) && Past(t, c, r) && NowHolds(t, c, r) && s.now + s.ttl < t.now
    ensures EndsLate(s, steps', t', c, r, t.now)
  {
    var more;
    more, t' := FromPast(t, c, r);
    RunTogether(s, steps, t, more, t');
    steps' := steps + more;
  }

  /** Nothing keeps a plan from being carried out late: whatever the plan, its time
      to live and the time, a call that repeats it can find it in time and carry it
      out then. */
  lemma {:induction false} AppliedAfterExpiry(s: State, c: Call, r: Ref, late: int) returns (steps: seq<Step>, t: State)
    requires Init(s) && !s.elicit && Calls(s, c, r) && 0 <= s.ttl && s.now + s.ttl < late
    ensures EndsLate(s, steps, t, c, r, late)
  {
    steps, t := Adds(s, r);
    steps, t := Checks(s, steps, t, r, c);
    steps, t := Waits(s, steps, t, r, late);
    steps, t := ThenLate(s, steps, t, r, c);
  }

  lemma {:induction false} Asks(s: State, steps: seq<Step>, t: State, r: Ref, b: Call, state: string)
    returns (steps': seq<Step>, t': State)
    requires Serving(s, steps, t, r) && s.elicit && b in s.inputs && t.phases[b] == Checked(r) && NoneAsked(t.log)
    requires s.inputs[b].answer.None? && state != ""
    ensures Serving(s, steps', t', r) && t'.now == t.now && t'.phases == t.phases[b := Ended]
    ensures t'.plans[r].asked == state
  {
    NoneWasAsked(t.log, state);
    steps', t' := steps + [Ask(b, state)], Next(t, Ask(b, state));
    OneStepMore(s, steps, t, Ask(b, state));
  }

  /** Nor does a confirmation: one call asks, and the next finds the plan in time,
      is confirmed late and carries it out. */
  lemma {:induction false} ConfirmedAfterExpiry(s: State, b: Call, c: Call, r: Ref, state: string, late: int)
    returns (steps: seq<Step>, t: State)
    requires Init(s) && s.elicit && b != c && Calls(s, b, r) && Calls(s, c, r) && state != ""
    requires s.inputs[b].answer.None? && s.inputs[c].answer == Some(Reply(state, true))
    requires 0 <= s.ttl && s.now + s.ttl < late
    ensures EndsLate(s, steps, t, c, r, late)
  {
    steps, t := Adds(s, r);
    steps, t := Checks(s, steps, t, r, b);
    steps, t := Asks(s, steps, t, r, b, state);
    steps, t := Checks(s, steps, t, r, c);
    steps, t := Waits(s, steps, t, r, late);
    steps, t := ThenLate(s, steps, t, r, c);
  }
}
