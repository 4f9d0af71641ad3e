/** Any number of callers asking for credentials at once, as a system of steps
    (internal/credentials/credentials.go). */
module CredentialReads {
  import opened Options
  import opened CredentialTable

  /** How far a read is. */
  datatype Stage =
    | Looking                        // at the configuration
    | Queued                         // waits for the terminal
    | Seated                         // has the terminal, the context about to be asked
    | Reading                        // the source is being read
    | Over(outcome: Outcome)         // read, the terminal about to be given back
    | Reporting(outcome: Outcome)     // the table about to be written

  datatype Phase =
    | Top                            // of the loop, the context about to be asked
    | Asking                         // about to look at the table
    | Waiting(reader: Id)
    | Leading(stage: Stage)
    | Done(outcome: Option<Outcome>) // nothing read, when the caller's context ended

  datatype Caller = Caller(name: string, ended: bool, phase: Phase)

  /** Which names the site defines, and whose source may use the terminal. */
  datatype State = State(callers: map<Id, Caller>, table: Table, terminal: Option<Id>,
                         known: set<string>, interactive: set<string>)

  predicate Init(s: State) {
    && s.table == Table(map[], map[], map[]) && s.terminal == None
    && forall c :: c in s.callers ==> s.callers[c].phase == Top
  }

  datatype Step =
    | Cancel(c: Id)
    | Check(c: Id)
    | Enter(c: Id)
    | Wake(c: Id)
    | Leave(c: Id)
    | Look(c: Id)
    | Sit(c: Id)
    | Recheck(c: Id)
    | Finish(c: Id, outcome: Outcome)
    | Rise(c: Id)
    | Publish(c: Id)

  predicate Returned(s: State, c: Id) {
    c in s.callers && s.callers[c].phase.Done?
  }

  predicate Enabled(s: State, step: Step) {
    step.c in s.callers &&
    var k := s.callers[step.c];
    match step
    case Cancel(_) => !k.ended && !k.phase.Done?
    case Check(_) => k.phase == Top
    case Enter(_) => k.phase == Asking
    case Wake(_) => k.phase.Waiting? && Returned(s, k.phase.reader)
    case Leave(_) => k.phase.Waiting? && k.ended
    case Look(_) => k.phase == Leading(Looking)
    case Sit(_) => k.phase == Leading(Queued) && s.terminal == None
    case Recheck(_) => k.phase == Leading(Seated)
    case Finish(_, _) => k.phase == Leading(Reading)
    case Rise(_) => k.phase.Leading? && k.phase.stage.Over?
    case Publish(_) => k.phase.Leading? && k.phase.stage.Reporting?
  }

  const NOT_READ := Fail(Error("not read", true))
  const UNKNOWN := Fail(Error("unknown credential", false))

  function Moved(s: State, step: Step): Caller
    requires Enabled(s, step)
  {
    var k := s.callers[step.c];
    match step
    case Cancel(_) => k.(ended := true)
    case Check(_) => k.(phase := if k.ended then Done(None) else Asking)
    case Enter(_) => (
      match Decide(s.table, k.name)
      case Kept(outcome) => k.(phase := Done(Some(outcome)))
      case Wait(reader) => k.(phase := Waiting(reader))
      case Start => k.(phase := Leading(Looking)))
    case Wake(_) => k.(phase := Top)
    case Leave(_) => k.(phase := Done(None))
    case Look(_) =>
      k.(phase := Leading(if k.name !in s.known then Reporting(UNKNOWN)
                          else if k.name in s.interactive then Queued
                          else Reading))
    case Sit(_) => k.(phase := Leading(Seated))
    case Recheck(_) => k.(phase := Leading(if k.ended then Over(NOT_READ) else Reading))
    case Finish(_, outcome) => k.(phase := Leading(Over(outcome)))
    case Rise(_) => k.(phase := Leading(Reporting(k.phase.stage.outcome)))
    case Publish(_) => k.(phase := Done(Some(k.phase.stage.outcome)))
  }

  function TableAfter(s: State, step: Step): Table
    requires Enabled(s, step)
  {
    var k := s.callers[step.c];
    if step.Enter? then Entered(s.table, k.name, step.c)
    else if step.Publish? then Published(s.table, k.name, k.phase.stage.outcome, k.ended)
    else s.table
  }

  function TerminalAfter(s: State, step: Step): Option<Id>
    requires Enabled(s, step)
  {
    if step.Sit? then Some(step.c)
    else if step.Rise? && s.terminal == Some(step.c) then None
    else s.terminal
  }

  function Next(s: State, step: Step): State
    requires Enabled(s, step)
  {
    s.(callers := s.callers[step.c := Moved(s, step)], table := TableAfter(s, step), terminal := TerminalAfter(s, step))
  }

  // ----- what every step keeps -----

  /** Whether a caller is between taking the terminal and giving it back. */
  predicate AtTerminal(s: State, k: Caller) {
    k.phase.Leading? && k.name in s.interactive
    && (k.phase.stage.Seated? || k.phase.stage.Reading? || k.phase.stage.Over?)
  }

  predicate CallerOk(s: State, c: Id, k: Caller) {
    && (s.terminal == Some(c) <==> AtTerminal(s, k))
    && match k.phase
       case Waiting(reader) =>
         && reader in s.callers && s.callers[reader].name == k.name
         && (s.callers[reader].phase.Leading? || s.callers[reader].phase.Done?)
       case Leading(stage) =>
         && k.name in s.table.reading && s.table.reading[k.name] == c
         && (stage.Queued? || stage.Seated? ==> k.name in s.interactive)
       case _ => true
  }

  predicate ReadingOk(s: State, name: string) {
    && name in s.table.reading && s.table.reading[name] in s.callers
    && s.callers[s.table.reading[name]].name == name && s.callers[s.table.reading[name]].phase.Leading?
  }

  ghost predicate Inv(s: State) {
    && Consistent(s.table)
    && (s.terminal.Some? ==> s.terminal.value in s.callers)
    && (forall c :: c in s.callers ==> CallerOk(s, c, s.callers[c]))
    && (forall name :: name in s.table.reading ==> ReadingOk(s, name))
  }

  lemma {:induction false} InitInv(s: State)
    requires Init(s)
    ensures Inv(s)
  {
  }

  lemma {:induction false} OthersOk(s: State, step: Step, c: Id)
    requires Inv(s) && Enabled(s, step) && c in s.callers && c != step.c
    ensures CallerOk(Next(s, step), c, s.callers[c])
  {
    var k := s.callers[c];
    assert CallerOk(s, c, k) && CallerOk(s, step.c, s.callers[step.c]);
  }

  lemma {:induction false} MoverOk(s: State, step: Step)
    requires Inv(s) && Enabled(s, step)
    ensures CallerOk(Next(s, step), step.c, Moved(s, step))
  {
    var k := s.callers[step.c];
    assert CallerOk(s, step.c, k);
    if step.Enter? && k.name in s.table.reading {
      assert ReadingOk(s, k.name);
    }
  }

  lemma {:induction false} StepReading(s: State, step: Step, name: string)
    requires Inv(s) && Enabled(s, step) && name in Next(s, step).table.reading
    ensures ReadingOk(Next(s, step), name)
  {
    assert CallerOk(s, step.c, s.callers[step.c]);
    if name in s.table.reading {
      assert ReadingOk(s, name);
    }
  }

  lemma {:induction false} StepKeepsInv(s: State, step: Step)
    requires Inv(s) && Enabled(s, step)
    ensures Inv(Next(s, step))
  {
    var t, k := Next(s, step), s.callers[step.c];
    assert CallerOk(s, step.c, k);
    if step.Publish? {
      KeptForGood(s.table, k.name, k.phase.stage.outcome, k.ended, k.name);
    }
    forall c | c in t.callers ensures CallerOk(t, c, t.callers[c]) {
      if c == step.c {
        MoverOk(s, step);
      } else {
        OthersOk(s, step, c);
      }
    }
    forall name | name in t.table.reading ensures ReadingOk(t, name) {
      StepReading(s, step, name);
    }
  }

  // ----- runs -----

  ghost predicate Run(s: State, steps: seq<Step>, t: State)
    decreases |steps|
  {
    if steps == [] then s == t
    else Enabled(s, steps[0]) && Run(Next(s, steps[0]), steps[1..], t)
  }

  lemma {:induction false} RunKeepsInv(s: State, steps: seq<Step>, t: State)
    requires Inv(s) && Run(s, steps, t)
    ensures Inv(t)
    decreases |steps|
  {
    if steps != [] {
      StepKeepsInv(s, steps[0]);
      RunKeepsInv(Next(s, steps[0]), steps[1..], t);
    }
  }

  /** The source of a credential is being read by this caller. */
  predicate Reads(s: State, c: Id) {
    c in s.callers && s.callers[c].phase == Leading(Reading)
  }

  /** In every state of every run, a credential is read by one caller at most, and
      by none once it has an outcome; and of the reads that may use the terminal,
      one at most is under way. */
  lemma {:induction false} OneReadAtATime(s: State, steps: seq<Step>, t: State, c: Id, d: Id)
    requires Init(s) && Run(s, steps, t) && Reads(t, c)
    ensures !Decide(t.table, t.callers[c].name).Kept?
    ensures Reads(t, d) && t.callers[c].name == t.callers[d].name ==> c == d
    ensures Reads(t, d) && t.callers[c].name in t.interactive && t.callers[d].name in t.interactive ==> c == d
  {
    InitInv(s);
    RunKeepsInv(s, steps, t);
    assert CallerOk(t, c, t.callers[c]);
    if Reads(t, d) {
      assert CallerOk(t, d, t.callers[d]);
    }
  }

  /** An outcome that is kept never changes, and its name is never read again. */
  lemma {:induction false} KeptOutcomeStays(s: State, steps: seq<Step>, t: State, name: string)
    requires Inv(s) && Run(s, steps, t) && Decide(s.table, name).Kept?
    ensures Decide(t.table, name) == Decide(s.table, name)
    ensures forall c :: c in t.callers && t.callers[c].phase.Leading? ==> t.callers[c].name != name
    decreases |steps|
  {
    if steps == [] {
      forall c | c in s.callers && s.callers[c].phase.Leading? ensures s.callers[c].name != name {
        assert CallerOk(s, c, s.callers[c]);
      }
    } else {
      var step := steps[0];
      var k := s.callers[step.c];
      assert CallerOk(s, step.c, k);
      if step.Publish? {
        KeptForGood(s.table, k.name, k.phase.stage.outcome, k.ended, name);
      }
      StepKeepsInv(s, step);
      KeptOutcomeStays(Next(s, step), steps[1..], t, name);
    }
  }

  /** Nothing an interrupt stopped is kept: an outcome that is new is what its own
      reader read, and, when it is a failure, neither that reader's context had
      ended nor was it the failure of one that had. */
  lemma {:induction false} KeptByReading(s: State, step: Step, name: string)
    requires Inv(s) && Enabled(s, step)
    requires Decide(Next(s, step).table, name).Kept? && !Decide(s.table, name).Kept?
    ensures step.Publish? && s.callers[step.c].name == name
    ensures Moved(s, step).phase == Done(Some(Decide(Next(s, step).table, name).outcome))
    ensures CredentialTable.Telling(Decide(Next(s, step).table, name).outcome, s.callers[step.c].ended)
  {
    var k := s.callers[step.c];
    assert CallerOk(s, step.c, k);
    if step.Publish? {
      KeptForGood(s.table, k.name, k.phase.stage.outcome, k.ended, name);
    }
  }

  // ----- no deadlock -----

  /** Some caller can always go on: one that waits, waits for a reader, and one
      that waits for the terminal, for the reader that has it. */
  lemma {:induction false} NoDeadlock(s: State, c: Id) returns (step: Step)
    requires Inv(s) && c in s.callers && !Returned(s, c)
    ensures Enabled(s, step) && !step.Cancel? && !step.Leave?
    decreases match s.callers[c].phase
              case Waiting(_) => 2 as int
              case Leading(Queued) => 1
              case _ => 0
  {
    var k := s.callers[c];
    assert CallerOk(s, c, k);
    match k.phase {
      case Top => step := Check(c);
      case Asking => step := Enter(c);
      case Waiting(reader) =>
        if Returned(s, reader) {
          step := Wake(c);
        } else {
          step := NoDeadlock(s, reader);
        }
      case Leading(stage) =>
        match stage {
          case Looking => step := Look(c);
          case Queued =>
            if s.terminal == None {
              step := Sit(c);
            } else {
              var d := s.terminal.value;
              assert CallerOk(s, d, s.callers[d]);
              step := NoDeadlock(s, d);
            }
          case Seated => step := Recheck(c);
          case Reading => step := Finish(c, NOT_READ);
          case Over(_) => step := Rise(c);
          case Reporting(_) => step := Publish(c);
        }
      case Done(_) => assert false;
    }
  }

  // ----- every run ends -----

  const MOST: nat := 12

  /** What a caller has still to do before it is done or waits for another. */
  function Work(s: State, k: Caller): nat {
    (if k.ended then 0 else 1) +
    match k.phase
    case Done(_) => 0
    case Waiting(reader) => if Returned(s, reader) then 11 else 1
    case Top => 10
    case Asking => 9
    case Leading(stage) =>
      match stage
      case Looking => 7
      case Queued => 6
      case Seated => 5
      case Reading => 4
      case Over(_) => 3
      case Reporting(_) => 2
  }

  ghost function TotalWork(s: State, ids: set<Id>): nat
    requires ids <= s.callers.Keys
  {
    if ids == {} then 0
    else
      var c :| c in ids;
      Work(s, s.callers[c]) + TotalWork(s, ids - {c})
  }

  lemma {:induction false} TotalWithout(s: State, ids: set<Id>, c: Id)
    requires ids <= s.callers.Keys && c in ids
    ensures TotalWork(s, ids) == Work(s, s.callers[c]) + TotalWork(s, ids - {c})
    decreases |ids|
  {
    var d :| d in ids && TotalWork(s, ids) == Work(s, s.callers[d]) + TotalWork(s, ids - {d});
    if d != c {
      TotalWithout(s, ids - {d}, c);
      TotalWithout(s, ids - {c}, d);
      assert ids - {d} - {c} == ids - {c} - {d};
    }
  }

  lemma {:induction false} TotalBound(s: State, ids: set<Id>)
    requires ids <= s.callers.Keys
    ensures TotalWork(s, ids) <= MOST * |ids|
    decreases |ids|
  {
    if ids != {} {
      var c :| c in ids;
      TotalWithout(s, ids, c);
      TotalBound(s, ids - {c});
    }
  }

  lemma {:induction false} TotalSame(s: State, t: State, ids: set<Id>)
    requires ids <= s.callers.Keys && ids <= t.callers.Keys
    requires forall c :: c in ids ==> Work(t, t.callers[c]) == Work(s, s.callers[c])
    ensures TotalWork(t, ids) == TotalWork(s, ids)
    decreases |ids|
  {
    if ids != {} {
      var c :| c in ids;
      TotalWithout(s, ids, c);
      TotalWithout(t, ids, c);
      TotalSame(s, t, ids - {c});
    }
  }

  ghost function Undone(s: State): set<Id> {
    set c | c in s.callers && !Returned(s, c)
  }

  /** A caller that ends may set those that waited for it going again, so callers
      left count for more than all they have to do. */
  ghost function Measure(s: State): nat {
    |Undone(s)| * (MOST * |s.callers| + 1) + TotalWork(s, s.callers.Keys)
  }

  lemma {:induction false} EndingStep(s: State, step: Step)
    requires Inv(s) && Enabled(s, step) && Moved(s, step).phase.Done?
    ensures Measure(Next(s, step)) < Measure(s)
  {
    var t := Next(s, step);
    assert t.callers.Keys == s.callers.Keys;
    assert Undone(s) == Undone(t) + {step.c} && step.c !in Undone(t);
    TotalBound(t, t.callers.Keys);
    OneFewer(|Undone(t)|, MOST * |s.callers| + 1);
    assert |Undone(s)| == |Undone(t)| + 1 && |t.callers.Keys| == |t.callers| == |s.callers|;
  }

  lemma {:induction false} OneFewer(k: nat, n: nat)
    ensures (k + 1) * n == k * n + n
  {
  }

  lemma {:induction false} WorkLess(s: State, step: Step)
    requires Inv(s) && Enabled(s, step) && !Moved(s, step).phase.Done?
    ensures !Returned(s, step.c) && Work(Next(s, step), Moved(s, step)) < Work(s, s.callers[step.c])
  {
    assert CallerOk(s, step.c, s.callers[step.c]);
    if step.Enter? && s.callers[step.c].name in s.table.reading {
      assert ReadingOk(s, s.callers[step.c].name);
    }
  }

  lemma {:induction false} OtherStep(s: State, step: Step)
    requires Inv(s) && Enabled(s, step) && !Moved(s, step).phase.Done?
    ensures Measure(Next(s, step)) < Measure(s)
  {
    var t, ids := Next(s, step), s.callers.Keys;
    assert t.callers.Keys == ids;
    WorkLess(s, step);
    forall c ensures Returned(t, c) <==> Returned(s, c) {
    }
    assert Undone(t) == Undone(s);
    TotalWithout(s, ids, step.c);
    TotalWithout(t, ids, step.c);
    TotalSame(s, t, ids - {step.c});
  }

  /** No run is longer than its measure. With NoDeadlock: every run can be
      continued until each caller is done, and after finitely many steps each is,
      however often the reader a caller waits for is interrupted. */
  lemma {:induction false} RunsAreFinite(s: State, steps: seq<Step>, t: State)
    requires Inv(s) && Run(s, steps, t)
    ensures |steps| + Measure(t) <= Measure(s)
    decreases |steps|
  {
    if steps != [] {
      if Moved(s, steps[0]).phase.Done? {
        EndingStep(s, steps[0]);
      } else {
        OtherStep(s, steps[0]);
      }
      StepKeepsInv(s, steps[0]);
      RunsAreFinite(Next(s, steps[0]), steps[1..], t);
    }
  }
}
