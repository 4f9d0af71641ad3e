/** What a reinstall may say of a node, whatever the host and the processors did
    with its requests (internal/cli/provision.go). */
module ReinstallSafety {
  import opened Options
  import opened Text
  import opened BootLinks
  import opened Reinstall

  /** What the requests of a run in fact did to each node: the link written, the
      override set, the override cleared and the link removed. */
  datatype Effects = Effects(links: nat -> bool, overrides: nat -> bool, clears: nat -> bool, removals: nat -> bool)

  function Linkeds(task: Task, nodes: seq<Node>, w: World): seq<nat> {
    Pick(Tried(task, nodes, w), Left(task, nodes, w), Linked)
  }

  function Overriddens(task: Task, nodes: seq<Node>, w: World): seq<nat> {
    Pick(Tried(task, nodes, w), Left(task, nodes, w), Overridden)
  }

  function Removals(task: Task, nodes: seq<Node>, w: World): (r: seq<BootLink>)
    ensures |r| == |Linkeds(task, nodes, w)|
  {
    LinksRemoved(task.config, Tried(task, nodes, w), Linkeds(task, nodes, w), w)
  }

  predicate LinkTrue(result: Step, there: bool) {
    (result == Set ==> there) && (result == Failed || result == Untried ==> !there)
  }

  predicate OverrideTrue(answer: Answer, there: bool) {
    (answer == Done ==> there) && (answer == Interrupted || answer == Unreached ==> !there)
  }

  /** The answers are right as far as they go: what is said to be done is done,
      what is said to have failed at the host or never to have reached a processor
      is not, and anything else may be either. */
  ghost predicate Truthful(task: Task, nodes: seq<Node>, w: World, e: Effects) {
    && (forall i: nat :: i < |nodes| ==> LinkTrue(LinksWritten(task, nodes, w)[i].result, e.links(i)))
    && (forall i: nat :: i < |nodes| ==> OverrideTrue(w.overrides(i), e.overrides(i)))
    && (forall i: nat :: i < |nodes| ==> w.clears(i) == Done ==> e.clears(i))
    && (forall k :: 0 <= k < |Linkeds(task, nodes, w)| ==>
                      Removals(task, nodes, w)[k].result == Removed ==> e.removals(Linkeds(task, nodes, w)[k]))
  }

  /** Whether the node carries, at the end, the boot link the run wrote. */
  ghost predicate Carries(task: Task, nodes: seq<Node>, w: World, e: Effects, i: nat) {
    e.links(i) && !(i in Linkeds(task, nodes, w) && e.removals(i))
  }

  /** Whether its processor holds, at the end, the override the run asked for. */
  ghost predicate Holds(task: Task, nodes: seq<Node>, w: World, e: Effects, i: nat) {
    StageOf(task, nodes, w) != Linking && e.overrides(i) && !(i in Overriddens(task, nodes, w) && e.clears(i))
  }

  lemma {:induction false} InPick(nodes: seq<Node>, indices: seq<nat>, p: Node -> bool, i: nat)
    requires Within(indices, |nodes|) && i < |nodes|
    ensures i in Pick(nodes, indices, p) <==> i in indices && p(nodes[i])
  {
    if indices != [] {
      var m := |indices| - 1;
      TakeOneMore(indices, m);
      assert indices[..m + 1] == indices;
      InPick(nodes, indices[..m], p, i);
    }
  }

  lemma {:induction false} ClearedAtNode(nodes: seq<Node>, indices: seq<nat>, w: World, n: nat, i: nat)
    requires Within(indices, |nodes|) && n <= |indices| && i < |nodes|
    ensures ClearedAt(nodes, indices, w, n)[i]
            == if i in indices[..n] && w.clears(i) == Done then nodes[i].(bootOnce := Cleared) else nodes[i]
  {
    if n > 0 {
      TakeOneMore(indices, n - 1);
      ClearedAtNode(nodes, indices, w, n - 1, i);
    }
  }

  /** Some link that is node i's was reported removed. */
  predicate ReportedGone(indices: seq<nat>, links: seq<BootLink>, n: nat, i: nat)
    requires n <= |indices| == |links|
  {
    exists k :: 0 <= k < n && indices[k] == i && links[k].result == Removed
  }

  lemma {:induction false} RemovedAtNode(nodes: seq<Node>, indices: seq<nat>, links: seq<BootLink>, n: nat, i: nat)
    requires Within(indices, |nodes|) && n <= |indices| == |links| && i < |nodes|
    ensures RemovedAt(nodes, indices, links, n)[i]
            == if ReportedGone(indices, links, n, i) then nodes[i].(bootLink := Removed) else nodes[i]
  {
    if n > 0 {
      RemovedAtNode(nodes, indices, links, n - 1, i);
      assert ReportedGone(indices, links, n, i)
        <==> ReportedGone(indices, links, n - 1, i) || (indices[n - 1] == i && links[n - 1].result == Removed);
    }
  }

  predicate LinkGone(task: Task, nodes: seq<Node>, w: World, i: nat) {
    ReportedGone(Linkeds(task, nodes, w), Removals(task, nodes, w), |Linkeds(task, nodes, w)|, i)
  }

  predicate OverrideGone(task: Task, nodes: seq<Node>, w: World, i: nat) {
    i in Overriddens(task, nodes, w) && w.clears(i) == Done
  }

  lemma {:induction false} UndoneNode(config: Config, t: seq<Node>, left: seq<nat>, w: World, i: nat)
    requires i < |t| && Within(left, |t|)
    ensures var overridden, linked := Pick(t, left, Overridden), Pick(t, left, Linked);
            var links := LinksRemoved(config, t, linked, w);
            Undone(config, t, left, w)[i]
            == t[i].(bootLink := if ReportedGone(linked, links, |linked|, i) then Removed else t[i].bootLink,
                     bootOnce := if i in overridden && w.clears(i) == Done then Cleared else t[i].bootOnce)
  {
    var overridden, linked := Pick(t, left, Overridden), Pick(t, left, Linked);
    var links := LinksRemoved(config, t, linked, w);
    ClearedAtNode(t, overridden, w, |overridden|, i);
    assert overridden[..|overridden|] == overridden;
    RemovedAtNode(ClearedAt(t, overridden, w, |overridden|), linked, links, |linked|, i);
  }

  lemma {:induction false} SettledNode(nodes: seq<Node>, i: nat)
    requires i < |nodes|
    ensures Settled(nodes)[i] == nodes[i].(state := StateOf(nodes[i])) && StateOf(Settled(nodes)[i]) == StateOf(nodes[i])
  {
  }

  lemma {:induction false} TriedName(task: Task, nodes: seq<Node>, w: World, i: nat)
    requires i < |nodes|
    ensures Tried(task, nodes, w)[i].name == nodes[i].name
  {
  }

  /** A node at the end of a run: as the steps left it, less what is known to be
      undone. */
  lemma {:induction false} FinalNode(task: Task, nodes: seq<Node>, w: World, i: nat)
    requires i < |nodes|
    ensures var t, f := Tried(task, nodes, w)[i], Final(task, nodes, w)[i];
            && f.name == nodes[i].name && f.reset == t.reset && f.state == StateOf(f)
            && f.bootLink == (if LinkGone(task, nodes, w, i) then Removed else t.bootLink)
            && f.bootOnce == (if OverrideGone(task, nodes, w, i) then Cleared else t.bootOnce)
  {
    var t, left := Tried(task, nodes, w), Left(task, nodes, w);
    UndoneNode(task.config, t, left, w, i);
    TriedName(task, nodes, w, i);
    SettledNode(Undone(task.config, t, left, w), i);
  }

  /** What the steps that were tried say of a node. */
  lemma {:induction false} TriedNode(task: Task, nodes: seq<Node>, w: World, i: nat)
    requires Fresh(nodes) && i < |nodes|
    ensures var t, stage := Tried(task, nodes, w)[i], StageOf(task, nodes, w);
            && t.bootLink == LinksWritten(task, nodes, w)[i].result
            && t.bootOnce == (if stage == Linking then Untried else StepOutcome(w.overrides(i), Set))
            && t.reset == (if ResetsSent(task, nodes, w) then StepOutcome(w.resets(i), Sent) else Untried)
            && t.bootLink in {Untried, Set, Failed, Unknown}
  {
  }

  /** The gate: nothing that cannot be undone happens before every node is armed.
      The keys are forgotten, and a machine is reset, only when the link and the
      override of every node are set. */
  lemma {:induction false} NothingLostBeforeArmed(task: Task, nodes: seq<Node>, w: World, e: Effects, i: nat)
    requires Fresh(nodes) && Truthful(task, nodes, w, e) && i < |nodes|
    requires KeysForgotten(task, nodes, w) || ResetsSent(task, nodes, w)
    ensures Tried(task, nodes, w)[i].bootLink == Set && Tried(task, nodes, w)[i].bootOnce == Set
    ensures e.links(i) && e.overrides(i)
  {
    TriedNode(task, nodes, w, i);
    assert AllAre(LinksWritten(task, nodes, w), Set) && AllDone(w.overrides, |nodes|);
  }

  lemma {:induction false} GoneIsTrue(task: Task, nodes: seq<Node>, w: World, e: Effects, i: nat)
    requires Truthful(task, nodes, w, e) && i < |nodes|
    ensures LinkGone(task, nodes, w, i) ==> i in Linkeds(task, nodes, w) && e.removals(i)
  {
    if LinkGone(task, nodes, w, i) {
      var linked := Linkeds(task, nodes, w);
      var k :| 0 <= k < |linked| && linked[k] == i && Removals(task, nodes, w)[k].result == Removed;
      assert i in linked;
    }
  }

  /** A node said to be unchanged, or disarmed, carries neither the link nor the
      override of the run. */
  lemma {:induction false} CleanIsClean(task: Task, nodes: seq<Node>, w: World, e: Effects, i: nat)
    requires Fresh(nodes) && Truthful(task, nodes, w, e) && i < |nodes|
    requires Final(task, nodes, w)[i].state in {Unchanged, Disarmed}
    ensures !Carries(task, nodes, w, e, i) && !Holds(task, nodes, w, e, i)
  {
    FinalNode(task, nodes, w, i);
    TriedNode(task, nodes, w, i);
    assert LinkTrue(LinksWritten(task, nodes, w)[i].result, e.links(i)) && OverrideTrue(w.overrides(i), e.overrides(i));
    GoneIsTrue(task, nodes, w, e, i);
  }

  lemma {:induction false} Named(nodes: seq<Node>, p: Node -> bool, i: nat)
    requires i < |nodes| && nodes[i].state == Armed && p(nodes[i])
    ensures nodes[i].name in ArmedWith(nodes, p)
  {
    if i < |nodes| - 1 {
      Named(nodes[..|nodes| - 1], p, i);
    }
  }

  lemma {:induction false} NamedIn(nodes: seq<Node>, state: State, i: nat)
    requires i < |nodes| && nodes[i].state == state
    ensures nodes[i].name in InState(nodes, state)
  {
    if i < |nodes| - 1 {
      NamedIn(nodes[..|nodes| - 1], state, i);
    }
  }

  /** A node that may still be armed, and was not reset, is said to be armed, and
      each part that remains is named with the command that removes it. */
  lemma {:induction false} ArmedIsReported(task: Task, nodes: seq<Node>, w: World, e: Effects, i: nat)
    requires Fresh(nodes) && Truthful(task, nodes, w, e) && i < |nodes|
    requires Carries(task, nodes, w, e, i) || Holds(task, nodes, w, e, i)
    ensures var final := Final(task, nodes, w);
            if final[i].reset == Sent then final[i].state == Reinstalling
            else
              && final[i].state == Armed && nodes[i].name in AdviceOn(final).armed
              && (Carries(task, nodes, w, e, i) ==> nodes[i].name in AdviceOn(final).bootUnset)
              && (Holds(task, nodes, w, e, i) ==> nodes[i].name in AdviceOn(final).bmcBootUnset)
  {
    var final := Final(task, nodes, w);
    FinalNode(task, nodes, w, i);
    PartsShow(task, nodes, w, e, i);
    if final[i].reset != Sent {
      NamedIn(final, Armed, i);
      if Carries(task, nodes, w, e, i) {
        Named(final, Linked, i);
      }
      if Holds(task, nodes, w, e, i) {
        Named(final, Overridden, i);
      }
    }
  }

  lemma {:induction false} PartsShow(task: Task, nodes: seq<Node>, w: World, e: Effects, i: nat)
    requires Fresh(nodes) && Truthful(task, nodes, w, e) && i < |nodes|
    ensures Carries(task, nodes, w, e, i) ==> Linked(Final(task, nodes, w)[i])
    ensures Holds(task, nodes, w, e, i) ==> Overridden(Final(task, nodes, w)[i])
  {
    FinalNode(task, nodes, w, i);
    TriedNode(task, nodes, w, i);
    assert LinkTrue(LinksWritten(task, nodes, w)[i].result, e.links(i)) && OverrideTrue(w.overrides(i), e.overrides(i));
    GoneIsTrue(task, nodes, w, e, i);
  }

  lemma {:induction false} LeftNode(task: Task, nodes: seq<Node>, w: World, i: nat)
    requires i < |nodes|
    ensures var stage := StageOf(task, nodes, w);
            i in Left(task, nodes, w) <==> stage != Through && (stage == Resetting ==> w.resets(i) != Done)
  {
    InNotReset(w, |nodes|, i);
    assert Everyone(|nodes|)[i] == i;
  }

  lemma {:induction false} LeftIsNotReset(task: Task, nodes: seq<Node>, w: World, i: nat)
    requires Fresh(nodes) && i < |nodes| && StageOf(task, nodes, w) != Through
    ensures i in Left(task, nodes, w) <==> Tried(task, nodes, w)[i].reset != Sent
  {
    LeftNode(task, nodes, w, i);
    TriedNode(task, nodes, w, i);
  }

  lemma {:induction false} GoneWasAsked(task: Task, nodes: seq<Node>, w: World, i: nat)
    requires i < |nodes|
    ensures LinkGone(task, nodes, w, i) ==> i in Left(task, nodes, w) && Linked(Tried(task, nodes, w)[i])
    ensures i in Overriddens(task, nodes, w) <==> i in Left(task, nodes, w) && Overridden(Tried(task, nodes, w)[i])
  {
    var t, left := Tried(task, nodes, w), Left(task, nodes, w);
    InPick(t, left, Linked, i);
    InPick(t, left, Overridden, i);
    if LinkGone(task, nodes, w, i) {
      var linked := Linkeds(task, nodes, w);
      var k :| 0 <= k < |linked| && linked[k] == i && Removals(task, nodes, w)[k].result == Removed;
      assert i in linked;
    }
  }

  /** A node before and after it was disarmed, as far as was confirmed. */
  lemma {:induction false} Disarming(t: Node, f: Node, left: bool, linkGone: bool, cleared: bool)
    requires t.bootLink in {Untried, Set, Failed, Unknown} && t.bootOnce != Cleared && f.state == StateOf(f)
    requires f.bootLink == (if linkGone then Removed else t.bootLink) && f.reset == t.reset
    requires f.bootOnce == (if left && Overridden(t) && cleared then Cleared else t.bootOnce)
    requires (linkGone ==> left && Linked(t)) && (left <==> t.reset != Sent)
    ensures if t.reset == Sent then f.state == Reinstalling && f.bootLink == t.bootLink && f.bootOnce == t.bootOnce
            else f.state == Armed <==> (Linked(t) && !linkGone) || (Overridden(t) && !cleared)
  {
  }

  /** The other half: a run that failed leaves a node it did not reset armed only
      when the removal of its link or of its override was tried and is not
      confirmed. Every node that could be disarmed is. */
  lemma {:induction false} DisarmedWhereConfirmed(task: Task, nodes: seq<Node>, w: World, i: nat)
    requires Fresh(nodes) && i < |nodes| && StageOf(task, nodes, w) != Through
    ensures var t, f := Tried(task, nodes, w)[i], Final(task, nodes, w)[i];
            if t.reset == Sent then f.state == Reinstalling && f.bootLink == t.bootLink && f.bootOnce == t.bootOnce
            else f.state == Armed <==> || (Linked(t) && !LinkGone(task, nodes, w, i))
                                       || (Overridden(t) && w.clears(i) != Done)
  {
    FinalNode(task, nodes, w, i);
    TriedNode(task, nodes, w, i);
    LeftIsNotReset(task, nodes, w, i);
    GoneWasAsked(task, nodes, w, i);
    Disarming(Tried(task, nodes, w)[i], Final(task, nodes, w)[i], i in Left(task, nodes, w), LinkGone(task, nodes, w, i),
              w.clears(i) == Done);
  }

  /** A run with no failure leaves every node reinstalling, or, told not to reset,
      every node armed. */
  lemma {:induction false} ThroughIsAll(task: Task, nodes: seq<Node>, w: World, i: nat)
    requires Fresh(nodes) && i < |nodes| && StageOf(task, nodes, w) == Through
    ensures Final(task, nodes, w)[i].state == if task.noReset then Armed else Reinstalling
    ensures task.noReset ==> Linked(Final(task, nodes, w)[i]) && Overridden(Final(task, nodes, w)[i])
  {
    FinalNode(task, nodes, w, i);
    TriedNode(task, nodes, w, i);
    LeftNode(task, nodes, w, i);
    assert AllAre(LinksWritten(task, nodes, w), Set) && AllDone(w.overrides, |nodes|);
    assert Linkeds(task, nodes, w) == [] && Overriddens(task, nodes, w) == [];
  }

  lemma {:induction false} ReinstallingIsSent(task: Task, nodes: seq<Node>, w: World, i: nat)
    requires i < |nodes|
    ensures Final(task, nodes, w)[i].state == Reinstalling <==> Tried(task, nodes, w)[i].reset == Sent
  {
    FinalNode(task, nodes, w, i);
  }

  /** A node is said to be reinstalling exactly when its processor took the reset,
      which every node was armed for. */
  lemma {:induction false} ReinstallingIsReset(task: Task, nodes: seq<Node>, w: World, i: nat)
    requires Fresh(nodes) && i < |nodes|
    ensures Final(task, nodes, w)[i].state == Reinstalling <==> ResetsSent(task, nodes, w) && w.resets(i) == Done
  {
    ReinstallingIsSent(task, nodes, w, i);
    TriedNode(task, nodes, w, i);
  }

  /** A failure that says nothing was changed is right: no node carries the link
      or the override, no key is forgotten, no machine is reset. */
  lemma {:induction false} NothingChangedIsTrue(task: Task, nodes: seq<Node>, w: World, e: Effects, i: nat)
    requires Fresh(nodes) && Truthful(task, nodes, w, e) && i < |nodes|
    requires var f := FailureOf(StageOf(task, nodes, w), Final(task, nodes, w), KeysForgotten(task, nodes, w));
             StageOf(task, nodes, w) != Through && f.reinstalling == [] && f.disarmed == [] && f.advice == None
    ensures !Carries(task, nodes, w, e, i) && !Holds(task, nodes, w, e, i)
    ensures !KeysForgotten(task, nodes, w)
  {
    var final := Final(task, nodes, w);
    if final[i].state != Unchanged {
      NamedIn(final, final[i].state, i);
    }
    CleanIsClean(task, nodes, w, e, i);
    if KeysForgotten(task, nodes, w) {
      NothingLostBeforeArmed(task, nodes, w, e, i);
      FinalNode(task, nodes, w, i);
    }
  }

  // ----- why the reports can be taken as true -----

  /** A report of the link script's own lines is right about every link. */
  lemma {:induction false} ScriptIsTruthful(task: Task, nodes: seq<Node>, w: World, changed: seq<bool>, i: nat)
    requires i < |nodes| == |changed| && Fresh(nodes)
    requires Wellformed(WriteRecords(task.config, LinksOf(nodes)))
    requires w.written.Some? ==> PrintedBy(w.written.value, changed)
    ensures LinkTrue(LinksWritten(task, nodes, w)[i].result, changed[i])
  {
    var lines := if w.written.Some? then w.written.value else [];
    ReportIsTrue(lines, changed, i);
  }

  /** And so is that of the script that removes them, of every link it was asked
      to remove. */
  lemma {:induction false} RemovalIsTruthful(task: Task, nodes: seq<Node>, w: World, gone: seq<bool>, k: nat)
    requires k < |Linkeds(task, nodes, w)| == |gone|
    requires w.removed.Some? ==> PrintedBy(w.removed.value, gone)
    ensures Removals(task, nodes, w)[k].result == Removed ==> gone[k]
  {
    var t, linked := Tried(task, nodes, w), Linkeds(task, nodes, w);
    var lines := if w.removed.Some? then w.removed.value else [];
    ReportIsTrue(lines, gone, k);
    assert LinksAt(t, linked)[k].result != Removed;
  }

  /** What the two scripts print is all that the answers about the links rest on:
      where they print their own lines, and a script that is sent nothing changes
      nothing, the answers are right if the processors' are. */
  lemma {:induction false} ScriptsAreTruthful(task: Task, nodes: seq<Node>, w: World, e: Effects,
                                              changed: seq<bool>, gone: seq<bool>)
    requires Fresh(nodes) && |changed| == |nodes| && |gone| == |Linkeds(task, nodes, w)|
    requires forall i: nat :: i < |nodes| ==> e.links(i) == changed[i]
    requires forall k :: 0 <= k < |gone| ==> e.removals(Linkeds(task, nodes, w)[k]) == gone[k]
    requires w.written.Some? ==> PrintedBy(w.written.value, changed)
    requires w.removed.Some? ==> PrintedBy(w.removed.value, gone)
    requires Wellformed(WriteRecords(task.config, LinksOf(nodes))) || forall i :: 0 <= i < |changed| ==> !changed[i]
    requires forall i: nat :: i < |nodes| ==> OverrideTrue(w.overrides(i), e.overrides(i))
    requires forall i: nat :: i < |nodes| ==> w.clears(i) == Done ==> e.clears(i)
    ensures Truthful(task, nodes, w, e)
  {
    forall i: nat | i < |nodes| ensures LinkTrue(LinksWritten(task, nodes, w)[i].result, e.links(i)) {
      if Wellformed(WriteRecords(task.config, LinksOf(nodes))) {
        ScriptIsTruthful(task, nodes, w, changed, i);
      }
    }
    forall k | 0 <= k < |gone| && Removals(task, nodes, w)[k].result == Removed
      ensures e.removals(Linkeds(task, nodes, w)[k])
    {
      RemovalIsTruthful(task, nodes, w, gone, k);
    }
  }

  // ----- what a run comes to, by its answers -----

  ghost predicate LinksSet(task: Task, nodes: seq<Node>, w: World) {
    forall i :: 0 <= i < |nodes| ==> LinksWritten(task, nodes, w)[i].result == Set
  }

  ghost predicate AllTook(answers: nat -> Answer, nodes: seq<Node>) {
    forall i: nat :: i < |nodes| ==> answers(i) == Done
  }

  lemma {:induction false} LinksSetIs(task: Task, nodes: seq<Node>, w: World)
    ensures AllLinked(task, nodes, w) <==> LinksSet(task, nodes, w)
  {
    var records := WriteRecords(task.config, LinksOf(nodes));
    if !Wellformed(records) {
      assert nodes != [] && LinksWritten(task, nodes, w)[0].result != Set;
    }
  }

  /** The keys are forgotten, the machines reset, and a run goes through, exactly
      when everything before was done, and it was asked for. */
  lemma {:induction false} DoneWhenAsked(task: Task, nodes: seq<Node>, w: World)
    ensures var armed, kept := LinksSet(task, nodes, w) && AllTook(w.overrides, nodes), !task.forgetKeys;
            && (KeysForgotten(task, nodes, w) <==> armed && task.forgetKeys && w.forgotten)
            && (ResetsSent(task, nodes, w) <==> armed && (kept || w.forgotten) && !task.noReset)
            && (StageOf(task, nodes, w) == Through <==>
                  armed && (kept || w.forgotten) && (task.noReset || AllTook(w.resets, nodes)))
  {
    LinksSetIs(task, nodes, w);
  }

  /** The step a failed run is said to have failed at is the first that did not
      succeed for every node. */
  lemma {:induction false} StageIsFirstFailed(task: Task, nodes: seq<Node>, w: World)
    ensures var links, overrides, stage := LinksSet(task, nodes, w), AllTook(w.overrides, nodes), StageOf(task, nodes, w);
            && (stage == Linking <==> !links)
            && (stage == Overriding <==> links && !overrides)
            && (stage == Forgetting <==> links && overrides && task.forgetKeys && !w.forgotten)
            && (stage == Resetting <==> ResetsSent(task, nodes, w) && !AllTook(w.resets, nodes))
  {
    LinksSetIs(task, nodes, w);
  }

  /** The node may carry the link of the run: it was written, or nothing says that
      it was not. */
  predicate MayBeLinked(task: Task, nodes: seq<Node>, w: World, i: nat)
    requires i < |nodes|
  {
    LinksWritten(task, nodes, w)[i].result == Set || LinksWritten(task, nodes, w)[i].result == Unknown
  }

  /** Its processor may hold the override: the request was carried out, or failed
      in a way that leaves it open. */
  predicate MayBeOverridden(task: Task, nodes: seq<Node>, w: World, i: nat) {
    StageOf(task, nodes, w) != Linking && (w.overrides(i) == Done || w.overrides(i) == Unsure)
  }

  /** Reinstalling when the reset was taken; unchanged when the node may have neither
      part; disarmed when it may have had one and every part it may have had is known
      to be undone; and armed otherwise. */
  predicate StateBy(state: State, reset: bool, link: bool, override: bool, linkGone: bool, cleared: bool) {
    var undone := (link ==> linkGone) && (override ==> cleared);
    && (state == Reinstalling <==> reset)
    && (state == Unchanged <==> !reset && !link && !override)
    && (state == Disarmed <==> !reset && (link || override) && undone)
    && (state == Armed <==> !reset && !undone)
  }

  /** What a failed run says of a node, by what was answered. */
  lemma {:induction false} StateIs(task: Task, nodes: seq<Node>, w: World, i: nat)
    requires Fresh(nodes) && i < |nodes| && StageOf(task, nodes, w) != Through
    ensures StateBy(Final(task, nodes, w)[i].state, ResetsSent(task, nodes, w) && w.resets(i) == Done,
                    MayBeLinked(task, nodes, w, i), MayBeOverridden(task, nodes, w, i),
                    LinkGone(task, nodes, w, i), w.clears(i) == Done)
  {
    var t, f := Tried(task, nodes, w)[i], Final(task, nodes, w)[i];
    TriedByAnswers(task, nodes, w, i);
    FinalByAnswers(task, nodes, w, i);
    StateFollows(t, f, LinkGone(task, nodes, w, i), w.clears(i) == Done);
  }

  lemma {:induction false} TriedByAnswers(task: Task, nodes: seq<Node>, w: World, i: nat)
    requires Fresh(nodes) && i < |nodes|
    ensures var t := Tried(task, nodes, w)[i];
            && Linked(t) == MayBeLinked(task, nodes, w, i) && Overridden(t) == MayBeOverridden(task, nodes, w, i)
            && (t.reset == Sent) == (ResetsSent(task, nodes, w) && w.resets(i) == Done)
            && t.bootLink != Removed && t.bootOnce != Cleared
  {
    TriedNode(task, nodes, w, i);
  }

  lemma {:induction false} FinalByAnswers(task: Task, nodes: seq<Node>, w: World, i: nat)
    requires Fresh(nodes) && i < |nodes| && StageOf(task, nodes, w) != Through
    ensures Undoing(Tried(task, nodes, w)[i], Final(task, nodes, w)[i], LinkGone(task, nodes, w, i), w.clears(i) == Done)
  {
    FinalNode(task, nodes, w, i);
    LeftIsNotReset(task, nodes, w, i);
    GoneWasAsked(task, nodes, w, i);
  }

  /** A node before and after what it may have was undone, as far as is known. */
  predicate Undoing(t: Node, f: Node, linkGone: bool, cleared: bool) {
    && f.state == StateOf(f) && f.reset == t.reset
    && f.bootLink == (if linkGone then Removed else t.bootLink)
    && f.bootOnce == (if t.reset != Sent && Overridden(t) && cleared then Cleared else t.bootOnce)
    && (linkGone ==> t.reset != Sent && Linked(t))
  }

  lemma {:induction false} StateFollows(t: Node, f: Node, linkGone: bool, cleared: bool)
    requires t.bootLink != Removed && t.bootOnce != Cleared && Undoing(t, f, linkGone, cleared)
    ensures StateBy(f.state, t.reset == Sent, Linked(t), Overridden(t), linkGone, cleared)
  {
  }
}
