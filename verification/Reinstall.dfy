/** A reinstall of a set of nodes: the boot links and boot overrides set, the host
    keys forgotten, the machines reset, and everything undone again when a step
    fails (internal/cli/provision.go). */
module Reinstall {
  import opened Options
  import opened BootLinks
  import opened Selection

  /** What is known of a request to a service processor: carried out, not sent
      because of an interrupt, proven never to have reached it, or failed in a way
      that leaves open whether it was carried out. */
  datatype Answer = Done | Interrupted | Unreached | Unsure

  datatype State = Reinstalling | Armed | Disarmed | Unchanged

  datatype Node = Node(name: string, address: string, bootPath: string, bootLink: Step, bootOnce: Step, reset: Step,
                       state: State)

  /** `linked`: the node may carry the boot link this run wrote. */
  predicate Linked(n: Node) {
    n.bootLink == Set || n.bootLink == Unknown
  }

  /** `overridden`: the processor may hold the override this run asked for. */
  predicate Overridden(n: Node) {
    n.bootOnce == Set || n.bootOnce == Failed
  }

  /** `stepOutcome`. */
  function StepOutcome(answer: Answer, done: Step): Step {
    match answer
    case Done => done
    case Interrupted => NotSent
    case Unreached => Unreachable
    case Unsure => Failed
  }

  function StateOf(n: Node): State {
    if n.reset == Sent then Reinstalling
    else if Linked(n) || Overridden(n) then Armed
    else if n.bootLink == Removed || n.bootOnce == Cleared then Disarmed
    else Unchanged
  }

  /** What the host and the processors answer in the course of a run. */
  datatype World = World(written: Option<seq<string>>, overrides: nat -> Answer, forgotten: bool, resets: nat -> Answer,
                         clears: nat -> Answer, removed: Option<seq<string>>)

  datatype Task = Task(config: Config, forgetKeys: bool, noReset: bool)

  /** The step a run failed at, if any. */
  datatype Stage = Linking | Overriding | Forgetting | Resetting | Through

  predicate Fresh(nodes: seq<Node>) {
    forall i :: 0 <= i < |nodes| ==> && nodes[i].bootLink == nodes[i].bootOnce == nodes[i].reset == Untried
                                     && nodes[i].state == Unchanged
  }

  function LinkOf(n: Node): BootLink {
    BootLink(n.name, n.address, n.bootPath, false, Untried)
  }

  function LinksOf(nodes: seq<Node>): (r: seq<BootLink>)
    ensures |r| == |nodes|
  {
    seq(|nodes|, i requires 0 <= i < |nodes| => LinkOf(nodes[i]))
  }

  // What a run makes of its nodes, step by step.

  function LinksWritten(task: Task, nodes: seq<Node>, w: World): (r: seq<BootLink>)
    ensures |r| == |nodes|
  {
    After(WriteRecords(task.config, LinksOf(nodes)), LinksOf(nodes), w.written, Set)
  }

  predicate AllLinked(task: Task, nodes: seq<Node>, w: World) {
    Wellformed(WriteRecords(task.config, LinksOf(nodes))) && AllAre(LinksWritten(task, nodes, w), Set)
  }

  function WithLinks(nodes: seq<Node>, links: seq<BootLink>): (r: seq<Node>)
    requires |nodes| == |links|
    ensures |r| == |nodes|
  {
    seq(|nodes|, i requires 0 <= i < |nodes| => nodes[i].(bootLink := links[i].result))
  }

  function WithOverrides(nodes: seq<Node>, w: World): (r: seq<Node>)
    ensures |r| == |nodes|
  {
    seq(|nodes|, i requires 0 <= i < |nodes| => nodes[i].(bootOnce := StepOutcome(w.overrides(i), Set)))
  }

  function WithResets(nodes: seq<Node>, w: World): (r: seq<Node>)
    ensures |r| == |nodes|
  {
    seq(|nodes|, i requires 0 <= i < |nodes| => nodes[i].(reset := StepOutcome(w.resets(i), Sent)))
  }

  predicate AllDone(answers: nat -> Answer, n: nat) {
    forall i: nat :: i < n ==> answers(i) == Done
  }

  function ConfiguredTo(task: Task, nodes: seq<Node>, w: World): Stage {
    if !AllLinked(task, nodes, w) then Linking
    else if !AllDone(w.overrides, |nodes|) then Overriding
    else if task.forgetKeys && !w.forgotten then Forgetting
    else Through
  }

  function Configured(task: Task, nodes: seq<Node>, w: World): (r: seq<Node>)
    ensures |r| == |nodes|
  {
    var linked := WithLinks(nodes, LinksWritten(task, nodes, w));
    if AllLinked(task, nodes, w) then WithOverrides(linked, w) else linked
  }

  function StageOf(task: Task, nodes: seq<Node>, w: World): Stage {
    var configured := ConfiguredTo(task, nodes, w);
    if configured != Through then configured
    else if !task.noReset && !AllDone(w.resets, |nodes|) then Resetting
    else Through
  }

  predicate KeysForgotten(task: Task, nodes: seq<Node>, w: World) {
    task.forgetKeys && StageOf(task, nodes, w) in {Resetting, Through}
  }

  predicate ResetsSent(task: Task, nodes: seq<Node>, w: World) {
    !task.noReset && StageOf(task, nodes, w) in {Resetting, Through}
  }

  /** The nodes as the steps that were tried left them. */
  function Tried(task: Task, nodes: seq<Node>, w: World): (r: seq<Node>)
    ensures |r| == |nodes|
  {
    var configured := Configured(task, nodes, w);
    if ResetsSent(task, nodes, w) then WithResets(configured, w) else configured
  }

  /** The nodes to disarm. */
  function Left(task: Task, nodes: seq<Node>, w: World): (r: seq<nat>)
    ensures forall k :: 0 <= k < |r| ==> r[k] < |nodes|
  {
    match StageOf(task, nodes, w)
    case Through => []
    case Resetting => NotReset(w, |nodes|)
    case _ => Everyone(|nodes|)
  }

  function Everyone(n: nat): (r: seq<nat>)
    ensures |r| == n && forall i :: 0 <= i < n ==> r[i] == i
  {
    seq(n, i => i)
  }

  function NotReset(w: World, n: nat): (r: seq<nat>)
    ensures forall k :: 0 <= k < |r| ==> r[k] < n
  {
    if n == 0 then [] else NotReset(w, n - 1) + if w.resets(n - 1) != Done then [n - 1] else []
  }

  predicate Within(indices: seq<nat>, n: nat) {
    forall k :: 0 <= k < |indices| ==> indices[k] < n
  }

  function Pick(nodes: seq<Node>, indices: seq<nat>, p: Node -> bool): (r: seq<nat>)
    requires Within(indices, |nodes|)
    ensures Within(r, |nodes|)
  {
    if indices == [] then []
    else
      var m := |indices| - 1;
      Pick(nodes, indices[..m], p) + if p(nodes[indices[m]]) then [indices[m]] else []
  }

  function LinksAt(nodes: seq<Node>, indices: seq<nat>): (r: seq<BootLink>)
    requires Within(indices, |nodes|)
    ensures |r| == |indices|
  {
    seq(|indices|, k requires 0 <= k < |indices| => LinkOf(nodes[indices[k]]))
  }

  /** The first n of the overrides cleared, as far as the processors confirm it. */
  function ClearedAt(nodes: seq<Node>, indices: seq<nat>, w: World, n: nat): (r: seq<Node>)
    requires Within(indices, |nodes|) && n <= |indices|
    ensures |r| == |nodes|
  {
    if n == 0 then nodes
    else
      var r, i := ClearedAt(nodes, indices, w, n - 1), indices[n - 1];
      if w.clears(i) == Done then r[i := r[i].(bootOnce := Cleared)] else r
  }

  /** The first n of the links removed, as far as the host reports it. */
  function RemovedAt(nodes: seq<Node>, indices: seq<nat>, links: seq<BootLink>, n: nat): (r: seq<Node>)
    requires Within(indices, |nodes|) && n <= |indices| == |links|
    ensures |r| == |nodes|
  {
    if n == 0 then nodes
    else
      var r, i := RemovedAt(nodes, indices, links, n - 1), indices[n - 1];
      if links[n - 1].result == Removed then r[i := r[i].(bootLink := Removed)] else r
  }

  function LinksRemoved(config: Config, nodes: seq<Node>, linked: seq<nat>, w: World): (r: seq<BootLink>)
    requires Within(linked, |nodes|)
    ensures |r| == |linked|
  {
    After(RemoveRecords(config, LinksAt(nodes, linked)), LinksAt(nodes, linked), w.removed, Removed)
  }

  /** The nodes disarmed, as far as is known. */
  function Undone(config: Config, nodes: seq<Node>, left: seq<nat>, w: World): (r: seq<Node>)
    requires Within(left, |nodes|)
    ensures |r| == |nodes|
  {
    var overridden, linked := Pick(nodes, left, Overridden), Pick(nodes, left, Linked);
    var cleared := ClearedAt(nodes, overridden, w, |overridden|);
    RemovedAt(cleared, linked, LinksRemoved(config, nodes, linked, w), |linked|)
  }

  function Settled(nodes: seq<Node>): (r: seq<Node>)
    ensures |r| == |nodes|
  {
    seq(|nodes|, i requires 0 <= i < |nodes| => nodes[i].(state := StateOf(nodes[i])))
  }

  /** The nodes at the end of a run. */
  function Final(task: Task, nodes: seq<Node>, w: World): (r: seq<Node>)
    ensures |r| == |nodes|
  {
    Settled(Undone(task.config, Tried(task, nodes, w), Left(task, nodes, w), w))
  }

  function InState(nodes: seq<Node>, state: State): seq<string> {
    if nodes == [] then []
    else
      var m := |nodes| - 1;
      InState(nodes[..m], state) + if nodes[m].state == state then [nodes[m].name] else []
  }

  function ArmedWith(nodes: seq<Node>, p: Node -> bool): seq<string> {
    if nodes == [] then []
    else
      var m := |nodes| - 1;
      ArmedWith(nodes[..m], p) + if nodes[m].state == Armed && p(nodes[m]) then [nodes[m].name] else []
  }

  /** The nodes left armed, and those each command that disarms them is given for:
      "bmc boot unset" and "boot unset". */
  datatype Advice = Advice(armed: seq<string>, bmcBootUnset: seq<string>, bootUnset: seq<string>)

  function AdviceOn(nodes: seq<Node>): Advice {
    Advice(InState(nodes, Armed), ArmedWith(nodes, Overridden), ArmedWith(nodes, Linked))
  }

  ghost function InThe(state: State): Node -> bool {
    (n: Node) => n.state == state
  }

  ghost function ArmedByLink(): Node -> bool {
    (n: Node) => n.state == Armed && (n.bootLink == Set || n.bootLink == Unknown)
  }

  ghost function ArmedByOverride(): Node -> bool {
    (n: Node) => n.state == Armed && (n.bootOnce == Set || n.bootOnce == Failed)
  }

  ghost function ByName(): (Node, string) -> bool {
    (n: Node, name: string) => name == n.name
  }

  lemma {:induction false} InStateIs(nodes: seq<Node>, state: State)
    ensures Selects(nodes, InState(nodes, state), InThe(state), ByName())
  {
    if nodes != [] {
      var m := |nodes| - 1;
      var names := InState(nodes[..m], state);
      InStateIs(nodes[..m], state);
      SelectsLast(nodes[..m], names, InThe(state), ByName(), nodes[m], nodes[m].name);
      assert nodes[..m] + [nodes[m]] == nodes && names + [] == names;
    }
  }

  lemma {:induction false} ArmedWithIs(nodes: seq<Node>, p: Node -> bool, picked: Node -> bool)
    requires forall n :: picked(n) <==> n.state == Armed && p(n)
    ensures Selects(nodes, ArmedWith(nodes, p), picked, ByName())
  {
    if nodes != [] {
      var m := |nodes| - 1;
      var names := ArmedWith(nodes[..m], p);
      ArmedWithIs(nodes[..m], p, picked);
      SelectsLast(nodes[..m], names, picked, ByName(), nodes[m], nodes[m].name);
      assert nodes[..m] + [nodes[m]] == nodes && names + [] == names;
    }
  }

  /** The advice names the nodes that are armed, and under each command those that
      are armed and may have the part it removes, and no others: a node that is
      reinstalling is named under none. */
  lemma {:induction false} AdviceIs(nodes: seq<Node>)
    ensures Selects(nodes, AdviceOn(nodes).armed, InThe(Armed), ByName())
    ensures Selects(nodes, AdviceOn(nodes).bootUnset, ArmedByLink(), ByName())
    ensures Selects(nodes, AdviceOn(nodes).bmcBootUnset, ArmedByOverride(), ByName())
  {
    InStateIs(nodes, Armed);
    ArmedWithIs(nodes, Linked, ArmedByLink());
    ArmedWithIs(nodes, Overridden, ArmedByOverride());
  }

  lemma {:induction false} NameIsOf(nodes: seq<Node>, names: seq<string>, picked: Node -> bool, name: string)
    requires Selects(nodes, names, picked, ByName())
    ensures name in names <==> exists n :: n in nodes && picked(n) && n.name == name
  {
    if name in names {
      var n := SelectedFrom(nodes, names, picked, ByName(), name);
    }
    if n :| n in nodes && picked(n) && n.name == name {
      var _ := SelectedTo(nodes, names, picked, ByName(), n);
    }
  }

  /** A name under a command is that of a node that is armed and may have the part. */
  lemma {:induction false} NamedIsArmed(nodes: seq<Node>, name: string)
    ensures name in AdviceOn(nodes).armed <==> exists n :: n in nodes && n.name == name && n.state == Armed
    ensures name in AdviceOn(nodes).bootUnset <==>
            exists n :: n in nodes && n.name == name && n.state == Armed && (n.bootLink == Set || n.bootLink == Unknown)
    ensures name in AdviceOn(nodes).bmcBootUnset <==>
            exists n :: n in nodes && n.name == name && n.state == Armed && (n.bootOnce == Set || n.bootOnce == Failed)
  {
    AdviceIs(nodes);
    NameIsOf(nodes, AdviceOn(nodes).armed, InThe(Armed), name);
    NameIsOf(nodes, AdviceOn(nodes).bootUnset, ArmedByLink(), name);
    NameIsOf(nodes, AdviceOn(nodes).bmcBootUnset, ArmedByOverride(), name);
  }

  /** What a failed run says of its nodes; with no part it says that nothing was
      changed. */
  datatype Failure = Failure(stage: Stage, reinstalling: seq<string>, disarmed: seq<string>, keysForgotten: bool,
                             advice: Option<Advice>)

  function FailureOf(stage: Stage, nodes: seq<Node>, keysForgotten: bool): Failure {
    Failure(stage, InState(nodes, Reinstalling), InState(nodes, Disarmed), keysForgotten,
            if InState(nodes, Armed) != [] then Some(AdviceOn(nodes)) else None)
  }

  /** A failed run says of the nodes that are reinstalling, and of those that are
      disarmed, that they are, of no others, and gives advice when one is armed. */
  lemma {:induction false} FailureIs(stage: Stage, nodes: seq<Node>, keysForgotten: bool)
    ensures var f := FailureOf(stage, nodes, keysForgotten);
            && f.stage == stage && f.keysForgotten == keysForgotten
            && Selects(nodes, f.reinstalling, InThe(Reinstalling), ByName())
            && Selects(nodes, f.disarmed, InThe(Disarmed), ByName())
            && f.advice == if exists n :: n in nodes && n.state == Armed then Some(AdviceOn(nodes)) else None
  {
    InStateIs(nodes, Reinstalling);
    InStateIs(nodes, Disarmed);
    InStateIs(nodes, Armed);
    var armed := InState(nodes, Armed);
    if armed != [] {
      NameIsOf(nodes, armed, InThe(Armed), armed[0]);
    }
    if n :| n in nodes && n.state == Armed {
      NameIsOf(nodes, armed, InThe(Armed), n.name);
    }
  }

  /** What a run comes to. */
  ghost predicate Ended(task: Task, nodes: seq<Node>, w: World, final: seq<Node>, keysForgotten: bool,
                        failure: Option<Failure>) {
    var stage := StageOf(task, nodes, w);
    && final == Final(task, nodes, w)
    && keysForgotten == KeysForgotten(task, nodes, w)
    && failure == if stage == Through then None else Some(FailureOf(stage, final, keysForgotten))
  }

  lemma {:induction false} Stages(task: Task, nodes: seq<Node>, w: World)
    ensures var stage, nodes' := ConfiguredTo(task, nodes, w), Configured(task, nodes, w);
            if stage != Through then
              && StageOf(task, nodes, w) == stage && Tried(task, nodes, w) == nodes'
              && Left(task, nodes, w) == Everyone(|nodes|)
            else if task.noReset then
              && StageOf(task, nodes, w) == Through && Tried(task, nodes, w) == nodes' && Left(task, nodes, w) == []
            else
              && StageOf(task, nodes, w) == (if AllDone(w.resets, |nodes|) then Through else Resetting)
              && Tried(task, nodes, w) == WithResets(nodes', w) && Left(task, nodes, w) == NotReset(w, |nodes|)
  {
    NotResetIs(w, |nodes|);
  }

  class Plan {
    const config: Config
    const nodes: array<Node>
    const links: array<BootLink>
    const forgetKeys: bool
    var keysForgotten: bool

    ghost predicate Valid()
      reads this, nodes, links
    {
      links.Length == nodes.Length && links[..] == LinksOf(nodes[..])
    }

    /** A plan as `planReinstall` makes it. */
    constructor (config: Config, planned: seq<Node>, forgetKeys: bool)
      requires Fresh(planned)
      ensures Valid() && this.config == config && this.forgetKeys == forgetKeys && !keysForgotten
      ensures nodes[..] == planned && fresh(nodes) && fresh(links)
    {
      this.config, this.forgetKeys := config, forgetKeys;
      nodes := new Node[|planned|](i requires 0 <= i < |planned| => planned[i]);
      links := new BootLink[|planned|](i requires 0 <= i < |planned| => LinkOf(planned[i]));
      keysForgotten := false;
    }

    /** `sendToBMCs`: one request to the processor of each node named. */
    method SendToBMCs(indices: seq<nat>, answers: nat -> Answer) returns (errs: seq<Answer>)
      ensures |errs| == |indices| && forall k :: 0 <= k < |indices| ==> errs[k] == answers(indices[k])
    {
      errs := seq(|indices|, k requires 0 <= k < |indices| => answers(indices[k]));
    }

    /** `settle`. */
    method Settle()
      modifies nodes
      ensures nodes[..] == Settled(old(nodes[..]))
    {
      for i := 0 to nodes.Length
        invariant forall j :: 0 <= j < i ==> nodes[j] == old(nodes[j]).(state := StateOf(old(nodes[j])))
        invariant forall j :: i <= j < nodes.Length ==> nodes[j] == old(nodes[j])
      {
        var n := nodes[i];
        var state;
        if n.reset == Sent {
          state := Reinstalling;
        } else if Linked(n) || Overridden(n) {
          state := Armed;
        } else if n.bootLink == Removed || n.bootOnce == Cleared {
          state := Disarmed;
        } else {
          state := Unchanged;
        }
        nodes[i] := n.(state := state);
      }
      assert forall j :: 0 <= j < nodes.Length ==> nodes[j] == Settled(old(nodes[..]))[j];
    }

    method Which(left: seq<nat>, p: Node -> bool) returns (picked: seq<nat>)
      requires Within(left, nodes.Length)
      ensures picked == Pick(nodes[..], left, p)
    {
      picked := [];
      for k := 0 to |left|
        invariant Within(picked, nodes.Length) && picked == Pick(nodes[..], left[..k], p)
      {
        assert left[..k + 1][..k] == left[..k];
        if p(nodes[left[k]]) {
          picked := picked + [left[k]];
        }
      }
      assert left[..|left|] == left;
    }

    /** The boot overrides of these nodes cleared. */
    method ClearOverrides(overridden: seq<nat>, w: World)
      requires Within(overridden, nodes.Length)
      modifies nodes
      ensures nodes[..] == ClearedAt(old(nodes[..]), overridden, w, |overridden|)
    {
      var errs := SendToBMCs(overridden, w.clears);
      for k := 0 to |overridden|
        invariant nodes[..] == ClearedAt(old(nodes[..]), overridden, w, k)
      {
        if errs[k] == Done {
          nodes[overridden[k]] := nodes[overridden[k]].(bootOnce := Cleared);
        }
      }
    }

    /** The boot links of these nodes removed. */
    method RemoveLinks(linked: seq<nat>, w: World, ghost asked: seq<Node>)
      requires Within(linked, nodes.Length) && |asked| == nodes.Length
      requires forall i :: 0 <= i < |asked| ==> LinkOf(nodes[i]) == LinkOf(asked[i])
      modifies nodes
      ensures nodes[..] == RemovedAt(old(nodes[..]), linked, LinksRemoved(config, asked, linked, w), |linked|)
    {
      var some := new BootLink[|linked|](k requires 0 <= k < |linked| reads nodes => LinkOf(nodes[linked[k]]));
      assert some[..] == LinksAt(asked, linked);
      var _ := RemoveBootLinks(config, some, w.removed);
      TakeRemoved(linked, some);
    }

    method TakeRemoved(linked: seq<nat>, some: array<BootLink>)
      requires Within(linked, nodes.Length) && some.Length == |linked|
      modifies nodes
      ensures nodes[..] == RemovedAt(old(nodes[..]), linked, some[..], |linked|)
    {
      for k := 0 to |linked|
        invariant nodes[..] == RemovedAt(old(nodes[..]), linked, some[..], k)
      {
        if some[k].result == Removed {
          nodes[linked[k]] := nodes[linked[k]].(bootLink := Removed);
        }
      }
    }

    /** `fail`. */
    method Fail(stage: Stage, left: seq<nat>, w: World) returns (failure: Failure)
      requires Within(left, nodes.Length)
      modifies nodes
      ensures nodes[..] == Settled(Undone(config, old(nodes[..]), left, w))
      ensures failure == FailureOf(stage, nodes[..], keysForgotten)
    {
      var overridden := Which(left, Overridden);
      var linked := Which(left, Linked);
      ghost var before := nodes[..];
      if |overridden| > 0 || |linked| > 0 {
        ClearOverrides(overridden, w);
        ClearedKeeps(before, overridden, w, |overridden|);
        if |linked| > 0 {
          RemoveLinks(linked, w, before);
        }
      }
      assert nodes[..] == Undone(config, before, left, w);
      Settle();
      failure := Report(stage);
    }

    method TakeResults()
      requires links.Length == nodes.Length
      modifies nodes
      ensures nodes[..] == WithLinks(old(nodes[..]), links[..])
    {
      for i := 0 to nodes.Length
        invariant forall j :: 0 <= j < i ==> nodes[j] == old(nodes[j]).(bootLink := links[j].result)
        invariant forall j :: i <= j < nodes.Length ==> nodes[j] == old(nodes[j])
      {
        nodes[i] := nodes[i].(bootLink := links[i].result);
      }
      assert forall j :: 0 <= j < nodes.Length ==> nodes[j] == WithLinks(old(nodes[..]), links[..])[j];
    }

    method WriteLinks(w: World, ghost task: Task) returns (ok: bool)
      requires Valid() && task.config == config
      modifies nodes, links
      ensures nodes[..] == WithLinks(old(nodes[..]), LinksWritten(task, old(nodes[..]), w))
      ensures ok <==> AllLinked(task, old(nodes[..]), w)
    {
      ok := WriteBootLinks(config, links, w.written);
      TakeResults();
    }

    method SetOverrides(w: World) returns (ok: bool)
      modifies nodes
      ensures nodes[..] == WithOverrides(old(nodes[..]), w)
      ensures ok <==> AllDone(w.overrides, nodes.Length)
    {
      var errs := SendToBMCs(Everyone(nodes.Length), w.overrides);
      ok := true;
      for i := 0 to nodes.Length
        invariant forall j :: 0 <= j < i ==> nodes[j] == old(nodes[j]).(bootOnce := StepOutcome(w.overrides(j), Set))
        invariant forall j :: i <= j < nodes.Length ==> nodes[j] == old(nodes[j])
        invariant ok <==> AllDone(w.overrides, i)
      {
        nodes[i] := nodes[i].(bootOnce := StepOutcome(errs[i], Set));
        ok := ok && errs[i] == Done;
      }
      assert forall j :: 0 <= j < nodes.Length ==> nodes[j] == WithOverrides(old(nodes[..]), w)[j];
    }

    method ResetAll(w: World) returns (left: seq<nat>)
      modifies nodes
      ensures nodes[..] == WithResets(old(nodes[..]), w)
      ensures left == NotReset(w, nodes.Length)
    {
      var errs := SendToBMCs(Everyone(nodes.Length), w.resets);
      left := [];
      for i := 0 to nodes.Length
        invariant forall j :: 0 <= j < i ==> nodes[j] == old(nodes[j]).(reset := StepOutcome(w.resets(j), Sent))
        invariant forall j :: i <= j < nodes.Length ==> nodes[j] == old(nodes[j])
        invariant left == NotReset(w, i)
      {
        nodes[i] := nodes[i].(reset := StepOutcome(errs[i], Sent));
        if errs[i] != Done {
          left := left + [i];
        }
      }
      assert forall j :: 0 <= j < nodes.Length ==> nodes[j] == WithResets(old(nodes[..]), w)[j];
    }

    /** The links written, the overrides set and the host keys forgotten, or the
        step that failed. */
    method Configure(w: World, ghost task: Task) returns (stage: Stage)
      requires Valid() && !keysForgotten && task.config == config && task.forgetKeys == forgetKeys
      modifies this, nodes, links
      ensures stage == ConfiguredTo(task, old(nodes[..]), w)
      ensures nodes[..] == Configured(task, old(nodes[..]), w)
      ensures keysForgotten == (forgetKeys && stage == Through)
    {
      var linked := WriteLinks(w, task);
      if !linked {
        return Linking;
      }
      var overridden := SetOverrides(w);
      if !overridden {
        return Overriding;
      }
      if forgetKeys {
        if !w.forgotten {
          return Forgetting;
        }
        keysForgotten := true;
      }
      return Through;
    }

    /** The machines reset, and those that were not disarmed again. */
    method ResetMachines(w: World) returns (failure: Option<Failure>)
      modifies nodes
      ensures nodes[..] == Settled(Undone(config, WithResets(old(nodes[..]), w), NotReset(w, nodes.Length), w))
      ensures failure == if AllDone(w.resets, nodes.Length) then None
                         else Some(FailureOf(Resetting, nodes[..], keysForgotten))
    {
      var left := ResetAll(w);
      NotResetIs(w, nodes.Length);
      if left != [] {
        var f := Fail(Resetting, left, w);
        return Some(f);
      }
      NothingUndone(config, nodes[..], w);
      Settle();
      return None;
    }

    /** `run`. */
    method Run(noReset: bool, w: World) returns (failure: Option<Failure>)
      requires Valid() && !keysForgotten
      modifies this, nodes, links
      ensures Ended(Task(config, forgetKeys, noReset), old(nodes[..]), w, nodes[..], keysForgotten, failure)
    {
      ghost var task := Task(config, forgetKeys, noReset);
      Stages(task, nodes[..], w);
      var stage := Configure(w, task);
      if stage != Through {
        var f := Fail(stage, Everyone(nodes.Length), w);
        return Some(f);
      }
      if noReset {
        NothingUndone(config, nodes[..], w);
        Settle();
        return None;
      }
      failure := ResetMachines(w);
    }

    method Report(stage: Stage) returns (failure: Failure)
      ensures failure == FailureOf(stage, nodes[..], keysForgotten)
    {
      var reinstalling := Named(Reinstalling);
      var disarmed := Named(Disarmed);
      var armed := Named(Armed);
      var advice := None;
      if armed != [] {
        var a := ArmedAdvice();
        advice := Some(a);
      }
      return Failure(stage, reinstalling, disarmed, keysForgotten, advice);
    }

    /** `inState`. */
    method Named(state: State) returns (names: seq<string>)
      ensures names == InState(nodes[..], state)
    {
      names := [];
      for i := 0 to nodes.Length
        invariant names == InState(nodes[..i], state)
      {
        assert nodes[..i + 1][..i] == nodes[..i];
        if nodes[i].state == state {
          names := names + [nodes[i].name];
        }
      }
      assert nodes[..nodes.Length] == nodes[..];
    }

    /** `armedAdvice`. */
    method ArmedAdvice() returns (advice: Advice)
      ensures advice == AdviceOn(nodes[..])
      ensures Selects(nodes[..], advice.armed, InThe(Armed), ByName())
      ensures Selects(nodes[..], advice.bootUnset, ArmedByLink(), ByName())
      ensures Selects(nodes[..], advice.bmcBootUnset, ArmedByOverride(), ByName())
    {
      var armed, overridden, linked := [], [], [];
      for i := 0 to nodes.Length
        invariant armed == InState(nodes[..i], Armed)
        invariant overridden == ArmedWith(nodes[..i], Overridden)
        invariant linked == ArmedWith(nodes[..i], Linked)
      {
        assert nodes[..i + 1][..i] == nodes[..i];
        var n := nodes[i];
        if n.state == Armed {
          armed := armed + [n.name];
          if Overridden(n) {
            overridden := overridden + [n.name];
          }
          if Linked(n) {
            linked := linked + [n.name];
          }
        }
      }
      assert nodes[..nodes.Length] == nodes[..];
      AdviceIs(nodes[..]);
      return Advice(armed, overridden, linked);
    }
  }

  lemma {:induction false} ClearedKeeps(nodes: seq<Node>, indices: seq<nat>, w: World, n: nat)
    requires Within(indices, |nodes|) && n <= |indices|
    ensures forall i :: 0 <= i < |nodes| ==> LinkOf(ClearedAt(nodes, indices, w, n)[i]) == LinkOf(nodes[i])
  {
    if n > 0 {
      ClearedKeeps(nodes, indices, w, n - 1);
    }
  }

  lemma {:induction false} NothingUndone(config: Config, nodes: seq<Node>, w: World)
    ensures Undone(config, nodes, [], w) == nodes
  {
  }

  lemma {:induction false} InNotReset(w: World, n: nat, i: nat)
    ensures i in NotReset(w, n) <==> i < n && w.resets(i) != Done
  {
    if n > 0 {
      InNotReset(w, n - 1, i);
    }
  }

  lemma {:induction false} NotResetIs(w: World, n: nat)
    ensures NotReset(w, n) == [] <==> AllDone(w.resets, n)
  {
    forall i: nat | i < n ensures i in NotReset(w, n) <==> w.resets(i) != Done {
      InNotReset(w, n, i);
    }
    if NotReset(w, n) != [] {
      InNotReset(w, n, NotReset(w, n)[0]);
    }
  }
}
