/** One run of a power action over some nodes, each tried over its transports
    in turn (internal/cli/bmcpower.go). What a processor, the IPMI backend or
    the administrator's interrupt answers is any value of `Env`. */
module PowerRun {
  import opened Options
  import opened Text

  datatype Transport = Redfish | IPMI

  datatype Action = Status | On | Off | Soft | Reset | Cycle | Unknown(name: string)

  /** The exit code an error carries. */
  datatype Code = TargetFailed | Usage | TransportFailed | Interrupted

  /** An error: its code, its text, and what kinds of error it wraps. */
  datatype Failure = Failure(code: Code, text: string, dns: bool, dial: bool, pinMismatch: bool, pinStore: bool)

  function Plainly(code: Code, text: string): Failure {
    Failure(code, text, false, false, false, false)
  }

  const NOT_SENT := Plainly(Interrupted, "not sent: the command was interrupted first")

  /** How far the request to a processor got. */
  datatype Outcome = Sent | NotTried | NotSent

  /** What is reported of one node. */
  datatype Row = Row(node: string, bmc: string, via: Transport, state: string, err: Option<Failure>, outcome: Outcome)

  // ----- decisions -----

  /** `neverSent`: the error proves that a Redfish request never reached the
      processor. */
  predicate NeverSent(f: Failure) {
    f.dns || f.pinMismatch || f.pinStore || f.dial
  }

  /** `mayFallBack`. */
  predicate MayFallBack(action: Action, transport: Transport, f: Failure) {
    if f.code == Interrupted || f.code == Usage then false
    else if f.pinMismatch then false
    else if action == Status then true
    else transport == Redfish && NeverSent(f)
  }

  function Title(t: Transport): string {
    if t == IPMI then "IPMI" else "Redfish"
  }

  /** `resetTypeFor`. */
  function ResetType(action: Action): Option<string> {
    match action
    case On => Some("On")
    case Off => Some("ForceOff")
    case Soft => Some("GracefulShutdown")
    case Reset => Some("ForceRestart")
    case Cycle => Some("PowerCycle")
    case _ => None
  }

  const NO_RESET_TYPE := Plainly(Usage, "the power action has no Redfish reset type")

  function InterruptedState(action: Action): string {
    if action == Status then "interrupted" else "outcome unknown"
  }

  // ----- the plan and the environment -----

  datatype Plan = Plan(bmc: map<string, string>, order: map<string, seq<Transport>>, credential: map<string, string>)

  /** What a processor answered a Redfish request. */
  datatype Reply = Unsent | Replied(state: string) | Broke(failure: Failure)

  /** What the IPMI backend said of one processor. */
  datatype Said = Said(bmc: string, state: string, err: Option<Failure>)

  /** What came of the backend's run for one account. */
  datatype PowerReply =
    | Unstarted
    | RunBroke(failure: Failure, told: map<string, Said>)
    | Reported(statuses: seq<Said>)

  /** Everything a run asks of the world, at each step. */
  datatype Env = Env(
    client: (nat, string) -> Option<Failure>,
    redfish: (nat, string) -> Reply,
    backend: (nat, string) -> Option<Failure>,
    power: (nat, string) -> PowerReply,
    panic: (nat, Transport) -> Option<string>,
    ended: (nat, string) -> bool,
    /** Whether what is sent for a node at a step gets to its processor, which
        the program does not see. */
    delivered: (nat, string) -> bool)

  /** The backend answers once for each processor. */
  predicate DistinctProcessors(statuses: seq<Said>) {
    forall i, j :: 0 <= i < j < |statuses| ==> statuses[i].bmc != statuses[j].bmc
  }

  ghost predicate Backend(env: Env) {
    forall step, account :: env.power(step, account).Reported? ==> DistinctProcessors(env.power(step, account).statuses)
  }

  predicate Planned(plan: Plan, node: string) {
    && node in plan.bmc && node in plan.credential
    && node in plan.order && plan.order[node] != []
  }

  // ----- what one node is answered over one transport -----

  function WithState(state: string, f: Failure, action: Action): string {
    if f.code == Interrupted then InterruptedState(action) else state
  }

  function RedfishRow(plan: Plan, env: Env, action: Action, step: nat, node: string): Row
    requires Planned(plan, node)
  {
    var row := Row(node, plan.bmc[node], Redfish, "", None, Sent);
    match env.client(step, node)
    case Some(f) => row.(err := Some(f))
    case None =>
      if action != Status && ResetType(action).None? then row.(err := Some(NO_RESET_TYPE))
      else
        match env.redfish(step, node)
        case Unsent => row.(state := "not sent", err := Some(NOT_SENT), outcome := NotSent)
        case Broke(f) => row.(state := WithState("", f, action), err := Some(f))
        case Replied(state) =>
          row.(state := if action == Status then state else ResetType(action).value + " sent")
  }

  /** `ipmiRow`. */
  function SaidRow(action: Action, node: string, s: Said): Row {
    match s.err
    case None => Row(node, s.bmc, IPMI, s.state, None, Sent)
    case Some(f) => Row(node, s.bmc, IPMI, WithState(s.state, f, action), Some(f), Sent)
  }

  function IpmiFailed(plan: Plan, node: string, f: Failure, outcome: Outcome, state: string): Row
    requires Planned(plan, node)
  {
    Row(node, plan.bmc[node], IPMI, state, Some(f), outcome)
  }

  const NO_ANSWER := Plainly(TargetFailed, "the IPMI backend returned no answer for it")

  function StatusFor(statuses: seq<Said>, bmc: string): Option<Said> {
    if statuses == [] then None
    else if statuses[0].bmc == bmc then Some(statuses[0])
    else StatusFor(statuses[1..], bmc)
  }

  /** What the run of its account answers for one node. */
  function AccountRow(plan: Plan, action: Action, node: string, reply: PowerReply): Row
    requires Planned(plan, node)
  {
    match reply
    case Unstarted => IpmiFailed(plan, node, NOT_SENT, NotSent, "not sent")
    case RunBroke(f, told) =>
      if plan.bmc[node] in told then SaidRow(action, node, told[plan.bmc[node]])
      else IpmiFailed(plan, node, f, Sent, WithState("", f, action))
    case Reported(statuses) =>
      match StatusFor(statuses, plan.bmc[node])
      case Some(s) => SaidRow(action, node, s)
      case None => IpmiFailed(plan, node, NO_ANSWER, Sent, "unknown")
  }

  function IpmiRow(plan: Plan, env: Env, action: Action, step: nat, node: string): Row
    requires Planned(plan, node)
  {
    var account := plan.credential[node];
    if env.power(step, account).Unstarted? then AccountRow(plan, action, node, Unstarted)
    else
      match env.backend(step, account)
      case Some(f) => IpmiFailed(plan, node, f, Sent, "")
      case None => AccountRow(plan, action, node, env.power(step, account))
  }

  /** A panic in a transport's run is the failure of each of its nodes. */
  function PanicRow(plan: Plan, transport: Transport, node: string, text: string): Row
    requires Planned(plan, node)
  {
    Row(node, plan.bmc[node], transport, "", Some(Plainly(TargetFailed, text)), Sent)
  }

  function AnswerOf(plan: Plan, env: Env, action: Action, step: nat, node: string): Row
    requires Planned(plan, node) && step < |plan.order[node]|
  {
    var transport := plan.order[node][step];
    match env.panic(step, transport)
    case Some(text) => PanicRow(plan, transport, node, text)
    case None =>
      if transport == Redfish then RedfishRow(plan, env, action, step, node)
      else IpmiRow(plan, env, action, step, node)
  }

  // ----- settling one node -----

  /** A failure carries the failure over the transport before. */
  function Settled(row: Row, earlier: Option<Row>): Row {
    if earlier.Some? && row.err.Some? && earlier.value.err.Some? then
      var text := row.err.value.text + "; before that, " + Title(earlier.value.via) + " failed: "
                  + earlier.value.err.value.text;
      row.(err := Some(row.err.value.(text := text)))
    else row
  }

  /** Whether the node is to be tried over its next transport. */
  predicate Again(plan: Plan, env: Env, action: Action, step: nat, transport: Transport, row: Row)
    requires row.node in plan.order
  {
    && row.err.Some?
    && step + 1 < |plan.order[row.node]|
    && MayFallBack(action, transport, row.err.value)
    && !env.ended(step, row.node)
  }

  /** The row of a node at a step, given the one before. */
  function StepRow(plan: Plan, env: Env, action: Action, step: nat, node: string, earlier: Option<Row>): (row: Row)
    requires Planned(plan, node) && step < |plan.order[node]|
    ensures row.node == node && row.via == plan.order[node][step]
  {
    AnswerIsOfNode(plan, env, action, step, node);
    Settled(AnswerOf(plan, env, action, step, node), earlier)
  }

  /** Whether the node is tried again after that. */
  predicate Retried(plan: Plan, env: Env, action: Action, step: nat, node: string, earlier: Option<Row>)
    requires Planned(plan, node) && step < |plan.order[node]|
  {
    Again(plan, env, action, step, plan.order[node][step], StepRow(plan, env, action, step, node, earlier))
  }

  /** The rows of one node on its own, from a step on: the specification of a
      run, node by node. */
  function Chain(plan: Plan, env: Env, action: Action, node: string, step: nat, earlier: Option<Row>): (rows: seq<Row>)
    requires Planned(plan, node) && step < |plan.order[node]|
    ensures rows != [] && step + |rows| <= |plan.order[node]|
    decreases |plan.order[node]| - step
  {
    var row := StepRow(plan, env, action, step, node, earlier);
    if Retried(plan, env, action, step, node, earlier)
    then [row] + Chain(plan, env, action, node, step + 1, Some(row))
    else [row]
  }

  function NodeRun(plan: Plan, env: Env, action: Action, node: string): seq<Row>
    requires Planned(plan, node)
  {
    Chain(plan, env, action, node, 0, None)
  }

  // ----- what holds of each node's run -----

  lemma {:induction false} AnswerIsOfNode(plan: Plan, env: Env, action: Action, step: nat, node: string)
    requires Planned(plan, node) && step < |plan.order[node]|
    ensures AnswerOf(plan, env, action, step, node).node == node
    ensures AnswerOf(plan, env, action, step, node).via == plan.order[node][step]
  {
  }

  /** The failures that come before the request is written: the name did not
      resolve, nothing accepted the connection, or the certificate presented was
      another one or could not be compared. */
  predicate BeforeWriting(reply: Reply) {
    reply.Broke? && (reply.failure.dns || reply.failure.dial || reply.failure.pinMismatch || reply.failure.pinStore)
  }

  /** After such a failure the processor has nothing. Any other may have come
      before or after the request got there. */
  ghost predicate Truthful(env: Env) {
    forall step, node :: env.panic(step, Redfish).None? && BeforeWriting(env.redfish(step, node)) ==>
                           !env.delivered(step, node)
  }

  /** Something is sent for a node at a step: over Redfish it has a client, the
      action has a request, and no interrupt came first; over IPMI its account
      has a backend whose run was started. A panic may have come after. */
  ghost predicate Sends(plan: Plan, env: Env, action: Action, step: nat, node: string)
    requires Planned(plan, node) && step < |plan.order[node]|
  {
    var transport, account := plan.order[node][step], plan.credential[node];
    || env.panic(step, transport).Some?
    || (transport == Redfish && env.client(step, node).None? && !action.Unknown? && env.redfish(step, node) != Unsent)
    || (transport == IPMI && env.power(step, account) != Unstarted && env.backend(step, account).None?)
  }

  /** The request of a step got to the node's processor. */
  ghost predicate Reached(plan: Plan, env: Env, action: Action, step: nat, node: string)
    requires Planned(plan, node) && step < |plan.order[node]|
  {
    Sends(plan, env, action, step, node) && env.delivered(step, node)
  }

  /** An action is tried again only where its request did not get to the processor. */
  lemma {:induction false} FallBackOnlyUnreached(plan: Plan, env: Env, action: Action, step: nat, node: string,
                                                 earlier: Option<Row>)
    requires Planned(plan, node) && step < |plan.order[node]| && action != Status && Truthful(env)
    requires Retried(plan, env, action, step, node, earlier)
    ensures !Reached(plan, env, action, step, node)
  {
    if Sends(plan, env, action, step, node) {
      assert BeforeWriting(env.redfish(step, node));
    }
  }

  /** A node has a next transport, and no interrupt keeps it from being tried. */
  predicate HasNext(plan: Plan, env: Env, step: nat, node: string)
    requires Planned(plan, node) && step < |plan.order[node]|
  {
    step + 1 < |plan.order[node]| && !env.ended(step, node)
  }

  /** A failure over Redfish after which a node is tried over its next transport:
      no interrupt, no usage error and no other certificate; and for an action,
      one before the request was written. */
  predicate MayLeaveRedfish(action: Action, f: Failure) {
    && f.code != Interrupted && f.code != Usage && !f.pinMismatch
    && (action == Status || f.dns || f.dial || f.pinStore)
  }

  /** Of a request over Redfish, and of a node without a client for one: tried
      again exactly after such a failure, and after no answer. */
  lemma {:induction false} RetriedAfterRedfish(plan: Plan, env: Env, action: Action, step: nat, node: string,
                                               earlier: Option<Row>)
    requires Planned(plan, node) && step < |plan.order[node]|
    requires plan.order[node][step] == Redfish && env.panic(step, Redfish).None?
    ensures Retried(plan, env, action, step, node, earlier) <==>
            && HasNext(plan, env, step, node)
            && match env.client(step, node)
               case Some(f) => MayLeaveRedfish(action, f)
               case None => !action.Unknown? && env.redfish(step, node).Broke?
                            && MayLeaveRedfish(action, env.redfish(step, node).failure)
  {
  }

  /** A failure over IPMI after which a state is read over the next transport. */
  predicate MayLeaveIpmi(f: Failure) {
    f.code != Interrupted && f.code != Usage && !f.pinMismatch
  }

  /** What the backend says of a node's processor is a failure to leave IPMI
      after. No answer for it is one. */
  predicate FailedOverIpmi(reply: PowerReply, bmc: string) {
    match reply
    case Unstarted => false
    case RunBroke(f, told) =>
      if bmc in told then told[bmc].err.Some? && MayLeaveIpmi(told[bmc].err.value) else MayLeaveIpmi(f)
    case Reported(statuses) =>
      forall i :: 0 <= i < |statuses| && statuses[i].bmc == bmc ==>
                    statuses[i].err.Some? && MayLeaveIpmi(statuses[i].err.value)
  }

  lemma {:induction false} StatusForIs(statuses: seq<Said>, bmc: string)
    ensures match StatusFor(statuses, bmc)
            case Some(s) => s.bmc == bmc && s in statuses
            case None => forall i :: 0 <= i < |statuses| ==> statuses[i].bmc != bmc
  {
    if statuses != [] && statuses[0].bmc != bmc {
      StatusForIs(statuses[1..], bmc);
    }
  }

  /** After IPMI no action is ever tried again; a state is, exactly after such a
      failure. */
  lemma {:induction false} RetriedAfterIpmi(plan: Plan, env: Env, action: Action, step: nat, node: string,
                                            earlier: Option<Row>)
    requires Planned(plan, node) && step < |plan.order[node]| && Backend(env)
    requires plan.order[node][step] == IPMI && env.panic(step, IPMI).None?
    ensures var account := plan.credential[node];
            Retried(plan, env, action, step, node, earlier) <==>
            && action == Status && HasNext(plan, env, step, node) && env.power(step, account) != Unstarted
            && match env.backend(step, account)
               case Some(f) => MayLeaveIpmi(f)
               case None => FailedOverIpmi(env.power(step, account), plan.bmc[node])
  {
    var reply := env.power(step, plan.credential[node]);
    if reply.Reported? {
      StatusForIs(reply.statuses, plan.bmc[node]);
      assert DistinctProcessors(reply.statuses);
    }
  }

  /** After a panic no action is tried again, and a state is. */
  lemma {:induction false} RetriedAfterPanic(plan: Plan, env: Env, action: Action, step: nat, node: string,
                                             earlier: Option<Row>)
    requires Planned(plan, node) && step < |plan.order[node]| && env.panic(step, plan.order[node][step]).Some?
    ensures Retried(plan, env, action, step, node, earlier) <==> action == Status && HasNext(plan, env, step, node)
  {
  }

  /** Over Redfish a node is said not to have been sent its request exactly when an
      interrupt came first, and to have no failure exactly when its processor
      answered. */
  lemma {:induction false} RedfishRowIsTrue(plan: Plan, env: Env, action: Action, step: nat, node: string,
                                            earlier: Option<Row>)
    requires Planned(plan, node) && step < |plan.order[node]|
    requires plan.order[node][step] == Redfish && env.panic(step, Redfish).None?
    ensures var row, reply := StepRow(plan, env, action, step, node, earlier), env.redfish(step, node);
            var asked := env.client(step, node).None? && !action.Unknown?;
            && (Sends(plan, env, action, step, node) <==> asked && reply != Unsent)
            && (row.outcome == NotSent <==> asked && reply == Unsent)
            && (row.err == None <==> asked && reply.Replied?)
  {
  }

  /** The state is what the processor answered, or what was sent; of a request cut short
      by an interrupt, that the state is not known, or that an action may or may not
      have been carried out. */
  lemma {:induction false} RedfishStateIsTold(plan: Plan, env: Env, action: Action, step: nat, node: string,
                                              earlier: Option<Row>)
    requires Planned(plan, node) && step < |plan.order[node]|
    requires plan.order[node][step] == Redfish && env.panic(step, Redfish).None?
    ensures StepRow(plan, env, action, step, node, earlier).state
            == if env.client(step, node).Some? || action.Unknown? then ""
               else match env.redfish(step, node)
                    case Unsent => "not sent"
                    case Replied(state) => if action == Status then state else SentText(action)
                    case Broke(f) =>
                      if f.code != Interrupted then ""
                      else if action == Status then "interrupted" else "outcome unknown"
  {
  }

  function SentText(action: Action): string {
    match action
    case On => "On sent"
    case Off => "ForceOff sent"
    case Soft => "GracefulShutdown sent"
    case Reset => "ForceRestart sent"
    case Cycle => "PowerCycle sent"
    case _ => ""
  }

  /** Over IPMI a node is said not to have been sent its request exactly when the run
      of its account was not started, and to have no failure only by what the backend
      told of its own processor. */
  lemma {:induction false} IpmiRowIsTrue(plan: Plan, env: Env, action: Action, step: nat, node: string, earlier: Option<Row>)
    requires Planned(plan, node) && step < |plan.order[node]|
    requires plan.order[node][step] == IPMI && env.panic(step, IPMI).None?
    ensures var row, power := StepRow(plan, env, action, step, node, earlier), env.power(step, plan.credential[node]);
            && (row.outcome == NotSent <==> power == Unstarted)
            && (row.outcome == NotSent ==> row.state == "not sent" && !Sends(plan, env, action, step, node))
            && (row.err == None ==>
                  && Sends(plan, env, action, step, node)
                  && (|| (power.Reported? && Said(plan.bmc[node], row.state, None) in power.statuses)
                      || (power.RunBroke? && plan.bmc[node] in power.told
                          && power.told[plan.bmc[node]].err == None && power.told[plan.bmc[node]].state == row.state)))
            && (Sends(plan, env, action, step, node) && row.err.Some? && row.err.value.code == Interrupted ==>
                  row.state == if action == Status then "interrupted" else "outcome unknown")
  {
    var power := env.power(step, plan.credential[node]);
    if power.Reported? {
      StatusForIs(power.statuses, plan.bmc[node]);
    }
  }

  /** Of a node the backend answered for, the state is the one it told; of one it did
      not, that it is unknown. */
  lemma {:induction false} IpmiStateIsTold(plan: Plan, env: Env, action: Action, step: nat, node: string, earlier: Option<Row>)
    requires Planned(plan, node) && step < |plan.order[node]|
    requires plan.order[node][step] == IPMI && env.panic(step, IPMI).None?
    requires env.backend(step, plan.credential[node]).None? && env.power(step, plan.credential[node]).Reported?
    ensures var row, statuses := StepRow(plan, env, action, step, node, earlier), env.power(step, plan.credential[node]).statuses;
            || (row.err.Some? && row.err.value.code == Interrupted)
            || (exists s :: s in statuses && s.bmc == plan.bmc[node] && row.state == s.state)
            || (row.state == "unknown" && forall s :: s in statuses ==> s.bmc != plan.bmc[node])
  {
    var statuses := env.power(step, plan.credential[node]).statuses;
    StatusForIs(statuses, plan.bmc[node]);
  }

  /** A failure names the failure over the transport before, and is otherwise the
      answer of its step. */
  lemma {:induction false} FailureCarriesEarlier(plan: Plan, env: Env, action: Action, step: nat, node: string, earlier: Row)
    requires Planned(plan, node) && step < |plan.order[node]| && earlier.err.Some?
    ensures var answer, row := AnswerOf(plan, env, action, step, node), StepRow(plan, env, action, step, node, Some(earlier));
            if answer.err == None then row == answer
            else
              && row.err.Some? && row == answer.(err := row.err)
              && row.err.value == answer.err.value.(text := row.err.value.text)
              && row.err.value.text == answer.err.value.text + "; before that, "
                                       + (if earlier.via == Redfish then "Redfish" else "IPMI") + " failed: "
                                       + earlier.err.value.text
  {
  }

  // ----- what an action does, over either transport -----

  /** What becomes of a machine: whether it runs afterwards, and whether on the
      way its operating system is asked to stop, its power is cut, and it starts
      anew. */
  datatype Effect = Effect(runs: bool, asked: bool, cut: bool, anew: bool)

  /** The chassis control command of an action: power up, power down, soft
      shutdown, hard reset and power cycle (IPMI 2.0, section 28.3). */
  function ChassisControl(action: Action): Effect
    requires action != Status && !action.Unknown?
  {
    match action
    case On => Effect(true, false, false, false)
    case Off => Effect(false, false, true, false)
    case Soft => Effect(false, true, false, false)
    case Reset => Effect(true, false, false, true)
    case Cycle => Effect(true, false, true, true)
  }

  /** The values of ResetType (DMTF DSP0268, Resource). */
  const RESET_TYPES := map[
    "On" := Effect(true, false, false, false),
    "ForceOff" := Effect(false, false, true, false),
    "GracefulShutdown" := Effect(false, true, false, false),
    "ForceRestart" := Effect(true, false, false, true),
    "PowerCycle" := Effect(true, false, true, true)
  ]

  /** An action does over Redfish what it does over IPMI, so a node that falls
      back is not treated otherwise; reading the state and an unknown action have
      no request. */
  lemma {:induction false} SameOverBoth(action: Action)
    ensures ResetType(action).Some? <==> action != Status && !action.Unknown?
    ensures ResetType(action).Some? ==>
              ResetType(action).value in RESET_TYPES && RESET_TYPES[ResetType(action).value] == ChassisControl(action)
  {
  }

  lemma {:induction false} ChainTail(plan: Plan, env: Env, action: Action, node: string, step: nat, earlier: Option<Row>)
    requires Planned(plan, node) && step < |plan.order[node]|
    requires Retried(plan, env, action, step, node, earlier)
    ensures var row := StepRow(plan, env, action, step, node, earlier);
            var rows := Chain(plan, env, action, node, step, earlier);
            var tail := Chain(plan, env, action, node, step + 1, Some(row));
            rows == [row] + tail && rows[0] == row && forall i :: 0 < i < |rows| ==> rows[i] == tail[i - 1]
  {
  }

  /** The transports are tried in their order, one row each, no further than
      the order goes. */
  lemma {:induction false} ChainFollowsOrder(plan: Plan, env: Env, action: Action, node: string, step: nat,
                                             earlier: Option<Row>)
    requires Planned(plan, node) && step < |plan.order[node]|
    ensures var rows := Chain(plan, env, action, node, step, earlier);
            forall i :: 0 <= i < |rows| ==> rows[i].node == node && rows[i].via == plan.order[node][step + i]
    decreases |plan.order[node]| - step
  {
    var row := StepRow(plan, env, action, step, node, earlier);
    if Retried(plan, env, action, step, node, earlier) {
      ChainFollowsOrder(plan, env, action, node, step + 1, Some(row));
      ChainTail(plan, env, action, node, step, earlier);
    }
  }

  /** Of an action other than reading the state, only the last request of a
      node gets to its processor, so at most one does. */
  lemma {:induction false} AtMostOneReached(plan: Plan, env: Env, action: Action, node: string, step: nat,
                                            earlier: Option<Row>)
    requires Planned(plan, node) && step < |plan.order[node]| && action != Status && Truthful(env)
    ensures var rows := Chain(plan, env, action, node, step, earlier);
            forall k :: step <= k < step + |rows| - 1 ==> !Reached(plan, env, action, k, node)
    decreases |plan.order[node]| - step
  {
    var row := StepRow(plan, env, action, step, node, earlier);
    if Retried(plan, env, action, step, node, earlier) {
      FallBackOnlyUnreached(plan, env, action, step, node, earlier);
      AtMostOneReached(plan, env, action, node, step + 1, Some(row));
      ChainTail(plan, env, action, node, step, earlier);
    }
  }

  /** After another certificate than the one recorded, after an interrupt and
      after a usage error, nothing more is sent for the node. */
  lemma {:induction false} NothingAfterRefusal(plan: Plan, env: Env, action: Action, node: string, step: nat,
                                               earlier: Option<Row>)
    requires Planned(plan, node) && step < |plan.order[node]|
    ensures var rows := Chain(plan, env, action, node, step, earlier);
            forall i :: 0 <= i < |rows| - 1 ==>
                          && rows[i].err.Some?
                          && !rows[i].err.value.pinMismatch
                          && rows[i].err.value.code != Interrupted && rows[i].err.value.code != Usage
    decreases |plan.order[node]| - step
  {
    var row := StepRow(plan, env, action, step, node, earlier);
    if Retried(plan, env, action, step, node, earlier) {
      NothingAfterRefusal(plan, env, action, node, step + 1, Some(row));
      ChainTail(plan, env, action, node, step, earlier);
    }
  }

  /** Why no transport is tried after the one at a step: an answer, the end of the
      order, an interrupt, or a failure that may not be tried again. */
  predicate Final(plan: Plan, env: Env, action: Action, node: string, step: nat, row: Row)
    requires Planned(plan, node) && step < |plan.order[node]|
  {
    || row.err.None?
    || step == |plan.order[node]| - 1
    || env.ended(step, node)
    || !MayFallBack(action, plan.order[node][step], row.err.value)
  }

  /** A node's run ends for such a reason: no retry is left out. */
  lemma {:induction false} EndsForAReason(plan: Plan, env: Env, action: Action, node: string, step: nat,
                                          earlier: Option<Row>)
    requires Planned(plan, node) && step < |plan.order[node]|
    ensures var rows := Chain(plan, env, action, node, step, earlier);
            Final(plan, env, action, node, step + |rows| - 1, rows[|rows| - 1])
    decreases |plan.order[node]| - step
  {
    var row := StepRow(plan, env, action, step, node, earlier);
    if Retried(plan, env, action, step, node, earlier) {
      EndsForAReason(plan, env, action, node, step + 1, Some(row));
      LastOfChain(plan, env, action, node, step, earlier);
    } else {
      ChainEnds(plan, env, action, node, step, earlier);
    }
  }

  lemma {:induction false} ChainEnds(plan: Plan, env: Env, action: Action, node: string, step: nat, earlier: Option<Row>)
    requires Planned(plan, node) && step < |plan.order[node]| && !Retried(plan, env, action, step, node, earlier)
    ensures Chain(plan, env, action, node, step, earlier) == [StepRow(plan, env, action, step, node, earlier)]
    ensures Final(plan, env, action, node, step, StepRow(plan, env, action, step, node, earlier))
  {
  }

  lemma {:induction false} LastOfChain(plan: Plan, env: Env, action: Action, node: string, step: nat, earlier: Option<Row>)
    requires Planned(plan, node) && step < |plan.order[node]| && Retried(plan, env, action, step, node, earlier)
    ensures var rows := Chain(plan, env, action, node, step, earlier);
            var tail := Chain(plan, env, action, node, step + 1, Some(StepRow(plan, env, action, step, node, earlier)));
            rows[|rows| - 1] == tail[|tail| - 1] && step + |rows| - 1 == step + 1 + |tail| - 1
  {
  }

  // ----- a node's run, row by row -----

  /** The row before the one at a step. */
  function Before(rows: seq<Row>, step: nat): Option<Row>
    requires step <= |rows|
  {
    if step == 0 then None else Some(rows[step - 1])
  }

  /** Row `step` is the answer at that step, settled after the row before; there
      is a next one exactly when the node is to be tried again. */
  ghost predicate RowFollows(plan: Plan, env: Env, action: Action, node: string, rows: seq<Row>, step: nat, answer: Row)
    requires Planned(plan, node) && step < |rows| <= |plan.order[node]|
  {
    && answer.node == node
    && rows[step] == Settled(answer, Before(rows, step))
    && (step + 1 < |rows| <==> Again(plan, env, action, step, plan.order[node][step], rows[step]))
  }

  lemma {:induction false} ChainRow(plan: Plan, env: Env, action: Action, node: string, step: nat, earlier: Option<Row>,
                                    front: seq<Row>, k: nat)
    requires Planned(plan, node) && step < |plan.order[node]|
    requires |front| == step && earlier == Before(front, step)
    requires step <= k < step + |Chain(plan, env, action, node, step, earlier)|
    ensures var rows := front + Chain(plan, env, action, node, step, earlier);
            RowFollows(plan, env, action, node, rows, k, AnswerOf(plan, env, action, k, node))
    decreases |plan.order[node]| - step
  {
    AnswerIsOfNode(plan, env, action, step, node);
    var row := StepRow(plan, env, action, step, node, earlier);
    var tail := Chain(plan, env, action, node, step, earlier);
    var rows := front + tail;
    assert tail[0] == row;
    if k == step {
      assert rows[step] == row && Before(rows, step) == earlier;
    } else {
      assert Retried(plan, env, action, step, node, earlier);
      ChainRow(plan, env, action, node, step + 1, Some(row), front + [row], k);
      Assoc(front, [row], Chain(plan, env, action, node, step + 1, Some(row)));
    }
  }

  /** The rows of a node's own run, one after another. */
  lemma {:induction false} NodeRunRow(plan: Plan, env: Env, action: Action, node: string, k: nat)
    requires Planned(plan, node) && k < |NodeRun(plan, env, action, node)|
    ensures |NodeRun(plan, env, action, node)| <= |plan.order[node]|
    ensures RowFollows(plan, env, action, node, NodeRun(plan, env, action, node), k, AnswerOf(plan, env, action, k, node))
  {
    ChainRow(plan, env, action, node, 0, None, [], k);
    assert [] + NodeRun(plan, env, action, node) == NodeRun(plan, env, action, node);
  }
}
