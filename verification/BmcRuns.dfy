/** A power action carried out over all its nodes together, and that each node
    fares as it would alone (internal/cli/bmcpower.go). */
module BmcRuns {
  import opened Options
  import opened Text
  import opened PowerRun
  import opened PowerLoop

  type Results = map<string, Row>

  type History = map<string, seq<Row>>

  function Longest(plan: Plan, names: seq<string>): nat
    requires AllPlanned(plan, names)
  {
    if names == [] then 0
    else
      var n, rest := |plan.order[names[0]]|, Longest(plan, names[1..]);
      if n > rest then n else rest
  }

  lemma {:induction false} LongestBounds(plan: Plan, names: seq<string>, n: string)
    requires AllPlanned(plan, names) && n in names
    ensures |plan.order[n]| <= Longest(plan, names)
  {
    if n != names[0] {
      LongestBounds(plan, names[1..], n);
    }
  }

  /** The rows each node has on its own. */
  ghost predicate OnTheirOwn(plan: Plan, names: seq<string>, alone: History) {
    && AllPlanned(plan, names)
    && forall n :: n in names ==> n in alone && 0 < |alone[n]| <= |plan.order[n]|
  }

  /** At a step, the expected answers are those of the nodes' own runs. */
  ghost predicate AnswersFollow(plan: Plan, env: Env, action: Action, step: nat, nodes: seq<string>,
                                alone: History, expected: Results)
    requires OnTheirOwn(plan, nodes, alone)
  {
    forall n :: n in nodes ==> n in expected && step < |alone[n]|
                               && RowFollows(plan, env, action, n, alone[n], step, expected[n])
  }

  ghost function Alone(plan: Plan, env: Env, action: Action, names: seq<string>): map<string, seq<Row>>
    requires AllPlanned(plan, names)
  {
    map n | n in names :: NodeRun(plan, env, action, n)
  }

  lemma {:induction false} AloneFollows(plan: Plan, env: Env, action: Action, step: nat, names: seq<string>,
                                        nodes: seq<string>)
    requires AllPlanned(plan, names) && AllPlanned(plan, nodes) && forall n :: n in nodes ==> n in names
    requires forall n :: n in nodes ==> step < |Alone(plan, env, action, names)[n]| && step < |plan.order[n]|
    ensures OnTheirOwn(plan, nodes, Alone(plan, env, action, names))
    ensures AnswersFollow(plan, env, action, step, nodes, Alone(plan, env, action, names),
                          ExpectedOver(plan, env, action, step, nodes))
  {
    forall n | n in nodes
      ensures |NodeRun(plan, env, action, n)| <= |plan.order[n]|
      ensures RowFollows(plan, env, action, n, NodeRun(plan, env, action, n), step, AnswerOf(plan, env, action, step, n))
    {
      NodeRunRow(plan, env, action, n, step);
    }
  }

  function Latest(results: Results, n: string): Option<Row> {
    if n in results then Some(results[n]) else None
  }

  function TriedOf(tried: History, n: string): seq<Row> {
    if n in tried then tried[n] else []
  }

  /** A node has the first k rows of its own run, and more to come. */
  ghost predicate HasRows(results: Results, tried: History, alone: History, k: nat, n: string) {
    && n in alone && k < |alone[n]|
    && TriedOf(tried, n) == alone[n][..k] && Latest(results, n) == Before(alone[n], k)
  }

  /** A node has all the rows of its own run. */
  ghost predicate HasAll(results: Results, tried: History, alone: History, n: string) {
    && n in alone && alone[n] != [] && n in tried && tried[n] == alone[n]
    && n in results && results[n] == alone[n][|alone[n]| - 1]
  }

  /** Nothing was recorded of a node. */
  ghost predicate Untouched(results: Results, tried: History, results': Results, tried': History, n: string) {
    && Latest(results', n) == Latest(results, n)
    && (n in tried' <==> n in tried) && (n in tried ==> tried'[n] == tried[n])
  }

  ghost predicate Upto(results: Results, tried: History, nodes: set<string>, alone: History, k: nat) {
    forall n :: n in nodes ==> HasRows(results, tried, alone, k, n)
  }

  ghost predicate Complete(results: Results, tried: History, nodes: set<string>, alone: History) {
    forall n :: n in nodes ==> HasAll(results, tried, alone, n)
  }

  ghost predicate SameBut(results: Results, tried: History, results': Results, tried': History, changed: set<string>) {
    forall n :: n !in changed ==> Untouched(results, tried, results', tried', n)
  }

  lemma {:induction false} UptoElsewhere(results: Results, tried: History, results': Results, tried': History,
                                         changed: set<string>, nodes: set<string>, alone: History, k: nat)
    requires Upto(results, tried, nodes, alone, k) && SameBut(results, tried, results', tried', changed)
    requires nodes !! changed
    ensures Upto(results', tried', nodes, alone, k)
  {
  }

  lemma {:induction false} CompleteElsewhere(results: Results, tried: History, results': Results, tried': History,
                                             changed: set<string>, nodes: set<string>, alone: History)
    requires Complete(results, tried, nodes, alone) && SameBut(results, tried, results', tried', changed)
    requires nodes !! changed
    ensures Complete(results', tried', nodes, alone)
  {
    forall n | n in nodes ensures n in results' && results'[n] == results[n] {
      assert Latest(results', n) == Latest(results, n);
    }
  }

  lemma {:induction false} SameTwice(r0: Results, t0: History, r1: Results, t1: History, r2: Results, t2: History,
                                     a: set<string>, b: set<string>)
    requires SameBut(r0, t0, r1, t1, a) && SameBut(r1, t1, r2, t2, b)
    ensures SameBut(r0, t0, r2, t2, a + b)
  {
  }

  lemma {:induction false} BothSettled(r0: Results, t0: History, r1: Results, t1: History, r2: Results, t2: History,
                                       redfish: set<string>, ipmi: set<string>, first: set<string>, second: set<string>,
                                       alone: History, step: nat)
    requires SameBut(r0, t0, r1, t1, redfish) && SameBut(r1, t1, r2, t2, ipmi)
    requires first <= redfish && second <= ipmi && redfish !! ipmi
    requires Upto(r1, t1, first, alone, step + 1) && Complete(r1, t1, redfish - first, alone)
    requires Upto(r2, t2, second, alone, step + 1) && Complete(r2, t2, ipmi - second, alone)
    ensures SameBut(r0, t0, r2, t2, redfish + ipmi)
    ensures Upto(r2, t2, first + second, alone, step + 1)
    ensures Complete(r2, t2, (redfish - first) + (ipmi - second), alone)
  {
    UptoElsewhere(r1, t1, r2, t2, ipmi, first, alone, step + 1);
    CompleteElsewhere(r1, t1, r2, t2, ipmi, redfish - first, alone);
    SameTwice(r0, t0, r1, t1, r2, t2, redfish, ipmi);
  }

  /** Of some nodes, those that are to be tried again have the first rows of their own
      runs, the others have them all, and nothing was recorded of any other node. */
  ghost predicate Tried(r: Results, t: History, r': Results, t': History, nodes: seq<string>, next: seq<string>,
                        alone: History, step: nat) {
    && Distinct(next) && NodesOf(next) <= NodesOf(nodes)
    && Upto(r', t', NodesOf(next), alone, step)
    && Complete(r', t', NodesOf(nodes) - NodesOf(next), alone)
    && SameBut(r, t, r', t', NodesOf(nodes))
  }

  /** Each pending node is of one part. */
  predicate Parted(redfish: seq<string>, ipmi: seq<string>, pending: seq<string>) {
    && NodesOf(redfish) !! NodesOf(ipmi) && NodesOf(redfish) + NodesOf(ipmi) == NodesOf(pending)
    && NodesOf(redfish) <= NodesOf(pending) && NodesOf(ipmi) <= NodesOf(pending)
  }

  lemma {:induction false} TriedTogether(r0: Results, t0: History, r1: Results, t1: History, r2: Results, t2: History,
                                         redfish: seq<string>, ipmi: seq<string>, first: seq<string>, second: seq<string>,
                                         next: seq<string>, pending: seq<string>, alone: History, step: nat)
    requires Parted(redfish, ipmi, pending)
    requires Tried(r0, t0, r1, t1, redfish, first, alone, step + 1) && Tried(r1, t1, r2, t2, ipmi, second, alone, step + 1)
    requires next == first + second
    ensures Tried(r0, t0, r2, t2, pending, next, alone, step + 1)
  {
    BothSettled(r0, t0, r1, t1, r2, t2, NodesOf(redfish), NodesOf(ipmi), NodesOf(first), NodesOf(second), alone, step);
    NextTogether(first, second, NodesOf(redfish), NodesOf(ipmi));
  }

  /** What is pending of one part of the nodes stays so while another is tried. */
  lemma {:induction false} OthersPending(r0: Results, t0: History, r1: Results, t1: History, redfish: seq<string>,
                                         ipmi: seq<string>, first: seq<string>, pending: seq<string>, alone: History, step: nat)
    requires Parted(redfish, ipmi, pending)
    requires Upto(r0, t0, NodesOf(pending), alone, step) && Tried(r0, t0, r1, t1, redfish, first, alone, step + 1)
    ensures Upto(r1, t1, NodesOf(ipmi), alone, step)
  {
    UptoElsewhere(r0, t0, r1, t1, NodesOf(redfish), NodesOf(ipmi), alone, step);
  }

  /** Where a run stands: of its nodes some pending, the others complete, and
      nothing recorded of any other node. */
  ghost predicate Standing(results: Results, tried: History, names: set<string>, alone: History, step: nat,
                           pending: set<string>) {
    && Upto(results, tried, pending, alone, step)
    && Complete(results, tried, names - pending, alone)
    && SameBut(map[], map[], results, tried, names)
  }

  lemma {:induction false} StandingNext(r: Results, t: History, r': Results, t': History, names: set<string>, alone: History,
                                        step: nat, pending: set<string>, next: set<string>)
    requires next <= pending <= names
    requires Complete(r, t, names - pending, alone) && SameBut(map[], map[], r, t, names)
    requires SameBut(r, t, r', t', pending)
    requires Upto(r', t', next, alone, step) && Complete(r', t', pending - next, alone)
    ensures Standing(r', t', names, alone, step, next)
  {
    CompleteElsewhere(r, t, r', t', pending, names - pending, alone);
    SameTwice(map[], map[], r, t, r', t', names, pending);
    assert names + pending == names;
    assert names - next == (names - pending) + (pending - next);
  }

  /** The rows are one for each node, in the order given: the last of its own run,
      which is all that was recorded of it. */
  ghost predicate Told(plan: Plan, env: Env, action: Action, names: seq<string>, tried: History, out: seq<Row>)
    requires AllPlanned(plan, names)
  {
    && |out| == |names|
    && (forall i :: 0 <= i < |names| ==>
                      && out[i].node == names[i]
                      && names[i] in tried && tried[names[i]] == NodeRun(plan, env, action, names[i])
                      && tried[names[i]] != [] && out[i] == tried[names[i]][|tried[names[i]]| - 1])
    && (forall n :: n in tried ==> n in names)
  }

  lemma {:induction false} AllTold(plan: Plan, env: Env, action: Action, names: seq<string>, results: Results, tried: History,
                                   alone: History, out: seq<Row>)
    requires AllPlanned(plan, names) && alone == Alone(plan, env, action, names)
    requires Complete(results, tried, NodesOf(names), alone) && SameBut(map[], map[], results, tried, NodesOf(names))
    requires |out| == |names| && forall i :: 0 <= i < |names| ==> names[i] in results && out[i] == results[names[i]]
    ensures Told(plan, env, action, names, tried, out)
  {
    forall i | 0 <= i < |names|
      ensures HasAll(results, tried, alone, names[i]) && alone[names[i]] == NodeRun(plan, env, action, names[i])
    {
      assert names[i] in NodesOf(names);
    }
    forall i | 0 <= i < |names| ensures out[i].node == names[i] {
      LastRowNode(plan, env, action, names[i]);
    }
    forall n | n !in names ensures n !in tried {
      assert n !in NodesOf(names) && Untouched(map[], map[], results, tried, n);
    }
  }

  /** Of the requests a run made for a node, other than to read its state, at most one
      got to the processor. */
  lemma {:induction false} NoneReachedTwice(plan: Plan, env: Env, action: Action, names: seq<string>, tried: History,
                                            out: seq<Row>, i: nat, k: nat, m: nat)
    requires AllPlanned(plan, names) && Told(plan, env, action, names, tried, out)
    requires action != Status && Truthful(env) && i < |names| && k < |tried[names[i]]| && m < |tried[names[i]]|
    ensures |tried[names[i]]| <= |plan.order[names[i]]|
    ensures Reached(plan, env, action, k, names[i]) && Reached(plan, env, action, m, names[i]) ==> k == m
  {
    LastRowNode(plan, env, action, names[i]);
    AtMostOneReached(plan, env, action, names[i], 0, None);
  }

  class BmcRun {
    const plan: Plan
    const env: Env
    const action: Action
    /** The latest answer for each node. */
    var results: Results
    /** How many transports the nodes still pending were tried over. */
    var step: nat
    /** Every answer of each node, in order. */
    ghost var tried: History

    constructor (plan: Plan, env: Env, action: Action)
      ensures this.plan == plan && this.env == env && this.action == action
      ensures results == map[] && step == 0 && tried == map[]
    {
      this.plan, this.env, this.action := plan, env, action;
      results, step, tried := map[], 0, map[];
    }

    /** `settle`. */
    method Settle(transport: Transport, row: Row) returns (r: Row, again: bool)
      requires row.node in plan.order
      ensures r == Settled(row, Latest(results, row.node))
      ensures again == Again(plan, env, action, step, transport, r)
      ensures again <==>
              && r.err.Some? && step + 1 < |plan.order[row.node]| && !env.ended(step, row.node)
              && r.err.value.code != Interrupted && r.err.value.code != Usage && !r.err.value.pinMismatch
              && (action == Status
                  || (transport == Redfish && (r.err.value.dns || r.err.value.dial || r.err.value.pinStore)))
    {
      r := row;
      if row.node in results && row.err.Some? {
        var earlier := results[row.node];
        if earlier.err.Some? {
          var text := row.err.value.text + "; before that, " + Title(earlier.via) + " failed: " + earlier.err.value.text;
          r := row.(err := Some(row.err.value.(text := text)));
        }
      }
      var order := plan.order[row.node];
      again := r.err.Some? && step + 1 < |order| && MayFallBack(action, transport, r.err.value) && !env.ended(step, row.node);
    }

    /** One answer settled, and whether the node is to be tried again. */
    method SettleOne(transport: Transport, answer: Row, ghost alone: History) returns (again: bool)
      requires Planned(plan, answer.node) && answer.node in alone
      requires step < |alone[answer.node]| <= |plan.order[answer.node]|
      requires plan.order[answer.node][step] == transport
      requires RowFollows(plan, env, action, answer.node, alone[answer.node], step, answer)
      requires Upto(results, tried, {answer.node}, alone, step)
      modifies `results, `tried
      ensures if again then Upto(results, tried, {answer.node}, alone, step + 1)
              else Complete(results, tried, {answer.node}, alone)
      ensures SameBut(old(results), old(tried), results, tried, {answer.node})
    {
      var n := answer.node;
      assert n in {n};
      var row;
      row, again := Settle(transport, answer);
      TakeOneMore(alone[n], step);
      assert !again ==> alone[n][..step + 1] == alone[n];
      tried := tried[n := TriedOf(tried, n) + [row]];
      results := results[n := row];
    }

    /** One more answer of a transport settled, out of turn with the others. */
    method SettleNext(answer: Row, transport: Transport, ghost nodes: set<string>, ghost alone: History, next: seq<string>,
                      ghost done: set<string>)
      returns (next': seq<string>)
      requires Planned(plan, answer.node) && answer.node in alone
      requires step < |alone[answer.node]| <= |plan.order[answer.node]|
      requires plan.order[answer.node][step] == transport
      requires RowFollows(plan, env, action, answer.node, alone[answer.node], step, answer)
      requires answer.node in nodes && answer.node !in done && NodesOf(next) <= done && Distinct(next)
      requires Settling(results, tried, nodes, alone, step, NodesOf(next), done)
      modifies `results, `tried
      ensures Distinct(next') && NodesOf(next') <= done + {answer.node}
      ensures Settling(results, tried, nodes, alone, step, NodesOf(next'), done + {answer.node})
      ensures SameBut(old(results), old(tried), results, tried, {answer.node})
    {
      var n := answer.node;
      ghost var r, t := results, tried;
      assert n in nodes - done;
      var again := SettleOne(transport, answer, alone);
      StillDistinct(next, n);
      SettlingNext(r, t, results, tried, nodes, alone, step, NodesOf(next), done, n, again);
      next' := if again then next + [n] else next;
    }

    /** The answer in its turn settled. */
    method SettleTurn(rows: seq<Row>, i: nat, nodes: seq<string>, transport: Transport, next: seq<string>,
                      ghost alone: History, ghost expected: Results, ghost r0: Results, ghost t0: History)
      returns (next': seq<string>)
      requires AllOver(plan, step, nodes, transport) && OnTheirOwn(plan, nodes, alone)
      requires AnswersFollow(plan, env, action, step, nodes, alone, expected)
      requires RowsOf(rows, NodesOf(nodes), expected) && i < |rows|
      requires Turn(r0, t0, results, tried, NodesOf(nodes), alone, step, next, RowNodes(rows, i))
      modifies `results, `tried
      ensures Turn(r0, t0, results, tried, NodesOf(nodes), alone, step, next', RowNodes(rows, i + 1))
    {
      RowReady(plan, env, action, step, rows, i, nodes, transport, alone, expected);
      ghost var r, t := results, tried;
      next' := SettleNext(rows[i], transport, NodesOf(nodes), alone, next, RowNodes(rows, i));
      SameTwice(r0, t0, r, t, results, tried, RowNodes(rows, i), {rows[i].node});
    }

    /** The answers of one transport settled, and the nodes to try again. */
    method SettleAll(rows: seq<Row>, nodes: seq<string>, transport: Transport, ghost alone: History, ghost expected: Results)
      returns (next: seq<string>)
      requires AllOver(plan, step, nodes, transport) && OnTheirOwn(plan, nodes, alone)
      requires AnswersFollow(plan, env, action, step, nodes, alone, expected)
      requires RowsOf(rows, NodesOf(nodes), expected)
      requires Upto(results, tried, NodesOf(nodes), alone, step)
      modifies `results, `tried
      ensures Distinct(next) && NodesOf(next) <= NodesOf(nodes)
      ensures Upto(results, tried, NodesOf(next), alone, step + 1)
      ensures Complete(results, tried, NodesOf(nodes) - NodesOf(next), alone)
      ensures SameBut(old(results), old(tried), results, tried, NodesOf(nodes))
    {
      next := [];
      FirstTurn(results, tried, NodesOf(nodes), alone, step);
      for i := 0 to |rows|
        invariant Turn(old(results), old(tried), results, tried, NodesOf(nodes), alone, step, next, RowNodes(rows, i))
      {
        next := SettleTurn(rows, i, nodes, transport, next, alone, expected, old(results), old(tried));
      }
      AllRowsDone(rows, nodes, expected);
    }

    method ByTransport(pending: seq<string>) returns (redfish: seq<string>, ipmi: seq<string>)
      requires Distinct(pending) && AllPlanned(plan, pending) && forall n :: n in pending ==> step < |plan.order[n]|
      ensures Distinct(redfish) && AllOver(plan, step, redfish, Redfish)
      ensures Distinct(ipmi) && AllOver(plan, step, ipmi, IPMI)
      ensures Parted(redfish, ipmi, pending)
    {
      redfish, ipmi := [], [];
      for i := 0 to |pending|
        invariant Distinct(redfish) && AllOver(plan, step, redfish, Redfish)
        invariant Distinct(ipmi) && AllOver(plan, step, ipmi, IPMI)
        invariant NodesOf(redfish) !! NodesOf(ipmi) && NodesOf(redfish) + NodesOf(ipmi) == NodesOf(pending[..i])
      {
        var n := pending[i];
        assert n in pending && n !in pending[..i];
        assert n !in NodesOf(pending[..i]);
        NodesMore(pending, i);
        if plan.order[n][step] == Redfish {
          StillDistinct(redfish, n);
          redfish := redfish + [n];
        } else {
          StillDistinct(ipmi, n);
          ipmi := ipmi + [n];
        }
      }
      assert pending[..|pending|] == pending;
    }

    /** The nodes of one transport sent their requests, and settled. */
    method TryOver(nodes: seq<string>, transport: Transport, ghost pending: set<string>, ghost names: seq<string>,
                   ghost alone: History)
      returns (next: seq<string>)
      requires Distinct(nodes) && AllOver(plan, step, nodes, transport) && Backend(env)
      requires AllPlanned(plan, names) && NodesOf(nodes) <= pending <= NodesOf(names)
      requires alone == Alone(plan, env, action, names) && Upto(results, tried, pending, alone, step)
      modifies `results, `tried
      ensures Tried(old(results), old(tried), results, tried, nodes, next, alone, step + 1)
    {
      var answers := Send(plan, env, action, step, nodes, transport);
      PartFollows(plan, env, action, step, names, nodes, results, tried, pending, alone);
      next := SettleAll(answers, nodes, transport, alone, ExpectedOver(plan, env, action, step, nodes));
    }

    /** The nodes of the second transport, after those of the first. */
    method TryRest(ipmi: seq<string>, ghost r0: Results, ghost t0: History, ghost redfish: seq<string>,
                   first: seq<string>, ghost pending: seq<string>, ghost names: seq<string>, ghost alone: History)
      returns (next: seq<string>)
      requires Distinct(ipmi) && AllOver(plan, step, ipmi, IPMI) && NodesOf(ipmi) <= NodesOf(names)
      requires Parted(redfish, ipmi, pending) && Backend(env)
      requires AllPlanned(plan, names) && alone == Alone(plan, env, action, names)
      requires Upto(r0, t0, NodesOf(pending), alone, step)
      requires Tried(r0, t0, results, tried, redfish, first, alone, step + 1)
      modifies `results, `tried
      ensures Tried(r0, t0, results, tried, pending, next, alone, step + 1)
    {
      ghost var r, t := results, tried;
      OthersPending(r0, t0, r, t, redfish, ipmi, first, pending, alone, step);
      var second := TryOver(ipmi, IPMI, NodesOf(ipmi), names, alone);
      next := first + second;
      TriedTogether(r0, t0, r, t, results, tried, redfish, ipmi, first, second, next, pending, alone, step);
    }

    /** One step of the loop: each pending node tried over its transport. */
    method TryOnce(pending: seq<string>, ghost names: seq<string>, ghost alone: History) returns (next: seq<string>)
      requires Distinct(pending) && AllPlanned(plan, pending) && Backend(env)
      requires AllPlanned(plan, names) && NodesOf(pending) <= NodesOf(names) && alone == Alone(plan, env, action, names)
      requires Upto(results, tried, NodesOf(pending), alone, step) && forall n :: n in pending ==> step < |plan.order[n]|
      modifies this
      ensures step == old(step) + 1
      ensures Tried(old(results), old(tried), results, tried, pending, next, alone, step)
    {
      var redfish, ipmi := ByTransport(pending);
      var first := TryOver(redfish, Redfish, NodesOf(pending), names, alone);
      next := TryRest(ipmi, old(results), old(tried), redfish, first, pending, names, alone);
      step := step + 1;
    }

    /** `run`: every node fares as it would alone, whoever shares its transport,
        its account or its processor, and has one row, in the order given. */
    method Run(names: seq<string>) returns (out: seq<Row>)
      requires Distinct(names) && AllPlanned(plan, names) && Backend(env)
      requires results == map[] && step == 0 && tried == map[]
      modifies this
      ensures Told(plan, env, action, names, tried, out)
      ensures step <= Longest(plan, names)
    {
      ghost var alone := Alone(plan, env, action, names);
      RunsAlone(plan, env, action, names, alone);
      TryAll(names, alone);
      out := LatestOf(names, alone);
      AllTold(plan, env, action, names, results, tried, alone, out);
    }

    /** The loop over the transports. */
    method TryAll(names: seq<string>, ghost alone: History)
      requires Distinct(names) && OnTheirOwn(plan, names, alone) && Backend(env)
      requires alone == Alone(plan, env, action, names)
      requires results == map[] && step == 0 && tried == map[]
      modifies this
      ensures Complete(results, tried, NodesOf(names), alone) && SameBut(map[], map[], results, tried, NodesOf(names))
      ensures step <= Longest(plan, names)
    {
      var pending := names;
      while pending != []
        invariant Distinct(pending) && NodesOf(pending) <= NodesOf(names)
        invariant Standing(results, tried, NodesOf(names), alone, step, NodesOf(pending))
        invariant step <= Longest(plan, names)
        decreases Longest(plan, names) - step
      {
        PendingPlanned(plan, names, pending, alone, results, tried, step);
        ghost var r, t, p := results, tried, NodesOf(pending);
        pending := TryOnce(pending, names, alone);
        StandingNext(r, t, results, tried, NodesOf(names), alone, step, p, NodesOf(pending));
      }
      assert NodesOf(names) - NodesOf(pending) == NodesOf(names);
    }

    /** The latest answer of each node, in the order given. */
    method LatestOf(names: seq<string>, ghost alone: History) returns (out: seq<Row>)
      requires Complete(results, tried, NodesOf(names), alone)
      ensures |out| == |names| && forall i :: 0 <= i < |names| ==> names[i] in results && out[i] == results[names[i]]
    {
      out := [];
      forall i | 0 <= i < |names| ensures HasAll(results, tried, alone, names[i]) {
        assert names[i] in NodesOf(names);
      }
      for i := 0 to |names|
        invariant |out| == i && forall k :: 0 <= k < i ==> out[k] == results[names[k]]
      {
        out := out + [results[names[i]]];
      }
    }
  }

  lemma {:induction false} StillDistinct(names: seq<string>, n: string)
    requires Distinct(names)
    ensures NodesOf(names + [n]) == NodesOf(names) + {n}
    ensures n !in NodesOf(names) ==> Distinct(names + [n])
  {
    assert forall i :: 0 <= i < |names| ==> names[i] in NodesOf(names);
  }

  /** The nodes of the first n rows. */
  ghost function RowNodes(rows: seq<Row>, n: nat): set<string>
    requires n <= |rows|
  {
    if n == 0 then {} else RowNodes(rows, n - 1) + {rows[n - 1].node}
  }

  lemma {:induction false} RowNodesAre(rows: seq<Row>, n: nat, x: string)
    requires n <= |rows|
    ensures x in RowNodes(rows, n) <==> exists i :: 0 <= i < n && rows[i].node == x
  {
    if n > 0 {
      RowNodesAre(rows, n - 1, x);
    }
  }

  lemma {:induction false} NotYetDone(rows: seq<Row>, i: nat, nodes: seq<string>, expected: Results)
    requires i < |rows| && RowsOf(rows, NodesOf(nodes), expected)
    ensures rows[i].node in nodes && rows[i].node !in RowNodes(rows, i)
    ensures rows[i].node in expected && rows[i] == expected[rows[i].node]
  {
    RowNodesAre(rows, i, rows[i].node);
  }

  /** All that settling one of the rows asks for. */
  lemma {:induction false} RowReady(plan: Plan, env: Env, action: Action, step: nat, rows: seq<Row>, i: nat,
                                    nodes: seq<string>, transport: Transport, alone: History, expected: Results)
    requires AllOver(plan, step, nodes, transport) && OnTheirOwn(plan, nodes, alone)
    requires AnswersFollow(plan, env, action, step, nodes, alone, expected)
    requires RowsOf(rows, NodesOf(nodes), expected) && i < |rows|
    ensures var n := rows[i].node;
            && Planned(plan, n) && n in alone && n in NodesOf(nodes) && n !in RowNodes(rows, i)
            && step < |alone[n]| <= |plan.order[n]| && plan.order[n][step] == transport
            && RowFollows(plan, env, action, n, alone[n], step, rows[i])
    ensures RowNodes(rows, i + 1) == RowNodes(rows, i) + {rows[i].node}
  {
    NotYetDone(rows, i, nodes, expected);
  }

  lemma {:induction false} AllRowsDone(rows: seq<Row>, nodes: seq<string>, expected: Results)
    requires RowsOf(rows, NodesOf(nodes), expected)
    ensures RowNodes(rows, |rows|) == NodesOf(nodes)
  {
    forall x ensures x in RowNodes(rows, |rows|) <==> x in NodesOf(nodes) {
      RowNodesAre(rows, |rows|, x);
    }
  }

  /** Of the nodes of a transport, some settled: those to try again, those with
      all their rows, and those whose answer is still to be settled. */
  ghost predicate Settling(results: Results, tried: History, nodes: set<string>, alone: History, step: nat,
                           next: set<string>, done: set<string>) {
    && Upto(results, tried, next, alone, step + 1)
    && Complete(results, tried, done - next, alone)
    && Upto(results, tried, nodes - done, alone, step)
  }

  /** Where settling the answers of a transport stands. */
  ghost predicate Turn(r0: Results, t0: History, results: Results, tried: History, nodes: set<string>, alone: History,
                       step: nat, next: seq<string>, done: set<string>) {
    && Distinct(next) && NodesOf(next) <= done
    && Settling(results, tried, nodes, alone, step, NodesOf(next), done)
    && SameBut(r0, t0, results, tried, done)
  }

  lemma {:induction false} FirstTurn(results: Results, tried: History, nodes: set<string>, alone: History, step: nat)
    requires Upto(results, tried, nodes, alone, step)
    ensures Turn(results, tried, results, tried, nodes, alone, step, [], {})
  {
    assert nodes - {} == nodes;
  }

  lemma {:induction false} SettlingNext(r: Results, t: History, r': Results, t': History, nodes: set<string>,
                                        alone: History, step: nat, next: set<string>, done: set<string>, n: string,
                                        again: bool)
    requires Settling(r, t, nodes, alone, step, next, done) && next <= done && n in nodes - done
    requires SameBut(r, t, r', t', {n})
    requires if again then Upto(r', t', {n}, alone, step + 1) else Complete(r', t', {n}, alone)
    ensures Settling(r', t', nodes, alone, step, if again then next + {n} else next, done + {n})
  {
    var left, full := nodes - done - {n}, done - next;
    UptoElsewhere(r, t, r', t', {n}, next, alone, step + 1);
    CompleteElsewhere(r, t, r', t', {n}, full, alone);
    UptoElsewhere(r, t, r', t', {n}, left, alone, step);
    assert nodes - (done + {n}) == left;
    if again {
      assert done + {n} - (next + {n}) == full;
    } else {
      assert done + {n} - next == full + {n};
    }
  }

  /** What holds of all pending nodes holds of those over one transport. */
  lemma {:induction false} PartFollows(plan: Plan, env: Env, action: Action, step: nat, names: seq<string>,
                                       part: seq<string>, results: Results, tried: History, pending: set<string>,
                                       alone: History)
    requires AllPlanned(plan, names) && alone == Alone(plan, env, action, names)
    requires AllPlanned(plan, part) && NodesOf(part) <= pending <= NodesOf(names)
    requires forall n :: n in part ==> step < |plan.order[n]|
    requires Upto(results, tried, pending, alone, step)
    ensures OnTheirOwn(plan, part, alone)
    ensures AnswersFollow(plan, env, action, step, part, alone, ExpectedOver(plan, env, action, step, part))
    ensures Upto(results, tried, NodesOf(part), alone, step)
  {
    assert forall n :: n in part ==> n in NodesOf(part);
    AloneFollows(plan, env, action, step, names, part);
  }

  lemma {:induction false} PendingPlanned(plan: Plan, names: seq<string>, pending: seq<string>, alone: History,
                                          results: Results, tried: History, step: nat)
    requires OnTheirOwn(plan, names, alone) && pending != [] && NodesOf(pending) <= NodesOf(names)
    requires Upto(results, tried, NodesOf(pending), alone, step)
    ensures AllPlanned(plan, pending) && forall n :: n in pending ==> step < |plan.order[n]|
    ensures step < Longest(plan, names)
  {
    forall n | n in pending ensures n in names && n in NodesOf(pending) {
      assert n in NodesOf(names);
    }
    assert pending[0] in pending;
    LongestBounds(plan, names, pending[0]);
  }

  lemma {:induction false} NextTogether(first: seq<string>, second: seq<string>, redfish: set<string>, ipmi: set<string>)
    requires Distinct(first) && Distinct(second)
    requires NodesOf(first) <= redfish && NodesOf(second) <= ipmi && redfish !! ipmi
    ensures Distinct(first + second)
    ensures NodesOf(first + second) == NodesOf(first) + NodesOf(second)
    ensures redfish + ipmi - NodesOf(first + second) == (redfish - NodesOf(first)) + (ipmi - NodesOf(second))
  {
    forall i, j | 0 <= i < |first| && 0 <= j < |second| ensures first[i] != second[j] {
      assert first[i] in NodesOf(first) && second[j] in NodesOf(second);
    }
  }

  lemma {:induction false} LastRowNode(plan: Plan, env: Env, action: Action, n: string)
    requires Planned(plan, n)
    ensures var rows := NodeRun(plan, env, action, n);
            0 < |rows| <= |plan.order[n]| && rows[|rows| - 1].node == n
  {
    var rows := NodeRun(plan, env, action, n);
    var i := |rows| - 1;
    NodeRunRow(plan, env, action, n, i);
    assert rows[i] == Settled(AnswerOf(plan, env, action, i, n), Before(rows, i));
  }

  lemma {:induction false} RunsAlone(plan: Plan, env: Env, action: Action, names: seq<string>, alone: History)
    requires AllPlanned(plan, names) && alone == Alone(plan, env, action, names)
    ensures OnTheirOwn(plan, names, alone)
  {
    forall n | n in names ensures 0 < |NodeRun(plan, env, action, n)| <= |plan.order[n]| {
      LastRowNode(plan, env, action, n);
    }
  }
}
