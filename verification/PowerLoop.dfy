/** The loop of a power action over a set of nodes, transport by transport,
    and the rows it returns (internal/cli/bmcpower.go). */
module PowerLoop {
  import opened Options
  import opened Text
  import opened PowerRun

  // ----- one row for each node -----

  predicate AllPlanned(plan: Plan, names: seq<string>) {
    forall n :: n in names ==> n in plan.bmc && n in plan.credential && n in plan.order && plan.order[n] != []
  }

  function NodesOf(names: seq<string>): set<string> {
    set n | n in names
  }

  predicate Distinct(names: seq<string>) {
    forall i, j :: 0 <= i < j < |names| ==> names[i] != names[j]
  }

  /** The rows are those expected of the nodes done, one each. */
  ghost predicate RowsOf(rows: seq<Row>, done: set<string>, expected: map<string, Row>) {
    && done <= expected.Keys
    && (forall i :: 0 <= i < |rows| ==> rows[i].node in done && rows[i] == expected[rows[i].node])
    && (forall n :: n in done ==> exists i :: 0 <= i < |rows| && rows[i].node == n)
    && (forall i, j :: 0 <= i < j < |rows| ==> rows[i].node != rows[j].node)
  }

  lemma {:induction false} OneRow(rows: seq<Row>, done: set<string>, expected: map<string, Row>, node: string)
    requires RowsOf(rows, done, expected) && node !in done && node in expected && expected[node].node == node
    ensures RowsOf(rows + [expected[node]], done + {node}, expected)
  {
    var more := rows + [expected[node]];
    forall n | n in done + {node} ensures exists i :: 0 <= i < |more| && more[i].node == n {
      if n == node {
        assert more[|rows|].node == n;
      } else {
        var i :| 0 <= i < |rows| && rows[i].node == n;
        assert more[i].node == n;
      }
    }
  }

  lemma {:induction false} RowsTogether(a: seq<Row>, b: seq<Row>, done: set<string>, others: set<string>,
                                        expected: map<string, Row>)
    requires RowsOf(a, done, expected) && RowsOf(b, others, expected) && done !! others
    ensures RowsOf(a + b, done + others, expected)
  {
    var rows := a + b;
    forall n | n in done + others ensures exists i :: 0 <= i < |rows| && rows[i].node == n {
      if n in done {
        var i :| 0 <= i < |a| && a[i].node == n;
        assert rows[i].node == n;
      } else {
        var i :| 0 <= i < |b| && b[i].node == n;
        assert rows[|a| + i].node == n;
      }
    }
  }

  // ----- grouping nodes -----

  /** The nodes of each group, in their order, and the groups in the order of
      their first nodes. */
  ghost predicate Grouped(names: seq<string>, key: map<string, string>, order: seq<string>, groups: map<string, seq<string>>) {
    InGroups(names, key, groups) && Distinct(order) && forall k :: k in order <==> k in groups
  }

  ghost predicate InGroups(names: seq<string>, key: map<string, string>, groups: map<string, seq<string>>) {
    && (forall n :: n in names ==> n in key && key[n] in groups && n in groups[key[n]])
    && (forall k :: k in groups ==> groups[k] != [] && Distinct(groups[k]))
    && (forall k, n :: k in groups && n in groups[k] ==> n in names && n in key && key[n] == k)
  }

  lemma {:induction false} OneDistinctMore(names: seq<string>, n: string)
    requires Distinct(names) && n !in names
    ensures Distinct(names + [n])
  {
  }

  lemma {:induction false} InGroupsMore(names: seq<string>, key: map<string, string>, groups: map<string, seq<string>>, n: string)
    requires InGroups(names, key, groups) && n in key && n !in names
    ensures InGroups(names + [n], key, groups[key[n] := (if key[n] in groups then groups[key[n]] else []) + [n]])
  {
    var k := key[n];
    var was := if k in groups then groups[k] else [];
    var more := groups[k := was + [n]];
    assert n !in was;
    OneDistinctMore(was, n);
    forall m | m in names ensures m in key && key[m] in more && m in more[key[m]] {
      assert m in groups[key[m]];
    }
  }

  lemma {:induction false} GroupMore(names: seq<string>, key: map<string, string>, order: seq<string>,
                                     groups: map<string, seq<string>>, n: string)
    requires Grouped(names, key, order, groups) && n in key && n !in names
    ensures var k := key[n];
            Grouped(names + [n], key, if k in groups then order else order + [k],
                    groups[k := (if k in groups then groups[k] else []) + [n]])
  {
    InGroupsMore(names, key, groups, n);
    if key[n] !in groups {
      OneDistinctMore(order, key[n]);
    }
  }

  /** Grouping by account or by processor, keeping the order. */
  method Group(names: seq<string>, key: map<string, string>) returns (order: seq<string>, groups: map<string, seq<string>>)
    requires Distinct(names) && forall n :: n in names ==> n in key
    ensures Grouped(names, key, order, groups)
  {
    order, groups := [], map[];
    for i := 0 to |names|
      invariant Grouped(names[..i], key, order, groups)
    {
      var n := names[i];
      assert n in names;
      var k := key[n];
      GroupMore(names[..i], key, order, groups, n);
      TakeOneMore(names, i);
      if k !in groups {
        order := order + [k];
      }
      groups := groups[k := (if k in groups then groups[k] else []) + [n]];
    }
    assert names[..|names|] == names;
  }

  // ----- the rows of one account -----

  lemma {:induction false} StatusIs(statuses: seq<Said>, i: nat)
    requires i < |statuses| && DistinctProcessors(statuses)
    ensures StatusFor(statuses, statuses[i].bmc) == Some(statuses[i])
  {
    if i > 0 {
      assert statuses[0].bmc != statuses[i].bmc;
      StatusIs(statuses[1..], i - 1);
    }
  }

  lemma {:induction false} NoStatus(statuses: seq<Said>, bmc: string)
    requires forall i :: 0 <= i < |statuses| ==> statuses[i].bmc != bmc
    ensures StatusFor(statuses, bmc) == None
  {
    if statuses != [] {
      NoStatus(statuses[1..], bmc);
    }
  }

  /** The nodes of an account whose processors the first statuses answer for. */
  ghost function AnsweredNodes(plan: Plan, nodes: seq<string>, statuses: seq<Said>): set<string>
    requires AllPlanned(plan, nodes)
  {
    set n | n in nodes && exists i :: 0 <= i < |statuses| && statuses[i].bmc == plan.bmc[n]
  }

  lemma {:induction false} AnsweredMore(plan: Plan, nodes: seq<string>, statuses: seq<Said>, s: Said)
    requires AllPlanned(plan, nodes)
    ensures AnsweredNodes(plan, nodes, statuses + [s])
            == AnsweredNodes(plan, nodes, statuses) + (set n | n in nodes && plan.bmc[n] == s.bmc)
  {
    var more := statuses + [s];
    forall n | n in nodes
      ensures n in AnsweredNodes(plan, nodes, more) <==>
              n in AnsweredNodes(plan, nodes, statuses) || plan.bmc[n] == s.bmc
    {
      if i :| 0 <= i < |statuses| && statuses[i].bmc == plan.bmc[n] {
        assert more[i].bmc == plan.bmc[n];
      }
      if plan.bmc[n] == s.bmc {
        assert more[|statuses|].bmc == plan.bmc[n];
      }
    }
  }

  /** What the run of one account is expected to answer for its nodes. */
  ghost function Expected(plan: Plan, action: Action, nodes: seq<string>, reply: PowerReply): map<string, Row>
    requires AllPlanned(plan, nodes)
  {
    map n | n in nodes :: AccountRow(plan, action, n, reply)
  }

  lemma {:induction false} AccountRowNode(plan: Plan, action: Action, node: string, reply: PowerReply)
    requires Planned(plan, node)
    ensures AccountRow(plan, action, node, reply).node == node
  {
  }

  /** The rows of the nodes one status answers for. */
  method StatusRows(plan: Plan, action: Action, nodes: seq<string>, s: Said, mine: seq<string>,
                    ghost expected: map<string, Row>)
    returns (rows: seq<Row>)
    requires Distinct(mine)
    requires forall n :: n in mine ==> n in expected && expected[n] == SaidRow(action, n, s)
    ensures RowsOf(rows, NodesOf(mine), expected)
  {
    rows := [];
    for i := 0 to |mine|
      invariant RowsOf(rows, NodesOf(mine[..i]), expected)
    {
      var n := mine[i];
      assert n in mine && n !in mine[..i];
      OneRow(rows, NodesOf(mine[..i]), expected, n);
      assert NodesOf(mine[..i + 1]) == NodesOf(mine[..i]) + {n};
      rows := rows + [SaidRow(action, n, s)];
    }
    assert mine[..|mine|] == mine;
  }

  ghost function Unanswered(plan: Plan, nodes: seq<string>, answered: set<string>): set<string>
    requires AllPlanned(plan, nodes)
  {
    set n | n in nodes && plan.bmc[n] !in answered
  }

  /** The rows of the nodes no status answers for. */
  method UnansweredRows(plan: Plan, action: Action, nodes: seq<string>, answered: set<string>,
                        ghost expected: map<string, Row>)
    returns (rows: seq<Row>)
    requires Distinct(nodes) && AllPlanned(plan, nodes) && forall n :: n in nodes ==> n in expected
    requires forall n :: n in nodes && plan.bmc[n] !in answered ==>
                           expected[n] == IpmiFailed(plan, n, NO_ANSWER, Sent, "unknown")
    ensures RowsOf(rows, Unanswered(plan, nodes, answered), expected)
  {
    rows := [];
    for i := 0 to |nodes|
      invariant RowsOf(rows, Unanswered(plan, nodes[..i], answered), expected)
    {
      var n := nodes[i];
      assert n in nodes && n !in nodes[..i];
      TakeOneMore(nodes, i);
      ghost var before, after := Unanswered(plan, nodes[..i], answered), Unanswered(plan, nodes[..i + 1], answered);
      if plan.bmc[n] !in answered {
        OneRow(rows, before, expected, n);
        assert after == before + {n};
        rows := rows + [IpmiFailed(plan, n, NO_ANSWER, Sent, "unknown")];
      } else {
        assert after == before;
      }
    }
    assert nodes[..|nodes|] == nodes;
  }

  /** The same answer for every node of an account. */
  method RowForEach(plan: Plan, action: Action, nodes: seq<string>, reply: PowerReply) returns (rows: seq<Row>)
    requires Distinct(nodes) && AllPlanned(plan, nodes)
    ensures RowsOf(rows, NodesOf(nodes), Expected(plan, action, nodes, reply))
  {
    ghost var expected := Expected(plan, action, nodes, reply);
    rows := [];
    for i := 0 to |nodes|
      invariant RowsOf(rows, NodesOf(nodes[..i]), expected)
    {
      var n := nodes[i];
      assert n in nodes && n !in nodes[..i];
      AccountRowNode(plan, action, n, reply);
      OneRow(rows, NodesOf(nodes[..i]), expected, n);
      NodesMore(nodes, i);
      rows := rows + [AccountRow(plan, action, n, reply)];
    }
    assert nodes[..|nodes|] == nodes;
  }

  lemma {:induction false} NodesMore(names: seq<string>, i: nat)
    requires i < |names|
    ensures NodesOf(names[..i + 1]) == NodesOf(names[..i]) + {names[i]}
  {
    TakeOneMore(names, i);
  }

  lemma {:induction false} AnsweredByStatus(plan: Plan, action: Action, nodes: seq<string>, statuses: seq<Said>, i: nat,
                                            n: string)
    requires AllPlanned(plan, nodes) && n in nodes
    requires DistinctProcessors(statuses) && i < |statuses| && statuses[i].bmc == plan.bmc[n]
    ensures Expected(plan, action, nodes, Reported(statuses))[n] == SaidRow(action, n, statuses[i])
    ensures n !in AnsweredNodes(plan, nodes, statuses[..i])
  {
    StatusIs(statuses, i);
    assert forall j :: 0 <= j < i ==> statuses[..i][j].bmc == statuses[j].bmc != statuses[i].bmc;
  }

  /** `ipmiAccount`: a row for each node of an account, by the status of its
      processor, whoever else shares that processor. */
  method AccountRows(plan: Plan, action: Action, nodes: seq<string>, reply: PowerReply) returns (rows: seq<Row>)
    requires Distinct(nodes) && AllPlanned(plan, nodes)
    requires reply.Reported? ==> DistinctProcessors(reply.statuses)
    ensures RowsOf(rows, NodesOf(nodes), Expected(plan, action, nodes, reply))
  {
    if !reply.Reported? {
      rows := RowForEach(plan, action, nodes, reply);
      return;
    }
    var _, byBMC := Group(nodes, plan.bmc);
    var statuses := reply.statuses;
    ghost var expected := Expected(plan, action, nodes, reply);
    rows := [];
    var answered: set<string> := {};
    for i := 0 to |statuses|
      invariant RowsOf(rows, AnsweredNodes(plan, nodes, statuses[..i]), expected)
      invariant forall b :: b in answered <==> exists j :: 0 <= j < i && statuses[j].bmc == b
    {
      var s := statuses[i];
      var mine := if s.bmc in byBMC then byBMC[s.bmc] else [];
      forall n | n in nodes && plan.bmc[n] == s.bmc
        ensures expected[n] == SaidRow(action, n, s) && n !in AnsweredNodes(plan, nodes, statuses[..i])
      {
        AnsweredByStatus(plan, action, nodes, statuses, i, n);
      }
      var more := StatusRows(plan, action, nodes, s, mine, expected);
      assert NodesOf(mine) == set n | n in nodes && plan.bmc[n] == s.bmc;
      RowsTogether(rows, more, AnsweredNodes(plan, nodes, statuses[..i]), NodesOf(mine), expected);
      AnsweredMore(plan, nodes, statuses[..i], s);
      TakeOneMore(statuses, i);
      rows, answered := rows + more, answered + {s.bmc};
    }
    assert statuses[..|statuses|] == statuses;
    var rest := Unreported(plan, action, nodes, statuses, answered);
    ghost var done, left := AnsweredNodes(plan, nodes, statuses), Unanswered(plan, nodes, answered);
    RowsTogether(rows, rest, done, left, expected);
    assert done + left == NodesOf(nodes);
    rows := rows + rest;
  }

  method Unreported(plan: Plan, action: Action, nodes: seq<string>, statuses: seq<Said>, answered: set<string>)
    returns (rest: seq<Row>)
    requires Distinct(nodes) && AllPlanned(plan, nodes)
    requires forall b :: b in answered <==> exists j :: 0 <= j < |statuses| && statuses[j].bmc == b
    ensures RowsOf(rest, Unanswered(plan, nodes, answered), Expected(plan, action, nodes, Reported(statuses)))
  {
    forall n | n in nodes && plan.bmc[n] !in answered
      ensures StatusFor(statuses, plan.bmc[n]) == None
    {
      NoStatus(statuses, plan.bmc[n]);
    }
    rest := UnansweredRows(plan, action, nodes, answered, Expected(plan, action, nodes, Reported(statuses)));
  }

  // ----- one transport at one step -----

  ghost function ExpectedOver(plan: Plan, env: Env, action: Action, step: nat, nodes: seq<string>): map<string, Row>
    requires AllPlanned(plan, nodes) && forall n :: n in nodes ==> step < |plan.order[n]|
  {
    map n | n in nodes :: AnswerOf(plan, env, action, step, n)
  }

  predicate AllOver(plan: Plan, step: nat, nodes: seq<string>, transport: Transport) {
    && AllPlanned(plan, nodes)
    && forall n :: n in nodes ==> step < |plan.order[n]| && plan.order[n][step] == transport
  }

  /** Rows expected of some nodes are those expected of more. */
  lemma {:induction false} RowsExpectedOfMore(rows: seq<Row>, done: set<string>, a: map<string, Row>, b: map<string, Row>)
    requires RowsOf(rows, done, a) && forall n :: n in done ==> n in b && a[n] == b[n]
    ensures RowsOf(rows, done, b)
  {
  }

  /** `prepareRedfish` and what it sends. */
  method SendRedfish(plan: Plan, env: Env, action: Action, step: nat, nodes: seq<string>) returns (rows: seq<Row>)
    requires Distinct(nodes) && AllOver(plan, step, nodes, Redfish) && env.panic(step, Redfish).None?
    ensures RowsOf(rows, NodesOf(nodes), ExpectedOver(plan, env, action, step, nodes))
  {
    ghost var expected := ExpectedOver(plan, env, action, step, nodes);
    rows := [];
    var sendable: seq<string> := [];
    for i := 0 to |nodes|
      invariant Distinct(sendable) && NodesOf(sendable) <= NodesOf(nodes[..i])
      invariant forall n :: n in sendable ==> env.client(step, n).None?
      invariant RowsOf(rows, NodesOf(nodes[..i]) - NodesOf(sendable), expected)
    {
      var n := nodes[i];
      assert n in nodes && n !in nodes[..i];
      NodesMore(nodes, i);
      assert n !in NodesOf(nodes[..i]);
      ghost var before := NodesOf(nodes[..i]) - NodesOf(sendable);
      if env.client(step, n).Some? {
        OneRow(rows, before, expected, n);
        assert NodesOf(nodes[..i + 1]) - NodesOf(sendable) == before + {n};
        rows := rows + [RedfishRow(plan, env, action, step, n)];
      } else {
        assert NodesOf(sendable + [n]) == NodesOf(sendable) + {n};
        assert NodesOf(nodes[..i + 1]) - NodesOf(sendable + [n]) == before;
        sendable := sendable + [n];
      }
    }
    assert nodes[..|nodes|] == nodes;
    assert forall n :: n in sendable ==> n in NodesOf(nodes);
    var sent := SendEach(plan, env, action, step, nodes, sendable);
    RowsTogether(rows, sent, NodesOf(nodes) - NodesOf(sendable), NodesOf(sendable), expected);
    assert NodesOf(nodes) - NodesOf(sendable) + NodesOf(sendable) == NodesOf(nodes);
    rows := rows + sent;
  }

  method SendEach(plan: Plan, env: Env, action: Action, step: nat, ghost nodes: seq<string>, sendable: seq<string>)
    returns (rows: seq<Row>)
    requires AllOver(plan, step, nodes, Redfish) && env.panic(step, Redfish).None?
    requires Distinct(sendable) && forall n :: n in sendable ==> n in nodes
    ensures RowsOf(rows, NodesOf(sendable), ExpectedOver(plan, env, action, step, nodes))
  {
    ghost var expected := ExpectedOver(plan, env, action, step, nodes);
    rows := [];
    for i := 0 to |sendable|
      invariant RowsOf(rows, NodesOf(sendable[..i]), expected)
    {
      var n := sendable[i];
      assert n in sendable && n !in sendable[..i];
      NodesMore(sendable, i);
      OneRow(rows, NodesOf(sendable[..i]), expected, n);
      rows := rows + [RedfishRow(plan, env, action, step, n)];
    }
    assert sendable[..|sendable|] == sendable;
  }

  /** The row an account without a backend gives each node. */
  method BackendFailed(plan: Plan, env: Env, action: Action, step: nat, ghost nodes: seq<string>, mine: seq<string>, f: Failure)
    returns (rows: seq<Row>)
    requires AllOver(plan, step, nodes, IPMI) && env.panic(step, IPMI).None?
    requires Distinct(mine) && forall n :: n in mine ==> n in nodes
    requires forall n :: n in mine ==> env.backend(step, plan.credential[n]) == Some(f)
                                       && !env.power(step, plan.credential[n]).Unstarted?
    ensures RowsOf(rows, NodesOf(mine), ExpectedOver(plan, env, action, step, nodes))
  {
    ghost var expected := ExpectedOver(plan, env, action, step, nodes);
    rows := [];
    for i := 0 to |mine|
      invariant RowsOf(rows, NodesOf(mine[..i]), expected)
    {
      var n := mine[i];
      assert n in mine && n !in mine[..i];
      NodesMore(mine, i);
      OneRow(rows, NodesOf(mine[..i]), expected, n);
      rows := rows + [IpmiFailed(plan, n, f, Sent, "")];
    }
    assert mine[..|mine|] == mine;
  }

  /** `prepareIPMI` and what it carries out for one account. */
  method SendAccount(plan: Plan, env: Env, action: Action, step: nat, ghost nodes: seq<string>, account: string,
                     mine: seq<string>)
    returns (rows: seq<Row>)
    requires AllOver(plan, step, nodes, IPMI) && env.panic(step, IPMI).None? && Backend(env)
    requires Distinct(mine) && forall n :: n in mine ==> n in nodes && plan.credential[n] == account
    ensures RowsOf(rows, NodesOf(mine), ExpectedOver(plan, env, action, step, nodes))
  {
    var reply := env.power(step, account);
    if !reply.Unstarted? && env.backend(step, account).Some? {
      rows := BackendFailed(plan, env, action, step, nodes, mine, env.backend(step, account).value);
    } else {
      rows := AccountRows(plan, action, mine, reply);
      RowsExpectedOfMore(rows, NodesOf(mine), Expected(plan, action, mine, reply),
                         ExpectedOver(plan, env, action, step, nodes));
    }
  }

  /** `prepareIPMI`: one run for each account, the rows in the order of the
      accounts. */
  method SendIpmi(plan: Plan, env: Env, action: Action, step: nat, nodes: seq<string>) returns (rows: seq<Row>)
    requires Distinct(nodes) && AllOver(plan, step, nodes, IPMI) && env.panic(step, IPMI).None? && Backend(env)
    ensures RowsOf(rows, NodesOf(nodes), ExpectedOver(plan, env, action, step, nodes))
  {
    ghost var expected := ExpectedOver(plan, env, action, step, nodes);
    var accounts, groups := Group(nodes, plan.credential);
    rows := [];
    for i := 0 to |accounts|
      invariant RowsOf(rows, OfAccounts(plan, nodes, accounts[..i]), expected)
    {
      var account := accounts[i];
      assert account in accounts && account !in accounts[..i];
      var more := SendAccount(plan, env, action, step, nodes, account, groups[account]);
      TakeOneMore(accounts, i);
      var before := OfAccounts(plan, nodes, accounts[..i]);
      assert OfAccounts(plan, nodes, accounts[..i + 1]) == before + NodesOf(groups[account]);
      RowsTogether(rows, more, before, NodesOf(groups[account]), expected);
      rows := rows + more;
    }
    assert accounts[..|accounts|] == accounts;
    assert OfAccounts(plan, nodes, accounts) == NodesOf(nodes);
  }

  ghost function OfAccounts(plan: Plan, nodes: seq<string>, accounts: seq<string>): set<string>
    requires AllPlanned(plan, nodes)
  {
    set n | n in nodes && plan.credential[n] in accounts
  }

  method PanicRows(plan: Plan, env: Env, action: Action, step: nat, nodes: seq<string>, transport: Transport, text: string)
    returns (rows: seq<Row>)
    requires Distinct(nodes) && AllOver(plan, step, nodes, transport) && env.panic(step, transport) == Some(text)
    ensures RowsOf(rows, NodesOf(nodes), ExpectedOver(plan, env, action, step, nodes))
  {
    ghost var expected := ExpectedOver(plan, env, action, step, nodes);
    rows := [];
    for i := 0 to |nodes|
      invariant RowsOf(rows, NodesOf(nodes[..i]), expected)
    {
      var n := nodes[i];
      assert n in nodes && n !in nodes[..i];
      NodesMore(nodes, i);
      OneRow(rows, NodesOf(nodes[..i]), expected, n);
      rows := rows + [PanicRow(plan, transport, n, text)];
    }
    assert nodes[..|nodes|] == nodes;
  }

  /** The nodes of a step over one transport, each answered once. */
  method Send(plan: Plan, env: Env, action: Action, step: nat, nodes: seq<string>, transport: Transport)
    returns (rows: seq<Row>)
    requires Distinct(nodes) && AllOver(plan, step, nodes, transport) && Backend(env)
    ensures RowsOf(rows, NodesOf(nodes), ExpectedOver(plan, env, action, step, nodes))
  {
    match env.panic(step, transport)
    case Some(text) => rows := PanicRows(plan, env, action, step, nodes, transport, text);
    case None =>
      if transport == Redfish {
        rows := SendRedfish(plan, env, action, step, nodes);
      } else {
        rows := SendIpmi(plan, env, action, step, nodes);
      }
  }
}
