/** Reading what the IPMI backend printed: one status for each processor that
    was asked (internal/ipmi/ipmi.go). */
module IpmiAnswers {
  import opened Options
  import opened Text

  /** What became of one processor: an error, when there is one, is a text. */
  datatype Status = Status(bmc: string, state: string, err: Option<string>)

  /** A line that starts with a processor's whole name and a colon. */
  predicate SpeaksOf(line: string, bmc: string) {
    bmc + ":" <= TrimSpace(line)
  }

  /** What a line says after that name. */
  function SaidOf(line: string, bmc: string): string
    requires SpeaksOf(line, bmc)
  {
    TrimSpace(TrimSpace(line)[|bmc| + 1..])
  }

  /** The line answers for a processor of the set: the longest name it speaks
      of, when two do. */
  ghost predicate AnswersFor(asked: set<string>, line: string, bmc: string) {
    && bmc in asked && SpeaksOf(line, bmc)
    && forall other :: other in asked && SpeaksOf(line, other) ==> |other| <= |bmc|
  }

  lemma {:induction false} OneAnswer(asked: set<string>, line: string, a: string, b: string)
    requires AnswersFor(asked, line, a) && AnswersFor(asked, line, b)
    ensures a == b
  {
    var t := TrimSpace(line);
    assert a == t[..|a|] && b == t[..|b|];
  }

  /** A name of i characters that a line speaks of ends at a colon. */
  lemma {:induction false} NameBeforeColon(t: string, line: string, i: nat)
    requires t == TrimSpace(line) && i < |t|
    ensures forall bmc :: SpeaksOf(line, bmc) && |bmc| == i ==> bmc == t[..i] && t[i] == ':'
  {
    forall bmc | SpeaksOf(line, bmc) && |bmc| == i ensures bmc == t[..i] && t[i] == ':' {
      assert t[i] == (bmc + ":")[i];
    }
  }

  /** `lineMatcher.match`, scanning backwards for a colon after a name. */
  method Match(asked: set<string>, line: string) returns (r: Option<(string, string)>)
    ensures r.None? ==> forall bmc :: bmc in asked ==> !SpeaksOf(line, bmc)
    ensures r.Some? ==> AnswersFor(asked, line, r.value.0) && r.value.1 == SaidOf(line, r.value.0)
  {
    var t := TrimSpace(line);
    var i := |t| - 1;
    while i >= 0
      invariant -1 <= i < |t|
      invariant forall bmc :: bmc in asked && SpeaksOf(line, bmc) ==> |bmc| <= i
    {
      if t[i] == ':' && t[..i] in asked {
        assert t[..i] + ":" == t[..i + 1];
        return Some((t[..i], TrimSpace(t[i + 1..])));
      }
      NameBeforeColon(t, line, i);
      i := i - 1;
    }
    return None;
  }

  // ----- one status for each processor -----

  /** Line n is the last that answers for a processor. */
  ghost predicate LastFor(asked: set<string>, lines: seq<string>, bmc: string, n: nat) {
    && n < |lines| && AnswersFor(asked, lines[n], bmc)
    && forall m :: n < m < |lines| ==> !AnswersFor(asked, lines[m], bmc)
  }

  /** What was said of each processor, last. */
  ghost predicate Said(asked: set<string>, lines: seq<string>, said: map<string, string>) {
    && (forall bmc :: bmc in said ==>
                        exists n: nat :: LastFor(asked, lines, bmc, n) && said[bmc] == SaidOf(lines[n], bmc))
    && (forall bmc, n :: 0 <= n < |lines| && AnswersFor(asked, lines[n], bmc) ==> bmc in said)
  }

  lemma {:induction false} SaidMore(asked: set<string>, lines: seq<string>, line: string, said: map<string, string>,
                                    r: Option<(string, string)>)
    requires Said(asked, lines, said)
    requires r.None? ==> forall bmc :: bmc in asked ==> !SpeaksOf(line, bmc)
    requires r.Some? ==> AnswersFor(asked, line, r.value.0) && r.value.1 == SaidOf(line, r.value.0)
    ensures Said(asked, lines + [line], if r.Some? then said[r.value.0 := r.value.1] else said)
  {
    var more, now := lines + [line], if r.Some? then said[r.value.0 := r.value.1] else said;
    forall bmc | bmc in now
      ensures exists n: nat :: LastFor(asked, more, bmc, n) && now[bmc] == SaidOf(more[n], bmc)
    {
      if r.Some? && bmc == r.value.0 {
        assert LastFor(asked, more, bmc, |lines|);
      } else {
        var n: nat :| LastFor(asked, lines, bmc, n) && said[bmc] == SaidOf(lines[n], bmc);
        if AnswersFor(asked, line, bmc) {
          OneAnswer(asked, line, bmc, r.value.0);
        }
        assert LastFor(asked, more, bmc, n) && more[n] == lines[n];
      }
    }
    forall bmc, n | 0 <= n < |more| && AnswersFor(asked, more[n], bmc) ensures bmc in now {
      if n == |lines| {
        OneAnswer(asked, line, bmc, r.value.0);
      } else {
        assert more[n] == lines[n];
      }
    }
  }

  /** `answered`: the status of a processor the backend printed a text for. */
  function Answered(bmc: string, text: string, answer: string -> Option<string>): (s: Status)
    ensures s.bmc == bmc
  {
    match answer(text)
    case Some(state) => Status(bmc, state, None)
    case None => Status(bmc, "unknown", Some(if text != "" then text else "the IPMI backend printed nothing for it"))
  }

  /** A text that is an answer is the state; any other is the error, and never an
      empty one. */
  lemma {:induction false} AnsweredIs(bmc: string, text: string, answer: string -> Option<string>)
    ensures var s := Answered(bmc, text, answer);
            && s.bmc == bmc
            && (s.err == None <==> answer(text).Some?) && (s.err == None ==> answer(text) == Some(s.state))
            && (s.err.Some? ==> s.state == "unknown" && s.err.value != "" && (text != "" ==> s.err.value == text))
  {
  }

  function Asked(names: seq<string>): set<string> {
    set n | n in names
  }

  /** A status for each processor asked, in the order asked: by the last line
      that answers for it, or unknown with why the run did not report it. */
  ghost predicate Accounted(names: seq<string>, lines: seq<string>, answer: string -> Option<string>, cause: string,
                            statuses: seq<Status>) {
    && |statuses| == |names|
    && forall i :: 0 <= i < |names| ==>
                     var asked := Asked(names);
                     && (forall n: nat :: LastFor(asked, lines, names[i], n) ==>
                                       statuses[i] == Answered(names[i], SaidOf(lines[n], names[i]), answer))
                     && ((forall n :: 0 <= n < |lines| ==> !AnswersFor(asked, lines[n], names[i])) ==>
                           statuses[i] == Status(names[i], "unknown", Some(cause)))
  }

  method ReadLines(asked: set<string>, lines: seq<string>) returns (said: map<string, string>)
    ensures Said(asked, lines, said)
  {
    said := map[];
    for i := 0 to |lines|
      invariant Said(asked, lines[..i], said)
    {
      var r := Match(asked, lines[i]);
      SaidMore(asked, lines[..i], lines[i], said, r);
      TakeOneMore(lines, i);
      if r.Some? {
        said := said[r.value.0 := r.value.1];
      }
    }
    assert lines[..|lines|] == lines;
  }

  function StatusOf(said: map<string, string>, bmc: string, answer: string -> Option<string>, cause: string): (s: Status)
    ensures s.bmc == bmc
  {
    if bmc in said then Answered(bmc, said[bmc], answer) else Status(bmc, "unknown", Some(cause))
  }

  /** The statuses made so far, in the order asked. */
  function StatusesOf(said: map<string, string>, names: seq<string>, answer: string -> Option<string>, cause: string): (r: seq<Status>)
    ensures |r| == |names|
    ensures forall i :: 0 <= i < |names| ==> r[i] == StatusOf(said, names[i], answer, cause)
  {
    if names == [] then []
    else
      var last := |names| - 1;
      StatusesOf(said, names[..last], answer, cause) + [StatusOf(said, names[last], answer, cause)]
  }

  lemma {:induction false} SaidAccounts(names: seq<string>, lines: seq<string>, answer: string -> Option<string>,
                                        cause: string, said: map<string, string>, statuses: seq<Status>)
    requires Said(Asked(names), lines, said)
    requires |statuses| == |names| && forall i :: 0 <= i < |names| ==> statuses[i] == StatusOf(said, names[i], answer, cause)
    ensures Accounted(names, lines, answer, cause, statuses)
  {
    var asked := Asked(names);
    forall i, n: nat | 0 <= i < |names| && LastFor(asked, lines, names[i], n)
      ensures statuses[i] == Answered(names[i], SaidOf(lines[n], names[i]), answer)
    {
      LastSaid(asked, lines, said, names[i], n);
    }
  }

  method MakeStatuses(said: map<string, string>, names: seq<string>, answer: string -> Option<string>, cause: string)
    returns (statuses: seq<Status>)
    ensures statuses == StatusesOf(said, names, answer, cause)
  {
    statuses := [];
    for i := 0 to |names|
      invariant statuses == StatusesOf(said, names[..i], answer, cause)
    {
      var status := Status(names[i], "unknown", Some(cause));
      if names[i] in said {
        status := Answered(names[i], said[names[i]], answer);
      }
      assert names[..i + 1][..i] == names[..i];
      statuses := statuses + [status];
    }
    assert names[..|names|] == names;
  }

  /** `collect`. */
  method Collect(names: seq<string>, lines: seq<string>, answer: string -> Option<string>, cause: string)
    returns (statuses: seq<Status>)
    ensures Accounted(names, lines, answer, cause, statuses)
    ensures forall i :: 0 <= i < |names| ==> statuses[i].bmc == names[i]
  {
    var said := ReadLines(Asked(names), lines);
    statuses := MakeStatuses(said, names, answer, cause);
    SaidAccounts(names, lines, answer, cause, said, statuses);
  }

  lemma {:induction false} LastSaid(asked: set<string>, lines: seq<string>, said: map<string, string>, bmc: string, n: nat)
    requires Said(asked, lines, said) && LastFor(asked, lines, bmc, n)
    ensures bmc in said && said[bmc] == SaidOf(lines[n], bmc)
  {
    var m: nat :| LastFor(asked, lines, bmc, m) && said[bmc] == SaidOf(lines[m], bmc);
    assert n == m;
  }
}
