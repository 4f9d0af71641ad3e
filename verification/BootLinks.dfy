/** The boot links of a set of nodes, changed by one script on the PXE host, and
    what its report says of each (internal/cli/boot.go). */
module BootLinks {
  import opened Options
  import opened Text
  import opened Selection

  // Decimal numbers, as strconv.Itoa writes and strconv.Atoi reads them.

  function Digit(d: nat): char
    requires d < 10
  {
    (('0' as int) + d) as char
  }

  predicate IsDigit(c: char) {
    '0' <= c <= '9'
  }

  function Itoa(n: nat): (s: string)
    ensures s != [] && forall c :: c in s ==> IsDigit(c)
  {
    if n < 10 then [Digit(n)] else Itoa(n / 10) + [Digit(n % 10)]
  }

  function Digits(s: string): Option<int> {
    if s == [] then Some(0)
    else
      var c := s[|s| - 1];
      match Digits(s[..|s| - 1])
      case None => None
      case Some(high) => if IsDigit(c) then Some(10 * high + (c as int - '0' as int)) else None
  }

  /** A number that does not fit a machine word is an error of the source's; it
      is out of the range of any set of links as well. */
  function Atoi(s: string): Option<int> {
    var signed := s != [] && (s[0] == '-' || s[0] == '+');
    var digits := if signed then s[1..] else s;
    if digits == [] then None
    else match Digits(digits)
      case None => None
      case Some(n) => Some(if signed && s[0] == '-' then -n else n)
  }

  lemma {:induction false} DigitsItoa(n: nat)
    ensures Digits(Itoa(n)) == Some(n)
  {
    if n < 10 {
      assert Itoa(n)[..0] == [];
    } else {
      DigitsItoa(n / 10);
      assert Itoa(n)[..|Itoa(n)| - 1] == Itoa(n / 10);
    }
  }

  lemma {:induction false} AtoiItoa(n: nat)
    ensures Atoi(Itoa(n)) == Some(n)
  {
    DigitsItoa(n);
    assert IsDigit(Itoa(n)[0]);
  }

  // The records on the script's standard input.

  function Record(fields: seq<string>): string {
    if fields == [] then "" else fields[0] + ['\0'] + Record(fields[1..])
  }

  function Records(records: seq<seq<string>>): string {
    if records == [] then "" else Record(records[0]) + Records(records[1..])
  }

  /** `read -d ''`: the text up to the first NUL, and what follows it. */
  function ReadField(s: string): Option<(string, string)> {
    Cut(s, '\0')
  }

  lemma {:induction false} ReadFieldShorter(s: string)
    ensures ReadField(s).Some? ==> |ReadField(s).value.1| < |s|
  {
    if ReadField(s).Some? {
      CutIs(s, '\0');
    }
  }

  /** The loop of a link script: records of three fields, for as long as three
      can be read. */
  function ReadRecords(s: string): seq<seq<string>>
    decreases |s|
  {
    ReadFieldShorter(s);
    match ReadField(s)
    case None => []
    case Some((i, s1)) =>
      ReadFieldShorter(s1);
      match ReadField(s1)
      case None => []
      case Some((a, s2)) =>
        ReadFieldShorter(s2);
        match ReadField(s2)
        case None => []
        case Some((b, s3)) => [[i, a, b]] + ReadRecords(s3)
  }

  predicate Plain(field: string) {
    '\0' !in field
  }

  predicate Wellformed(records: seq<seq<string>>) {
    forall r :: r in records ==> |r| == 3 && Plain(r[0]) && Plain(r[1]) && Plain(r[2])
  }

  /** Of a text cut short, whole fields are read as they are, and the one cut is
      not read at all. */
  lemma {:induction false} ReadFieldOfCut(field: string, rest: string, cut: nat)
    requires Plain(field) && cut <= |field| + 1 + |rest|
    ensures var s := (field + ['\0'] + rest)[..cut];
            if cut <= |field| then ReadField(s) == None
            else ReadField(s) == Some((field, rest[..cut - |field| - 1]))
  {
    var s := (field + ['\0'] + rest)[..cut];
    if cut <= |field| {
      assert s == field[..cut];
      CutNone(s, '\0');
    } else {
      assert s == field + ['\0'] + rest[..cut - |field| - 1];
      CutAt(field, '\0', rest[..cut - |field| - 1]);
    }
  }

  lemma {:induction false} ReadRecordOfCut(r: seq<string>, rest: string, cut: nat)
    requires |r| == 3 && Plain(r[0]) && Plain(r[1]) && Plain(r[2]) && cut <= |Record(r) + rest|
    ensures var s := (Record(r) + rest)[..cut];
            if cut < |Record(r)| then ReadRecords(s) == []
            else ReadRecords(s) == [r] + ReadRecords(rest[..cut - |Record(r)|])
  {
    var s := (Record(r) + rest)[..cut];
    var r1, r2 := Record(r[1..]), Record(r[1..][1..]);
    assert r[1..][1..] == [r[2]] && Record([r[2]]) == r[2] + ['\0'] + Record([r[2]][1..]);
    assert r2 == r[2] + ['\0'];
    assert Record(r) + rest == r[0] + ['\0'] + (r1 + rest);
    assert r1 + rest == r[1] + ['\0'] + (r2 + rest);
    assert r2 + rest == r[2] + ['\0'] + rest;
    ReadFieldOfCut(r[0], r1 + rest, cut);
    if |r[0]| < cut {
      var c1 := cut - |r[0]| - 1;
      ReadFieldOfCut(r[1], r2 + rest, c1);
      if |r[1]| < c1 {
        var c2 := c1 - |r[1]| - 1;
        ReadFieldOfCut(r[2], rest, c2);
        assert r == [r[0], r[1], r[2]];
      }
    }
  }

  /** However much of the input arrives, the script acts on the first so many of
      the records, each with its own fields; and on all when all of it does. */
  lemma {:induction false} RecordsReadBack(records: seq<seq<string>>, cut: nat) returns (m: nat)
    requires Wellformed(records) && cut <= |Records(records)|
    ensures m <= |records| && ReadRecords(Records(records)[..cut]) == records[..m]
    ensures cut == |Records(records)| ==> m == |records|
  {
    if records == [] {
      m := 0;
    } else {
      var r, rest := records[0], Records(records[1..]);
      assert r in records && Wellformed(records[1..]);
      ReadRecordOfCut(r, rest, cut);
      if cut < |Record(r)| {
        m := 0;
      } else {
        var k := RecordsReadBack(records[1..], cut - |Record(r)|);
        m := k + 1;
        TakeFirst(records, k);
      }
    }
  }

  /** `linkRecords`. */
  method LinkRecords(records: seq<seq<string>>) returns (stdin: Option<string>)
    requires forall r :: r in records ==> |r| == 3
    ensures stdin.Some? <==> Wellformed(records)
    ensures stdin.Some? ==> stdin.value == Records(records)
  {
    var b := "";
    for i := 0 to |records|
      invariant Wellformed(records[..i])
      invariant b + Records(records[i..]) == Records(records)
    {
      var r := records[i];
      assert r in records;
      TakeOneMore(records, i);
      DropOne(records, i);
      if '\0' in r[0] || '\0' in r[1] || '\0' in r[2] {
        return None;
      }
      Assoc(b, Record(r), Records(records[i + 1..]));
      b := b + Record(r);
    }
    assert records[..|records|] == records && Records(records[|records|..]) == "";
    return Some(b);
  }

  // The script's report.

  /** strings.SplitN with a tab and a limit of three. */
  function SplitThree(s: string): seq<string> {
    match Cut(s, '\t')
    case None => [s]
    case Some((a, rest)) =>
      match Cut(rest, '\t')
      case None => [a, rest]
      case Some((b, c)) => [a, b, c]
  }

  /** Which link a line of the report is about, and whether it was changed. */
  function Said(line: string, n: nat): Option<(nat, bool)> {
    var fields := SplitThree(line);
    if |fields| < 2 then None
    else match Atoi(fields[1])
      case None => None
      case Some(i) =>
        if i < 0 || i >= n then None
        else if fields[0] == "ok" && |fields| == 2 then Some((i, true))
        else if fields[0] == "fail" && |fields| == 3 then Some((i, false))
        else None
  }

  /** The line the script prints for link i. */
  function ReportLine(i: nat, changed: bool, message: string): string {
    if changed then "ok" + "\t" + Itoa(i) else "fail" + "\t" + (Itoa(i) + "\t" + message)
  }

  lemma {:induction false} ReportLineSays(i: nat, changed: bool, message: string, n: nat)
    requires i < n
    ensures Said(ReportLine(i, changed, message), n) == Some((i, changed))
  {
    assert '\t' !in Itoa(i) by {
      assert !IsDigit('\t');
    }
    AtoiItoa(i);
    CutNone(Itoa(i), '\t');
    if changed {
      CutAt("ok", '\t', Itoa(i));
    } else {
      CutAt("fail", '\t', Itoa(i) + "\t" + message);
      CutAt(Itoa(i), '\t', message);
    }
  }

  // Which lines are reports.

  function Zeros(k: nat): (s: string)
    ensures |s| == k && forall c :: c in s ==> c == '0'
  {
    if k == 0 then "" else Zeros(k - 1) + "0"
  }

  lemma {:induction false} DigitsLast(front: string, d: nat)
    requires d < 10 && Digits(front).Some?
    ensures Digits(front + [Digit(d)]) == Some(10 * Digits(front).value + d)
  {
    assert (front + [Digit(d)])[..|front|] == front;
  }

  lemma {:induction false} DigitsZeros(k: nat, n: nat)
    ensures Digits(Zeros(k) + Itoa(n)) == Some(n)
    decreases n, k
  {
    if n >= 10 {
      DigitsZeros(k, n / 10);
      Assoc(Zeros(k), Itoa(n / 10), [Digit(n % 10)]);
      DigitsLast(Zeros(k) + Itoa(n / 10), n % 10);
    } else {
      if k > 0 {
        DigitsZeros(k - 1, 0);
        assert Zeros(k) == Zeros(k - 1) + Itoa(0);
      }
      DigitsLast(Zeros(k), n);
    }
  }

  /** Digits are a number with any zeros before it. */
  lemma {:induction false} DigitsAre(s: string, n: nat) returns (k: nat)
    requires s != "" && Digits(s) == Some(n)
    ensures s == Zeros(k) + Itoa(n)
  {
    var front, c := s[..|s| - 1], s[|s| - 1];
    assert s == front + [c];
    k := |front|;
    if front != "" {
      DigitsNat(front);
      var m := Digits(front).value;
      var j := DigitsAre(front, m);
      if m == 0 {
        assert front == Zeros(j) + "0" == Zeros(j + 1);
        k := j + 1;
      } else {
        assert n / 10 == m && Itoa(n) == Itoa(m) + [c];
        k := j;
        Assoc(Zeros(j), Itoa(m), [c]);
      }
    }
  }

  lemma {:induction false} DigitsNat(s: string)
    ensures Digits(s).Some? ==> Digits(s).value >= 0
  {
    if s != "" {
      DigitsNat(s[..|s| - 1]);
    }
  }

  predicate SignOf(sign: string, n: nat) {
    sign == "" || sign == "+" || (sign == "-" && n == 0)
  }

  /** A number as it may be written: with zeros before it, and a sign. */
  ghost predicate IsNumeral(s: string, n: nat) {
    exists sign, k: nat :: SignOf(sign, n) && s == sign + (Zeros(k) + Itoa(n))
  }

  lemma {:induction false} SignedIsRead(sign: string, digits: string, n: nat)
    requires SignOf(sign, n) && Digits(digits) == Some(n) && digits != "" && IsDigit(digits[0])
    ensures Atoi(sign + digits) == Some(n)
  {
    assert if sign == "" then sign + digits == digits else (sign + digits)[1..] == digits;
  }

  lemma {:induction false} NumeralIsRead(s: string, n: nat)
    requires IsNumeral(s, n)
    ensures Atoi(s) == Some(n)
  {
    var sign, k: nat :| SignOf(sign, n) && s == sign + (Zeros(k) + Itoa(n));
    var digits := Zeros(k) + Itoa(n);
    DigitsZeros(k, n);
    assert digits[0] == if k > 0 then Zeros(k)[0] else Itoa(n)[0];
    assert k > 0 ==> Zeros(k)[0] in Zeros(k);
    assert IsDigit(digits[0]);
    SignedIsRead(sign, digits, n);
  }

  lemma {:induction false} ReadIsNumeral(s: string, n: nat)
    requires Atoi(s) == Some(n)
    ensures IsNumeral(s, n)
  {
    var sign := if s[0] == '-' || s[0] == '+' then s[..1] else "";
    var digits := s[|sign|..];
    assert s == sign + digits;
    DigitsNat(digits);
    var k := DigitsAre(digits, n);
    assert SignOf(sign, n);
  }

  ghost predicate IsOk(line: string, i: nat) {
    exists d :: IsNumeral(d, i) && '\t' !in d && line == "ok" + "\t" + d
  }

  ghost predicate IsFail(line: string, i: nat) {
    exists d, message :: IsNumeral(d, i) && '\t' !in d && line == "fail" + "\t" + (d + "\t" + message)
  }

  /** A report is a line of the two forms about one of the links, and of a line that
      is not, nothing is taken. */
  lemma {:induction false} SaidIs(line: string, n: nat, i: nat)
    ensures Said(line, n) == Some((i, true)) <==> i < n && IsOk(line, i)
    ensures Said(line, n) == Some((i, false)) <==> i < n && IsFail(line, i)
  {
    if i < n && IsOk(line, i) {
      OkIsSaid(line, n, i);
    }
    if i < n && IsFail(line, i) {
      FailIsSaid(line, n, i);
    }
    if Said(line, n).Some? {
      SaidIsReport(line, n);
    }
  }

  lemma {:induction false} OkIsSaid(line: string, n: nat, i: nat)
    requires i < n && IsOk(line, i)
    ensures Said(line, n) == Some((i, true))
  {
    var d :| IsNumeral(d, i) && '\t' !in d && line == "ok" + "\t" + d;
    NumeralIsRead(d, i);
    CutAt("ok", '\t', d);
    CutNone(d, '\t');
  }

  lemma {:induction false} FailIsSaid(line: string, n: nat, i: nat)
    requires i < n && IsFail(line, i)
    ensures Said(line, n) == Some((i, false))
  {
    var d, message :| IsNumeral(d, i) && '\t' !in d && line == "fail" + "\t" + (d + "\t" + message);
    NumeralIsRead(d, i);
    CutAt("fail", '\t', d + "\t" + message);
    CutAt(d, '\t', message);
  }

  lemma {:induction false} SaidIsReport(line: string, n: nat)
    requires Said(line, n).Some?
    ensures var (i, changed) := Said(line, n).value; i < n && if changed then IsOk(line, i) else IsFail(line, i)
  {
    CutIs(line, '\t');
    var (a, rest) := Cut(line, '\t').value;
    CutNone(rest, '\t');
    if Cut(rest, '\t').Some? {
      CutIs(rest, '\t');
      var (b, c) := Cut(rest, '\t').value;
      ReadIsNumeral(b, Said(line, n).value.0);
      assert line == "fail" + "\t" + (b + "\t" + c);
    } else {
      ReadIsNumeral(rest, Said(line, n).value.0);
      assert line == "ok" + "\t" + rest;
    }
  }

  /** What the first of the lines about link i says of it. */
  function Verdict(lines: seq<string>, n: nat, i: nat): Option<bool> {
    if lines == [] then None
    else
      var m := |lines| - 1;
      var earlier := Verdict(lines[..m], n, i);
      if earlier.Some? then earlier
      else match Said(lines[m], n)
        case None => None
        case Some((j, changed)) => if j == i then Some(changed) else None
  }

  /** The script's own lines, in any order, any of them lost, among any lines
      that are no report: a link is reported changed or not as it was, and
      unknown only when its own line is missing. */
  ghost predicate PrintedBy(lines: seq<string>, changed: seq<bool>) {
    forall line :: line in lines ==> Said(line, |changed|) == None || exists i: nat, message: string ::
                                                                        i < |changed| && line == ReportLine(i, changed[i], message)
  }

  lemma {:induction false} ReportIsTrue(lines: seq<string>, changed: seq<bool>, i: nat)
    requires PrintedBy(lines, changed) && i < |changed|
    ensures Verdict(lines, |changed|, i) == None || Verdict(lines, |changed|, i) == Some(changed[i])
    ensures (exists message :: ReportLine(i, changed[i], message) in lines) ==> Verdict(lines, |changed|, i).Some?
  {
    if lines != [] {
      var m, n := |lines| - 1, |changed|;
      TakeOneMore(lines, m);
      assert lines[..m + 1] == lines && lines[m] in lines;
      ReportIsTrue(lines[..m], changed, i);
      if Said(lines[m], n).Some? {
        var j: nat, message :| j < n && lines[m] == ReportLine(j, changed[j], message);
        ReportLineSays(j, changed[j], message, n);
      }
      forall message | ReportLine(i, changed[i], message) in lines ensures Verdict(lines, n, i).Some? {
        if ReportLine(i, changed[i], message) == lines[m] {
          ReportLineSays(i, changed[i], message, n);
        }
      }
    }
  }

  /** What became of one change: nothing while it is not tried. */
  datatype Step = Untried | Set | Sent | Failed | Unknown | NotSent | Unreachable | Removed | Cleared

  function ResultOf(verdict: Option<bool>, done: Step): Step {
    match verdict
    case None => Unknown
    case Some(changed) => if changed then done else Failed
  }

  datatype BootLink = BootLink(node: string, address: string, path: string, persistent: bool, result: Step)

  /** What the report leaves the links as. */
  function Reported(links: seq<BootLink>, lines: seq<string>, done: Step): (r: seq<BootLink>)
    ensures |r| == |links|
  {
    seq(|links|, i requires 0 <= i < |links| => links[i].(result := ResultOf(Verdict(lines, |links|, i), done)))
  }

  predicate Speaks(line: string, n: nat, i: nat) {
    Said(line, n) == Some((i, true)) || Said(line, n) == Some((i, false))
  }

  /** A line says this of link i, and none before it says anything. */
  ghost predicate FirstSays(lines: seq<string>, n: nat, i: nat, changed: bool) {
    exists k :: 0 <= k < |lines| && Said(lines[k], n) == Some((i, changed))
                && forall m :: 0 <= m < k ==> !Speaks(lines[m], n, i)
  }

  lemma {:induction false} VerdictIs(lines: seq<string>, n: nat, i: nat)
    ensures Verdict(lines, n, i) == None <==> forall k :: 0 <= k < |lines| ==> !Speaks(lines[k], n, i)
    ensures Verdict(lines, n, i).Some? ==> FirstSays(lines, n, i, Verdict(lines, n, i).value)
  {
    if lines != [] {
      var m := |lines| - 1;
      var front := lines[..m];
      VerdictIs(front, n, i);
      assert forall k :: 0 <= k < m ==> front[k] == lines[k];
      if Verdict(front, n, i).Some? {
        var changed := Verdict(front, n, i).value;
        var k :| 0 <= k < m && Said(front[k], n) == Some((i, changed)) && forall j :: 0 <= j < k ==> !Speaks(front[j], n, i);
        assert Said(lines[k], n) == Some((i, changed));
      }
    }
  }

  lemma {:induction false} FirstSaysOnce(lines: seq<string>, n: nat, i: nat)
    ensures !(FirstSays(lines, n, i, true) && FirstSays(lines, n, i, false))
  {
  }

  /** A link is done, or failed, as the first line about it says, and unknown when
      there is none; nothing else of it changes. */
  lemma {:induction false} ReportedIs(links: seq<BootLink>, lines: seq<string>, done: Step, i: nat)
    requires i < |links| && done != Unknown && done != Failed
    ensures var r, n := Reported(links, lines, done)[i], |links|;
            && (r.result == done <==> FirstSays(lines, n, i, true))
            && (r.result == Failed <==> FirstSays(lines, n, i, false))
            && (r.result == Unknown <==> forall k :: 0 <= k < |lines| ==> !Speaks(lines[k], n, i))
            && r == links[i].(result := r.result)
  {
    VerdictIs(lines, |links|, i);
    FirstSaysOnce(lines, |links|, i);
  }

  predicate AllAre(links: seq<BootLink>, result: Step) {
    forall i :: 0 <= i < |links| ==> links[i].result == result
  }

  function NodesWith(links: seq<BootLink>, result: Step): seq<string> {
    if links == [] then []
    else
      var m := |links| - 1;
      NodesWith(links[..m], result) + if links[m].result == result then [links[m].node] else []
  }

  ghost function Being(result: Step): BootLink -> bool {
    (link: BootLink) => link.result == result
  }

  ghost function ByNode(): (BootLink, string) -> bool {
    (link: BootLink, node: string) => node == link.node
  }

  lemma {:induction false} NodesWithAre(links: seq<BootLink>, result: Step)
    ensures Selects(links, NodesWith(links, result), Being(result), ByNode())
  {
    if links != [] {
      var m := |links| - 1;
      var nodes := NodesWith(links[..m], result);
      NodesWithAre(links[..m], result);
      SelectsLast(links[..m], nodes, Being(result), ByNode(), links[m], links[m].node);
      assert links[..m] + [links[m]] == links && nodes + [] == nodes;
    }
  }

  lemma {:induction false} SomeWith(links: seq<BootLink>, result: Step)
    ensures NodesWith(links, result) != [] <==> exists i :: 0 <= i < |links| && links[i].result == result
  {
    if links != [] {
      SomeWith(links[..|links| - 1], result);
    }
  }

  /** The links that failed, and those the report says nothing of. */
  datatype LinkError = LinkError(failed: seq<string>, unknown: seq<string>)

  /** One line of the report taken in: the first about a link stands. */
  method TakeLine(links: array<BootLink>, line: string, done: Step, ghost asked: seq<BootLink>, ghost before: seq<string>)
    requires done != Unknown
    requires |asked| == links.Length && links[..] == Reported(asked, before, done)
    modifies links
    ensures links[..] == Reported(asked, before + [line], done)
  {
    ghost var lines, was, n := before + [line], links[..], links.Length;
    assert lines[..|lines| - 1] == before;
    assert forall j :: 0 <= j < n ==> links[j] == was[j];
    var said := Said(line, links.Length);
    if said.Some? {
      var (i, changed) := said.value;
      if links[i].result == Unknown {
        links[i] := links[i].(result := if changed then done else Failed);
      }
      assert forall j :: 0 <= j < n && j != i ==> Verdict(lines, n, j) == Verdict(before, n, j);
    } else {
      assert forall j :: 0 <= j < n ==> Verdict(lines, n, j) == Verdict(before, n, j);
    }
    assert forall j :: 0 <= j < n ==> links[j] == Reported(asked, lines, done)[j];
  }

  /** Every link is unknown until the report names it. */
  method NotReported(links: array<BootLink>, ghost done: Step)
    modifies links
    ensures links[..] == Reported(old(links[..]), [], done)
  {
    for i := 0 to links.Length
      invariant forall j :: 0 <= j < i ==> links[j] == old(links[j]).(result := Unknown)
      invariant forall j :: i <= j < links.Length ==> links[j] == old(links[j])
    {
      links[i] := links[i].(result := Unknown);
    }
    assert forall j :: 0 <= j < links.Length ==> links[j] == Reported(old(links[..]), [], done)[j];
  }

  /** `runLinkScript`, given what the host printed: nothing when it could not be
      reached. */
  method RunLinkScript(links: array<BootLink>, output: Option<seq<string>>, done: Step)
    returns (err: Option<LinkError>)
    requires done != Unknown && done != Failed
    modifies links
    ensures links[..] == Reported(old(links[..]), if output.Some? then output.value else [], done)
    ensures err.None? <==> AllAre(links[..], done)
    ensures err.Some? ==> err.value == LinkError(NodesWith(links[..], Failed), NodesWith(links[..], Unknown))
    ensures err.Some? ==> Selects(links[..], err.value.failed, Being(Failed), ByNode())
    ensures err.Some? ==> Selects(links[..], err.value.unknown, Being(Unknown), ByNode())
  {
    ghost var asked := links[..];
    NotReported(links, done);
    if output.Some? {
      var lines := output.value;
      assert lines[..0] == [];
      for k := 0 to |lines|
        invariant links[..] == Reported(asked, lines[..k], done)
      {
        TakeOneMore(lines, k);
        TakeLine(links, lines[k], done, asked, lines[..k]);
      }
      assert lines[..|lines|] == lines;
    }
    err := Failures(links, done);
    NodesWithAre(links[..], Failed);
    NodesWithAre(links[..], Unknown);
  }

  method Failures(links: array<BootLink>, done: Step) returns (err: Option<LinkError>)
    requires done != Unknown && done != Failed
    requires forall i :: 0 <= i < links.Length ==> links[i].result in {done, Failed, Unknown}
    ensures err.None? <==> AllAre(links[..], done)
    ensures err.Some? ==> err.value == LinkError(NodesWith(links[..], Failed), NodesWith(links[..], Unknown))
  {
    var failed, unknown := [], [];
    for i := 0 to links.Length
      invariant failed == NodesWith(links[..i], Failed) && unknown == NodesWith(links[..i], Unknown)
    {
      assert links[..i + 1][..i] == links[..i];
      if links[i].result == Failed {
        failed := failed + [links[i].node];
      } else if links[i].result == Unknown {
        unknown := unknown + [links[i].node];
      }
    }
    assert links[..links.Length] == links[..];
    SomeWith(links[..], Failed);
    SomeWith(links[..], Unknown);
    return if failed == [] && unknown == [] then None else Some(LinkError(failed, unknown));
  }

  datatype Config = Config(root: string, suffix: string)

  /** `linkName`. */
  function LinkName(config: Config, link: BootLink): string {
    config.root + "/" + link.address + if link.persistent then config.suffix else ""
  }

  function WriteRecord(config: Config, links: seq<BootLink>, i: nat): seq<string>
    requires i < |links|
  {
    [Itoa(i), links[i].path, LinkName(config, links[i])]
  }

  function RemoveRecord(config: Config, links: seq<BootLink>, i: nat): seq<string>
    requires i < |links|
  {
    var once := config.root + "/" + links[i].address;
    [Itoa(i), once, if config.suffix != "" then once + config.suffix else ""]
  }

  /** Removing names the two links a node can have, whichever was written, so what was
      written is removed; and in both records the link of a node comes with its place
      in the list, by which the report tells it. */
  lemma {:induction false} RemovesWhatWasWritten(config: Config, links: seq<BootLink>, i: nat)
    requires i < |links| && (links[i].persistent ==> config.suffix != "")
    ensures var w, r := WriteRecord(config, links, i), RemoveRecord(config, links, i);
            && |w| == |r| == 3 && Atoi(w[0]) == Atoi(r[0]) == Some(i) && w[1] == links[i].path
            && w[2] == (if links[i].persistent then r[2] else r[1])
            && r[1] == config.root + "/" + links[i].address
            && r[2] == if config.suffix == "" then "" else r[1] + config.suffix
  {
    AtoiItoa(i);
    assert links[i].persistent || config.root + "/" + links[i].address + "" == config.root + "/" + links[i].address;
  }

  /** Two nodes have the same link only if they have the same address. */
  lemma {:induction false} OneLinkAnAddress(config: Config, a: BootLink, b: BootLink)
    requires a.persistent == b.persistent && LinkName(config, a) == LinkName(config, b)
    ensures a.address == b.address
  {
    var base := config.root + "/";
    var suffix := if a.persistent then config.suffix else "";
    var s, t := LinkName(config, a), LinkName(config, b);
    assert s == base + a.address + suffix && t == base + b.address + suffix;
    assert |a.address| == |b.address|;
    assert s[|base|..|s| - |suffix|] == a.address && t[|base|..|t| - |suffix|] == b.address;
  }

  function WriteRecords(config: Config, links: seq<BootLink>): seq<seq<string>> {
    seq(|links|, i requires 0 <= i < |links| => WriteRecord(config, links, i))
  }

  function RemoveRecords(config: Config, links: seq<BootLink>): seq<seq<string>> {
    seq(|links|, i requires 0 <= i < |links| => RemoveRecord(config, links, i))
  }

  /** What a script that is sent these records leaves the links as: untouched
      when one of the records is refused. */
  function After(records: seq<seq<string>>, links: seq<BootLink>, output: Option<seq<string>>, done: Step): (r: seq<BootLink>)
    ensures |r| == |links|
  {
    if Wellformed(records) then Reported(links, if output.Some? then output.value else [], done) else links
  }

  /** The records sent to the host, and its report taken in: false when not every
      link is known to be done. */
  method SendLinks(records: seq<seq<string>>, links: array<BootLink>, output: Option<seq<string>>, done: Step)
    returns (ok: bool)
    requires done in {Set, Removed} && forall r :: r in records ==> |r| == 3
    modifies links
    ensures links[..] == After(records, old(links[..]), output, done)
    ensures ok <==> Wellformed(records) && AllAre(links[..], done)
  {
    var stdin := LinkRecords(records);
    if stdin.None? {
      return false;
    }
    var err := RunLinkScript(links, output, done);
    return err.None?;
  }

  /** `writeBootLinks`. */
  method WriteBootLinks(config: Config, links: array<BootLink>, output: Option<seq<string>>) returns (ok: bool)
    modifies links
    ensures links[..] == After(WriteRecords(config, old(links[..])), old(links[..]), output, Set)
    ensures ok <==> Wellformed(WriteRecords(config, old(links[..]))) && AllAre(links[..], Set)
  {
    ok := SendLinks(WriteRecords(config, links[..]), links, output, Set);
  }

  /** `removeBootLinks`. */
  method RemoveBootLinks(config: Config, links: array<BootLink>, output: Option<seq<string>>) returns (ok: bool)
    modifies links
    ensures links[..] == After(RemoveRecords(config, old(links[..])), old(links[..]), output, Removed)
    ensures ok <==> Wellformed(RemoveRecords(config, old(links[..]))) && AllAre(links[..], Removed)
  {
    ok := SendLinks(RemoveRecords(config, links[..]), links, output, Removed);
  }
}
