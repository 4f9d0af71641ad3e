/** Shell words: writing one so that a POSIX shell reads it back, and reading one
    without a shell (internal/shellquote, internal/cli/provision.go). */
module ShellWords {
  import opened Options
  import opened Text

  const QUOTE: char := '\''

  predicate SafeChar(c: char) {
    'a' <= c <= 'z' || 'A' <= c <= 'Z' || '0' <= c <= '9' || c in {'-', '_', '.', '/', ':', '=', '+', ',', '@', '%'}
  }

  predicate Safe(s: string) {
    s != "" && forall i :: 0 <= i < |s| ==> SafeChar(s[i])
  }

  /** A text within single quotes, each single quote in it written outside them. */
  function Body(s: string): string {
    if s == "" then "" else (if s[0] == QUOTE then "'\\''" else [s[0]]) + Body(s[1..])
  }

  /** `Quote`. */
  function Quote(s: string): string {
    if Safe(s) then s else "'" + Body(s) + "'"
  }

  lemma {:induction false} BodyLonger(s: string)
    ensures |Body(s)| >= |s|
  {
    if s != "" {
      BodyLonger(s[1..]);
    }
  }

  /** `Quote`, character by character. */
  method WriteQuoted(s: string) returns (b: string)
    ensures b == Quote(s)
    ensures b == s <==> s != "" && forall c :: c in s ==>
                                      'a' <= c <= 'z' || 'A' <= c <= 'Z' || '0' <= c <= '9' || c in "-_./:=+,@%"
  {
    if Safe(s) {
      return s;
    }
    b := "'";
    for i := 0 to |s|
      invariant b + Body(s[i..]) == "'" + Body(s)
    {
      DropOne(s, i);
      if s[i] == QUOTE {
        Assoc(b, "'\\''", Body(s[i + 1..]));
        b := b + "'\\''";
      } else {
        Assoc(b, [s[i]], Body(s[i + 1..]));
        b := b + [s[i]];
      }
    }
    assert Body(s[|s|..]) == "";
    b := b + "'";
    BodyLonger(s);
    assert s == "" || exists c :: c in s && !SafeChar(c);
  }

  // ----- what a shell takes literally -----

  predicate Control(c: char) {
    (c < ' ' && c != '\t') || c == '\U{007F}'
  }

  predicate Blank(c: char) {
    c == ' ' || c == '\t'
  }

  const SPECIAL: set<char> := {'$', '`', ';', '&', '|', '<', '>', '(', ')', '~'}
  const EXPANDED: set<char> := {'$', '`', '\\'}

  /** A piece of a word: a plain character, one after a backslash, or a run within
      single or double quotes. */
  datatype Piece = Plain(c: char) | Escaped(c: char) | Single(text: string) | Double(text: string)

  predicate Literal(p: Piece) {
    match p
    case Plain(c) => !Control(c) && !Blank(c) && c !in {QUOTE, '"', '\\'} && c !in SPECIAL
    case Escaped(c) => true
    case Single(text) => QUOTE !in text
    case Double(text) => '"' !in text && forall x :: x in text ==> x !in EXPANDED
  }

  function Written(p: Piece): string {
    match p
    case Plain(c) => [c]
    case Escaped(c) => "\\" + [c]
    case Single(text) => "'" + text + "'"
    case Double(text) => "\"" + text + "\""
  }

  /** A character stands for itself outside quotes exactly when it is no control
      character, no blank, and none of those a shell gives a meaning there (sections
      2.2 and 2.6.1 of the POSIX Shell Command Language). */
  lemma {:induction false} PlainIs(c: char)
    ensures Literal(Plain(c)) <==> c as int > 32 && c as int != 127 && c !in "|&;<>()$`\\\"'~"
  {
  }

  /** What the shell makes of a piece. */
  function Meant(p: Piece): string {
    match p
    case Plain(c) => [c]
    case Escaped(c) => [c]
    case Single(text) => text
    case Double(text) => text
  }

  function AllWritten(pieces: seq<Piece>): string {
    if pieces == [] then "" else Written(pieces[0]) + AllWritten(pieces[1..])
  }

  function AllMeant(pieces: seq<Piece>): string {
    if pieces == [] then "" else Meant(pieces[0]) + AllMeant(pieces[1..])
  }

  predicate AllLiteral(pieces: seq<Piece>) {
    forall p :: p in pieces ==> Literal(p)
  }

  function SkipBlanks(s: string): string {
    if s != "" && Blank(s[0]) then SkipBlanks(s[1..]) else s
  }

  /** What may follow the word: nothing, or blanks and perhaps a comment. */
  predicate Tail(s: string) {
    s == "" || (Blank(s[0]) && (SkipBlanks(s) == "" || SkipBlanks(s)[0] == '#'))
  }

  /** The first piece of a word and what follows it, none at its end. */
  datatype Scan = Next(piece: Piece, rest: string) | End | Refused

  function ScanOne(s: string): Scan {
    if s == "" || Blank(s[0]) then End
    else if Control(s[0]) then Refused
    else if s[0] == QUOTE then
      match Cut(s[1..], QUOTE)
      case None => Refused
      case Some((text, rest)) => Next(Single(text), rest)
    else if s[0] == '"' then
      match Cut(s[1..], '"')
      case None => Refused
      case Some((text, rest)) => if exists i :: 0 <= i < |text| && text[i] in EXPANDED then Refused else Next(Double(text), rest)
    else if s[0] == '\\' then
      if |s| == 1 then Refused else Next(Escaped(s[1]), s[2..])
    else if s[0] in SPECIAL then Refused
    else Next(Plain(s[0]), s[1..])
  }

  lemma {:induction false} ScanShorter(s: string)
    ensures ScanOne(s).Next? ==> |ScanOne(s).rest| < |s|
  {
    if s != "" && (s[0] == QUOTE || s[0] == '"') && Cut(s[1..], s[0]).Some? {
      CutIs(s[1..], s[0]);
    }
  }

  /** The word at the start of a text, when a shell would take it literally and do
      no more. */
  function Value(s: string): Option<string>
    decreases |s|
  {
    ScanShorter(s);
    match ScanOne(s)
    case Refused => None
    case End => if Tail(s) then Some("") else None
    case Next(piece, rest) =>
      match Value(rest)
      case None => None
      case Some(v) => Some(Meant(piece) + v)
  }

  lemma {:induction false} ScanIs(s: string)
    requires ScanOne(s).Next?
    ensures Literal(ScanOne(s).piece) && s == Written(ScanOne(s).piece) + ScanOne(s).rest
  {
    if s[0] == QUOTE || s[0] == '"' {
      CutIs(s[1..], s[0]);
      var (text, rest) := Cut(s[1..], s[0]).value;
      assert s == [s[0]] + s[1..] && s[1..] == text + [s[0]] + rest;
      assert s == [s[0]] + text + [s[0]] + rest;
    }
  }

  lemma {:induction false} ScanWritten(p: Piece, rest: string)
    requires Literal(p)
    ensures ScanOne(Written(p) + rest) == Next(p, rest)
  {
    var s := Written(p) + rest;
    match p {
      case Single(text) =>
        assert s[1..] == text + [QUOTE] + rest;
        CutAt(text, QUOTE, rest);
      case Double(text) =>
        assert s[1..] == text + ['"'] + rest;
        CutAt(text, '"', rest);
      case Plain(_) => assert s[1..] == rest;
      case Escaped(_) => assert s[2..] == rest;
    }
  }

  /** Any pieces, written one after the other and followed by what may follow a
      word, are read as what they mean together. */
  lemma {:induction false} ReadsPieces(pieces: seq<Piece>, tail: string)
    requires AllLiteral(pieces) && Tail(tail)
    ensures Value(AllWritten(pieces) + tail) == Some(AllMeant(pieces))
  {
    if pieces == [] {
      assert "" + tail == tail;
    } else {
      var rest := AllWritten(pieces[1..]) + tail;
      assert pieces[0] in pieces;
      Assoc(Written(pieces[0]), AllWritten(pieces[1..]), tail);
      ScanWritten(pieces[0], rest);
      ReadsPieces(pieces[1..], tail);
    }
  }

  /** And nothing else is read. */
  lemma {:induction false} ReadIsPieces(s: string) returns (pieces: seq<Piece>, tail: string)
    requires Value(s).Some?
    ensures AllLiteral(pieces) && Tail(tail) && s == AllWritten(pieces) + tail && Value(s).value == AllMeant(pieces)
    decreases |s|
  {
    match ScanOne(s) {
      case End =>
        pieces, tail := [], s;
        assert s == "" + s;
      case Next(piece, rest) =>
        ScanShorter(s);
        ScanIs(s);
        var more;
        more, tail := ReadIsPieces(rest);
        pieces := [piece] + more;
        assert pieces[1..] == more;
        Assoc(Written(piece), AllWritten(more), tail);
      case Refused => assert false;
    }
  }

  /** `shellLiteral`. */
  method ShellLiteral(s: string) returns (value: Option<string>)
    ensures value == Value(s)
  {
    var b, i := "", 0;
    assert s[0..] == s;
    Whole(Value(s));
    while i < |s| && !Blank(s[i])
      invariant 0 <= i <= |s|
      invariant Value(s) == Prefixed(b, Value(s[i..]))
      decreases |s| - i
    {
      var c := s[i];
      DropOne(s, i);
      ghost var from := i;
      if Control(c) {
        return None;
      } else if c == QUOTE {
        var cut := Cut(s[i + 1..], QUOTE);
        if cut.None? {
          return None;
        }
        b, i := TakeRun(s, i, b, cut.value.0, cut.value.1);
      } else if c == '"' {
        var cut := Cut(s[i + 1..], '"');
        if cut.None? {
          return None;
        }
        if exists j :: 0 <= j < |cut.value.0| && cut.value.0[j] in EXPANDED {
          return None;
        }
        b, i := TakeRun(s, i, b, cut.value.0, cut.value.1);
      } else if c == '\\' {
        if i + 1 == |s| {
          return None;
        }
        assert s[i..][1] == s[i + 1] && s[i..][2..] == s[i + 2..];
        Joined(b, [s[i + 1]], Value(s[i + 2..]));
        b, i := b + [s[i + 1]], i + 2;
      } else if c in SPECIAL {
        return None;
      } else {
        Joined(b, [c], Value(s[i + 1..]));
        b, i := b + [c], i + 1;
      }
    }
    assert ScanOne(s[i..]).End?;
    var rest := SkipBlanks(s[i..]);
    if rest != "" && rest[0] != '#' {
      return None;
    }
    assert b + "" == b;
    return Some(b);
  }

  /** A run within quotes taken whole, and where it ends. */
  method TakeRun(s: string, i: nat, b: string, text: string, ghost rest: string) returns (b': string, i': nat)
    requires i < |s| && s[i] in {QUOTE, '"'} && Cut(s[i + 1..], s[i]) == Some((text, rest))
    ensures i < i' <= |s| && s[i'..] == rest
    ensures b' == b + text
    ensures Prefixed(b', Value(rest)) == Prefixed(b, Prefixed(text, Value(rest)))
  {
    CutIs(s[i + 1..], s[i]);
    assert s[i + 1..] == text + [s[i]] + rest;
    b', i' := b + text, i + |text| + 2;
    assert s[i'..] == s[i + 1..][|text| + 1..];
    assert (text + [s[i]] + rest)[|text| + 1..] == rest;
    Joined(b, text, Value(rest));
  }

  function Prefixed(b: string, v: Option<string>): Option<string> {
    match v
    case None => None
    case Some(text) => Some(b + text)
  }

  lemma {:induction false} Whole(v: Option<string>)
    ensures Prefixed("", v) == v
  {
    if v.Some? {
      assert "" + v.value == v.value;
    }
  }

  lemma {:induction false} Joined(a: string, b: string, v: Option<string>)
    ensures Prefixed(a + b, v) == Prefixed(a, Prefixed(b, v))
  {
    if v.Some? {
      Assoc(a, b, v.value);
    }
  }

  // ----- a quoted word is read back -----

  /** The single-quoted runs a text is written in. */
  function Runs(s: string): seq<Piece>
    decreases |s|
  {
    CutNone(s, QUOTE);
    match Cut(s, QUOTE)
    case None => [Single(s)]
    case Some((text, rest)) =>
      CutIs(s, QUOTE);
      [Single(text), Escaped(QUOTE)] + Runs(rest)
  }

  lemma {:induction false} BodyAppend(a: string, b: string)
    ensures Body(a + b) == Body(a) + Body(b)
  {
    if a == "" {
      assert a + b == b;
    } else {
      BodyAppend(a[1..], b);
      assert (a + b)[1..] == a[1..] + b;
      Assoc(if a[0] == QUOTE then "'\\''" else [a[0]], Body(a[1..]), Body(b));
    }
  }

  lemma {:induction false} BodyPlain(s: string)
    requires QUOTE !in s
    ensures Body(s) == s
  {
    if s != "" {
      BodyPlain(s[1..]);
      assert s == [s[0]] + s[1..];
    }
  }

  lemma {:induction false} OneOnly(p: Piece)
    ensures AllWritten([p]) == Written(p) && AllMeant([p]) == Meant(p)
  {
    assert [p][1..] == [] && Written(p) + "" == Written(p) && Meant(p) + "" == Meant(p);
  }

  lemma {:induction false} RunsAre(s: string)
    ensures AllLiteral(Runs(s)) && AllWritten(Runs(s)) == "'" + Body(s) + "'" && AllMeant(Runs(s)) == s
    decreases |s|
  {
    CutNone(s, QUOTE);
    if Cut(s, QUOTE) == None {
      BodyPlain(s);
      OneOnly(Single(s));
    } else {
      var (text, rest) := Cut(s, QUOTE).value;
      CutIs(s, QUOTE);
      RunsAre(rest);
      RunsOfCut(s, text, rest);
    }
  }

  lemma {:induction false} BodyOfCut(s: string, text: string, rest: string)
    requires s == text + [QUOTE] + rest && QUOTE !in text
    ensures Body(s) == text + ("'\\''" + Body(rest))
  {
    BodyPlain(text);
    Assoc(text, [QUOTE], rest);
    BodyAppend(text, [QUOTE] + rest);
    assert ([QUOTE] + rest)[1..] == rest;
  }

  lemma {:induction false} TwoMore(p: Piece, q: Piece, more: seq<Piece>)
    ensures AllWritten([p, q] + more) == Written(p) + (Written(q) + AllWritten(more))
    ensures AllMeant([p, q] + more) == Meant(p) + (Meant(q) + AllMeant(more))
  {
    var all := [p, q] + more;
    assert all[1..] == [q] + more && all[1..][1..] == more;
  }

  lemma {:induction false} RunsOfCut(s: string, text: string, rest: string)
    requires s == text + [QUOTE] + rest && QUOTE !in text && Runs(s) == [Single(text), Escaped(QUOTE)] + Runs(rest)
    requires AllLiteral(Runs(rest)) && AllWritten(Runs(rest)) == "'" + Body(rest) + "'" && AllMeant(Runs(rest)) == rest
    ensures AllLiteral(Runs(s)) && AllWritten(Runs(s)) == "'" + Body(s) + "'" && AllMeant(Runs(s)) == s
  {
    TwoMore(Single(text), Escaped(QUOTE), Runs(rest));
    Assoc(text, [QUOTE], rest);
    BodyOfCut(s, text, rest);
    OpenThenClosed(text, Body(rest));
  }

  lemma {:induction false} OpenThenClosed(text: string, body: string)
    ensures "'" + (text + ("'\\''" + body)) == Written(Single(text)) + (Written(Escaped(QUOTE)) + ("'" + body))
    ensures "'" + (text + ("'\\''" + body)) + "'" == Written(Single(text)) + (Written(Escaped(QUOTE)) + ("'" + body + "'"))
  {
    var a, b := "'" + text + "'", "\\" + [QUOTE];
    assert "'\\''" + body == "'" + (b + ("'" + body));
    Assoc("'", text, "'" + (b + ("'" + body)));
    Assoc("'" + text, "'", b + ("'" + body));
    Assoc(a, b + ("'" + body), "'");
    Assoc(b, "'" + body, "'");
  }

  function Plains(s: string): (r: seq<Piece>)
    ensures |r| == |s|
  {
    seq(|s|, i requires 0 <= i < |s| => Plain(s[i]))
  }

  lemma {:induction false} PlainsAre(s: string)
    requires forall i :: 0 <= i < |s| ==> SafeChar(s[i])
    ensures AllLiteral(Plains(s)) && AllWritten(Plains(s)) == s && AllMeant(Plains(s)) == s
  {
    if s != "" {
      PlainsAre(s[1..]);
      assert Plains(s)[1..] == Plains(s[1..]);
      assert s == [s[0]] + s[1..];
    }
  }

  /** A quoted word, alone, is read back as it was. */
  lemma {:induction false} QuoteReadsBack(s: string)
    ensures Value(Quote(s)) == Some(s)
  {
    if Safe(s) {
      PlainsAre(s);
      ReadsPieces(Plains(s), "");
      assert s + "" == s;
    } else {
      RunsAre(s);
      ReadsPieces(Runs(s), "");
      assert Quote(s) + "" == Quote(s);
    }
  }

  /** Cut short anywhere within its last quotes, it is refused. */
  lemma {:induction false} OpenQuoteRefused(s: string)
    ensures Value("'" + Body(s)) == None
    decreases |s|
  {
    CutNone(s, QUOTE);
    if Cut(s, QUOTE) == None {
      BodyPlain(s);
      assert ("'" + s)[1..] == s;
    } else {
      var (text, rest) := Cut(s, QUOTE).value;
      CutIs(s, QUOTE);
      OpenQuoteRefused(rest);
      OpenAfterQuote(s, text, rest);
    }
  }

  lemma {:induction false} OpenAfterQuote(s: string, text: string, rest: string)
    requires s == text + [QUOTE] + rest && QUOTE !in text
    requires Value("'" + Body(rest)) == None
    ensures Value("'" + Body(s)) == None
  {
    var open := "'" + Body(rest);
    BodyOfCut(s, text, rest);
    OpenThenClosed(text, Body(rest));
    ScanWritten(Single(text), Written(Escaped(QUOTE)) + open);
    ScanWritten(Escaped(QUOTE), open);
  }
}
