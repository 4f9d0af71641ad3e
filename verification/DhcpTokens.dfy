/** The tokens of a dhcpd configuration (internal/dhcp/dhcp.go). */
module DhcpTokens {
  import opened Options
  import opened Text

  datatype Kind = Word | Quoted | Comment | Semicolon | Open | Close | Comma

  /** A token, the line it starts on, and whether it is the first there. */
  datatype Token = Token(kind: Kind, text: string, line: nat, first: bool)

  const BLANKS: set<char> := {' ', '\t', '\r', '\U{000C}', '\U{000B}'}

  predicate Breaks(c: char) {
    c in BLANKS || c in {'\n', '#', '"', ';', '{', '}', ','}
  }

  function Punctuation(c: char): Option<Kind> {
    if c == ';' then Some(Semicolon)
    else if c == '{' then Some(Open)
    else if c == '}' then Some(Close)
    else if c == ',' then Some(Comma)
    else None
  }

  /** How many characters there are before the end of the line. */
  function LineEnd(s: string): (n: nat)
    ensures n <= |s|
  {
    if s == "" || s[0] == '\n' then 0 else 1 + LineEnd(s[1..])
  }

  /** How many characters the word has that a text begins with. */
  function WordEnd(s: string): (n: nat)
    ensures n <= |s|
  {
    if s == "" || Breaks(s[0]) then 0 else 1 + WordEnd(s[1..])
  }

  /** What a quoted string says: its text, what follows it, and how many lines end
      in it. */
  datatype Quotation = Quotation(text: string, rest: string, lines: nat)

  predicate EscapedAt(s: string) {
    |s| >= 2 && s[0] == '\\' && (s[1] == '"' || s[1] == '\\')
  }

  /** The string whose opening quote a text follows, if it is closed. */
  function QuotedText(s: string): (q: Option<Quotation>)
    ensures q.Some? ==> |q.value.rest| < |s|
  {
    if s == "" then None
    else if s[0] == '"' then Some(Quotation("", s[1..], 0))
    else
      var escaped := EscapedAt(s);
      var c := if escaped then s[1] else s[0];
      match QuotedText(if escaped then s[2..] else s[1..])
      case None => None
      case Some(q) => Some(Quotation([c] + q.text, q.rest, q.lines + if !escaped && c == '\n' then 1 else 0))
  }

  function Before(t: Token, rest: Option<seq<Token>>): Option<seq<Token>> {
    match rest
    case None => None
    case Some(tokens) => Some([t] + tokens)
  }

  /** What a text begins with: the end of a line, a blank, or a token, in which so
      many lines end. */
  datatype Lexeme = End | Newline(rest: string) | Blank(rest: string)
                  | Lexed(kind: Kind, text: string, rest: string, lines: nat) | Unclosed

  function First(s: string): (l: Lexeme)
    ensures l.Newline? || l.Blank? || l.Lexed? ==> |l.rest| < |s|
  {
    if s == "" then End
    else
      var c := s[0];
      if c == '\n' then Newline(s[1..])
      else if c in BLANKS then Blank(s[1..])
      else if c == '#' then
        var n := LineEnd(s);
        Lexed(Comment, TrimSpace(s[1..n]), s[n..], 0)
      else if c == '"' then
        match QuotedText(s[1..])
        case None => Unclosed
        case Some(q) => Lexed(Quoted, q.text, q.rest, q.lines)
      else if Punctuation(c).Some? then Lexed(Punctuation(c).value, [c], s[1..], 0)
      else
        var n := WordEnd(s);
        Lexed(Word, s[..n], s[n..], 0)
  }

  /** The tokens of a text that starts on a line: none when a string in it is not
      closed. */
  function Tokens(s: string, line: nat, first: bool): Option<seq<Token>>
    decreases |s|
  {
    match First(s)
    case End => Some([])
    case Newline(rest) => Tokens(rest, line + 1, true)
    case Blank(rest) => Tokens(rest, line, first)
    case Lexed(kind, text, rest, lines) => Before(Token(kind, text, line, first), Tokens(rest, line + lines, false))
    case Unclosed => None
  }

  // ----- the scan -----

  function Ahead(out: seq<Token>, rest: Option<seq<Token>>): Option<seq<Token>> {
    match rest
    case None => None
    case Some(tokens) => Some(out + tokens)
  }

  lemma {:induction false} AheadOne(out: seq<Token>, t: Token, rest: Option<seq<Token>>)
    ensures Ahead(out, Before(t, rest)) == Ahead(out + [t], rest)
  {
    if rest.Some? {
      Assoc(out, [t], rest.value);
    }
  }

  lemma {:induction false} AheadEnd(out: seq<Token>)
    ensures Ahead(out, Some([])) == Some(out) && Ahead([], Some(out)) == Some(out)
  {
    assert out + [] == out && [] + out == out;
  }

  /** The end of the line. */
  method ScanLine(data: string, from: nat) returns (end: nat)
    requires from <= |data|
    ensures end == from + LineEnd(data[from..])
  {
    end := from;
    while end < |data| && data[end] != '\n'
      invariant from <= end <= |data|
      invariant from + LineEnd(data[from..]) == end + LineEnd(data[end..])
    {
      DropOne(data, end);
      end := end + 1;
    }
  }

  /** The end of the word. */
  method ScanWord(data: string, from: nat) returns (end: nat)
    requires from <= |data|
    ensures end == from + WordEnd(data[from..])
  {
    end := from;
    while end < |data| && !Breaks(data[end])
      invariant from <= end <= |data|
      invariant from + WordEnd(data[from..]) == end + WordEnd(data[end..])
    {
      DropOne(data, end);
      end := end + 1;
    }
  }

  function After(text: string, lines: nat, q: Option<Quotation>): Option<Quotation> {
    match q
    case None => None
    case Some(more) => Some(Quotation(text + more.text, more.rest, lines + more.lines))
  }

  lemma {:induction false} AfterOne(text: string, lines: nat, c: char, n: nat, q: Option<Quotation>)
    ensures After(text, lines, After([c], n, q)) == After(text + [c], lines + n, q)
  {
    if q.Some? {
      Assoc(text, [c], q.value.text);
    }
  }

  /** A quoted string, from after its opening quote. */
  method ScanQuoted(data: string, from: nat) returns (q: Option<Quotation>)
    requires from <= |data|
    ensures q == QuotedText(data[from..])
  {
    var i, b := from, "";
    var lines: nat := 0;
    AfterNothing(QuotedText(data[from..]));
    while true
      invariant from <= i <= |data|
      invariant QuotedText(data[from..]) == After(b, lines, QuotedText(data[i..]))
      decreases |data| - i
    {
      if i >= |data| {
        return None;
      }
      QuotedStep(data, i, b, lines);
      var c := data[i];
      if c == '"' {
        return Some(Quotation(b, data[i + 1..], lines));
      }
      if c == '\\' && i + 1 < |data| && (data[i + 1] == '"' || data[i + 1] == '\\') {
        b, i := b + [data[i + 1]], i + 2;
        continue;
      }
      if c == '\n' {
        lines := lines + 1;
      }
      b, i := b + [c], i + 1;
    }
  }

  /** One character more of a quoted string. */
  lemma {:induction false} QuotedStep(data: string, i: nat, b: string, lines: nat)
    requires i < |data|
    ensures var c, all := data[i], After(b, lines, QuotedText(data[i..]));
            if c == '"' then all == Some(Quotation(b, data[i + 1..], lines))
            else if c == '\\' && i + 1 < |data| && (data[i + 1] == '"' || data[i + 1] == '\\')
            then all == After(b + [data[i + 1]], lines, QuotedText(data[i + 2..]))
            else all == After(b + [c], lines + (if c == '\n' then 1 else 0), QuotedText(data[i + 1..]))
  {
    DropOne(data, i);
    var c, s := data[i], data[i..];
    if c == '"' {
      assert b + "" == b;
    } else {
      assert i + 1 < |data| ==> s[1] == data[i + 1] && s[2..] == data[i + 2..];
      if EscapedAt(s) {
        AfterOne(b, lines, s[1], 0, QuotedText(data[i + 2..]));
      } else {
        AfterOne(b, lines, c, if c == '\n' then 1 else 0, QuotedText(data[i + 1..]));
      }
    }
  }

  lemma {:induction false} AfterNothing(q: Option<Quotation>)
    ensures After("", 0, q) == q
  {
    if q.Some? {
      assert "" + q.value.text == q.value.text;
    }
  }

  lemma {:induction false} RestIsSuffix(s: string)
    requires QuotedText(s).Some?
    ensures var rest := QuotedText(s).value.rest; |rest| <= |s| && s[|s| - |rest|..] == rest
  {
    if s[0] != '"' {
      RestIsSuffix(if EscapedAt(s) then s[2..] else s[1..]);
    }
  }

  /** `tokenize`. */
  method Tokenize(data: string) returns (tokens: Option<seq<Token>>)
    ensures tokens == Tokens(data, 1, true)
  {
    var out, first, i := [], true, 0;
    var line: nat := 1;
    assert data[0..] == data;
    if Tokens(data, 1, true).Some? {
      AheadEnd(Tokens(data, 1, true).value);
    }
    while i < |data|
      invariant 0 <= i <= |data|
      invariant Tokens(data, 1, true) == Ahead(out, Tokens(data[i..], line, first))
      decreases |data| - i
    {
      var c := data[i];
      DropOne(data, i);
      if c == '\n' {
        line, first, i := line + 1, true, i + 1;
      } else if c in BLANKS {
        i := i + 1;
      } else {
        var token, end, lines := Emit(data, i, line, first);
        if token.None? {
          return None;
        }
        AheadOne(out, token.value, Tokens(data[end..], line + lines, false));
        out, line, first, i := out + [token.value], line + lines, false, end;
      }
    }
    AheadEnd(out);
    return Some(out);
  }

  /** The token at i, and where what follows it begins. */
  method Emit(data: string, i: nat, line: nat, first: bool) returns (token: Option<Token>, end: nat, lines: nat)
    requires i < |data| && data[i] != '\n' && data[i] !in BLANKS
    ensures i <= end <= |data|
    ensures Tokens(data[i..], line, first)
            == if token.None? then None else Before(token.value, Tokens(data[end..], line + lines, false))
    ensures token.Some? ==> i < end
  {
    var kind, text;
    kind, text, end, lines := Lex(data, i);
    token := if kind.None? then None else Some(Token(kind.value, text, line, first));
  }

  /** The token at i, and where it ends: none when it is a string that is not
      closed. */
  method Lex(data: string, i: nat) returns (kind: Option<Kind>, text: string, end: nat, lines: nat)
    requires i < |data| && data[i] != '\n' && data[i] !in BLANKS
    ensures i <= end <= |data|
    ensures First(data[i..]) == if kind.None? then Unclosed else Lexed(kind.value, text, data[end..], lines)
  {
    var c := data[i];
    DropOne(data, i);
    lines := 0;
    if c == '#' {
      end := ScanLine(data, i);
      SliceAt(data, i, end);
      kind, text := Some(Comment), TrimSpace(data[i + 1..end]);
    } else if c == '"' {
      var q := ScanQuoted(data, i + 1);
      if q.None? {
        return None, "", i, 0;
      }
      RestIsSuffix(data[i + 1..]);
      kind, text, end, lines := Some(Quoted), q.value.text, |data| - |q.value.rest|, q.value.lines;
    } else if Punctuation(c).Some? {
      kind, text, end := Punctuation(c), [c], i + 1;
    } else {
      end := ScanWord(data, i);
      SliceAt(data, i, end);
      kind, text := Some(Word), data[i..end];
    }
  }

  lemma {:induction false} SliceAt(data: string, i: nat, end: nat)
    requires i < end <= |data|
    ensures var n := end - i;
            data[i..][..n] == data[i..end] && data[i..][1..n] == data[i + 1..end] && data[i..][n..] == data[end..]
  {
  }

  // ----- one text after another -----

  function Lines(s: string): nat {
    if s == "" then 0 else (if s[0] == '\n' then 1 else 0) + Lines(s[1..])
  }

  lemma {:induction false} LinesAppend(a: string, b: string)
    ensures Lines(a + b) == Lines(a) + Lines(b)
  {
    if a == "" {
      assert a + b == b;
    } else {
      assert (a + b)[1..] == a[1..] + b;
      LinesAppend(a[1..], b);
    }
  }

  function Shifted(tokens: seq<Token>, lines: nat): (r: seq<Token>)
    ensures |r| == |tokens|
  {
    seq(|tokens|, i requires 0 <= i < |tokens| => tokens[i].(line := tokens[i].line + lines))
  }

  function ShiftedAll(tokens: Option<seq<Token>>, lines: nat): Option<seq<Token>> {
    match tokens
    case None => None
    case Some(t) => Some(Shifted(t, lines))
  }

  lemma {:induction false} ShiftedBefore(t: Token, rest: Option<seq<Token>>, lines: nat)
    ensures ShiftedAll(Before(t, rest), lines) == Before(t.(line := t.line + lines), ShiftedAll(rest, lines))
  {
    if rest.Some? {
      assert Shifted([t] + rest.value, lines) == [t.(line := t.line + lines)] + Shifted(rest.value, lines);
    }
  }

  /** A text further down has the same tokens, as many lines further down. */
  lemma {:induction false} TokensShift(s: string, line: nat, first: bool, lines: nat)
    ensures Tokens(s, line + lines, first) == ShiftedAll(Tokens(s, line, first), lines)
    decreases |s|
  {
    match First(s) {
      case End => assert Shifted([], lines) == [];
      case Newline(rest) => TokensShift(rest, line + 1, true, lines);
      case Blank(rest) => TokensShift(rest, line, first, lines);
      case Lexed(kind, text, rest, n) =>
        TokensShift(rest, line + n, false, lines);
        ShiftedBefore(Token(kind, text, line, first), Tokens(rest, line + n, false), lines);
      case Unclosed =>
    }
  }

  lemma {:induction false} LineEndOf(a: string, b: string)
    ensures LineEnd(a + "\n" + b) == LineEnd(a) && Lines(a[..LineEnd(a)]) == 0
  {
    if a == "" {
      assert a + "\n" + b == "\n" + b;
    } else {
      assert (a + "\n" + b)[1..] == a[1..] + "\n" + b;
      LineEndOf(a[1..], b);
      if a[0] != '\n' {
        assert a[..LineEnd(a)][1..] == a[1..][..LineEnd(a[1..])];
      }
    }
  }

  lemma {:induction false} WordEndOf(a: string, b: string)
    ensures WordEnd(a + "\n" + b) == WordEnd(a) && Lines(a[..WordEnd(a)]) == 0
  {
    if a == "" {
      assert a + "\n" + b == "\n" + b;
    } else {
      assert (a + "\n" + b)[1..] == a[1..] + "\n" + b;
      WordEndOf(a[1..], b);
      if !Breaks(a[0]) {
        assert a[..WordEnd(a)][1..] == a[1..][..WordEnd(a[1..])];
      }
    }
  }

  lemma {:induction false} QuotedOf(a: string, b: string)
    requires QuotedText(a).Some?
    ensures var q := QuotedText(a).value;
            QuotedText(a + b) == Some(q.(rest := q.rest + b)) && Lines(a) == q.lines + Lines(q.rest)
  {
    assert (a + b)[1..] == a[1..] + b;
    if a[0] != '"' {
      var escaped := EscapedAt(a);
      assert |a| >= 2;
      assert EscapedAt(a + b) == escaped;
      if escaped {
        assert (a + b)[2..] == a[2..] + b;
        assert a[1..][1..] == a[2..];
        QuotedOf(a[2..], b);
      } else {
        QuotedOf(a[1..], b);
      }
    }
  }

  lemma {:induction false} LinesRest(a: string, n: nat)
    requires n <= |a| && Lines(a[..n]) == 0
    ensures Lines(a[n..]) == Lines(a)
  {
    LinesAppend(a[..n], a[n..]);
    assert a[..n] + a[n..] == a;
  }

  lemma {:induction false} DropOf(a: string, b: string, n: nat)
    requires n <= |a|
    ensures (a + "\n" + b)[n..] == a[n..] + "\n" + b && (a + "\n" + b)[..n] == a[..n]
  {
  }

  /** What a text begins with is not changed by a text below it. */
  lemma {:induction false} FirstWithMore(a: string, b: string)
    requires !First(a).End? && !First(a).Unclosed?
    ensures First(a + "\n" + b) == First(a).(rest := First(a).rest + "\n" + b)
  {
    var s, c := a + "\n" + b, a[0];
    assert s[0] == c;
    DropOf(a, b, 1);
    if c == '"' {
      QuotedOf(a[1..], "\n" + b);
      var q := QuotedText(a[1..]).value;
      Assoc(q.rest, "\n", b);
      Assoc(a[1..], "\n", b);
    } else if c == '#' {
      LineEndOf(a, b);
      DropOf(a, b, LineEnd(a));
      assert s[1..LineEnd(a)] == a[1..LineEnd(a)];
    } else if !Breaks(c) {
      WordEndOf(a, b);
      DropOf(a, b, WordEnd(a));
    }
  }

  lemma {:induction false} FirstLines(s: string)
    requires First(s).Lexed?
    ensures Lines(s) == First(s).lines + Lines(First(s).rest)
  {
    if s[0] == '"' {
      QuotedOf(s[1..], "");
    } else if s[0] == '#' {
      LineEndOf(s, "");
      LinesRest(s, LineEnd(s));
    } else if !Breaks(s[0]) {
      WordEndOf(s, "");
      LinesRest(s, WordEnd(s));
    }
  }

  /** Two texts, one below the other, have the tokens of both. */
  lemma {:induction false} TokensOfBoth(a: string, b: string, line: nat, first: bool, below: nat)
    requires Tokens(a, line, first).Some? && below == line + Lines(a) + 1
    ensures Tokens(a + "\n" + b, line, first)
            == Ahead(Tokens(a, line, first).value, Tokens(b, below, true))
    decreases |a|
  {
    match First(a) {
      case End =>
        assert a + "\n" + b == "\n" + b && ("\n" + b)[1..] == b;
        if Tokens(b, below, true).Some? {
          AheadEnd(Tokens(b, below, true).value);
        }
      case Lexed(_, _, _, _) => LexedOfBoth(a, b, line, first, below);
      case Unclosed => assert false;
      case Newline(_) => NewlineOfBoth(a, b, line, first, below);
      case Blank(_) => BlankOfBoth(a, b, line, first, below);
    }
  }

  lemma {:induction false} NewlineOfBoth(a: string, b: string, line: nat, first: bool, below: nat)
    requires Tokens(a, line, first).Some? && First(a).Newline? && below == line + Lines(a) + 1
    ensures Tokens(a + "\n" + b, line, first)
            == Ahead(Tokens(a, line, first).value, Tokens(b, below, true))
    decreases |a|, 0
  {
    FirstWithMore(a, b);
    TokensOfBoth(First(a).rest, b, line + 1, true, below);
  }

  lemma {:induction false} BlankOfBoth(a: string, b: string, line: nat, first: bool, below: nat)
    requires Tokens(a, line, first).Some? && First(a).Blank? && below == line + Lines(a) + 1
    ensures Tokens(a + "\n" + b, line, first)
            == Ahead(Tokens(a, line, first).value, Tokens(b, below, true))
    decreases |a|, 0
  {
    FirstWithMore(a, b);
    TokensOfBoth(First(a).rest, b, line, first, below);
  }

  lemma {:induction false} LexedOfBoth(a: string, b: string, line: nat, first: bool, below: nat)
    requires Tokens(a, line, first).Some? && First(a).Lexed? && below == line + Lines(a) + 1
    ensures Tokens(a + "\n" + b, line, first)
            == Ahead(Tokens(a, line, first).value, Tokens(b, below, true))
    decreases |a|, 0
  {
    var l, s := First(a), a + "\n" + b;
    var rest, token := l.rest + "\n" + b, Token(l.kind, l.text, line, first);
    assert First(s) == Lexed(l.kind, l.text, rest, l.lines) by {
      FirstWithMore(a, b);
    }
    assert Tokens(l.rest, line + l.lines, false).Some?;
    assert Tokens(rest, line + l.lines, false)
        == Ahead(Tokens(l.rest, line + l.lines, false).value, Tokens(b, below, true)) by {
      FirstLines(a);
      TokensOfBoth(l.rest, b, line + l.lines, false, below);
    }
    LexedBoth(a, s, l.rest, rest, token, l.lines, Tokens(b, below, true));
  }

  lemma {:induction false} LexedBoth(a: string, s: string, restA: string, restS: string, t: Token, lines: nat,
                                     more: Option<seq<Token>>)
    requires First(a) == Lexed(t.kind, t.text, restA, lines) && First(s) == Lexed(t.kind, t.text, restS, lines)
    requires Tokens(restA, t.line + lines, false).Some?
    requires Tokens(restS, t.line + lines, false) == Ahead(Tokens(restA, t.line + lines, false).value, more)
    ensures Tokens(a, t.line, t.first).Some?
    ensures Tokens(s, t.line, t.first) == Ahead(Tokens(a, t.line, t.first).value, more)
  {
    AheadBefore(t, Tokens(restA, t.line + lines, false).value, more);
  }

  lemma {:induction false} AheadBefore(t: Token, more: seq<Token>, rest: Option<seq<Token>>)
    ensures Before(t, Ahead(more, rest)) == Ahead([t] + more, rest)
  {
    if rest.Some? {
      Assoc([t], more, rest.value);
    }
  }

  /** Every token of a text lies on one of its lines. */
  lemma {:induction false} TokensLines(s: string, line: nat, first: bool)
    requires Tokens(s, line, first).Some?
    ensures forall i :: 0 <= i < |Tokens(s, line, first).value| ==>
                          line <= Tokens(s, line, first).value[i].line <= line + Lines(s)
    decreases |s|
  {
    match First(s) {
      case End =>
      case Newline(rest) => TokensLines(rest, line + 1, true);
      case Blank(rest) => TokensLines(rest, line, first);
      case Lexed(kind, text, rest, lines) =>
        FirstLines(s);
        TokensLines(rest, line + lines, false);
      case Unclosed => assert false;
    }
  }
}
