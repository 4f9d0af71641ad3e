/** Host declarations written as dhcpd.conf(5) has them, and that they are read back
    as they were (internal/dhcp/dhcp.go). The program only reads them: what is
    written here says what reading is to make of them. */
module DhcpWriting {
  import opened Options
  import opened Text
  import opened Sorting
  import opened DhcpTokens
  import opened DhcpGrammar
  import opened DhcpLocality

  // ----- tokens as text -----

  /** A token, wherever it is. */
  type Piece = (Kind, string)

  function Pieces(toks: seq<Token>): (r: seq<Piece>)
    ensures |r| == |toks|
  {
    seq(|toks|, i requires 0 <= i < |toks| => (toks[i].kind, toks[i].text))
  }

  function Escaped(text: string): string {
    if text == "" then ""
    else (if text[0] == '"' || text[0] == '\\' then ['\\', text[0]] else [text[0]]) + Escaped(text[1..])
  }

  function Written(p: Piece): string {
    if p.0 == Quoted then "\"" + Escaped(p.1) + "\"" else p.1
  }

  /** Of characters that no token ends at. */
  predicate IsBare(word: string) {
    word != "" && forall c :: c in word ==> c !in {' ', '\t', '\r', '\U{000B}', '\U{000C}', '\n', '#', '"', ';', '{', '}', ','}
  }

  predicate Writable(p: Piece) {
    match p.0
    case Word => IsBare(p.1)
    case Quoted => true
    case Semicolon => p.1 == ";"
    case Open => p.1 == "{"
    case Close => p.1 == "}"
    case Comma => p.1 == ","
    case Comment => false
  }

  predicate AllWritable(ps: seq<Piece>) {
    forall p :: p in ps ==> Writable(p)
  }

  /** A string is read up to the quote that closes it, whatever it holds. */
  lemma {:induction false} QuotedReadsBack(text: string, rest: string)
    ensures QuotedText(Escaped(text) + "\"" + rest) == Some(Quotation(text, rest, Lines(text)))
  {
    if text == "" {
      assert (Escaped(text) + "\"" + rest)[1..] == rest;
    } else {
      var c, tail := text[0], Escaped(text[1..]) + "\"" + rest;
      QuotedReadsBack(text[1..], rest);
      assert [c] + text[1..] == text;
      if c == '"' || c == '\\' {
        EscapedCharacter(c, tail, Quotation(text[1..], rest, Lines(text[1..])));
        Assoc3(['\\', c], Escaped(text[1..]), "\"", rest);
      } else {
        PlainCharacter(c, tail, Quotation(text[1..], rest, Lines(text[1..])));
        Assoc3([c], Escaped(text[1..]), "\"", rest);
      }
    }
  }

  lemma {:induction false} Assoc3(a: string, b: string, c: string, d: string)
    ensures a + b + c + d == a + (b + c + d)
  {
  }

  lemma {:induction false} EscapedCharacter(c: char, tail: string, q: Quotation)
    requires (c == '"' || c == '\\') && QuotedText(tail) == Some(q)
    ensures QuotedText(['\\', c] + tail) == Some(Quotation([c] + q.text, q.rest, q.lines))
  {
    assert (['\\', c] + tail)[2..] == tail;
  }

  lemma {:induction false} PlainCharacter(c: char, tail: string, q: Quotation)
    requires c != '"' && c != '\\' && QuotedText(tail) == Some(q)
    ensures QuotedText([c] + tail) == Some(Quotation([c] + q.text, q.rest, q.lines + if c == '\n' then 1 else 0))
  {
    assert ([c] + tail)[1..] == tail;
  }

  lemma {:induction false} BareWordEnd(word: string, rest: string)
    requires forall c :: c in word ==> !Breaks(c)
    ensures DhcpTokens.WordEnd(word + (" " + rest)) == |word|
  {
    if word != "" {
      BareWordEnd(word[1..], rest);
      assert (word + (" " + rest))[1..] == word[1..] + (" " + rest);
    }
  }

  /** A token is read as it was written. */
  lemma {:induction false} PieceIsFirst(p: Piece, rest: string)
    requires Writable(p)
    ensures First(Written(p) + (" " + rest))
            == Lexed(p.0, p.1, " " + rest, if p.0 == Quoted then Lines(p.1) else 0)
  {
    var s := Written(p) + (" " + rest);
    if p.0 == Quoted {
      QuotedReadsBack(p.1, " " + rest);
      assert s[1..] == Escaped(p.1) + "\"" + (" " + rest);
    } else if p.0 == Word {
      BareWordEnd(p.1, rest);
      assert s[0] == p.1[0] && s[0] in p.1;
      assert s[..|p.1|] == p.1 && s[|p.1|..] == " " + rest;
    } else {
      assert s[1..] == " " + rest && [s[0]] == p.1;
    }
  }

  /** Tokens on one line. */
  function LineOf(ps: seq<Piece>): string {
    if ps == [] then "" else Written(ps[0]) + (" " + LineOf(ps[1..]))
  }

  /** The tokens read are those written. */
  ghost predicate ReadAs(tokens: Option<seq<Token>>, ps: seq<Piece>) {
    tokens.Some? && Pieces(tokens.value) == ps
  }

  function LinesIn(p: Piece): nat {
    if p.0 == Quoted then Lines(p.1) else 0
  }

  lemma {:induction false} PieceRead(p: Piece, rest: string, line: nat, first: bool)
    requires Writable(p)
    ensures Tokens(Written(p) + (" " + rest), line, first)
            == Before(Token(p.0, p.1, line, first), Tokens(rest, line + LinesIn(p), false))
  {
    PieceIsFirst(p, rest);
    assert (" " + rest)[1..] == rest && First(" " + rest) == Blank(rest);
  }

  lemma {:induction false} LineTokens(ps: seq<Piece>, line: nat, first: bool)
    requires AllWritable(ps)
    ensures ReadAs(Tokens(LineOf(ps), line, first), ps)
    ensures ps != [] ==> Tokens(LineOf(ps), line, first).value[0].line == line
  {
    if ps != [] {
      var p, tail := ps[0], ps[1..];
      assert p in ps && AllWritable(tail);
      PieceRead(p, LineOf(tail), line, first);
      LineTokens(tail, line + LinesIn(p), false);
      var read := Tokens(LineOf(tail), line + LinesIn(p), false).value;
      PiecesAppend([Token(p.0, p.1, line, first)], read);
      assert [p] + tail == ps && Pieces([Token(p.0, p.1, line, first)]) == [p];
    }
  }

  // ----- the statements of a declaration -----

  const END: Piece := (Semicolon, ";")
  const CLOSE: Piece := (Close, "}")

  function BodyText(statements: seq<seq<Piece>>): string {
    if statements == [] then LineOf([CLOSE])
    else LineOf(statements[0] + [END]) + "\n" + BodyText(statements[1..])
  }

  function BodyPieces(statements: seq<seq<Piece>>): seq<Piece> {
    if statements == [] then [CLOSE] else statements[0] + [END] + BodyPieces(statements[1..])
  }

  /** A statement of words, strings and commas that is not another declaration. */
  predicate IsStatement(ps: seq<Piece>) {
    && ps != [] && AllWritable(ps) && ps[0] != (Word, "host")
    && forall i :: 0 <= i < |ps| ==> ps[i].0 in {Word, Quoted, Comma}
  }

  predicate AllStatements(statements: seq<seq<Piece>>) {
    forall ps :: ps in statements ==> IsStatement(ps)
  }

  lemma {:induction false} PiecesAppend(a: seq<Token>, b: seq<Token>)
    ensures Pieces(a + b) == Pieces(a) + Pieces(b)
  {
  }

  lemma {:induction false} BodyTokens(statements: seq<seq<Piece>>, line: nat)
    requires AllStatements(statements)
    ensures ReadAs(Tokens(BodyText(statements), line, true), BodyPieces(statements))
  {
    if statements == [] {
      LineTokens([CLOSE], line, true);
    } else {
      var ps := statements[0] + [END];
      assert statements[0] in statements;
      LineTokens(ps, line, true);
      var text := LineOf(ps);
      var below := line + Lines(text) + 1;
      BodyTokens(statements[1..], below);
      TokensOfBoth(text, BodyText(statements[1..]), line, true, below);
      PiecesAppend(Tokens(text, line, true).value, Tokens(BodyText(statements[1..]), below, true).value);
    }
  }

  lemma {:induction false} StatementReads(toks: seq<Token>, pos: nat, n: nat, words: seq<Token>)
    requires pos + n < |toks| && toks[pos + n].kind == Semicolon
    requires forall k :: pos <= k < pos + n ==> toks[k].kind in {Word, Quoted, Comma}
    ensures StatementFrom(toks, pos, words) == Some(Statement(words + toks[pos..pos + n], false, pos + n + 1))
    decreases n
  {
    if n == 0 {
      assert words + toks[pos..pos] == words;
    } else {
      StatementReads(toks, pos + 1, n - 1, words + [toks[pos]]);
      assert words + [toks[pos]] + toks[pos + 1..pos + n] == words + toks[pos..pos + n];
    }
  }

  /** The tokens as they are wherever they are. */
  function Canon(ps: seq<Piece>): (r: seq<Token>)
    ensures |r| == |ps|
  {
    seq(|ps|, i requires 0 <= i < |ps| => Token(ps[i].0, ps[i].1, 0, false))
  }

  lemma {:induction false} ArgumentsAnywhere(args: seq<Token>)
    ensures Rendered(args) == Rendered(Canon(Pieces(args))) && Values(args) == Values(Canon(Pieces(args)))
  {
    if args != [] {
      var n := |args| - 1;
      ArgumentsAnywhere(args[..n]);
      assert Canon(Pieces(args))[..n] == Canon(Pieces(args[..n]));
    }
  }

  /** What a statement says does not depend on where it is. */
  lemma {:induction false} AppliedAnywhere(h: Host, words: seq<Token>)
    requires words != []
    ensures Applied(h, words) == Applied(h, Canon(Pieces(words)))
  {
    var args, canon := words[1..], Canon(Pieces(words))[1..];
    assert canon == Canon(Pieces(args));
    ArgumentsAnywhere(args);
    if args != [] {
      ArgumentsAnywhere(args[1..]);
      assert canon[1..] == Canon(Pieces(args[1..]));
    }
  }

  /** The statements of a declaration, one after another. */
  function AppliedAll(h: Host, statements: seq<seq<Piece>>): Option<Host>
    requires AllStatements(statements)
    decreases |statements|
  {
    if statements == [] then Some(h)
    else
      assert statements[0] in statements;
      match Applied(h, Canon(statements[0]))
      case None => None
      case Some(g) => AppliedAll(g, statements[1..])
  }

  lemma {:induction false} AppliedBoth(h: Host, a: seq<seq<Piece>>, b: seq<seq<Piece>>)
    requires AllStatements(a) && AllStatements(b) && AppliedAll(h, a).Some?
    ensures AllStatements(a + b) && AppliedAll(h, a + b) == AppliedAll(AppliedAll(h, a).value, b)
    decreases |a|
  {
    if a == [] {
      assert a + b == b;
    } else {
      assert a[0] in a && (a + b)[1..] == a[1..] + b;
      AppliedBoth(Applied(h, Canon(a[0])).value, a[1..], b);
    }
  }

  lemma {:induction false} AppliedFirst(h: Host, statements: seq<seq<Piece>>)
    requires AllStatements(statements) && statements != []
    ensures IsStatement(statements[0]) && AllStatements(statements[1..])
    ensures AppliedAll(h, statements) == match Applied(h, Canon(statements[0]))
                                         case None => None
                                         case Some(g) => AppliedAll(g, statements[1..])
  {
    assert statements[0] in statements;
  }

  lemma {:induction false} BodyReads(toks: seq<Token>, pos: nat, statements: seq<seq<Piece>>, h: Host)
    requires pos <= |toks| && AllStatements(statements) && Pieces(toks[pos..]) == BodyPieces(statements)
    ensures HostFrom(toks, pos, h) == match AppliedAll(h, statements)
                                      case None => None
                                      case Some(g) => Some((g, |toks|))
    decreases |statements|
  {
    if statements == [] {
      BodyEnds(toks, pos, h);
    } else {
      var ps := statements[0];
      AppliedFirst(h, statements);
      StatementAhead(toks, pos, ps, BodyPieces(statements[1..]));
      OneReads(toks, pos, ps, h);
      if Applied(h, Canon(ps)).Some? {
        BodyReads(toks, pos + |ps| + 1, statements[1..], Applied(h, Canon(ps)).value);
      }
    }
  }

  lemma {:induction false} BodyEnds(toks: seq<Token>, pos: nat, h: Host)
    requires pos <= |toks| && Pieces(toks[pos..]) == [CLOSE]
    ensures HostFrom(toks, pos, h) == Some((h, |toks|))
  {
    assert |toks[pos..]| == 1 && toks[pos] == toks[pos..][0];
    assert (toks[pos].kind, toks[pos].text) == Pieces(toks[pos..])[0];
  }

  /** The tokens from a place on are those of a statement, and its end. */
  predicate StatementAt(toks: seq<Token>, pos: nat, ps: seq<Piece>) {
    && pos + |ps| < |toks| && toks[pos + |ps|].kind == Semicolon
    && forall k :: 0 <= k < |ps| ==> (toks[pos + k].kind, toks[pos + k].text) == ps[k]
  }

  lemma {:induction false} StatementAhead(toks: seq<Token>, pos: nat, ps: seq<Piece>, more: seq<Piece>)
    requires pos <= |toks| && Pieces(toks[pos..]) == ps + [END] + more
    ensures StatementAt(toks, pos, ps) && Pieces(toks[pos + |ps| + 1..]) == more
  {
    var rest, n := toks[pos..], |ps|;
    forall k | 0 <= k <= n ensures (toks[pos + k].kind, toks[pos + k].text) == (ps + [END])[k] {
      assert toks[pos + k] == rest[k] && Pieces(rest)[k] == (ps + [END] + more)[k];
    }
    assert (ps + [END])[n] == END && forall k :: 0 <= k < n ==> (ps + [END])[k] == ps[k];
    assert toks[pos + n + 1..] == rest[n + 1..];
    assert Pieces(rest[n + 1..]) == Pieces(rest)[n + 1..] == (ps + [END] + more)[n + 1..] == more;
  }

  lemma {:induction false} OneReads(toks: seq<Token>, pos: nat, ps: seq<Piece>, h: Host)
    requires IsStatement(ps) && StatementAt(toks, pos, ps)
    ensures HostFrom(toks, pos, h) == match Applied(h, Canon(ps))
                                      case None => None
                                      case Some(g) => HostFrom(toks, pos + |ps| + 1, g)
  {
    var n := |ps|;
    assert toks[pos + 0].kind == ps[0].0;
    forall k | pos <= k < pos + n ensures toks[k].kind in {Word, Quoted, Comma} {
      assert (toks[pos + (k - pos)].kind, toks[pos + (k - pos)].text) == ps[k - pos];
    }
    StatementReads(toks, pos, n, []);
    var words := toks[pos..pos + n];
    assert [] + words == words;
    assert Pieces(words) == ps;
    AppliedAnywhere(h, words);
    HostGoesOn(toks, pos, h);
  }

  // ----- what each statement says -----

  /** Values separated by commas, each of some words. */
  function ListPieces(groups: seq<seq<string>>): seq<Piece> {
    if groups == [] then []
    else if |groups| == 1 then Strings(groups[0])
    else ListPieces(groups[..|groups| - 1]) + [(Comma, ",")] + Strings(groups[|groups| - 1])
  }

  function Strings(words: seq<string>): (r: seq<Piece>)
    ensures |r| == |words|
  {
    seq(|words|, i requires 0 <= i < |words| => (Quoted, words[i]))
  }

  function Phrases(groups: seq<seq<string>>): (r: seq<string>)
    ensures |r| == |groups|
  {
    seq(|groups|, i requires 0 <= i < |groups| => Join(groups[i], " "))
  }

  lemma {:induction false} JoinLast(parts: seq<string>, last: string, sep: string)
    ensures Join(parts + [last], sep) == if parts == [] then last else Join(parts, sep) + sep + last
  {
    if parts != [] {
      assert (parts + [last])[1..] == parts[1..] + [last];
      JoinLast(parts[1..], last, sep);
      if |parts| > 1 {
        Assoc(parts[0] + sep, Join(parts[1..], sep), sep + last);
        Assoc(Join(parts[1..], sep), sep, last);
        Assoc(parts[0] + sep + Join(parts[1..], sep), sep, last);
      } else {
        assert parts + [last] == [parts[0], last];
      }
    }
  }

  /** One argument more. */
  lemma {:induction false} ArgumentMore(before: seq<Piece>, p: Piece)
    ensures Rendered(Canon(before + [p]))
            == Rendered(Canon(before)) + if p.0 == Comma then "," else (if before == [] then "" else " ") + p.1
    ensures Values(Canon(before + [p])) == Values(Canon(before)) + if p.0 == Comma then [] else [p.1]
  {
    var all := Canon(before + [p]);
    assert all[..|all| - 1] == Canon(before);
  }

  lemma {:induction false} Glue(a: string, s: string, b: string, t: string, c: string)
    ensures a + s + b + t + c == a + s + (b + t + c)
  {
  }

  /** Words after what comes before them: each after a blank, except the first of
      all. */
  lemma {:induction false} RenderedWords(before: seq<Piece>, words: seq<string>)
    requires words != []
    ensures Rendered(Canon(before + Strings(words)))
            == Rendered(Canon(before)) + (if before == [] then "" else " ") + Join(words, " ")
    ensures Values(Canon(before + Strings(words))) == Values(Canon(before)) + words
  {
    var n := |words| - 1;
    var front, last := words[..n], words[n];
    assert words == front + [last];
    var sep, shorter := if before == [] then "" else " ", before + Strings(front);
    assert before + Strings(words) == shorter + [(Quoted, last)];
    ArgumentMore(shorter, (Quoted, last));
    JoinLast(front, last, " ");
    if n == 0 {
      assert shorter == before;
      Assoc(Rendered(Canon(before)), sep, last);
    } else {
      RenderedWords(before, front);
      Glue(Rendered(Canon(before)), sep, Join(front, " "), " ", last);
      Assoc(Rendered(Canon(shorter)), " ", last);
      Assoc(Values(Canon(before)), front, [last]);
    }
  }

  predicate NoneEmpty(groups: seq<seq<string>>) {
    groups != [] && forall g :: g in groups ==> g != []
  }

  function Flat(groups: seq<seq<string>>): seq<string> {
    if groups == [] then [] else Flat(groups[..|groups| - 1]) + groups[|groups| - 1]
  }

  /** Arguments are kept with their commas, a blank after each; their values are all
      but the commas. */
  lemma {:induction false} ListReads(groups: seq<seq<string>>)
    requires NoneEmpty(groups)
    ensures Rendered(Canon(ListPieces(groups))) == Join(Phrases(groups), ", ")
    ensures Values(Canon(ListPieces(groups))) == Flat(groups)
  {
    var n := |groups| - 1;
    var front, last := groups[..n], groups[n];
    assert last in groups && forall g :: g in front ==> g in groups;
    if n == 0 {
      OneGroup(last);
      assert groups == [last];
    } else {
      ListReads(front);
      GroupMore(front, last);
      assert groups == front + [last];
    }
  }

  lemma {:induction false} OneGroup(words: seq<string>)
    requires words != []
    ensures Rendered(Canon(ListPieces([words]))) == Join(Phrases([words]), ", ")
    ensures Values(Canon(ListPieces([words]))) == Flat([words])
  {
    RenderedWords([], words);
    assert [] + Strings(words) == Strings(words);
    assert [words][..0] == [] && [] + words == words;
  }

  lemma {:induction false} CommaBlank(text: string, phrase: string)
    ensures text + "," + " " + phrase == text + ", " + phrase
  {
  }

  lemma {:induction false} PhrasesMore(front: seq<seq<string>>, last: seq<string>)
    ensures Phrases(front + [last]) == Phrases(front) + [Join(last, " ")]
    ensures (front + [last])[..|front + [last]| - 1] == front
  {
  }

  lemma {:induction false} GroupMore(front: seq<seq<string>>, last: seq<string>)
    requires NoneEmpty(front) && last != []
    requires Rendered(Canon(ListPieces(front))) == Join(Phrases(front), ", ")
    requires Values(Canon(ListPieces(front))) == Flat(front)
    ensures Rendered(Canon(ListPieces(front + [last]))) == Join(Phrases(front + [last]), ", ")
    ensures Values(Canon(ListPieces(front + [last]))) == Flat(front + [last])
  {
    var groups, before, phrase := front + [last], ListPieces(front), Join(last, " ");
    PhrasesMore(front, last);
    ArgumentMore(before, (Comma, ","));
    RenderedWords(before + [(Comma, ",")], last);
    JoinLast(Phrases(front), phrase, ", ");
    var text := Join(Phrases(front), ", ");
    CommaBlank(text, phrase);
    assert Flat(front) + [] == Flat(front);
  }

  /** Each kind of statement with any arguments, and the declaration before it. */
  lemma {:induction false} EachStatement(h: Host, name: string, value: string, groups: seq<seq<string>>)
    requires NoneEmpty(groups)
    ensures Applied(h, Canon([(Word, "hardware"), (Word, "ethernet"), (Word, value)]))
            == Applied(h, Canon([(Word, "hardware"), (Word, "ethernet"), (Quoted, value)]))
            == Some(h.(macs := h.macs + [ToLower(value)]))
    ensures name != "ethernet" ==> Applied(h, Canon([(Word, "hardware"), (Quoted, name), (Quoted, value)]))
                                   == Some(h.(options := h.options["hardware " + name := value]))
    ensures Applied(h, Canon([(Word, "fixed-address")] + ListPieces(groups)))
            == if h.address != "" then None else Some(h.(address := Join(Flat(groups), ", ")))
    ensures Applied(h, Canon([(Word, "filename"), (Quoted, value)])) == Some(h.(filename := value))
    ensures Applied(h, Canon([(Word, "option"), (Word, "dhcp-client-identifier")] + ListPieces(groups)))
            == Some(h.(clientIdentifier := Join(Phrases(groups), ", ")))
    ensures name != "dhcp-client-identifier" ==>
              Applied(h, Canon([(Word, "option"), (Word, name)] + ListPieces(groups)))
              == Some(h.(options := h.options[name := Join(Phrases(groups), ", ")]))
    ensures name !in {"include", "hardware", "fixed-address", "filename", "option"} ==>
              Applied(h, Canon([(Word, name)] + ListPieces(groups)))
              == Some(h.(options := h.options[name := Join(Phrases(groups), ", ")]))
    ensures Applied(h, Canon([(Word, "include"), (Quoted, value)])) == None
  {
    ListReads(groups);
    HardwareReads(h, name, value);
    ArgumentsAfter([(Word, "fixed-address")], groups);
    ArgumentsAfter([(Word, name)], groups);
    OptionReads(h, "dhcp-client-identifier", groups);
    OptionReads(h, name, groups);
    FilenameReads(h, value);
  }

  lemma {:induction false} ListNotEmpty(groups: seq<seq<string>>)
    requires NoneEmpty(groups)
    ensures ListPieces(groups) != [] && Flat(groups) != []
  {
    assert groups[|groups| - 1] in groups;
  }

  lemma {:induction false} ArgumentsAfter(words: seq<Piece>, groups: seq<seq<string>>)
    requires NoneEmpty(groups)
    ensures Canon(words + ListPieces(groups))[|words|..] == Canon(ListPieces(groups))
    ensures ListPieces(groups) != [] && Flat(groups) != []
  {
    ListNotEmpty(groups);
  }

  lemma {:induction false} HardwareReads(h: Host, name: string, value: string)
    ensures Applied(h, Canon([(Word, "hardware"), (Word, "ethernet"), (Word, value)]))
            == Applied(h, Canon([(Word, "hardware"), (Word, "ethernet"), (Quoted, value)]))
            == Some(h.(macs := h.macs + [ToLower(value)]))
    ensures name != "ethernet" ==> Applied(h, Canon([(Word, "hardware"), (Quoted, name), (Quoted, value)]))
                                   == Some(h.(options := h.options["hardware " + name := value]))
  {
    TwoArguments((Word, "hardware"), (Word, "ethernet"), (Word, value));
    TwoArguments((Word, "hardware"), (Word, "ethernet"), (Quoted, value));
    TwoArguments((Word, "hardware"), (Quoted, name), (Quoted, value));
  }

  lemma {:induction false} TwoArguments(keyword: Piece, p: Piece, q: Piece)
    requires p.0 != Comma && q.0 != Comma
    ensures Canon([keyword, p, q])[1..] == Canon([p, q]) && Values(Canon([p, q])) == [p.1, q.1]
  {
    ArgumentMore([], p);
    ArgumentMore([p], q);
    assert [] + [p] == [p] && [p] + [q] == [p, q];
  }

  lemma {:induction false} FilenameReads(h: Host, value: string)
    ensures Applied(h, Canon([(Word, "filename"), (Quoted, value)])) == Some(h.(filename := value))
  {
    assert Canon([(Word, "filename"), (Quoted, value)])[1..] == [Token(Quoted, value, 0, false)];
  }

  lemma {:induction false} OptionReads(h: Host, name: string, groups: seq<seq<string>>)
    requires NoneEmpty(groups)
    ensures Applied(h, Canon([(Word, "option"), (Word, name)] + ListPieces(groups)))
            == Some(var value := Join(Phrases(groups), ", ");
                    if name == "dhcp-client-identifier" then h.(clientIdentifier := value)
                    else h.(options := h.options[name := value]))
  {
    ListReads(groups);
    ArgumentsAfter([(Word, "option"), (Word, name)], groups);
    var words := Canon([(Word, "option"), (Word, name)] + ListPieces(groups));
    assert words[1..][0] == Token(Word, name, 0, false) && words[1..][1..] == words[2..];
  }

  // ----- a whole declaration -----

  const KEYWORDS: set<string> := {"include", "hardware", "fixed-address", "filename", "option", "host"}

  /** A name an option can be read under: that of a kind of hardware, or a word. */
  predicate OptionName(name: string) {
    if "hardware " <= name then name[|"hardware "|..] != "ethernet" else IsBare(name)
  }

  function OptionStatement(name: string, value: string): seq<Piece> {
    if "hardware " <= name then [(Word, "hardware"), (Quoted, name[|"hardware "|..]), (Quoted, value)]
    else if name in KEYWORDS then [(Word, "option"), (Word, name), (Quoted, value)]
    else [(Word, name), (Quoted, value)]
  }

  function OptionStatements(options: map<string, string>, names: seq<string>): seq<seq<Piece>>
    requires forall n :: n in names ==> n in options
  {
    if names == [] then []
    else
      var n := |names| - 1;
      OptionStatements(options, names[..n]) + [OptionStatement(names[n], options[names[n]])]
  }

  function Hardware(macs: seq<string>): seq<seq<Piece>> {
    if macs == [] then [] else [[(Word, "hardware"), (Word, "ethernet"), (Quoted, macs[0])]] + Hardware(macs[1..])
  }

  /** A statement with one string, when there is one. */
  function OneString(keywords: seq<Piece>, value: string): seq<seq<Piece>> {
    if value == "" then [] else [keywords + [(Quoted, value)]]
  }

  const ADDRESS: seq<Piece> := [(Word, "fixed-address")]
  const FILENAME: seq<Piece> := [(Word, "filename")]
  const CLIENT: seq<Piece> := [(Word, "option"), (Word, "dhcp-client-identifier")]

  /** What can be read of a host: a name, lowered hardware addresses, comments that are
      single lines without white space around them, and options under the names given. */
  predicate Readable(h: Host, names: seq<string>) {
    && h.name != ""
    && (forall mac :: mac in h.macs ==> ToLower(mac) == mac)
    && (forall c :: c in h.comments ==> '\n' !in c && Trimmed(c))
    && (forall n :: n in names ==> n in h.options && OptionName(n)) && (forall n :: n in h.options ==> n in names)
  }

  function Statements(h: Host, names: seq<string>): seq<seq<Piece>>
    requires Readable(h, names)
  {
    Hardware(h.macs) + OneString(ADDRESS, h.address) + OneString(FILENAME, h.filename)
    + OneString(CLIENT, h.clientIdentifier) + OptionStatements(h.options, names)
  }

  /** Comments, one a line, and what is right below them. */
  function WithComments(comments: seq<string>, text: string): string {
    if comments == [] then text else "# " + comments[0] + "\n" + WithComments(comments[1..], text)
  }

  function Heading(name: string): seq<Piece> {
    [(Word, "host"), (Quoted, name), (Open, "{")]
  }

  function Declaration(name: string, statements: seq<seq<Piece>>): string {
    LineOf(Heading(name)) + "\n" + BodyText(statements)
  }

  function DeclarationText(h: Host, names: seq<string>): string
    requires Readable(h, names)
  {
    WithComments(h.comments, Declaration(h.name, Statements(h, names)))
  }

  /** What is read adds up to what was written. */
  ghost predicate AddsUp(h: Host, statements: seq<seq<Piece>>, g: Host) {
    AllStatements(statements) && AppliedAll(h, statements) == Some(g)
  }

  lemma {:induction false} AddsUpBoth(h: Host, a: seq<seq<Piece>>, g: Host, b: seq<seq<Piece>>, f: Host)
    requires AddsUp(h, a, g) && AddsUp(g, b, f)
    ensures AddsUp(h, a + b, f)
  {
    AppliedBoth(h, a, b);
  }

  lemma {:induction false} AddsUpOne(h: Host, ps: seq<Piece>, g: Host)
    requires IsStatement(ps) && Applied(h, Canon(ps)) == Some(g)
    ensures AddsUp(h, [ps], g)
  {
    assert [ps][0] == ps && [ps][1..] == [];
  }

  lemma {:induction false} KeywordsAreBare()
    ensures IsBare("hardware") && IsBare("ethernet") && IsBare("option")
    ensures IsBare("fixed-address") && IsBare("filename") && IsBare("dhcp-client-identifier")
  {
  }

  /** A statement that ends in a string. */
  lemma {:induction false} EndsInString(words: seq<Piece>, value: string)
    requires words != [] && words[0] != (Word, "host") && forall p :: p in words ==> Writable(p) && p.0 in {Word, Quoted}
    ensures IsStatement(words + [(Quoted, value)])
  {
    var ps := words + [(Quoted, value)];
    forall i | 0 <= i < |ps| ensures ps[i].0 in {Word, Quoted, Comma} {
      if i < |words| {
        assert ps[i] == words[i] && words[i] in words;
      }
    }
  }

  lemma {:induction false} StatementsOfOne(value: string, typ: string)
    ensures IsStatement([(Word, "hardware"), (Word, "ethernet"), (Quoted, value)])
    ensures IsStatement([(Word, "hardware"), (Quoted, typ), (Quoted, value)])
    ensures IsStatement(ADDRESS + [(Quoted, value)]) && IsStatement(FILENAME + [(Quoted, value)])
    ensures IsStatement(CLIENT + [(Quoted, value)])
  {
    KeywordsAreBare();
    EndsInString([(Word, "hardware"), (Word, "ethernet")], value);
    EndsInString([(Word, "hardware"), (Quoted, typ)], value);
    assert [(Word, "hardware"), (Word, "ethernet")] + [(Quoted, value)] == [(Word, "hardware"), (Word, "ethernet"), (Quoted, value)];
    assert [(Word, "hardware"), (Quoted, typ)] + [(Quoted, value)] == [(Word, "hardware"), (Quoted, typ), (Quoted, value)];
    EndsInString(ADDRESS, value);
    EndsInString(FILENAME, value);
    EndsInString(CLIENT, value);
  }

  lemma {:induction false} HardwareAddsUp(h: Host, macs: seq<string>)
    requires forall mac :: mac in macs ==> ToLower(mac) == mac
    ensures AddsUp(h, Hardware(macs), h.(macs := h.macs + macs))
    decreases |macs|
  {
    if macs == [] {
      assert h.macs + macs == h.macs;
    } else {
      var mac, g := macs[0], h.(macs := h.macs + [macs[0]]);
      OneHardware(h, mac);
      HardwareAddsUp(g, macs[1..]);
      Assoc(h.macs, [mac], macs[1..]);
      assert [mac] + macs[1..] == macs;
      AddsUpBoth(h, [[(Word, "hardware"), (Word, "ethernet"), (Quoted, mac)]], g, Hardware(macs[1..]), h.(macs := h.macs + macs));
    }
  }

  lemma {:induction false} OneHardware(h: Host, mac: string)
    requires ToLower(mac) == mac
    ensures AddsUp(h, [[(Word, "hardware"), (Word, "ethernet"), (Quoted, mac)]], h.(macs := h.macs + [mac]))
  {
    HardwareReads(h, "", mac);
    StatementsOfOne(mac, "");
    AddsUpOne(h, [(Word, "hardware"), (Word, "ethernet"), (Quoted, mac)], h.(macs := h.macs + [mac]));
  }

  lemma {:induction false} StringAddsUp(h: Host, keywords: seq<Piece>, value: string, g: Host)
    requires value == "" ==> g == h
    requires IsStatement(keywords + [(Quoted, value)]) && Applied(h, Canon(keywords + [(Quoted, value)])) == Some(g)
    ensures AddsUp(h, OneString(keywords, value), g)
  {
    if value != "" {
      AddsUpOne(h, keywords + [(Quoted, value)], g);
    }
  }

  lemma {:induction false} OneValue(h: Host, value: string)
    ensures h.address == "" ==> Applied(h, Canon(ADDRESS + [(Quoted, value)])) == Some(h.(address := value))
    ensures Applied(h, Canon(FILENAME + [(Quoted, value)])) == Some(h.(filename := value))
    ensures Applied(h, Canon(CLIENT + [(Quoted, value)])) == Some(h.(clientIdentifier := value))
  {
    var groups := [[value]];
    ListReads(groups);
    assert ListPieces(groups) == Strings([value]) == [(Quoted, value)];
    assert Flat(groups) == [] + [value] == [value] && Phrases(groups) == [value];
    ArgumentsAfter(ADDRESS, groups);
    OptionReads(h, "dhcp-client-identifier", groups);
    FilenameReads(h, value);
  }

  lemma {:induction false} OptionAddsUp(h: Host, name: string, value: string)
    requires OptionName(name)
    ensures AddsUp(h, [OptionStatement(name, value)], h.(options := h.options[name := value]))
  {
    var ps := OptionStatement(name, value);
    if "hardware " <= name {
      var typ := name[|"hardware "|..];
      assert "hardware " + typ == name;
      HardwareReads(h, typ, value);
      StatementsOfOne(value, typ);
    } else {
      WordOption(h, name, value);
    }
    AddsUpOne(h, ps, h.(options := h.options[name := value]));
  }

  lemma {:induction false} WordOption(h: Host, name: string, value: string)
    requires IsBare(name) && !("hardware " <= name)
    ensures IsStatement(OptionStatement(name, value))
    ensures Applied(h, Canon(OptionStatement(name, value))) == Some(h.(options := h.options[name := value]))
  {
    var groups := [[value]];
    ListReads(groups);
    assert ListPieces(groups) == Strings([value]) == [(Quoted, value)] && Phrases(groups) == [value];
    if name in KEYWORDS {
      KeywordsAreBare();
      EndsInString([(Word, "option"), (Word, name)], value);
      assert [(Word, "option"), (Word, name)] + [(Quoted, value)] == OptionStatement(name, value);
      OptionReads(h, name, groups);
    } else {
      EndsInString([(Word, name)], value);
      assert [(Word, name)] + [(Quoted, value)] == OptionStatement(name, value);
      ArgumentsAfter([(Word, name)], groups);
    }
  }

  lemma {:induction false} OptionsAddUp(h: Host, options: map<string, string>, names: seq<string>)
    requires h.options == map[] && forall n :: n in names ==> n in options && OptionName(n)
    ensures AddsUp(h, OptionStatements(options, names), h.(options := map n | n in names :: options[n]))
  {
    if names != [] {
      var n := |names| - 1;
      var name := names[n];
      var g := h.(options := map k | k in names[..n] :: options[k]);
      OptionsAddUp(h, options, names[..n]);
      OptionAddsUp(g, name, options[name]);
      TakeOneMore(names, n);
      assert names[..n + 1] == names;
      assert g.options[name := options[name]] == map k | k in names :: options[k];
      AddsUpBoth(h, OptionStatements(options, names[..n]), g, [OptionStatement(name, options[name])],
                 g.(options := g.options[name := options[name]]));
    }
  }

  lemma {:induction false} StringsAddUp(h: Host, b: Host)
    requires b.address == b.filename == b.clientIdentifier == ""
    ensures var c := b.(address := h.address);
            var d := c.(filename := h.filename);
            && AddsUp(b, OneString(ADDRESS, h.address), c) && AddsUp(c, OneString(FILENAME, h.filename), d)
            && AddsUp(d, OneString(CLIENT, h.clientIdentifier), d.(clientIdentifier := h.clientIdentifier))
  {
    var c := b.(address := h.address);
    var d := c.(filename := h.filename);
    StatementsOfOne(h.address, "");
    OneValue(b, h.address);
    StringAddsUp(b, ADDRESS, h.address, c);
    StatementsOfOne(h.filename, "");
    OneValue(c, h.filename);
    StringAddsUp(c, FILENAME, h.filename, d);
    StatementsOfOne(h.clientIdentifier, "");
    OneValue(d, h.clientIdentifier);
    StringAddsUp(d, CLIENT, h.clientIdentifier, d.(clientIdentifier := h.clientIdentifier));
  }

  lemma {:induction false} StatementsAddUp(h: Host, names: seq<string>)
    requires Readable(h, names)
    ensures AddsUp(Host(h.name, [], "", "", "", map[], h.comments), Statements(h, names), h)
  {
    var a := Host(h.name, [], "", "", "", map[], h.comments);
    var b := a.(macs := h.macs);
    var c := b.(address := h.address);
    var d := c.(filename := h.filename);
    var e := d.(clientIdentifier := h.clientIdentifier);
    HardwareAddsUp(a, h.macs);
    assert [] + h.macs == h.macs;
    StringsAddUp(h, b);
    OptionsAddUp(e, h.options, names);
    assert (map n | n in names :: h.options[n]) == h.options;
    var first := Hardware(h.macs) + OneString(ADDRESS, h.address);
    AddsUpBoth(a, Hardware(h.macs), b, OneString(ADDRESS, h.address), c);
    AddsUpBoth(a, first, c, OneString(FILENAME, h.filename), d);
    AddsUpBoth(a, first + OneString(FILENAME, h.filename), d, OneString(CLIENT, h.clientIdentifier), e);
    AddsUpBoth(a, first + OneString(FILENAME, h.filename) + OneString(CLIENT, h.clientIdentifier), e,
               OptionStatements(h.options, names), h);
  }

  // ----- the text read back -----

  lemma {:induction false} CommentLine(c: string, line: nat)
    requires '\n' !in c && Trimmed(c)
    ensures Tokens("# " + c, line, true) == Some([Token(Comment, c, line, true)]) && Lines("# " + c) == 0
  {
    var s := "# " + c;
    NoNewline(s);
    assert s[1..|s|] == " " + c && (" " + c)[1..] == c;
    TrimTrimmed(c);
    assert TrimLeft(" " + c) == TrimLeft(c);
    assert First(s) == Lexed(Comment, c, "", 0) && Tokens("", line, false) == Some([]);
    assert [Token(Comment, c, line, true)] + [] == [Token(Comment, c, line, true)];
  }

  lemma {:induction false} NoNewline(s: string)
    requires '\n' !in s
    ensures LineEnd(s) == |s| && Lines(s) == 0
  {
    if s != "" {
      NoNewline(s[1..]);
      assert s[0] in s;
    }
  }

  function CommentTokens(comments: seq<string>, line: nat): (r: seq<Token>)
    ensures |r| == |comments|
  {
    seq(|comments|, i requires 0 <= i < |comments| => Token(Comment, comments[i], line + i, true))
  }

  lemma {:induction false} CommentTokensFirst(comments: seq<string>, line: nat)
    requires comments != []
    ensures CommentTokens(comments, line)
            == [Token(Comment, comments[0], line, true)] + CommentTokens(comments[1..], line + 1)
  {
  }

  lemma {:induction false} CommentsRead(comments: seq<string>, text: string, line: nat)
    requires forall c :: c in comments ==> '\n' !in c && Trimmed(c)
    requires Tokens(text, line + |comments|, true).Some?
    ensures Tokens(WithComments(comments, text), line, true)
            == Some(CommentTokens(comments, line) + Tokens(text, line + |comments|, true).value)
  {
    var below := Tokens(text, line + |comments|, true).value;
    if comments == [] {
      assert CommentTokens(comments, line) + below == below;
    } else {
      var c, rest := comments[0], WithComments(comments[1..], text);
      assert c in comments;
      CommentLine(c, line);
      CommentsRead(comments[1..], text, line + 1);
      TokensOfBoth("# " + c, rest, line, true, line + 1);
      var t := Token(Comment, c, line, true);
      CommentTokensFirst(comments, line);
      Assoc([t], CommentTokens(comments[1..], line + 1), below);
    }
  }

  /** Where the reading of a block is after its first k comments. */
  function AfterComments(comments: seq<string>, k: nat): Progress
    requires k <= |comments|
  {
    Progress(k, comments[..k], k, [], 1)
  }

  lemma {:induction false} CommentsKept(comments: seq<string>, more: seq<Token>, k: nat, ctx: Context)
    requires k <= |comments|
    ensures var toks := CommentTokens(comments, 1) + more;
            BlockFrom(toks, AfterComments(comments, k), false, 0, ctx)
            == BlockFrom(toks, AfterComments(comments, |comments|), false, 0, ctx)
    decreases |comments| - k
  {
    if k < |comments| {
      var toks := CommentTokens(comments, 1) + more;
      assert toks[k] == Token(Comment, comments[k], 1 + k, true);
      TakeOneMore(comments, k);
      assert Commented(AfterComments(comments, k), toks[k]) == AfterComments(comments, k + 1);
      CommentsKept(comments, more, k + 1, ctx);
    }
  }

  /** The heading of a declaration, and its body read after it. */
  lemma {:induction false} DeclarationReads(toks: seq<Token>, p: Progress, h: Host, names: seq<string>, ctx: Context)
    requires Fits(toks, p) && Readable(h, names) && p.hosts == [] && p.pos + 3 <= |toks|
    requires p.comments == h.comments && toks[p.pos].line == p.commentLine + 1 && toks[p.pos].kind == Word
    requires Pieces(toks[p.pos..p.pos + 3]) == Heading(h.name)
    requires Pieces(toks[p.pos + 3..]) == BodyPieces(Statements(h, names))
    ensures Declared(toks, p, 0, ctx) == Some(p.(pos := |toks|, comments := [], hosts := [h]))
  {
    var pos := p.pos;
    var heading := toks[pos..pos + 3];
    assert Pieces(heading)[0] == (Word, "host") && Pieces(heading)[1] == (Quoted, h.name) && Pieces(heading)[2] == (Open, "{");
    assert toks[pos] == heading[0] && toks[pos + 1] == heading[1] && toks[pos + 2] == heading[2];
    var words := [toks[pos], toks[pos + 1]];
    assert [] + [toks[pos]] == [toks[pos]] && [toks[pos]] + [toks[pos + 1]] == words;
    assert StatementFrom(toks, pos + 2, words) == Some(Statement(words, true, pos + 3));
    assert StatementFrom(toks, pos + 1, [toks[pos]]) == Some(Statement(words, true, pos + 3));
    assert StatementFrom(toks, pos, []) == Some(Statement(words, true, pos + 3));
    StatementsAddUp(h, names);
    BodyReads(toks, pos + 3, Statements(h, names), Host(h.name, [], "", "", "", map[], h.comments));
    assert [] + [h] == [h];
  }

  lemma {:induction false} DeclarationTokens(h: Host, names: seq<string>) returns (first: seq<Token>, rest: seq<Token>)
    requires Readable(h, names)
    ensures Tokens(DeclarationText(h, names), 1, true) == Some(CommentTokens(h.comments, 1) + (first + rest))
    ensures Pieces(first) == Heading(h.name) && first[0].line == |h.comments| + 1
    ensures Pieces(rest) == BodyPieces(Statements(h, names))
  {
    var line := 1 + |h.comments|;
    var statements := Statements(h, names);
    assert AllStatements(statements) by {
      StatementsAddUp(h, names);
    }
    first, rest := HeadingTokens(h.name, statements, line);
    CommentsRead(h.comments, Declaration(h.name, statements), 1);
  }

  lemma {:induction false} HeadingTokens(name: string, statements: seq<seq<Piece>>, line: nat)
    returns (first: seq<Token>, rest: seq<Token>)
    requires AllStatements(statements)
    ensures Tokens(Declaration(name, statements), line, true) == Some(first + rest)
    ensures Pieces(first) == Heading(name) && first[0].line == line && Pieces(rest) == BodyPieces(statements)
  {
    var heading := LineOf(Heading(name));
    var below := line + Lines(heading) + 1;
    HostIsBare();
    LineTokens(Heading(name), line, true);
    BodyTokens(statements, below);
    TokensOfBoth(heading, BodyText(statements), line, true, below);
    first, rest := Tokens(heading, line, true).value, Tokens(BodyText(statements), below, true).value;
  }

  lemma {:induction false} HostIsBare()
    ensures IsBare("host")
  {
  }

  /** A declaration is read back as it was written. */
  lemma {:induction false} DeclarationReadsBack(h: Host, names: seq<string>)
    requires Readable(h, names)
    ensures Parse(DeclarationText(h, names)) == Some([h])
  {
    var ctx, n := Context(None, "", []), |h.comments|;
    var first, rest := DeclarationTokens(h, names);
    var toks := CommentTokens(h.comments, 1) + (first + rest);
    HostsOfTokens(h, names, toks, first, rest, ctx);
    var start, end := Progress(0, [], 0, [], 1), Progress(|toks|, [], n, [h], 1);
    assert Block(toks, start, false, 0, ctx) == Some(end);
    assert Sort(NameLe, [h]) == [h];
  }

  lemma {:induction false} HostsOfTokens(h: Host, names: seq<string>, toks: seq<Token>, first: seq<Token>, rest: seq<Token>,
                                         ctx: Context)
    requires Readable(h, names) && toks == CommentTokens(h.comments, 1) + (first + rest)
    requires Pieces(first) == Heading(h.name) && first[0].line == |h.comments| + 1
    requires Pieces(rest) == BodyPieces(Statements(h, names))
    ensures BlockFrom(toks, Progress(0, [], 0, [], 1), false, 0, ctx) == Some(Progress(|toks|, [], |h.comments|, [h], 1))
  {
    var n := |h.comments|;
    var p := AfterComments(h.comments, n);
    CommentsKept(h.comments, first + rest, 0, ctx);
    assert h.comments[..0] == [] && h.comments[..n] == h.comments;
    assert toks[n..n + 3] == first && toks[n + 3..] == rest && toks[n] == first[0];
    assert (first[0].kind, first[0].text) == Pieces(first)[0] == (Word, "host");
    DeclarationReads(toks, p, h, names, ctx);
    BlockOfOne(toks, p, p.(pos := |toks|, comments := [], hosts := [h]), ctx);
  }

  lemma {:induction false} BlockOfOne(toks: seq<Token>, p: Progress, q: Progress, ctx: Context)
    requires Fits(toks, p) && p.pos < |toks| && toks[p.pos].kind == Word
    requires Declared(toks, p, 0, ctx) == Some(q) && q.pos == |toks|
    ensures BlockFrom(toks, p, false, 0, ctx) == Some(q)
  {
  }

  // ----- several -----

  /** Declarations with a blank line between them. */
  function Declarations(hosts: seq<Host>, names: Host -> seq<string>): string
    requires forall h :: h in hosts ==> Readable(h, names(h))
  {
    if hosts == [] then ""
    else
      var n := |hosts| - 1;
      assert hosts[n] in hosts && forall h :: h in hosts[..n] ==> h in hosts;
      Declarations(hosts[..n], names) + "\n\n" + DeclarationText(hosts[n], names(hosts[n]))
  }

  /** Any declarations are read back as they were written, stably sorted by name. */
  lemma {:induction false} ReadsBack(hosts: seq<Host>, names: Host -> seq<string>)
    requires forall h :: h in hosts ==> Readable(h, names(h))
    ensures Parse(Declarations(hosts, names)) == Some(Sort(NameLe, hosts))
  {
    if hosts != [] {
      var n := |hosts| - 1;
      var front, last := hosts[..n], hosts[n];
      assert front + [last] == hosts;
      assert last in hosts && forall h :: h in front ==> h in hosts;
      ReadsBack(front, names);
      DeclarationReadsBack(last, names(last));
      BothRead(Declarations(front, names), DeclarationText(last, names(last)), front, last);
    }
  }

  lemma {:induction false} BothRead(a: string, b: string, front: seq<Host>, last: Host)
    requires Parse(a) == Some(Sort(NameLe, front)) && Parse(b) == Some([last])
    ensures Parse(a + "\n\n" + b) == Some(Sort(NameLe, front + [last]))
  {
    ReadOnItsOwn(a, b);
    NameOrder();
    SortParts(NameLe, front, [last]);
    assert Sort(NameLe, [last]) == [last];
  }
}
