/** What is read of any dhcpd configuration can be written as plain declarations,
    which are read back as the same hosts (internal/dhcp/dhcp.go). */
module DhcpNormal {
  import opened Options
  import opened Text
  import opened Sorting
  import opened DhcpTokens
  import opened DhcpGrammar
  import opened DhcpLocality
  import opened DhcpWriting

  // ----- tokens -----

  predicate IsComment(text: string) {
    '\n' !in text && Trimmed(text)
  }

  /** What the text of a token is made of. */
  predicate Sound(t: Token) {
    (t.kind == Word ==> IsBare(t.text)) && (t.kind == Comment ==> IsComment(t.text))
  }

  predicate AllSound(toks: seq<Token>) {
    forall t :: t in toks ==> Sound(t)
  }

  lemma {:induction false} WordHas(s: string)
    ensures forall c :: c in s[..DhcpTokens.WordEnd(s)] ==> !Breaks(c)
  {
    if s != "" && !Breaks(s[0]) {
      WordHas(s[1..]);
      assert s[..DhcpTokens.WordEnd(s)] == [s[0]] + s[1..][..DhcpTokens.WordEnd(s[1..])];
    }
  }

  lemma {:induction false} LineHas(s: string)
    ensures '\n' !in s[..LineEnd(s)]
  {
    if s != "" && s[0] != '\n' {
      LineHas(s[1..]);
      assert s[..LineEnd(s)] == [s[0]] + s[1..][..LineEnd(s[1..])];
    }
  }

  lemma {:induction false} FirstIsSound(s: string, line: nat, first: bool)
    requires First(s).Lexed?
    ensures Sound(Token(First(s).kind, First(s).text, line, first))
  {
    var l := First(s);
    if l.kind == Word {
      WordHas(s);
      assert l.text[0] == s[0];
    } else if l.kind == Comment {
      var n := LineEnd(s);
      LineHas(s);
      TrimSpaceIs(s[1..n]);
      assert forall c :: c in s[1..n] ==> c in s[..n];
    }
  }

  lemma {:induction false} TokensAreSound(s: string, line: nat, first: bool)
    requires Tokens(s, line, first).Some?
    ensures AllSound(Tokens(s, line, first).value)
    decreases |s|
  {
    match First(s) {
      case End =>
      case Newline(rest) => TokensAreSound(rest, line + 1, true);
      case Blank(rest) => TokensAreSound(rest, line, first);
      case Lexed(kind, text, rest, lines) =>
        FirstIsSound(s, line, first);
        TokensAreSound(rest, line + lines, false);
      case Unclosed => assert false;
    }
  }

  // ----- hosts -----

  /** What is read of a host can be written. */
  predicate CanBeWritten(h: Host) {
    && h.name != ""
    && (forall mac :: mac in h.macs ==> ToLower(mac) == mac)
    && (forall c :: c in h.comments ==> IsComment(c))
    && (forall n :: n in h.options ==> OptionName(n))
  }

  predicate AllCanBeWritten(hosts: seq<Host>) {
    forall h :: h in hosts ==> CanBeWritten(h)
  }

  lemma {:induction false} RecordHas(toks: seq<Token>, pos: nat, out: seq<Token>)
    requires pos <= |toks| && AllSound(toks) && AllSound(out)
    ensures RecordFrom(toks, pos, out).Some? ==> AllSound(RecordFrom(toks, pos, out).value.0)
    decreases |toks| - pos
  {
    if pos < |toks| && toks[pos].kind != Close {
      assert toks[pos] in toks;
      RecordHas(toks, pos + 1, if toks[pos].kind == Comment then out else out + [toks[pos]]);
    }
  }

  lemma {:induction false} StatementHas(toks: seq<Token>, pos: nat, words: seq<Token>)
    requires pos <= |toks| && AllSound(toks) && AllSound(words)
    ensures StatementFrom(toks, pos, words).Some? ==> AllSound(StatementFrom(toks, pos, words).value.words)
    decreases |toks| - pos
  {
    if pos < |toks| {
      var t := toks[pos];
      assert t in toks;
      if t.kind == Open && EndsInEquals(words) {
        RecordHas(toks, pos + 1, [t]);
        RecordGoesOn(toks, pos, words);
        var record := RecordFrom(toks, pos + 1, [t]);
        if record.Some? {
          StatementHas(toks, record.value.1, words + record.value.0);
        }
      } else if t.kind == Comment {
        StatementHas(toks, pos + 1, words);
      } else if t.kind != Semicolon && t.kind != Close && t.kind != Open {
        StatementHas(toks, pos + 1, words + [t]);
      }
    }
  }

  lemma {:induction false} BareIsNoHardware(name: string)
    requires IsBare(name)
    ensures OptionName(name)
  {
    if "hardware " <= name {
      BlankIsNotBare(name);
    }
  }

  lemma {:induction false} BlankIsNotBare(name: string)
    requires "hardware " <= name
    ensures !IsBare(name)
  {
    assert name[8] == ' ' && name[8] in name;
  }

  lemma {:induction false} HardwareName(typ: string)
    requires typ != "ethernet"
    ensures OptionName("hardware " + typ)
  {
    assert ("hardware " + typ)[|"hardware "|..] == typ;
  }

  lemma {:induction false} StatementKeeps(h: Host, words: seq<Token>)
    requires CanBeWritten(h) && words != [] && AllSound(words) && Applied(h, words).Some?
    ensures CanBeWritten(Applied(h, words).value)
  {
    var keyword, args := words[0].text, ArgsOf(words[1..]);
    assert words[0] in words;
    BareIsNoHardware(keyword);
    if keyword == "hardware" {
      if args.values[0] != "ethernet" {
        HardwareName(args.values[0]);
      }
      LowerIdempotent(args.values[1]);
    } else if keyword == "option" {
      assert words[1] in words;
      BareIsNoHardware(words[1].text);
    }
  }

  lemma {:induction false} HostKeeps(toks: seq<Token>, pos: nat, h: Host)
    requires pos <= |toks| && AllSound(toks) && CanBeWritten(h)
    ensures HostFrom(toks, pos, h).Some? ==> CanBeWritten(HostFrom(toks, pos, h).value.0)
    decreases |toks| - pos
  {
    if pos < |toks| {
      var t := toks[pos];
      if t.kind == Comment || t.kind == Semicolon {
        HostKeeps(toks, pos + 1, h);
      } else if t.kind != Close && t.kind != Open {
        HostGoesOn(toks, pos, h);
        var one := HostStatement(toks, pos, h);
        if one.Some? {
          StatementHas(toks, pos, []);
          StatementKeeps(h, StatementFrom(toks, pos, []).value.words);
          HostKeeps(toks, one.value.1, one.value.0);
        }
      }
    }
  }

  /** What was read so far can be written, and the comments read last are comments. */
  predicate GoodSoFar(p: Progress) {
    AllCanBeWritten(p.hosts) && forall c :: c in p.comments ==> IsComment(c)
  }

  lemma {:induction false} BlockKeepsGood(toks: seq<Token>, p: Progress, open: bool, depth: nat, ctx: Context)
    requires Fits(toks, p) && ctx.read.None? && AllSound(toks) && GoodSoFar(p)
    ensures BlockFrom(toks, p, open, depth, ctx).Some? ==> GoodSoFar(BlockFrom(toks, p, open, depth, ctx).value)
    decreases |toks| - p.pos, 1
  {
    if p.pos < |toks| {
      var t := toks[p.pos];
      assert t in toks;
      if t.kind == Comment {
        BlockKeepsGood(toks, Commented(p, t), open, depth, ctx);
      } else if t.kind == Semicolon {
        BlockKeepsGood(toks, p.(pos := p.pos + 1), open, depth, ctx);
      } else if t.kind != Close {
        DeclaredKeepsGood(toks, p, depth, ctx);
        var q := Declared(toks, p, depth, ctx);
        if q.Some? {
          BlockKeepsGood(toks, q.value, open, depth, ctx);
        }
      }
    }
  }

  lemma {:induction false} DeclaredKeepsGood(toks: seq<Token>, p: Progress, depth: nat, ctx: Context)
    requires Fits(toks, p) && ctx.read.None? && AllSound(toks) && GoodSoFar(p) && p.pos < |toks| && Starts(toks[p.pos])
    ensures Declared(toks, p, depth, ctx).Some? ==> GoodSoFar(Declared(toks, p, depth, ctx).value)
    decreases |toks| - p.pos, 0
  {
    var statement := StatementFrom(toks, p.pos, []);
    if statement.Some? {
      var s := statement.value;
      if IsHost(s.words) {
        var h := Named(s.words, Above(p, toks[p.pos].line));
        if s.open && h.Some? {
          HostKeeps(toks, s.pos, h.value);
        }
      } else if s.open && depth + 1 <= MAX_DEPTH {
        BlockKeepsGood(toks, p.(pos := s.pos, comments := []), true, depth + 1, ctx);
      }
    }
  }

  /** Every host that is read can be written. */
  lemma {:induction false} ReadCanBeWritten(text: string)
    requires Parse(text).Some?
    ensures AllCanBeWritten(Parse(text).value)
  {
    var ctx := Context(None, "", []);
    var toks := Tokens(text, 1, true).value;
    TokensAreSound(text, 1, true);
    var start := Progress(0, [], 0, [], 1);
    BlockKeepsGood(toks, start, false, 0, ctx);
    assert Block(toks, start, false, 0, ctx) == BlockFrom(toks, start, false, 0, ctx);
    var read := ReadFile(text, [], 1, 0, ctx).value;
    assert GoodSoFar(read);
    NameOrder();
    SortSorts(NameLe, read.hosts);
  }

  /** The names of a host's options, in whatever order. */
  ghost predicate ListsOptions(names: Host -> seq<string>) {
    forall h: Host, n: string :: n in names(h) <==> n in h.options
  }

  /** Whatever a configuration is written like: its hosts written as plain
      declarations are read as the same hosts, in the same order. */
  lemma {:induction false} NormalForm(text: string, names: Host -> seq<string>)
    requires Parse(text).Some? && ListsOptions(names)
    ensures forall h :: h in Parse(text).value ==> Readable(h, names(h))
    ensures Parse(Declarations(Parse(text).value, names)) == Parse(text)
  {
    var hosts := Parse(text).value;
    ReadCanBeWritten(text);
    forall h | h in hosts ensures Readable(h, names(h)) {
      assert CanBeWritten(h);
    }
    ReadsBack(hosts, names);
    ParsedIsSorted(text);
    NameOrder();
    SortIdentity(NameLe, hosts);
  }
}
