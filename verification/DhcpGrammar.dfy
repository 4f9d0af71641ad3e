/** What the tokens of a dhcpd configuration declare: statements, blocks, host
    declarations and included files (internal/dhcp/dhcp.go). */
module DhcpGrammar {
  import opened Options
  import opened Text
  import opened DhcpTokens

  const MAX_FILES: nat := 256
  const MAX_DEPTH: nat := 64

  datatype Host = Host(name: string, macs: seq<string>, address: string, filename: string, clientIdentifier: string,
                       options: map<string, string>, comments: seq<string>)

  // ----- statements -----

  /** The tokens of a statement, whether a brace ended it, and where it ended. */
  datatype Statement = Statement(words: seq<Token>, open: bool, pos: nat)

  predicate EndsInEquals(words: seq<Token>) {
    words != [] && words[|words| - 1].kind == Word && words[|words| - 1].text == "="
  }

  /** A record type in braces, from after its brace. */
  function RecordFrom(toks: seq<Token>, pos: nat, out: seq<Token>): (r: Option<(seq<Token>, nat)>)
    requires pos <= |toks|
    ensures r.Some? ==> pos < r.value.1 <= |toks| && |r.value.0| >= |out| && r.value.0[..|out|] == out
    decreases |toks| - pos
  {
    if pos == |toks| then None
    else
      var t := toks[pos];
      if t.kind == Close then Some((out + [t], pos + 1))
      else if t.kind == Word || t.kind == Quoted || t.kind == Comma then RecordFrom(toks, pos + 1, out + [t])
      else if t.kind == Comment then RecordFrom(toks, pos + 1, out)
      else None
  }

  /** The rest of a statement, given the tokens it has so far. */
  function StatementFrom(toks: seq<Token>, pos: nat, words: seq<Token>): (r: Option<Statement>)
    requires pos <= |toks|
    ensures r.Some? ==> pos < r.value.pos <= |toks|
    ensures r.Some? && words != [] ==> r.value.words != [] && r.value.words[0] == words[0]
    decreases |toks| - pos
  {
    if pos == |toks| then None
    else
      var t := toks[pos];
      if t.kind == Comment then StatementFrom(toks, pos + 1, words)
      else if t.kind == Semicolon then Some(Statement(words, false, pos + 1))
      else if t.kind == Close then None
      else if t.kind == Open && EndsInEquals(words) then
        match RecordFrom(toks, pos + 1, [t])
        case None => None
        case Some((record, next)) => StatementFrom(toks, next, words + record)
      else if t.kind == Open then
        if words == [] then None else Some(Statement(words, true, pos + 1))
      else StatementFrom(toks, pos + 1, words + [t])
  }

  /** The statement a record type is part of, read on after it. */
  function AfterRecord(toks: seq<Token>, words: seq<Token>, record: Option<(seq<Token>, nat)>): Option<Statement>
    requires record.Some? ==> record.value.1 <= |toks|
  {
    if record.None? then None else StatementFrom(toks, record.value.1, words + record.value.0)
  }

  lemma {:induction false} RecordGoesOn(toks: seq<Token>, pos: nat, words: seq<Token>)
    requires pos < |toks| && toks[pos].kind == Open && EndsInEquals(words)
    ensures StatementFrom(toks, pos, words) == AfterRecord(toks, words, RecordFrom(toks, pos + 1, [toks[pos]]))
  {
  }

  lemma {:induction false} RecordTaken(toks: seq<Token>, pos: nat, n: nat, out: seq<Token>)
    requires pos + n < |toks| && toks[pos + n].kind == Close
    requires forall k :: pos <= k < pos + n ==> toks[k].kind in {Word, Quoted, Comma}
    ensures RecordFrom(toks, pos, out) == Some((out + toks[pos..pos + n + 1], pos + n + 1))
    decreases n
  {
    if n == 0 {
      assert toks[pos..pos + 1] == [toks[pos]];
    } else {
      RecordTaken(toks, pos + 1, n - 1, out + [toks[pos]]);
      assert out + [toks[pos]] + toks[pos + 1..pos + n + 1] == out + toks[pos..pos + n + 1];
    }
  }

  /** A brace after `=` holds a record type of words, strings and commas, which is part
      of the statement, braces included, and the statement goes on after it; a comment
      in it is passed over, and anything else in it, or its end missing, is refused.
      Any other brace opens a block. */
  lemma {:induction false} RecordOrBlock(toks: seq<Token>, pos: nat, n: nat, words: seq<Token>)
    requires pos + 1 + n < |toks| && toks[pos].kind == Open && words != []
    requires forall k :: pos < k <= pos + n ==> toks[k].kind in {Word, Quoted, Comma}
    ensures var last, t := words[|words| - 1], toks[pos + 1 + n];
            && (last.kind != Word || last.text != "=" ==> StatementFrom(toks, pos, words) == Some(Statement(words, true, pos + 1)))
            && (last.kind == Word && last.text == "=" ==>
                  && (t.kind == Close ==> StatementFrom(toks, pos, words)
                                          == StatementFrom(toks, pos + n + 2, words + toks[pos..pos + n + 2]))
                  && (t.kind == Semicolon || t.kind == Open ==> StatementFrom(toks, pos, words) == None))
  {
    if EndsInEquals(words) {
      RecordGoesOn(toks, pos, words);
      if toks[pos + 1 + n].kind == Close {
        RecordTaken(toks, pos + 1, n, [toks[pos]]);
        assert [toks[pos]] + toks[pos + 1..pos + n + 2] == toks[pos..pos + n + 2];
      } else if toks[pos + 1 + n].kind == Semicolon || toks[pos + 1 + n].kind == Open {
        RecordBroken(toks, pos + 1, n, [toks[pos]]);
      }
    }
  }

  lemma {:induction false} RecordBroken(toks: seq<Token>, pos: nat, n: nat, out: seq<Token>)
    requires pos + n < |toks| && (toks[pos + n].kind == Semicolon || toks[pos + n].kind == Open)
    requires forall k :: pos <= k < pos + n ==> toks[k].kind in {Word, Quoted, Comma}
    ensures RecordFrom(toks, pos, out) == None
    decreases n
  {
    if n > 0 {
      RecordBroken(toks, pos + 1, n - 1, out + [toks[pos]]);
    }
  }

  /** A record or statement that does not end is refused, and a comment in either is
      passed over. */
  lemma {:induction false} CommentInside(toks: seq<Token>, pos: nat, words: seq<Token>)
    requires pos <= |toks|
    ensures pos == |toks| ==> RecordFrom(toks, pos, words) == None && StatementFrom(toks, pos, words) == None
    ensures pos < |toks| && toks[pos].kind == Comment ==>
              && RecordFrom(toks, pos, words) == RecordFrom(toks, pos + 1, words)
              && StatementFrom(toks, pos, words) == StatementFrom(toks, pos + 1, words)
  {
  }

  predicate Starts(t: Token) {
    t.kind == Word || t.kind == Quoted || t.kind == Comma || t.kind == Open
  }

  lemma {:induction false} StatementHasWords(toks: seq<Token>, pos: nat)
    requires pos < |toks| && Starts(toks[pos]) && StatementFrom(toks, pos, []).Some?
    ensures StatementFrom(toks, pos, []).value.words != []
    ensures StatementFrom(toks, pos, []).value.words[0] == toks[pos]
  {
    assert [] + [toks[pos]] == [toks[pos]];
  }

  // ----- host declarations -----

  function Rendered(args: seq<Token>): string {
    if args == [] then ""
    else
      var n := |args| - 1;
      Rendered(args[..n]) + if args[n].kind == Comma then "," else (if n > 0 then " " else "") + args[n].text
  }

  function Values(args: seq<Token>): seq<string> {
    if args == [] then []
    else
      var n := |args| - 1;
      Values(args[..n]) + if args[n].kind == Comma then [] else [args[n].text]
  }

  /** What a statement's arguments come to: how many tokens, their values, the first,
      and all and all but the first rendered. */
  datatype Args = Args(count: nat, values: seq<string>, first: Option<(Kind, string)>, all: string, rest: string)

  function ArgsOf(args: seq<Token>): (r: Args)
    ensures r.count == |args| && (args != [] ==> r.first == Some((args[0].kind, args[0].text)))
  {
    if args == [] then Args(0, [], None, "", "")
    else Args(|args|, Values(args), Some((args[0].kind, args[0].text)), Rendered(args), Rendered(args[1..]))
  }

  function Said(h: Host, keyword: string, args: Args): Option<Host>
    requires args.count > 0 ==> args.first.Some?
  {
    if keyword == "include" then None
    else if keyword == "hardware" then
      if |args.values| != 2 || args.count != 2 then None
      else if args.values[0] == "ethernet" then Some(h.(macs := h.macs + [ToLower(args.values[1])]))
      else Some(h.(options := h.options["hardware " + args.values[0] := args.values[1]]))
    else if keyword == "fixed-address" then
      if args.values == [] || h.address != "" then None else Some(h.(address := Join(args.values, ", ")))
    else if keyword == "filename" then
      if args.count != 1 then None else Some(h.(filename := args.first.value.1))
    else if keyword == "option" then
      if args.count < 2 || args.first.value.0 != Word then None
      else if args.first.value.1 == "dhcp-client-identifier" then Some(h.(clientIdentifier := args.rest))
      else Some(h.(options := h.options[args.first.value.1 := args.rest]))
    else Some(h.(options := h.options[keyword := args.all]))
  }

  /** One statement of a host declaration. */
  function Applied(h: Host, words: seq<Token>): Option<Host>
    requires words != []
  {
    if words[0].kind != Word then None else Said(h, words[0].text, ArgsOf(words[1..]))
  }

  /** The host a declaration opens, if it names exactly one. */
  function Named(words: seq<Token>, comments: seq<string>): Option<Host> {
    if |words| == 2 && (words[1].kind == Word || words[1].kind == Quoted) && words[1].text != ""
    then Some(Host(words[1].text, [], "", "", "", map[], comments))
    else None
  }

  predicate IsHost(words: seq<Token>) {
    words != [] && words[0].kind == Word && words[0].text == "host"
  }

  predicate IsInclude(words: seq<Token>) {
    words != [] && words[0].kind == Word && words[0].text == "include"
  }

  /** One statement of a host declaration read, and where the next begins. */
  function HostStatement(toks: seq<Token>, pos: nat, h: Host): (r: Option<(Host, nat)>)
    requires pos < |toks| && Starts(toks[pos])
    ensures r.Some? ==> pos < r.value.1 <= |toks|
  {
    match StatementFrom(toks, pos, [])
    case None => None
    case Some(statement) =>
      StatementHasWords(toks, pos);
      if IsHost(statement.words) || statement.open || Applied(h, statement.words).None? then None
      else Some((Applied(h, statement.words).value, statement.pos))
  }

  /** The rest of a host declaration, given what it says so far. */
  function HostFrom(toks: seq<Token>, pos: nat, h: Host): (r: Option<(Host, nat)>)
    requires pos <= |toks|
    ensures r.Some? ==> pos < r.value.1 <= |toks|
    decreases |toks| - pos
  {
    if pos == |toks| then None
    else
      var t := toks[pos];
      if t.kind == Comment || t.kind == Semicolon then HostFrom(toks, pos + 1, h)
      else if t.kind == Close then Some((h, pos + 1))
      else if t.kind == Open then None
      else
        var one := HostStatement(toks, pos, h);
        if one.None? then None else HostFrom(toks, one.value.1, one.value.0)
  }

  /** The rest of a host declaration after one statement of it. */
  function AfterStatement(toks: seq<Token>, one: Option<(Host, nat)>): Option<(Host, nat)>
    requires one.Some? ==> one.value.1 <= |toks|
  {
    if one.None? then None else HostFrom(toks, one.value.1, one.value.0)
  }

  lemma {:induction false} HostGoesOn(toks: seq<Token>, pos: nat, h: Host)
    requires pos < |toks| && toks[pos].kind in {Word, Quoted, Comma}
    ensures HostFrom(toks, pos, h) == AfterStatement(toks, HostStatement(toks, pos, h))
  {
  }

  // ----- what is refused -----

  predicate AllCommas(args: seq<Token>) {
    forall t :: t in args ==> t.kind == Comma
  }

  predicate NoCommas(args: seq<Token>) {
    forall t :: t in args ==> t.kind != Comma
  }

  lemma {:induction false} OneArgumentMore(args: seq<Token>, t: Token)
    ensures AllCommas(args + [t]) <==> AllCommas(args) && t.kind == Comma
    ensures NoCommas(args + [t]) <==> NoCommas(args) && t.kind != Comma
  {
    assert t in args + [t];
  }

  lemma {:induction false} ValuesAre(args: seq<Token>)
    ensures |Values(args)| <= |args|
    ensures Values(args) == [] <==> AllCommas(args)
    ensures |Values(args)| == |args| <==> NoCommas(args)
  {
    if args != [] {
      var n := |args| - 1;
      ValuesAre(args[..n]);
      OneArgumentMore(args[..n], args[n]);
      assert args == args[..n] + [args[n]];
    }
  }

  /** A statement of a declaration is refused exactly when it does not begin with a
      word, includes a file, or has not the arguments of its kind: two values for
      hardware, some for the one address, one for the file name, and a word and
      something more for an option. */
  lemma {:induction false} RefusedWhen(h: Host, words: seq<Token>)
    requires words != []
    ensures var keyword, args := words[0].text, words[1..];
            Applied(h, words) == None <==>
            || words[0].kind != Word || keyword == "include"
            || (keyword == "hardware" && (|args| != 2 || args[0].kind == Comma || args[1].kind == Comma))
            || (keyword == "fixed-address" && (h.address != "" || AllCommas(args)))
            || (keyword == "filename" && |args| != 1)
            || (keyword == "option" && (|args| < 2 || args[0].kind != Word))
  {
    ValuesAre(words[1..]);
  }

  /** A declaration names its host by one word or string, and not by nothing. */
  lemma {:induction false} NamedWhen(words: seq<Token>, comments: seq<string>, h: Host)
    ensures Named(words, comments) == Some(h) <==>
            && |words| == 2 && words[1].kind in {Word, Quoted} && words[1].text != ""
            && h == Host(words[1].text, [], "", "", "", map[], comments)
  {
  }

  /** A declaration that is not closed is refused, and so is one with a block, another
      declaration, or a statement that is refused in it. */
  lemma {:induction false} HostRefuses(toks: seq<Token>, pos: nat, h: Host)
    requires pos <= |toks|
    ensures pos == |toks| || toks[pos].kind == Open ==> HostFrom(toks, pos, h) == None
    ensures pos < |toks| && toks[pos].kind in {Word, Quoted, Comma} ==>
              match StatementFrom(toks, pos, [])
              case None => HostFrom(toks, pos, h) == None
              case Some(s) =>
                s.words != []
                && (s.open || (s.words[0].kind == Word && s.words[0].text == "host") || Applied(h, s.words) == None ==>
                      HostFrom(toks, pos, h) == None)
  {
    if pos < |toks| && toks[pos].kind in {Word, Quoted, Comma} {
      HostGoesOn(toks, pos, h);
      if StatementFrom(toks, pos, []).Some? {
        StatementHasWords(toks, pos);
      }
    }
  }

  // ----- what a declaration adds up to -----

  /** What one declaration says of a host after another statement: its name and
      the comments above it are the same, no address is taken back or changed, no
      hardware address and no option is lost. */
  predicate Extends(g: Host, h: Host) {
    && g.name == h.name && g.comments == h.comments
    && h.macs <= g.macs && h.options.Keys <= g.options.Keys
    && (h.address != "" ==> g.address == h.address)
  }

  lemma {:induction false} StatementExtends(h: Host, words: seq<Token>)
    requires words != [] && Applied(h, words).Some?
    ensures Extends(Applied(h, words).value, h)
  {
  }

  /** However long a declaration goes on, it only adds to what it said: of two
      addresses it is refused, and what came first stays. */
  lemma {:induction false} DeclarationOnlyAdds(toks: seq<Token>, pos: nat, h: Host)
    requires pos <= |toks| && HostFrom(toks, pos, h).Some?
    ensures Extends(HostFrom(toks, pos, h).value.0, h)
    decreases |toks| - pos
  {
    if toks[pos].kind == Comment || toks[pos].kind == Semicolon {
      DeclarationOnlyAdds(toks, pos + 1, h);
    } else if toks[pos].kind != Close {
      var (g, next) := HostStatement(toks, pos, h).value;
      StatementExtends(h, StatementFrom(toks, pos, []).value.words);
      DeclarationOnlyAdds(toks, next, g);
    }
  }

  // ----- blocks and included files -----

  /** How files are read, if at all; the file being read, and those that led to it. */
  datatype Context = Context(read: Option<string -> Option<string>>, file: string, chain: seq<string>)

  /** How far the reading of a file is: the comments read last and the line they end
      on, the hosts declared, and how many files were read, of all files. */
  datatype Progress = Progress(pos: nat, comments: seq<string>, commentLine: nat, hosts: seq<Host>, files: nat)

  /** A comment: one alone on its line joins those on the lines right above it. */
  function Commented(p: Progress, t: Token): Progress {
    if !t.first then p.(pos := p.pos + 1)
    else
      var kept := if p.comments == [] || t.line != p.commentLine + 1 then [] else p.comments;
      p.(pos := p.pos + 1, comments := kept + [t.text], commentLine := t.line)
  }

  /** The comments that a statement on this line has directly above it. */
  function Above(p: Progress, line: nat): seq<string> {
    if p.comments != [] && line == p.commentLine + 1 then p.comments else []
  }

  predicate Fits(toks: seq<Token>, p: Progress) {
    p.pos <= |toks| && p.files <= MAX_FILES
  }

  /** One thing is read after the other, and files are only ever added. */
  predicate Follows(toks: seq<Token>, p: Progress, q: Progress) {
    p.pos <= q.pos && Fits(toks, q) && p.files <= q.files
  }

  function Block(toks: seq<Token>, p: Progress, open: bool, depth: nat, ctx: Context): (r: Option<Progress>)
    requires Fits(toks, p)
    ensures r.Some? ==> Follows(toks, p, r.value)
    decreases MAX_FILES - p.files, |toks| - p.pos, 3
  {
    if depth > MAX_DEPTH then None else BlockFrom(toks, p, open, depth, ctx)
  }

  /** The rest of a block: to the brace that closes it, or to the end of the file. */
  function BlockFrom(toks: seq<Token>, p: Progress, open: bool, depth: nat, ctx: Context): (r: Option<Progress>)
    requires Fits(toks, p)
    ensures r.Some? ==> Follows(toks, p, r.value)
    decreases MAX_FILES - p.files, |toks| - p.pos, 2
  {
    if p.pos == |toks| then if open then None else Some(p)
    else
      var t := toks[p.pos];
      if t.kind == Comment then BlockFrom(toks, Commented(p, t), open, depth, ctx)
      else if t.kind == Close then if open then Some(p.(pos := p.pos + 1)) else None
      else if t.kind == Semicolon then BlockFrom(toks, p.(pos := p.pos + 1), open, depth, ctx)
      else
        var q := Declared(toks, p, depth, ctx);
        if q.None? then None else BlockFrom(toks, q.value, open, depth, ctx)
  }

  /** One statement of a block, and the block it opens. */
  function Declared(toks: seq<Token>, p: Progress, depth: nat, ctx: Context): (r: Option<Progress>)
    requires Fits(toks, p) && p.pos < |toks| && Starts(toks[p.pos])
    ensures r.Some? ==> Follows(toks, p, r.value) && p.pos < r.value.pos
    decreases MAX_FILES - p.files, |toks| - p.pos, 1
  {
    match StatementFrom(toks, p.pos, [])
    case None => None
    case Some(s) =>
      var q := p.(pos := s.pos, comments := []);
      if IsHost(s.words) then
        if !s.open then None
        else match Named(s.words, Above(p, toks[p.pos].line))
          case None => None
          case Some(h) =>
            match HostFrom(toks, s.pos, h)
            case None => None
            case Some((h', pos)) => Some(q.(pos := pos, hosts := p.hosts + [h']))
      else if s.open then Block(toks, q, true, depth + 1, ctx)
      else if IsInclude(s.words) then
        match Included(s.words, p.hosts, p.files, depth, ctx)
        case None => None
        case Some(sub) => Some(q.(hosts := sub.hosts, files := sub.files))
      else Some(q)
  }

  /** The file an include statement may name here: by its absolute path, none of
      those that led here, and not one too many. */
  predicate MayInclude(words: seq<Token>, files: nat, depth: nat, ctx: Context) {
    && |words| == 2 && words[1].kind == Quoted && ctx.read.Some?
    && words[1].text != "" && words[1].text[0] == '/'
    && words[1].text !in ctx.chain + [ctx.file]
    && files + 1 <= MAX_FILES && depth <= MAX_DEPTH
  }

  function Within(ctx: Context, file: string): Context {
    Context(ctx.read, file, ctx.chain + [ctx.file])
  }

  /** An included file, read as a file of its own. */
  function Included(words: seq<Token>, hosts: seq<Host>, files: nat, depth: nat, ctx: Context): (r: Option<Progress>)
    requires files <= MAX_FILES
    ensures r.Some? ==> files <= r.value.files <= MAX_FILES
    decreases MAX_FILES - files, 0, 0
  {
    if !MayInclude(words, files, depth, ctx) then None
    else match ctx.read.value(words[1].text)
      case None => None
      case Some(data) => ReadFile(data, hosts, files + 1, depth + 1, Within(ctx, words[1].text))
  }

  /** `run`: a whole file. */
  function ReadFile(data: string, hosts: seq<Host>, files: nat, depth: nat, ctx: Context): (r: Option<Progress>)
    requires files <= MAX_FILES
    ensures r.Some? ==> files <= r.value.files <= MAX_FILES
    decreases MAX_FILES - files, (match Tokens(data, 1, true) case None => 0 case Some(toks) => |toks|), 4
  {
    match Tokens(data, 1, true)
    case None => None
    case Some(toks) => Block(toks, Progress(0, [], 0, hosts, files), false, depth, ctx)
  }

  /** A file is included by its absolute path, in quotes, only where files can be
      read, once in its chain, as one of no more than 256 files and no deeper than
      64; and then what is read goes on from the hosts and files so far. */
  lemma {:induction false} IncludedWhen(words: seq<Token>, hosts: seq<Host>, files: nat, depth: nat, ctx: Context, p: Progress)
    requires files <= MAX_FILES
    ensures Included(words, hosts, files, depth, ctx) == Some(p) <==>
            && |words| == 2 && words[1].kind == Quoted && "/" <= words[1].text
            && words[1].text != ctx.file && words[1].text !in ctx.chain && files < 256 && depth <= 64
            && ctx.read.Some? && ctx.read.value(words[1].text).Some?
            && ReadFile(ctx.read.value(words[1].text).value, hosts, files + 1, depth + 1,
                        Context(ctx.read, words[1].text, ctx.chain + [ctx.file])) == Some(p)
  {
    if |words| == 2 {
      var file := words[1].text;
      assert file in ctx.chain + [ctx.file] <==> file in ctx.chain || file == ctx.file;
      assert "/" <= file <==> file != "" && file[0] == '/';
    }
  }

  /** A block deeper than 64 is refused, and one at 64 is not for its depth. */
  lemma {:induction false} NestedTooDeep(toks: seq<Token>, p: Progress, open: bool, depth: nat, ctx: Context)
    requires Fits(toks, p)
    ensures Block(toks, p, open, depth, ctx) == if depth > 64 then None else BlockFrom(toks, p, open, depth, ctx)
  {
  }

  /** A comment after something on its line is passed over: it joins no other, and
      parts none. */
  lemma {:induction false} CommentAfterIsIgnored(toks: seq<Token>, p: Progress, open: bool, depth: nat, ctx: Context)
    requires Fits(toks, p) && p.pos < |toks| && toks[p.pos].kind == Comment && !toks[p.pos].first
    ensures BlockFrom(toks, p, open, depth, ctx) == BlockFrom(toks, p.(pos := p.pos + 1), open, depth, ctx)
  {
  }

  /** A block ends after the brace that closes it, and a file at its end; a block that
      is not closed is refused, and so is a brace that closes none. */
  lemma {:induction false} BlockEnds(toks: seq<Token>, p: Progress, open: bool, depth: nat, ctx: Context)
    requires Fits(toks, p)
    ensures p.pos == |toks| ==> BlockFrom(toks, p, open, depth, ctx) == if open then None else Some(p)
    ensures p.pos < |toks| && toks[p.pos].kind == Close ==>
              BlockFrom(toks, p, open, depth, ctx) == if open then Some(p.(pos := p.pos + 1)) else None
    ensures p.pos < |toks| && toks[p.pos].kind == Semicolon ==>
              BlockFrom(toks, p, open, depth, ctx) == BlockFrom(toks, p.(pos := p.pos + 1), open, depth, ctx)
  {
  }

  /** A statement that declares no host opens a block one deeper, includes a file, or
      says nothing; and comments above it are not those of a later one. A declaration
      without a body is refused. */
  lemma {:induction false} OtherStatements(toks: seq<Token>, p: Progress, depth: nat, ctx: Context)
    requires Fits(toks, p) && p.pos < |toks| && Starts(toks[p.pos]) && StatementFrom(toks, p.pos, []).Some?
    ensures var s := StatementFrom(toks, p.pos, []).value;
            var keyword := if s.words[0].kind == Word then s.words[0].text else "";
            var q := p.(pos := s.pos, comments := []);
            && (keyword == "host" && !s.open ==> Declared(toks, p, depth, ctx) == None)
            && (keyword != "host" && s.open ==> Declared(toks, p, depth, ctx) == Block(toks, q, true, depth + 1, ctx))
            && (keyword == "include" && !s.open ==>
                  Declared(toks, p, depth, ctx)
                  == match Included(s.words, p.hosts, p.files, depth, ctx)
                     case None => None
                     case Some(sub) => Some(q.(hosts := sub.hosts, files := sub.files)))
            && (keyword != "host" && keyword != "include" && !s.open ==> Declared(toks, p, depth, ctx) == Some(q))
  {
    StatementHasWords(toks, p.pos);
  }
}
