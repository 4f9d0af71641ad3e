/** A declaration is read only from its own tokens: what two texts declare, one
    below the other, is what each declares (internal/dhcp/dhcp.go). */
module DhcpLocality {
  import opened Options
  import opened Sorting
  import opened DhcpTokens
  import opened DhcpGrammar

  // ----- what follows does not change what came before -----

  lemma {:induction false} RecordKeeps(a: seq<Token>, b: seq<Token>, pos: nat, out: seq<Token>)
    requires pos <= |a| && RecordFrom(a, pos, out).Some?
    ensures RecordFrom(a + b, pos, out) == RecordFrom(a, pos, out)
    decreases |a| - pos
  {
    assert (a + b)[pos] == a[pos];
    if a[pos].kind == Comment {
      RecordKeeps(a, b, pos + 1, out);
    } else if a[pos].kind != Close {
      RecordKeeps(a, b, pos + 1, out + [a[pos]]);
    }
  }

  lemma {:induction false} StatementKeeps(a: seq<Token>, b: seq<Token>, pos: nat, words: seq<Token>)
    requires pos <= |a| && StatementFrom(a, pos, words).Some?
    ensures StatementFrom(a + b, pos, words) == StatementFrom(a, pos, words)
    decreases |a| - pos
  {
    var t := a[pos];
    assert (a + b)[pos] == t;
    if t.kind == Comment {
      StatementKeeps(a, b, pos + 1, words);
    } else if t.kind == Open {
      if EndsInEquals(words) {
        RecordKeeps(a, b, pos + 1, [t]);
        var (record, next) := RecordFrom(a, pos + 1, [t]).value;
        StatementKeeps(a, b, next, words + record);
      }
    } else if t.kind != Semicolon {
      StatementKeeps(a, b, pos + 1, words + [t]);
    }
  }

  lemma {:induction false} HostStatementKeeps(a: seq<Token>, b: seq<Token>, pos: nat, h: Host)
    requires pos < |a| && Starts(a[pos]) && HostStatement(a, pos, h).Some?
    ensures HostStatement(a + b, pos, h) == HostStatement(a, pos, h)
  {
    StatementKeeps(a, b, pos, []);
  }

  lemma {:induction false} HostKeeps(a: seq<Token>, b: seq<Token>, pos: nat, h: Host)
    requires pos <= |a| && HostFrom(a, pos, h).Some?
    ensures HostFrom(a + b, pos, h) == HostFrom(a, pos, h)
    decreases |a| - pos
  {
    assert (a + b)[pos] == a[pos];
    if a[pos].kind == Comment || a[pos].kind == Semicolon {
      HostKeeps(a, b, pos + 1, h);
    } else if a[pos].kind != Close {
      HostStatementKeeps(a, b, pos, h);
      var (h', next) := HostStatement(a, pos, h).value;
      HostKeeps(a, b, next, h');
    }
  }

  lemma {:induction false} DeclaredKeeps(a: seq<Token>, b: seq<Token>, p: Progress, depth: nat, ctx: Context)
    requires Fits(a, p) && p.pos < |a| && Starts(a[p.pos]) && Declared(a, p, depth, ctx).Some?
    ensures Declared(a + b, p, depth, ctx) == Declared(a, p, depth, ctx)
    decreases MAX_FILES - p.files, |a| - p.pos, 1
  {
    assert (a + b)[p.pos] == a[p.pos];
    StatementKeeps(a, b, p.pos, []);
    var s := StatementFrom(a, p.pos, []).value;
    var q := p.(pos := s.pos, comments := []);
    if IsHost(s.words) {
      HostKeeps(a, b, s.pos, Named(s.words, Above(p, a[p.pos].line)).value);
    } else if s.open {
      BlockKeeps(a, b, q, depth + 1, ctx);
    }
  }

  /** A block that is closed is the same whatever follows it. */
  lemma {:induction false} BlockKeeps(a: seq<Token>, b: seq<Token>, p: Progress, depth: nat, ctx: Context)
    requires Fits(a, p) && Block(a, p, true, depth, ctx).Some?
    ensures Block(a + b, p, true, depth, ctx) == Block(a, p, true, depth, ctx)
    decreases MAX_FILES - p.files, |a| - p.pos, 3
  {
    BlockFromKeeps(a, b, p, depth, ctx);
  }

  lemma {:induction false} BlockFromKeeps(a: seq<Token>, b: seq<Token>, p: Progress, depth: nat, ctx: Context)
    requires Fits(a, p) && BlockFrom(a, p, true, depth, ctx).Some?
    ensures BlockFrom(a + b, p, true, depth, ctx) == BlockFrom(a, p, true, depth, ctx)
    decreases MAX_FILES - p.files, |a| - p.pos, 2
  {
    var t := a[p.pos];
    assert (a + b)[p.pos] == t;
    if t.kind == Comment {
      BlockFromKeeps(a, b, Commented(p, t), depth, ctx);
    } else if t.kind == Semicolon {
      BlockFromKeeps(a, b, p.(pos := p.pos + 1), depth, ctx);
    } else if t.kind != Close {
      DeclaredKeeps(a, b, p, depth, ctx);
      BlockFromKeeps(a, b, Declared(a, p, depth, ctx).value, depth, ctx);
    }
  }

  /** What a whole file declares is declared before anything that follows it. */
  lemma {:induction false} FileThen(a: seq<Token>, b: seq<Token>, p: Progress, depth: nat, ctx: Context)
    requires Fits(a, p) && BlockFrom(a, p, false, depth, ctx).Some?
    ensures var q := BlockFrom(a, p, false, depth, ctx).value;
            && q.pos == |a| && Fits(a + b, q)
            && BlockFrom(a + b, p, false, depth, ctx) == BlockFrom(a + b, q, false, depth, ctx)
    decreases MAX_FILES - p.files, |a| - p.pos
  {
    if p.pos < |a| {
      var t := a[p.pos];
      assert (a + b)[p.pos] == t;
      if t.kind == Comment {
        FileThen(a, b, Commented(p, t), depth, ctx);
      } else if t.kind == Semicolon {
        FileThen(a, b, p.(pos := p.pos + 1), depth, ctx);
      } else {
        DeclaredKeeps(a, b, p, depth, ctx);
        FileThen(a, b, Declared(a, p, depth, ctx).value, depth, ctx);
      }
    }
  }

  // ----- what came before does not change what follows -----

  /** The same text, so many lines further down, after some tokens. */
  function Below(a: seq<Token>, b: seq<Token>, lines: nat): seq<Token> {
    a + Shifted(b, lines)
  }

  function Record(r: Option<(seq<Token>, nat)>, off: nat, lines: nat): Option<(seq<Token>, nat)> {
    match r
    case None => None
    case Some((record, pos)) => Some((Shifted(record, lines), pos + off))
  }

  function Moved(r: Option<Statement>, off: nat, lines: nat): Option<Statement> {
    match r
    case None => None
    case Some(s) => Some(Statement(Shifted(s.words, lines), s.open, s.pos + off))
  }

  lemma {:induction false} ShiftedMore(s: seq<Token>, t: seq<Token>, lines: nat)
    ensures Shifted(s + t, lines) == Shifted(s, lines) + Shifted(t, lines)
  {
  }

  lemma {:induction false} TokenBelow(a: seq<Token>, b: seq<Token>, lines: nat, pos: nat)
    requires pos < |b|
    ensures |Below(a, b, lines)| == |a| + |b|
    ensures Below(a, b, lines)[|a| + pos] == b[pos].(line := b[pos].line + lines)
    ensures Shifted([b[pos]], lines) == [b[pos].(line := b[pos].line + lines)]
  {
  }

  lemma {:induction false} RecordBelow(a: seq<Token>, b: seq<Token>, lines: nat, pos: nat, out: seq<Token>)
    requires pos <= |b|
    ensures RecordFrom(Below(a, b, lines), |a| + pos, Shifted(out, lines)) == Record(RecordFrom(b, pos, out), |a|, lines)
    decreases |b| - pos
  {
    if pos < |b| {
      TokenBelow(a, b, lines, pos);
      ShiftedMore(out, [b[pos]], lines);
      var kind := b[pos].kind;
      if kind == Comment {
        RecordBelow(a, b, lines, pos + 1, out);
      } else if kind == Word || kind == Quoted || kind == Comma {
        RecordBelow(a, b, lines, pos + 1, out + [b[pos]]);
      }
    }
  }

  lemma {:induction false} StatementBelow(a: seq<Token>, b: seq<Token>, lines: nat, pos: nat, words: seq<Token>)
    requires pos <= |b|
    ensures StatementFrom(Below(a, b, lines), |a| + pos, Shifted(words, lines)) == Moved(StatementFrom(b, pos, words), |a|, lines)
    decreases |b| - pos
  {
    if pos < |b| {
      var t := b[pos];
      TokenBelow(a, b, lines, pos);
      if t.kind == Comment {
        StatementBelow(a, b, lines, pos + 1, words);
      } else if t.kind == Open && EndsInEquals(words) {
        RecordStatementBelow(a, b, lines, pos, words);
      } else if t.kind != Open && t.kind != Semicolon && t.kind != Close {
        ShiftedMore(words, [t], lines);
        StatementBelow(a, b, lines, pos + 1, words + [t]);
      }
    }
  }

  /** A statement that goes on with a record type. */
  lemma {:induction false} RecordStatementBelow(a: seq<Token>, b: seq<Token>, lines: nat, pos: nat, words: seq<Token>)
    requires pos < |b| && b[pos].kind == Open && EndsInEquals(words)
    ensures StatementFrom(Below(a, b, lines), |a| + pos, Shifted(words, lines)) == Moved(StatementFrom(b, pos, words), |a|, lines)
    decreases |b| - pos, 1
  {
    TokenBelow(a, b, lines, pos);
    RecordGoesOn(b, pos, words);
    RecordGoesOn(Below(a, b, lines), |a| + pos, Shifted(words, lines));
    RecordBelow(a, b, lines, pos + 1, [b[pos]]);
    AfterRecordBelow(a, b, lines, pos, words, RecordFrom(b, pos + 1, [b[pos]]));
  }

  lemma {:induction false} AfterRecordBelow(a: seq<Token>, b: seq<Token>, lines: nat, pos: nat, words: seq<Token>,
                                            record: Option<(seq<Token>, nat)>)
    requires record.Some? ==> pos < record.value.1 <= |b|
    ensures |Below(a, b, lines)| == |a| + |b|
    ensures AfterRecord(Below(a, b, lines), Shifted(words, lines), Record(record, |a|, lines))
            == Moved(AfterRecord(b, words, record), |a|, lines)
    decreases |b| - pos, 0
  {
    if record.Some? {
      ShiftedMore(words, record.value.0, lines);
      StatementBelow(a, b, lines, record.value.1, words + record.value.0);
    }
  }

  lemma {:induction false} ArgsBelow(args: seq<Token>, lines: nat)
    ensures Rendered(Shifted(args, lines)) == Rendered(args) && Values(Shifted(args, lines)) == Values(args)
  {
    if args != [] {
      var n := |args| - 1;
      assert Shifted(args, lines)[..n] == Shifted(args[..n], lines);
      ArgsBelow(args[..n], lines);
    }
  }

  lemma {:induction false} ArgsOfBelow(args: seq<Token>, lines: nat)
    ensures ArgsOf(Shifted(args, lines)) == ArgsOf(args)
  {
    ArgsBelow(args, lines);
    if args != [] {
      assert Shifted(args, lines)[1..] == Shifted(args[1..], lines);
      ArgsBelow(args[1..], lines);
    }
  }

  /** What a statement says does not depend on its line. */
  lemma {:induction false} AppliedBelow(h: Host, words: seq<Token>, lines: nat)
    requires words != []
    ensures Applied(h, Shifted(words, lines)) == Applied(h, words)
  {
    assert Shifted(words, lines)[1..] == Shifted(words[1..], lines);
    ArgsOfBelow(words[1..], lines);
  }

  function HostMoved(r: Option<(Host, nat)>, off: nat): Option<(Host, nat)> {
    match r
    case None => None
    case Some((h, pos)) => Some((h, pos + off))
  }

  lemma {:induction false} HostStatementBelow(a: seq<Token>, b: seq<Token>, lines: nat, pos: nat, h: Host)
    requires pos < |b| && Starts(b[pos]) && |a| + pos < |Below(a, b, lines)| && Starts(Below(a, b, lines)[|a| + pos])
    ensures HostStatement(Below(a, b, lines), |a| + pos, h) == HostMoved(HostStatement(b, pos, h), |a|)
  {
    StatementBelow(a, b, lines, pos, []);
    assert Shifted([], lines) == [];
    if StatementFrom(b, pos, []).Some? {
      StatementHasWords(b, pos);
      AppliedBelow(h, StatementFrom(b, pos, []).value.words, lines);
    }
  }

  lemma {:induction false} HostBelow(a: seq<Token>, b: seq<Token>, lines: nat, pos: nat, h: Host)
    requires pos <= |b|
    ensures HostFrom(Below(a, b, lines), |a| + pos, h) == HostMoved(HostFrom(b, pos, h), |a|)
    decreases |b| - pos
  {
    if pos < |b| {
      TokenBelow(a, b, lines, pos);
      var kind := b[pos].kind;
      if kind == Comment || kind == Semicolon {
        HostBelow(a, b, lines, pos + 1, h);
      } else if kind != Close && kind != Open {
        HostWordsBelow(a, b, lines, pos, h);
      }
    }
  }

  lemma {:induction false} HostWordsBelow(a: seq<Token>, b: seq<Token>, lines: nat, pos: nat, h: Host)
    requires pos < |b| && b[pos].kind in {Word, Quoted, Comma}
    ensures HostFrom(Below(a, b, lines), |a| + pos, h) == HostMoved(HostFrom(b, pos, h), |a|)
    decreases |b| - pos, 1
  {
    TokenBelow(a, b, lines, pos);
    HostGoesOn(b, pos, h);
    HostGoesOn(Below(a, b, lines), |a| + pos, h);
    HostStatementBelow(a, b, lines, pos, h);
    AfterStatementBelow(a, b, lines, pos, HostStatement(b, pos, h));
  }

  lemma {:induction false} AfterStatementBelow(a: seq<Token>, b: seq<Token>, lines: nat, pos: nat, one: Option<(Host, nat)>)
    requires one.Some? ==> pos < one.value.1 <= |b|
    ensures |Below(a, b, lines)| == |a| + |b|
    ensures AfterStatement(Below(a, b, lines), HostMoved(one, |a|)) == HostMoved(AfterStatement(b, one), |a|)
    decreases |b| - pos, 0
  {
    if one.Some? {
      HostBelow(a, b, lines, one.value.1, one.value.0);
    }
  }

  /** Two readings of the same text, the one below some others, which declared these
      hosts: the comments right above are the same, those of the texts above are
      further away than a line. */
  predicate Alike(p: Progress, q: Progress, off: nat, lines: nat, hosts: seq<Host>, low: nat) {
    && p.pos == q.pos + off && p.hosts == hosts + q.hosts && p.files == q.files
    && (|| (p.comments == q.comments && (q.comments != [] ==> p.commentLine == q.commentLine + lines))
        || (q.comments == [] && p.commentLine + 1 < low + lines))
  }

  predicate AllBelow(b: seq<Token>, low: nat) {
    forall i :: 0 <= i < |b| ==> b[i].line >= low
  }

  predicate BothAlike(r: Option<Progress>, s: Option<Progress>, off: nat, lines: nat, hosts: seq<Host>, low: nat) {
    (r.Some? <==> s.Some?) && (s.Some? ==> Alike(r.value, s.value, off, lines, hosts, low))
  }

  lemma {:induction false} AboveAlike(p: Progress, q: Progress, off: nat, lines: nat, hosts: seq<Host>, low: nat, t: Token)
    requires Alike(p, q, off, lines, hosts, low) && t.line >= low
    ensures Above(p, t.line + lines) == Above(q, t.line)
    ensures Alike(Commented(p, t.(line := t.line + lines)), Commented(q, t), off, lines, hosts, low)
  {
  }

  lemma {:induction false} NothingIncluded(ctx: Context)
    requires ctx.read.None?
    ensures forall words, hosts, files: nat, depth :: files <= MAX_FILES ==> Included(words, hosts, files, depth, ctx) == None
  {
  }

  lemma {:induction false} DeclaredBelow(a: seq<Token>, b: seq<Token>, lines: nat, low: nat, p: Progress, q: Progress,
                                         hosts: seq<Host>, depth: nat, ctx: Context)
    requires ctx.read.None? && AllBelow(b, low) && Alike(p, q, |a|, lines, hosts, low) && Fits(b, q)
    requires q.pos < |b| && Starts(b[q.pos])
    requires Fits(Below(a, b, lines), p) && p.pos < |Below(a, b, lines)| && Starts(Below(a, b, lines)[p.pos])
    ensures BothAlike(Declared(Below(a, b, lines), p, depth, ctx), Declared(b, q, depth, ctx), |a|, lines, hosts, low)
    decreases |b| - q.pos, 1
  {
    TokenBelow(a, b, lines, q.pos);
    StatementBelow(a, b, lines, q.pos, []);
    assert Shifted([], lines) == [];
    if StatementFrom(b, q.pos, []).Some? {
      StatementHasWords(b, q.pos);
      if IsHost(StatementFrom(b, q.pos, []).value.words) {
        HostStatementDeclared(a, b, lines, low, p, q, hosts, depth, ctx);
      } else {
        OtherDeclared(a, b, lines, low, p, q, hosts, depth, ctx);
      }
    }
  }

  lemma {:induction false} HostStatementDeclared(a: seq<Token>, b: seq<Token>, lines: nat, low: nat, p: Progress, q: Progress,
                                                 hosts: seq<Host>, depth: nat, ctx: Context)
    requires AllBelow(b, low) && Alike(p, q, |a|, lines, hosts, low) && Fits(b, q) && Fits(Below(a, b, lines), p)
    requires q.pos < |b| && Starts(b[q.pos]) && p.pos < |Below(a, b, lines)|
    requires Below(a, b, lines)[p.pos] == b[q.pos].(line := b[q.pos].line + lines)
    requires StatementFrom(b, q.pos, []).Some? && IsHost(StatementFrom(b, q.pos, []).value.words)
    requires StatementFrom(Below(a, b, lines), p.pos, []) == Moved(StatementFrom(b, q.pos, []), |a|, lines)
    ensures BothAlike(Declared(Below(a, b, lines), p, depth, ctx), Declared(b, q, depth, ctx), |a|, lines, hosts, low)
  {
    var s := StatementFrom(b, q.pos, []).value;
    AboveAlike(p, q, |a|, lines, hosts, low, b[q.pos]);
    HostDeclaredBelow(a, b, lines, s, Above(q, b[q.pos].line), hosts, q.hosts);
  }

  lemma {:induction false} OtherDeclared(a: seq<Token>, b: seq<Token>, lines: nat, low: nat, p: Progress, q: Progress,
                                         hosts: seq<Host>, depth: nat, ctx: Context)
    requires ctx.read.None? && AllBelow(b, low) && Alike(p, q, |a|, lines, hosts, low) && Fits(b, q)
    requires Fits(Below(a, b, lines), p) && q.pos < |b| && Starts(b[q.pos]) && p.pos < |Below(a, b, lines)|
    requires Below(a, b, lines)[p.pos] == b[q.pos].(line := b[q.pos].line + lines)
    requires StatementFrom(b, q.pos, []).Some? && StatementFrom(b, q.pos, []).value.words != []
    requires !IsHost(StatementFrom(b, q.pos, []).value.words)
    requires StatementFrom(Below(a, b, lines), p.pos, []) == Moved(StatementFrom(b, q.pos, []), |a|, lines)
    ensures BothAlike(Declared(Below(a, b, lines), p, depth, ctx), Declared(b, q, depth, ctx), |a|, lines, hosts, low)
    decreases |b| - q.pos, 0
  {
    NothingIncluded(ctx);
    var s := StatementFrom(b, q.pos, []).value;
    var p', q' := p.(pos := s.pos + |a|, comments := []), q.(pos := s.pos, comments := []);
    if s.open {
      BlockBelow(a, b, lines, low, p', q', hosts, true, depth + 1, ctx);
    }
  }

  lemma {:induction false} HostDeclaredBelow(a: seq<Token>, b: seq<Token>, lines: nat, s: Statement, comments: seq<string>,
                                             hosts: seq<Host>, declared: seq<Host>)
    requires s.pos <= |b|
    ensures Named(Shifted(s.words, lines), comments) == Named(s.words, comments)
    ensures Named(s.words, comments).Some? ==>
              HostFrom(Below(a, b, lines), |a| + s.pos, Named(s.words, comments).value)
              == HostMoved(HostFrom(b, s.pos, Named(s.words, comments).value), |a|)
    ensures forall h :: hosts + declared + [h] == hosts + (declared + [h])
  {
    if Named(s.words, comments).Some? {
      HostBelow(a, b, lines, s.pos, Named(s.words, comments).value);
    }
  }

  lemma {:induction false} BlockBelow(a: seq<Token>, b: seq<Token>, lines: nat, low: nat, p: Progress, q: Progress,
                                      hosts: seq<Host>, open: bool, depth: nat, ctx: Context)
    requires ctx.read.None? && AllBelow(b, low) && Alike(p, q, |a|, lines, hosts, low) && Fits(b, q)
    requires Fits(Below(a, b, lines), p)
    ensures BothAlike(Block(Below(a, b, lines), p, open, depth, ctx), Block(b, q, open, depth, ctx), |a|, lines, hosts, low)
    decreases |b| - q.pos, 3
  {
    BlockFromBelow(a, b, lines, low, p, q, hosts, open, depth, ctx);
  }

  lemma {:induction false} BlockFromBelow(a: seq<Token>, b: seq<Token>, lines: nat, low: nat, p: Progress, q: Progress,
                                          hosts: seq<Host>, open: bool, depth: nat, ctx: Context)
    requires ctx.read.None? && AllBelow(b, low) && Alike(p, q, |a|, lines, hosts, low) && Fits(b, q)
    requires Fits(Below(a, b, lines), p)
    ensures BothAlike(BlockFrom(Below(a, b, lines), p, open, depth, ctx), BlockFrom(b, q, open, depth, ctx),
                      |a|, lines, hosts, low)
    decreases |b| - q.pos, 2
  {
    if q.pos < |b| {
      var t := b[q.pos];
      TokenBelow(a, b, lines, q.pos);
      if t.kind == Comment {
        AboveAlike(p, q, |a|, lines, hosts, low, t);
        BlockFromBelow(a, b, lines, low, Commented(p, t.(line := t.line + lines)), Commented(q, t), hosts, open, depth, ctx);
      } else if t.kind == Semicolon {
        BlockFromBelow(a, b, lines, low, p.(pos := p.pos + 1), q.(pos := q.pos + 1), hosts, open, depth, ctx);
      } else if t.kind != Close {
        DeclaredBelow(a, b, lines, low, p, q, hosts, depth, ctx);
        if Declared(b, q, depth, ctx).Some? {
          BlockFromBelow(a, b, lines, low, Declared(Below(a, b, lines), p, depth, ctx).value,
                         Declared(b, q, depth, ctx).value, hosts, open, depth, ctx);
        }
      }
    }
  }

  // ----- the main result -----

  predicate NameLe(a: Host, b: Host) {
    StrLe(a.name, b.name)
  }

  /** `Parse`: a configuration held in memory. */
  function Parse(data: string): Option<seq<Host>> {
    match ReadFile(data, [], 1, 0, Context(None, "", []))
    case None => None
    case Some(p) => Some(Sort(NameLe, p.hosts))
  }

  /** The comments read last lie on one of the lines read. */
  lemma {:induction false} CommentLines(toks: seq<Token>, p: Progress, open: bool, depth: nat, ctx: Context, last: nat)
    requires Fits(toks, p) && p.commentLine <= last && forall i :: 0 <= i < |toks| ==> toks[i].line <= last
    ensures BlockFrom(toks, p, open, depth, ctx).Some? ==> BlockFrom(toks, p, open, depth, ctx).value.commentLine <= last
    decreases MAX_FILES - p.files, |toks| - p.pos, 1
  {
    if p.pos < |toks| {
      var t := toks[p.pos];
      if t.kind == Comment {
        CommentLines(toks, Commented(p, t), open, depth, ctx, last);
      } else if t.kind == Semicolon {
        CommentLines(toks, p.(pos := p.pos + 1), open, depth, ctx, last);
      } else if t.kind != Close {
        DeclaredLines(toks, p, depth, ctx, last);
        if Declared(toks, p, depth, ctx).Some? {
          CommentLines(toks, Declared(toks, p, depth, ctx).value, open, depth, ctx, last);
        }
      }
    }
  }

  lemma {:induction false} DeclaredLines(toks: seq<Token>, p: Progress, depth: nat, ctx: Context, last: nat)
    requires Fits(toks, p) && p.pos < |toks| && Starts(toks[p.pos])
    requires p.commentLine <= last && forall i :: 0 <= i < |toks| ==> toks[i].line <= last
    ensures Declared(toks, p, depth, ctx).Some? ==> Declared(toks, p, depth, ctx).value.commentLine <= last
    decreases MAX_FILES - p.files, |toks| - p.pos, 0
  {
    var s := StatementFrom(toks, p.pos, []);
    if s.Some? && !IsHost(s.value.words) && s.value.open && depth + 1 <= MAX_DEPTH {
      CommentLines(toks, p.(pos := s.value.pos, comments := []), true, depth + 1, ctx, last);
    }
  }

  /** A blank line between them: the tokens of both, those of the second two lines
      below the last of the first. */
  lemma {:induction false} TokensApart(a: string, b: string)
    requires Tokens(a, 1, true).Some? && Tokens(b, 1, true).Some?
    ensures Tokens(a + "\n\n" + b, 1, true)
            == Some(Below(Tokens(a, 1, true).value, Tokens(b, 1, true).value, Lines(a) + 2))
  {
    var lines := Lines(a) + 2;
    assert a + "\n\n" + b == a + "\n" + ("\n" + b) && ("\n" + b)[1..] == b;
    TokensOfBoth(a, "\n" + b, 1, true, lines);
    assert First("\n" + b) == Newline(b);
    TokensShift(b, 1, true, lines);
  }

  /** What a text below another declares comes after what that one declares. */
  lemma {:induction false} HostsApart(a: seq<Token>, b: seq<Token>, last: nat, ctx: Context, first: Progress, second: Progress)
    requires ctx.read.None? && AllBelow(b, 1) && forall i :: 0 <= i < |a| ==> a[i].line <= last
    requires Block(a, Progress(0, [], 0, [], 1), false, 0, ctx) == Some(first)
    requires Block(b, Progress(0, [], 0, [], 1), false, 0, ctx) == Some(second)
    ensures var all := Block(Below(a, b, last + 1), Progress(0, [], 0, [], 1), false, 0, ctx);
            all.Some? && all.value.hosts == first.hosts + second.hosts
  {
    var start, shifted := Progress(0, [], 0, [], 1), Shifted(b, last + 1);
    FileThen(a, shifted, start, 0, ctx);
    CommentLines(a, start, false, 0, ctx, last);
    NoFiles(a, start, false, 0, ctx);
    assert first.hosts + [] == first.hosts;
    BlockFromBelow(a, b, last + 1, 1, first, start, first.hosts, false, 0, ctx);
  }

  /** With nothing to read files from, none is read. */
  lemma {:induction false} NoFiles(toks: seq<Token>, p: Progress, open: bool, depth: nat, ctx: Context)
    requires ctx.read.None? && Fits(toks, p)
    ensures BlockFrom(toks, p, open, depth, ctx).Some? ==> BlockFrom(toks, p, open, depth, ctx).value.files == p.files
    decreases |toks| - p.pos, 1
  {
    if p.pos < |toks| {
      var t := toks[p.pos];
      if t.kind == Comment {
        NoFiles(toks, Commented(p, t), open, depth, ctx);
      } else if t.kind == Semicolon {
        NoFiles(toks, p.(pos := p.pos + 1), open, depth, ctx);
      } else if t.kind != Close && Declared(toks, p, depth, ctx).Some? {
        DeclaredNoFiles(toks, p, depth, ctx);
        NoFiles(toks, Declared(toks, p, depth, ctx).value, open, depth, ctx);
      }
    }
  }

  lemma {:induction false} DeclaredNoFiles(toks: seq<Token>, p: Progress, depth: nat, ctx: Context)
    requires ctx.read.None? && Fits(toks, p) && p.pos < |toks| && Starts(toks[p.pos])
    requires Declared(toks, p, depth, ctx).Some?
    ensures Declared(toks, p, depth, ctx).value.files == p.files
    decreases |toks| - p.pos, 0
  {
    var s := StatementFrom(toks, p.pos, []).value;
    assert Included(s.words, p.hosts, p.files, depth, ctx) == None;
    if !IsHost(s.words) && s.open {
      NoFiles(toks, p.(pos := s.pos, comments := []), true, depth + 1, ctx);
    }
  }

  /** Two configurations, one below the other with a blank line between them,
      declare the hosts of the first and then those of the second, sorted by name
      with those of one name in their order. */
  lemma {:induction false} ReadOnItsOwn(a: string, b: string)
    requires Parse(a).Some? && Parse(b).Some?
    ensures Parse(a + "\n\n" + b) == Some(Sort(NameLe, Parse(a).value + Parse(b).value))
  {
    var ctx := Context(None, "", []);
    var first, second := ReadFile(a, [], 1, 0, ctx).value, ReadFile(b, [], 1, 0, ctx).value;
    var ta, tb := Tokens(a, 1, true).value, Tokens(b, 1, true).value;
    TokensApart(a, b);
    TokensLines(a, 1, true);
    TokensLines(b, 1, true);
    HostsApart(ta, tb, Lines(a) + 1, ctx, first, second);
    SortOfSorted(first.hosts, second.hosts);
  }

  lemma {:induction false} NameOrder()
    ensures TotalPreorder(NameLe)
  {
    forall a: Host, b: Host ensures NameLe(a, b) || NameLe(b, a) {
      StrOrder(a.name, b.name, b.name);
    }
    forall a: Host, b: Host, c: Host | NameLe(a, b) && NameLe(b, c) ensures NameLe(a, c) {
      StrOrder(a.name, b.name, c.name);
    }
  }

  /** Sorting the parts first makes no difference. */
  lemma {:induction false} SortOfSorted(s: seq<Host>, t: seq<Host>)
    ensures Sort(NameLe, Sort(NameLe, s) + Sort(NameLe, t)) == Sort(NameLe, s + t)
  {
    NameOrder();
    SortParts(NameLe, s, t);
  }

  /** What is read is in the order of its names, as the look-up by binary search
      needs it. */
  lemma {:induction false} ParsedIsSorted(data: string)
    requires Parse(data).Some?
    ensures forall i, j :: 0 <= i < j < |Parse(data).value| ==> StrLe(Parse(data).value[i].name, Parse(data).value[j].name)
  {
    NameOrder();
    SortSorts(NameLe, ReadFile(data, [], 1, 0, Context(None, "", [])).value.hosts);
  }
}
