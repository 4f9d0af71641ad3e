/** The parser of a dhcpd configuration, which keeps its place in the tokens of one
    file and shares the hosts and the count of files with those of the files it
    includes (internal/dhcp/dhcp.go). */
module DhcpParser {
  import opened Options
  import opened Text
  import opened Sorting
  import opened DhcpTokens
  import opened DhcpGrammar
  import opened DhcpLocality

  /** What the parsers of one configuration share. */
  class Config {
    var hosts: seq<Host>
    var files: nat

    constructor ()
      ensures hosts == [] && files == 1
    {
      hosts, files := [], 1;
    }
  }

  class Parser {
    const ctx: Context
    const cfg: Config
    var toks: seq<Token>
    var pos: nat
    var depth: nat
    /** The block of comments alone on their lines read last, and the line it ends
        on. */
    var comments: seq<string>
    var commentLine: nat

    constructor (ctx: Context, cfg: Config, depth: nat)
      ensures this.ctx == ctx && this.cfg == cfg && this.depth == depth
      ensures toks == [] && Now() == Progress(0, [], 0, cfg.hosts, cfg.files)
    {
      this.ctx, this.cfg, this.depth := ctx, cfg, depth;
      toks, pos, comments, commentLine := [], 0, [], 0;
    }

    function Now(): Progress
      reads this, cfg
    {
      Progress(pos, comments, commentLine, cfg.hosts, cfg.files)
    }

    predicate Valid()
      reads this, cfg
    {
      Fits(toks, Now())
    }

    /** `record`. */
    method Record() returns (out: Option<seq<Token>>)
      requires Valid() && pos < |toks|
      modifies `pos
      ensures Valid()
      ensures RecordFrom(toks, old(pos) + 1, [toks[old(pos)]])
              == (match out case None => None case Some(record) => Some((record, pos)))
    {
      var record := [toks[pos]];
      pos := pos + 1;
      while pos < |toks|
        invariant Valid() && old(pos) < pos
        invariant RecordFrom(toks, old(pos) + 1, [toks[old(pos)]]) == RecordFrom(toks, pos, record)
      {
        var t := toks[pos];
        if t.kind == Close {
          pos := pos + 1;
          return Some(record + [t]);
        } else if t.kind == Word || t.kind == Quoted || t.kind == Comma {
          record := record + [t];
        } else if t.kind != Comment {
          return None;
        }
        pos := pos + 1;
      }
      return None;
    }

    /** `statement`. */
    method ReadStatement() returns (s: Option<Statement>)
      requires Valid()
      modifies `pos
      ensures Valid() && s == StatementFrom(toks, old(pos), [])
      ensures s.Some? ==> pos == s.value.pos
    {
      var words: seq<Token> := [];
      while pos < |toks|
        invariant Valid()
        invariant StatementFrom(toks, old(pos), []) == StatementFrom(toks, pos, words)
        decreases |toks| - pos
      {
        var t := toks[pos];
        if t.kind == Comment {
          pos := pos + 1;
        } else if t.kind == Semicolon {
          pos := pos + 1;
          return Some(Statement(words, false, pos));
        } else if t.kind == Close {
          return None;
        } else if t.kind == Open && EndsInEquals(words) {
          var record := Record();
          if record.None? {
            return None;
          }
          words := words + record.value;
        } else if t.kind == Open {
          pos := pos + 1;
          if words == [] {
            return None;
          }
          return Some(Statement(words, true, pos));
        } else {
          words := words + [t];
          pos := pos + 1;
        }
      }
      return None;
    }

    /** `host`: the body of a declaration. */
    method ReadHost(words: seq<Token>, above: seq<string>) returns (ok: bool)
      requires Valid()
      modifies `pos, cfg`hosts
      ensures Valid() && (ok ==> old(pos) <= pos)
      ensures var h := Named(words, above);
              var r := if h.None? then None else HostFrom(toks, old(pos), h.value);
              && ok == r.Some?
              && (ok ==> pos == r.value.1 && cfg.hosts == old(cfg.hosts) + [r.value.0])
    {
      var named := Named(words, above);
      if named.None? {
        return false;
      }
      var h := named.value;
      while pos < |toks|
        invariant Valid() && old(pos) <= pos && cfg.hosts == old(cfg.hosts)
        invariant HostFrom(toks, old(pos), named.value) == HostFrom(toks, pos, h)
        decreases |toks| - pos
      {
        var t := toks[pos];
        if t.kind == Comment || t.kind == Semicolon {
          pos := pos + 1;
        } else if t.kind == Close {
          pos := pos + 1;
          cfg.hosts := cfg.hosts + [h];
          return true;
        } else if t.kind == Open {
          return false;
        } else {
          ghost var at := pos;
          StatementHasWordsIf(toks, pos);
          var s := ReadStatement();
          if s.None? || IsHost(s.value.words) || s.value.open {
            return false;
          }
          var applied := Apply(h, s.value.words);
          if applied.None? {
            return false;
          }
          assert HostStatement(toks, at, h) == Some((applied.value, pos));
          h := applied.value;
        }
      }
      return false;
    }

    /** `apply`: one statement of a host declaration. */
    static method Apply(h: Host, words: seq<Token>) returns (r: Option<Host>)
      requires words != []
      ensures r == Applied(h, words)
    {
      var keyword, args := words[0].text, words[1..];
      var values := [];
      for i := 0 to |args|
        invariant values == Values(args[..i])
      {
        assert args[..i + 1][..i] == args[..i];
        if args[i].kind != Comma {
          values := values + [args[i].text];
        }
      }
      assert args[..|args|] == args;
      if words[0].kind != Word || keyword == "include" {
        return None;
      }
      if keyword == "hardware" {
        if |values| != 2 || |args| != 2 {
          return None;
        }
        if values[0] == "ethernet" {
          return Some(h.(macs := h.macs + [ToLower(values[1])]));
        }
        return Some(h.(options := h.options["hardware " + values[0] := values[1]]));
      }
      if keyword == "fixed-address" {
        if values == [] || h.address != "" {
          return None;
        }
        return Some(h.(address := Join(values, ", ")));
      }
      if keyword == "filename" {
        if |args| != 1 {
          return None;
        }
        return Some(h.(filename := args[0].text));
      }
      if keyword == "option" {
        if |args| < 2 || args[0].kind != Word {
          return None;
        }
        var value := Render(args[1..]);
        if args[0].text == "dhcp-client-identifier" {
          return Some(h.(clientIdentifier := value));
        }
        return Some(h.(options := h.options[args[0].text := value]));
      }
      var value := Render(args);
      return Some(h.(options := h.options[keyword := value]));
    }

    /** `join`. */
    static method Render(args: seq<Token>) returns (b: string)
      ensures b == Rendered(args)
    {
      b := "";
      for i := 0 to |args|
        invariant b == Rendered(args[..i])
      {
        assert args[..i + 1][..i] == args[..i];
        if args[i].kind == Comma {
          b := b + ",";
        } else {
          if i > 0 {
            b := b + " ";
            Assoc(Rendered(args[..i]), " ", args[i].text);
          } else {
            assert "" + args[i].text == args[i].text;
          }
          b := b + args[i].text;
        }
      }
      assert args[..|args|] == args;
    }

    /** `block`: to the brace that closes it, or to the end of the file. */
    method ReadBlock(open: bool) returns (ok: bool)
      requires Valid()
      modifies `pos, `comments, `commentLine, `depth, cfg
      ensures ok == Block(toks, old(Now()), open, old(depth), ctx).Some?
      ensures ok ==> Now() == Block(toks, old(Now()), open, old(depth), ctx).value && depth == old(depth)
      decreases MAX_FILES - cfg.files, |toks| - pos, 3
    {
      if depth > MAX_DEPTH {
        return false;
      }
      while pos < |toks|
        invariant Follows(toks, old(Now()), Now()) && depth == old(depth)
        invariant BlockFrom(toks, old(Now()), open, depth, ctx) == BlockFrom(toks, Now(), open, depth, ctx)
        decreases |toks| - pos
      {
        var t := toks[pos];
        if t.kind == Comment {
          pos := pos + 1;
          if t.first {
            if |comments| == 0 || t.line != commentLine + 1 {
              comments := [];
            }
            comments := comments + [t.text];
            commentLine := t.line;
          }
        } else if t.kind == Close {
          pos := pos + 1;
          return open;
        } else if t.kind == Semicolon {
          pos := pos + 1;
        } else {
          var one := Declare();
          if !one {
            return false;
          }
        }
      }
      return !open;
    }

    /** One statement of a block, and what it opens. */
    method Declare() returns (ok: bool)
      requires Valid() && pos < |toks| && Starts(toks[pos])
      modifies `pos, `comments, `commentLine, `depth, cfg
      ensures ok == Declared(toks, old(Now()), old(depth), ctx).Some?
      ensures ok ==> Now() == Declared(toks, old(Now()), old(depth), ctx).value && depth == old(depth)
      decreases MAX_FILES - cfg.files, |toks| - pos, 2
    {
      var t := toks[pos];
      var above := [];
      if |comments| > 0 && t.line == commentLine + 1 {
        above := comments;
      }
      comments := [];
      StatementHasWordsIf(toks, pos);
      var s := ReadStatement();
      if s.None? {
        return false;
      }
      var words := s.value.words;
      if IsHost(words) {
        if !s.value.open {
          return false;
        }
        ok := ReadHost(words, above);
      } else if s.value.open {
        depth := depth + 1;
        ok := ReadBlock(true);
        if ok {
          depth := depth - 1;
        }
      } else if IsInclude(words) {
        ok := Include(words);
      } else {
        ok := true;
      }
    }

    /** `include`: a parser of its own for the file, which shares the hosts and the
        count. */
    method Include(words: seq<Token>) returns (ok: bool)
      requires Valid()
      modifies cfg
      ensures ok == Included(words, old(cfg.hosts), old(cfg.files), depth, ctx).Some?
      ensures ok ==> var r := Included(words, old(cfg.hosts), old(cfg.files), depth, ctx).value;
                     cfg.hosts == r.hosts && cfg.files == r.files
      decreases MAX_FILES - cfg.files, |toks| - pos, 1
    {
      if |words| != 2 || words[1].kind != Quoted {
        return false;
      }
      var file := words[1].text;
      if ctx.read.None? || file == "" || file[0] != '/' || file in ctx.chain + [ctx.file] {
        return false;
      }
      if cfg.files + 1 > MAX_FILES || depth > MAX_DEPTH {
        return false;
      }
      cfg.files := cfg.files + 1;
      var data := ctx.read.value(file);
      if data.None? {
        return false;
      }
      var sub := new Parser(Within(ctx, file), cfg, depth + 1);
      ok := sub.Run(data.value);
    }

    /** `run`: a whole file. */
    method Run(data: string) returns (ok: bool)
      requires Now() == Progress(0, [], 0, cfg.hosts, cfg.files) && cfg.files <= MAX_FILES
      modifies this, cfg
      ensures ok == ReadFile(data, old(cfg.hosts), old(cfg.files), old(depth), ctx).Some?
      ensures ok ==> Now() == ReadFile(data, old(cfg.hosts), old(cfg.files), old(depth), ctx).value
      decreases MAX_FILES - cfg.files, TokenCount(data) + 1, 4
    {
      var tokens := Tokenize(data);
      if tokens.None? {
        return false;
      }
      toks := tokens.value;
      ok := ReadBlock(false);
    }
  }

  function TokenCount(data: string): nat {
    match Tokens(data, 1, true)
    case None => 0
    case Some(toks) => |toks|
  }

  lemma {:induction false} StatementHasWordsIf(toks: seq<Token>, pos: nat)
    requires pos < |toks| && Starts(toks[pos])
    ensures StatementFrom(toks, pos, []).Some? ==> StatementFrom(toks, pos, []).value.words != []
  {
    if StatementFrom(toks, pos, []).Some? {
      StatementHasWords(toks, pos);
    }
  }

  /** The hosts of a configuration, sorted by name, or nothing when it cannot be
      read: `parse`. */
  method ParseConfig(file: string, data: string, read: Option<string -> Option<string>>) returns (hosts: Option<seq<Host>>)
    ensures hosts == (match ReadFile(data, [], 1, 0, Context(read, file, []))
                      case None => None
                      case Some(p) => Some(Sort(NameLe, p.hosts)))
    ensures file == "" && read == None ==> hosts == Parse(data)
  {
    var cfg := new Config();
    var p := new Parser(Context(read, file, []), cfg, 0);
    var ok := p.Run(data);
    return if ok then Some(Sort(NameLe, cfg.hosts)) else None;
  }
}
