/** The configuration file of a node's cinc client, written quoted and read back
    without a shell (internal/cli/provision.go). */
module CincFile {
  import opened Options
  import opened Text
  import opened ShellWords

  const URL_KEY: string := "CHEF_RECIPE_URL"
  const RUN_LIST_KEY: string := "CHEF_RUN_LIST"

  datatype Solo = Solo(url: string, runList: string)

  /** `render`. */
  function Render(c: Solo): string {
    URL_KEY + "=" + Quote(c.url) + "\n" + if c.runList != "" then RUN_LIST_KEY + "=" + Quote(c.runList) + "\n" else ""
  }

  predicate NameStart(c: char) {
    c == '_' || 'a' <= c <= 'z' || 'A' <= c <= 'Z'
  }

  /** `isShellName`. */
  predicate ShellName(s: string) {
    s != "" && forall i :: 0 <= i < |s| ==> NameStart(s[i]) || ('0' <= s[i] <= '9' && i > 0)
  }

  /** What a line says. */
  datatype Line = Nothing | Assigns(name: string, value: string) | Refused

  function TrimPrefix(s: string, prefix: string): string {
    if prefix <= s then s[|prefix|..] else s
  }

  function LineOf(text: string): Line {
    var line := TrimSpace(text);
    if line == "" || line[0] == '#' then Nothing
    else match Cut(TrimPrefix(line, "export "), '=')
      case None => Line.Refused
      case Some((name, value)) =>
        if !ShellName(name) then Line.Refused
        else match Value(value)
          case None => Line.Refused
          case Some(word) => Assigns(name, word)
  }

  function Assigned(c: Solo, name: string, value: string): Solo {
    if name == URL_KEY then c.(url := value)
    else if name == RUN_LIST_KEY then c.(runList := value)
    else c
  }

  /** What the first n lines say together: a later assignment of a name stands. */
  function Parsed(lines: seq<string>, n: nat): Option<Solo>
    requires n <= |lines|
  {
    if n == 0 then Some(Solo("", ""))
    else match Parsed(lines, n - 1)
      case None => None
      case Some(c) =>
        match LineOf(lines[n - 1])
        case Nothing => Some(c)
        case Assigns(name, value) => Some(Assigned(c, name, value))
        case Refused => None
  }

  function ParseSolo(text: string): Option<Solo> {
    var lines := Split(text, '\n');
    Parsed(lines, |lines|)
  }

  lemma {:induction false} RefusedAfter(lines: seq<string>, k: nat, n: nat)
    requires k <= n <= |lines| && Parsed(lines, k) == None
    ensures Parsed(lines, n) == None
  {
    if k < n {
      RefusedAfter(lines, k, n - 1);
    }
  }

  method ReadLine(text: string) returns (says: Line)
    ensures says == LineOf(text)
  {
    var line := TrimSpace(text);
    if line == "" || line[0] == '#' {
      return Nothing;
    }
    var cut := Cut(TrimPrefix(line, "export "), '=');
    if cut.None? || !ShellName(cut.value.0) {
      return Line.Refused;
    }
    var word := ShellLiteral(cut.value.1);
    return if word.None? then Line.Refused else Assigns(cut.value.0, word.value);
  }

  /** `parseCincSolo`. */
  method Parse(text: string) returns (c: Option<Solo>)
    ensures c == ParseSolo(text)
  {
    var lines := Split(text, '\n');
    var solo := Solo("", "");
    for n := 0 to |lines|
      invariant Parsed(lines, n) == Some(solo)
    {
      var line := ReadLine(lines[n]);
      match line {
        case Nothing =>
        case Refused =>
          RefusedAfter(lines, n + 1, |lines|);
          return None;
        case Assigns(name, word) =>
          if name == URL_KEY {
            solo := solo.(url := word);
          } else if name == RUN_LIST_KEY {
            solo := solo.(runList := word);
          }
      }
    }
    return Some(solo);
  }

  // ----- reading back -----

  predicate Key(key: string) {
    ShellName(key) && '=' !in key && !("export " <= key)
  }

  lemma {:induction false} KeysAreKeys()
    ensures Key(URL_KEY) && Key(RUN_LIST_KEY)
  {
    assert URL_KEY[0] == 'C' && RUN_LIST_KEY[0] == 'C' && "export "[0] == 'e';
  }

  lemma {:induction false} SpaceInBody(s: string)
    ensures forall c :: c in Body(s) ==> c in s || c in {QUOTE, '\\'}
    ensures forall c :: c in s ==> c in Body(s)
  {
    if s != "" {
      SpaceInBody(s[1..]);
      assert s == [s[0]] + s[1..];
    }
  }

  lemma {:induction false} QuoteIsTrimmed(s: string)
    ensures Quote(s) != "" && !IsSpace(Quote(s)[0]) && !IsSpace(Quote(s)[|Quote(s)| - 1])
    ensures '\n' !in s ==> '\n' !in Quote(s)
  {
    if Safe(s) {
      assert SafeChar(s[0]) && SafeChar(s[|s| - 1]);
    } else {
      SpaceInBody(s);
    }
  }

  /** A line that assigns to a key what comes after it. */
  lemma {:induction false} AssignmentLine(key: string, value: string)
    requires Key(key) && (value == "" || !IsSpace(value[|value| - 1]))
    ensures LineOf(key + "=" + value) == (match Value(value) case None => Line.Refused case Some(word) => Assigns(key, word))
  {
    var line := key + "=" + value;
    assert NameStart(key[0]);
    TrimTrimmed(line);
    NoExport(key, value);
    CutAt(key, '=', value);
  }

  lemma {:induction false} NoExport(key: string, value: string)
    requires Key(key)
    ensures !("export " <= key + "=" + value)
  {
    var line := key + "=" + value;
    var i := if |key| > 6 then 6 else |key|;
    assert line[i] == if |key| > 6 then key[6] else '=';
    assert "export "[i] != line[i];
  }

  lemma {:induction false} RenderedLine(key: string, value: string)
    requires Key(key) && '\n' !in value
    ensures LineOf(key + "=" + Quote(value)) == Assigns(key, value) && '\n' !in key + "=" + Quote(value)
  {
    QuoteIsTrimmed(value);
    AssignmentLine(key, Quote(value));
    QuoteReadsBack(value);
    assert !NameStart('\n');
  }

  lemma {:induction false} BodyOfLines(a: string, b: string)
    requires '\n' !in a
    ensures Body(a + ['\n'] + b) == Body(a) + ['\n'] + Body(b) && '\n' !in Body(a)
  {
    SpaceInBody(a);
    BodyAppend(a + ['\n'], b);
    BodyAppend(a, ['\n']);
    assert Body(['\n']) == ['\n'] + Body("");
  }

  /** A quoted value that holds the end of a line is refused: its first line ends
      within the quotes. */
  lemma {:induction false} BrokenLine(key: string, value: string) returns (first: string, rest: string)
    requires Key(key) && '\n' in value
    ensures key + "=" + Quote(value) + "\n" == first + ['\n'] + rest && '\n' !in first
    ensures LineOf(first) == Line.Refused
  {
    CutNone(value, '\n');
    CutIs(value, '\n');
    var (a, b) := Cut(value, '\n').value;
    assert !SafeChar('\n') && !Safe(value) && !NameStart('\n');
    BodyOfLines(a, b);
    first, rest := key + "=" + ("'" + Body(a)), Body(b) + "'" + "\n";
    Reassociate(key + "=", "'", Body(a), Body(b));
    OpenLine(key, a);
  }

  lemma {:induction false} Reassociate(key: string, q: string, a: string, b: string)
    ensures key + (q + (a + ['\n'] + b) + q) + "\n" == key + (q + a) + ['\n'] + (b + q + "\n")
  {
  }

  lemma {:induction false} OpenLine(key: string, a: string)
    requires Key(key)
    ensures LineOf(key + "=" + ("'" + Body(a))) == Line.Refused
  {
    var a' := TrimOpen(a);
    var line := key + "=" + ("'" + Body(a));
    assert NameStart(key[0]);
    TrimAfter(key + "=", "'" + Body(a));
    OpenQuoteRefused(a');
    TrimRightIs("'" + Body(a));
    assert ("'" + Body(a'))[0] == QUOTE;
    AssignmentLine(key, "'" + Body(a'));
    TrimTrimmed(key + "=" + ("'" + Body(a')));
  }

  lemma {:induction false} TrimAfter(front: string, s: string)
    requires s != "" && !IsSpace(s[0])
    ensures TrimRight(front + s) == front + TrimRight(s)
  {
    var t := front + s;
    if IsSpace(s[|s| - 1]) {
      assert t[..|t| - 1] == front + s[..|s| - 1];
      TrimAfter(front, s[..|s| - 1]);
    }
  }

  /** Trimming an open quotation leaves one. */
  lemma {:induction false} TrimOpen(a: string) returns (b: string)
    ensures TrimRight("'" + Body(a)) == "'" + Body(b)
    ensures b <= a
  {
    if a == "" {
      b := "";
    } else {
      var m := |a| - 1;
      TakeOneMore(a, m);
      assert a[..m + 1] == a;
      BodyAppend(a[..m], [a[m]]);
      assert Body([a[m]]) == (if a[m] == QUOTE then "'\\''" else [a[m]]) + Body("");
      var open := "'" + Body(a);
      if IsSpace(a[m]) {
        assert open[..|open| - 1] == "'" + Body(a[..m]);
        b := TrimOpen(a[..m]);
      } else {
        b := a;
      }
    }
  }

  /** The file is read back as it was written exactly when neither value holds the
      end of a line. What the checks let through does not. */
  lemma {:induction false} ReadsBack(c: Solo)
    ensures ParseSolo(Render(c)) == Some(c) <==> '\n' !in c.url && '\n' !in c.runList
  {
    KeysAreKeys();
    if '\n' in c.url {
      UrlBreaks(c);
    } else if '\n' in c.runList {
      RunListBreaks(c);
    } else {
      Reads(c);
    }
  }

  lemma {:induction false} UrlBreaks(c: Solo)
    requires '\n' in c.url && Key(URL_KEY)
    ensures ParseSolo(Render(c)) == None
  {
    var more := if c.runList != "" then RUN_LIST_KEY + "=" + Quote(c.runList) + "\n" else "";
    var first, rest := BrokenLine(URL_KEY, c.url);
    Assoc(first + ['\n'], rest, more);
    assert Render(c) == first + ['\n'] + (rest + more);
    SplitFirst(first, '\n', rest + more);
    var lines := Split(Render(c), '\n');
    assert Parsed(lines, 0).Some? && lines[0] == first;
    RefusedAfter(lines, 1, |lines|);
  }

  lemma {:induction false} RunListBreaks(c: Solo)
    requires '\n' !in c.url && '\n' in c.runList && Key(URL_KEY) && Key(RUN_LIST_KEY)
    ensures ParseSolo(Render(c)) == None
  {
    var url := URL_KEY + "=" + Quote(c.url);
    RenderedLine(URL_KEY, c.url);
    var first, rest := BrokenLine(RUN_LIST_KEY, c.runList);
    assert Render(c) == url + ['\n'] + (first + ['\n'] + rest);
    SplitFirst(url, '\n', first + ['\n'] + rest);
    SplitFirst(first, '\n', rest);
    var lines := Split(Render(c), '\n');
    assert lines[0] == url && lines[1] == first;
    assert Parsed(lines, 0) == Some(Solo("", ""));
    assert Parsed(lines, 1) == Some(Solo(c.url, ""));
    assert Parsed(lines, 2) == None;
    RefusedAfter(lines, 2, |lines|);
  }

  lemma {:induction false} LinesOfRendered(url: string, list: string)
    requires '\n' !in url && '\n' !in list
    ensures Split(url + "\n" + "", '\n') == [url, ""]
    ensures Split(url + "\n" + (list + "\n"), '\n') == [url, list, ""]
  {
    SplitFirst(url, '\n', "");
    SplitFirst(list, '\n', "");
    SplitFirst(url, '\n', list + ['\n'] + "");
    assert list + ['\n'] + "" == list + "\n";
  }

  lemma {:induction false} ParsedLines(url: string, list: string, c: Solo)
    requires LineOf(url) == Assigns(URL_KEY, c.url) && LineOf(list) == Assigns(RUN_LIST_KEY, c.runList)
    ensures Parsed([url, ""], 2) == Some(Solo(c.url, ""))
    ensures Parsed([url, list, ""], 3) == Some(c)
  {
    assert LineOf("") == Nothing;
    assert Parsed([url, ""], 0) == Some(Solo("", "")) && Parsed([url, list, ""], 0) == Some(Solo("", ""));
    assert Parsed([url, ""], 1) == Some(Solo(c.url, "")) && Parsed([url, list, ""], 1) == Some(Solo(c.url, ""));
    assert Parsed([url, list, ""], 2) == Some(c);
  }

  lemma {:induction false} Reads(c: Solo)
    requires '\n' !in c.url && '\n' !in c.runList && Key(URL_KEY) && Key(RUN_LIST_KEY)
    ensures ParseSolo(Render(c)) == Some(c)
  {
    var url, list := URL_KEY + "=" + Quote(c.url), RUN_LIST_KEY + "=" + Quote(c.runList);
    RenderedLine(URL_KEY, c.url);
    RenderedLine(RUN_LIST_KEY, c.runList);
    LinesOfRendered(url, list);
    ParsedLines(url, list, c);
  }

  /** unicode.IsControl, as far as one character goes. */
  predicate IsControl(c: char) {
    c < ' ' || '\U{007F}' <= c <= '\U{009F}'
  }

  /** `check`, where fetchable says what url.Parse makes of a URL. */
  predicate Checks(c: Solo, fetchable: string -> bool) {
    && c.url != "" && fetchable(c.url)
    && (forall x :: x in c.url ==> !IsSpace(x) && !IsControl(x))
    && (forall x :: x in c.runList ==> !IsControl(x))
  }

  /** A file the client can be run with is read back as it was written. */
  lemma {:induction false} CheckedReadsBack(c: Solo, fetchable: string -> bool)
    requires Checks(c, fetchable)
    ensures ParseSolo(Render(c)) == Some(c)
  {
    assert IsControl('\n');
    ReadsBack(c);
  }

  // ----- line by line -----

  /** The file as it is written: the location, and the run list when there is one. */
  lemma {:induction false} RenderIs(c: Solo)
    ensures Render(c) == if c.runList == "" then "CHEF_RECIPE_URL=" + Quote(c.url) + "\n"
                         else "CHEF_RECIPE_URL=" + Quote(c.url) + "\n" + ("CHEF_RUN_LIST=" + Quote(c.runList) + "\n")
  {
    var url := "CHEF_RECIPE_URL=" + Quote(c.url) + "\n";
    Joined("CHEF_RECIPE_URL", "CHEF_RECIPE_URL=", c.url);
    Joined("CHEF_RUN_LIST", "CHEF_RUN_LIST=", c.runList);
    assert url + "" == url;
  }

  lemma {:induction false} Joined(key: string, prefix: string, value: string)
    requires prefix == key + "="
    ensures key + "=" + Quote(value) + "\n" == prefix + Quote(value) + "\n"
  {
  }

  lemma {:induction false} ParsedFront(lines: seq<string>, line: string, n: nat)
    requires n <= |lines|
    ensures Parsed(lines + [line], n) == Parsed(lines, n)
  {
    if n > 0 {
      ParsedFront(lines, line, n - 1);
    }
  }

  /** One line more. */
  lemma {:induction false} LineBelow(text: string, line: string)
    requires '\n' !in line
    ensures ParseSolo(text + ['\n'] + line)
            == match ParseSolo(text)
               case None => None
               case Some(c) =>
                 match LineOf(line)
                 case Nothing => Some(c)
                 case Assigns(name, value) => Some(Assigned(c, name, value))
                 case Refused => None
  {
    var lines := Split(text, '\n');
    SplitLast(text, '\n', line);
    ParsedFront(lines, line, |lines|);
  }

  lemma {:induction false} ExportIsNoName(name: string)
    requires "export " <= name
    ensures !ShellName(name)
  {
    assert name[6] == "export "[6] == ' ';
  }

  lemma {:induction false} NameIsKey(name: string)
    requires ShellName(name)
    ensures Key(name) && '\n' !in name
  {
    if "export " <= name {
      ExportIsNoName(name);
    }
  }

  lemma {:induction false} ExportedLine(assignment: string)
    requires assignment != "" && Trimmed(assignment) && assignment[0] != '#' && !("export " <= assignment)
    ensures LineOf("export " + assignment) == LineOf(assignment)
    ensures '\n' !in assignment ==> '\n' !in "export " + assignment
  {
    TrimTrimmed(assignment);
    TrimTrimmed("export " + assignment);
    assert ("export " + assignment)[|"export "|..] == assignment;
  }

  function Assignment(name: string, value: string, exported: bool): string {
    if exported then "export " + (name + "=" + Quote(value)) else name + "=" + Quote(value)
  }

  lemma {:induction false} AssignmentSays(name: string, value: string, exported: bool)
    requires ShellName(name) && '\n' !in value
    ensures LineOf(Assignment(name, value, exported)) == Assigns(name, value) && '\n' !in Assignment(name, value, exported)
  {
    NameIsKey(name);
    RenderedLine(name, value);
    if exported {
      var line := name + "=" + Quote(value);
      QuoteIsTrimmed(value);
      NoExport(name, Quote(value));
      assert line[0] == name[0] && NameStart(name[0]) && line[|line| - 1] == Quote(value)[|Quote(value)| - 1];
      ExportedLine(line);
    }
  }

  /** An assignment stands until a later one of its name, whether or not it is
      exported and whatever its value; other names are read over. */
  lemma {:induction false} LaterStands(text: string, name: string, value: string, exported: bool)
    requires ParseSolo(text).Some? && ShellName(name) && '\n' !in value
    ensures var c := ParseSolo(text).value;
            ParseSolo(text + ['\n'] + Assignment(name, value, exported))
            == Some(if name == "CHEF_RECIPE_URL" then c.(url := value)
                    else if name == "CHEF_RUN_LIST" then c.(runList := value)
                    else c)
  {
    AssignmentSays(name, value, exported);
    LineBelow(text, Assignment(name, value, exported));
  }

  /** A blank line and a comment say nothing. */
  lemma {:induction false} NothingSaid(text: string, line: string)
    requires '\n' !in line && (TrimSpace(line) == "" || TrimSpace(line)[0] == '#')
    ensures ParseSolo(text + ['\n'] + line) == ParseSolo(text)
  {
    LineBelow(text, line);
  }

  /** A name is letters, digits and underscores, no digit first. */
  lemma {:induction false} NameIs(s: string)
    ensures ShellName(s) <==>
            && s != "" && !('0' <= s[0] <= '9')
            && forall c :: c in s ==> c == '_' || 'a' <= c <= 'z' || 'A' <= c <= 'Z' || '0' <= c <= '9'
  {
    if ShellName(s) {
      forall c | c in s ensures c == '_' || 'a' <= c <= 'z' || 'A' <= c <= 'Z' || '0' <= c <= '9' {
        var i :| 0 <= i < |s| && s[i] == c;
      }
    }
    assert forall i :: 0 <= i < |s| ==> s[i] in s;
  }

  /** A line that is neither blank nor a comment and assigns to no name has the file
      refused. */
  lemma {:induction false} NoAssignmentRefused(text: string, line: string)
    requires '\n' !in line && line != "" && Trimmed(line) && line[0] != '#'
    requires forall name, value :: (line == name + "=" + value || line == "export " + (name + "=" + value)) ==> !ShellName(name)
    ensures ParseSolo(text + ['\n'] + line) == None
  {
    LineBelow(text, line);
    TrimTrimmed(line);
    var assignment := TrimPrefix(line, "export ");
    assert line == assignment || line == "export " + assignment;
    if Cut(assignment, '=').Some? {
      CutIs(assignment, '=');
      var (name, value) := Cut(assignment, '=').value;
      assert assignment == name + "=" + value;
    }
  }
}
