/** Reading and writing a known_hosts file: writing is a normal form that
    reading gives back (internal/hostkeys/hostkeys.go; the format is SSH_KNOWN_HOSTS
    FILE FORMAT in sshd(8)). */
module KnownHostsText {
  import opened Text
  import opened Sorting
  import opened Removal

  /** A file as it is read: the comment block on top, the entries, and the
      comments after the last entry. */
  datatype Document = Document(header: seq<string>, entries: seq<Entry>, trailer: seq<string>)

  datatype ParseResult = Parsed(doc: Document) | UnknownMarker(line: nat) | NotAHostKey(line: nat)

  // ----- writing -----

  /** `Entry.String`. */
  function EntryText(e: Entry): string {
    var line := Join(e.hosts, ",") + " " + e.typ + " " + e.key;
    var marked := if e.marker != "" then e.marker + " " + line else line;
    if e.comment != "" then marked + " " + e.comment else marked
  }

  /** The order entries are written in: by hosts, marker and type. */
  predicate EntryLess(a: Entry, b: Entry) {
    var x, y := Join(a.hosts, ","), Join(b.hosts, ",");
    if x != y then StrLess(x, y)
    else if a.marker != b.marker then StrLess(a.marker, b.marker)
    else StrLess(a.typ, b.typ)
  }

  predicate EntryLe(a: Entry, b: Entry) {
    !EntryLess(b, a)
  }

  function SortedEntries(entries: seq<Entry>): seq<Entry> {
    Sort(EntryLe, entries)
  }

  /** The file ascends by hosts; of the same hosts by marker, and then by type. */
  ghost predicate InOrder(a: Entry, b: Entry) {
    var x, y := Join(a.hosts, ","), Join(b.hosts, ",");
    || StrLess(x, y)
    || (x == y && StrLess(a.marker, b.marker))
    || (x == y && a.marker == b.marker && (StrLess(a.typ, b.typ) || a.typ == b.typ))
  }

  lemma {:induction false} EntryLeIs(a: Entry, b: Entry)
    ensures EntryLe(a, b) <==> InOrder(a, b)
  {
    var x, y := Join(a.hosts, ","), Join(b.hosts, ",");
    StrOrder(x, y, y);
    StrOrder(a.marker, b.marker, b.marker);
    StrOrder(a.typ, b.typ, b.typ);
    StrAsymmetricWhere(x, y);
    StrAsymmetricWhere(a.marker, b.marker);
    StrAsymmetricWhere(a.typ, b.typ);
  }

  lemma {:induction false} StrAsymmetricWhere(a: string, b: string)
    ensures StrLess(a, b) ==> !StrLess(b, a) && a != b
    ensures StrLess(b, a) ==> !StrLess(a, b) && a != b
  {
    if StrLess(a, b) {
      StrAsymmetric(a, b);
    }
    if StrLess(b, a) {
      StrAsymmetric(b, a);
    }
  }

  /** A file is written in that order, with all its entries, and those that tie as
      they stood. */
  lemma {:induction false} WrittenInOrder(entries: seq<Entry>)
    ensures var s := SortedEntries(entries);
            && (forall i, j :: 0 <= i < j < |s| ==> InOrder(s[i], s[j]))
            && (forall x :: Ties(EntryLe, x, s) == Ties(EntryLe, x, entries))
  {
    EntryOrder();
    SortSorts(EntryLe, entries);
    forall x ensures Ties(EntryLe, x, SortedEntries(entries)) == Ties(EntryLe, x, entries) {
      SortStable(EntryLe, x, entries);
    }
    forall i, j | 0 <= i < j < |SortedEntries(entries)| ensures InOrder(SortedEntries(entries)[i], SortedEntries(entries)[j]) {
      EntryLeIs(SortedEntries(entries)[i], SortedEntries(entries)[j]);
    }
  }

  function EntryLines(entries: seq<Entry>): seq<string> {
    if entries == [] then []
    else entries[0].notes + [EntryText(entries[0])] + EntryLines(entries[1..])
  }

  function DocLines(d: Document): seq<string> {
    d.header + EntryLines(SortedEntries(d.entries)) + d.trailer
  }

  function LinesText(lines: seq<string>): string {
    if lines == [] then "" else lines[0] + "\n" + LinesText(lines[1..])
  }

  /** `Render`. */
  function RenderText(d: Document): string {
    LinesText(DocLines(d))
  }

  lemma {:induction false} LinesTextAppend(a: seq<string>, b: seq<string>)
    ensures LinesText(a + b) == LinesText(a) + LinesText(b)
  {
    if a == [] {
      assert a + b == b;
    } else {
      assert (a + b)[1..] == a[1..] + b;
      LinesTextAppend(a[1..], b);
    }
  }

  method WriteLines(text: string, lines: seq<string>) returns (r: string)
    ensures r == text + LinesText(lines)
  {
    r := text;
    for i := 0 to |lines|
      invariant r == text + LinesText(lines[..i])
    {
      assert lines[..i + 1] == lines[..i] + [lines[i]];
      LinesTextAppend(lines[..i], [lines[i]]);
      r := r + lines[i];
      r := r + "\n";
    }
    assert lines[..|lines|] == lines;
  }

  /** One entry, under its notes. */
  method WriteEntry(text: string, e: Entry, ghost lines: seq<string>) returns (r: string)
    requires text == LinesText(lines)
    ensures r == LinesText(lines + e.notes + [EntryText(e)])
  {
    r := WriteLines(text, e.notes);
    LinesTextAppend(lines, e.notes);
    r := WriteLines(r, [EntryText(e)]);
    LinesTextAppend(lines + e.notes, [EntryText(e)]);
  }

  /** `Render`, line by line. */
  method Render(d: Document) returns (text: string)
    ensures text == RenderText(d)
  {
    text := WriteLines("", d.header);
    var entries := SortedEntries(d.entries);
    assert d.header + EntryLines(entries[..0]) == d.header;
    for i := 0 to |entries|
      invariant text == LinesText(d.header + EntryLines(entries[..i]))
    {
      var e := entries[i];
      ghost var front := entries[..i];
      text := WriteEntry(text, e, d.header + EntryLines(front));
      EntryLinesMore(d.header, front, e);
      assert entries[..i + 1] == front + [e];
    }
    assert entries[..|entries|] == entries;
    text := WriteLines(text, d.trailer);
    LinesTextAppend(d.header + EntryLines(entries), d.trailer);
  }

  lemma {:induction false} EntryLinesMore(header: seq<string>, front: seq<Entry>, e: Entry)
    ensures header + EntryLines(front + [e]) == (header + EntryLines(front)) + e.notes + [EntryText(e)]
  {
    EntryLinesAppend(front, [e]);
    assert EntryLines([e]) == e.notes + [EntryText(e)];
    Assoc(header, EntryLines(front), EntryLines([e]));
    Assoc(header + EntryLines(front), e.notes, [EntryText(e)]);
  }

  lemma {:induction false} EntryLinesAppend(a: seq<Entry>, b: seq<Entry>)
    ensures EntryLines(a + b) == EntryLines(a) + EntryLines(b)
  {
    if a == [] {
      assert a + b == b;
    } else {
      assert (a + b)[1..] == a[1..] + b;
      EntryLinesAppend(a[1..], b);
    }
  }

  // ----- reading -----

  /** The file read so far; the notes wait for the entry under them. */
  datatype Reading =
    | Reading(header: seq<string>, entries: seq<Entry>, notes: seq<string>, body: bool)
    | Refused(result: ParseResult)

  function WithEntry(st: Reading, marker: string, fields: seq<string>): Reading
    requires st.Reading? && |fields| >= 3
  {
    var e := Entry(marker, Split(fields[0], ','), fields[1], fields[2], Join(fields[3..], " "), st.notes);
    Reading(st.header, st.entries + [e], [], true)
  }

  function ReadLine(st: Reading, raw: string, n: nat): Reading {
    var line := TrimSpace(raw);
    if st.Refused? || line == "" then st
    else if line[0] == '#' then
      if st.body then st.(notes := st.notes + [line]) else st.(header := st.header + [line])
    else
      var fields := Fields(line);
      if fields != [] && fields[0] != "" && fields[0][0] == '@' then
        if fields[0] != REVOKED && fields[0] != CERT_AUTHORITY then Refused(UnknownMarker(n))
        else if |fields| - 1 < 3 then Refused(NotAHostKey(n))
        else WithEntry(st, fields[0], fields[1..])
      else if |fields| < 3 then Refused(NotAHostKey(n))
      else WithEntry(st, "", fields)
  }

  /** Reading the first n lines. */
  function ReadLines(st: Reading, lines: seq<string>, n: nat): Reading
    requires n <= |lines|
  {
    if n == 0 then st else ReadLine(ReadLines(st, lines, n - 1), lines[n - 1], n)
  }

  const NOTHING_READ := Reading([], [], [], false)

  function Finished(st: Reading): ParseResult {
    match st
    case Refused(r) => r
    case Reading(header, entries, notes, _) => Parsed(Document(header, entries, notes))
  }

  function ParseText(text: string): ParseResult {
    var lines := Split(text, '\n');
    Finished(ReadLines(NOTHING_READ, lines, |lines|))
  }

  lemma {:induction false} RefusedStays(st: Reading, lines: seq<string>, n: nat, m: nat)
    requires n <= m <= |lines| && ReadLines(st, lines, n).Refused?
    ensures ReadLines(st, lines, m) == ReadLines(st, lines, n)
    decreases m - n
  {
    if n < m {
      RefusedStays(st, lines, n, m - 1);
    }
  }

  /** `Parse`, line by line. */
  method Parse(text: string) returns (r: ParseResult)
    ensures r == ParseText(text)
  {
    var lines := Split(text, '\n');
    var header: seq<string>, entries: seq<Entry>, notes: seq<string>, body := [], [], [], false;
    for i := 0 to |lines|
      invariant ReadLines(NOTHING_READ, lines, i) == Reading(header, entries, notes, body)
    {
      var line := TrimSpace(lines[i]);
      if line == "" {
        continue;
      }
      if line[0] == '#' {
        if body {
          notes := notes + [line];
        } else {
          header := header + [line];
        }
        continue;
      }
      TrimSpaceIs(lines[i]);
      FieldsFirstWord(line);
      var fields := Fields(line);
      var marker := "";
      if fields[0][0] == '@' {
        marker := fields[0];
        if marker != REVOKED && marker != CERT_AUTHORITY {
          RefusedStays(NOTHING_READ, lines, i + 1, |lines|);
          return UnknownMarker(i + 1);
        }
        fields := fields[1..];
      }
      if |fields| < 3 {
        RefusedStays(NOTHING_READ, lines, i + 1, |lines|);
        return NotAHostKey(i + 1);
      }
      entries := entries + [Entry(marker, Split(fields[0], ','), fields[1], fields[2], Join(fields[3..], " "), notes)];
      notes, body := [], true;
    }
    r := Parsed(Document(header, entries, notes));
  }

  lemma {:induction false} FieldsFirstWord(line: string)
    requires line != "" && Trimmed(line)
    ensures Fields(line) != [] && Fields(line)[0] != "" && Fields(line)[0][0] == line[0]
  {
  }

  // ----- what a file holds -----

  /** A comment line as it is kept. */
  predicate IsComment(s: string) {
    s != "" && s[0] == '#' && Trimmed(s) && '\n' !in s
  }

  predicate AllComments(lines: seq<string>) {
    forall s :: s in lines ==> IsComment(s)
  }

  /** An entry that can be written on one line and told apart from a comment
      and a marker. */
  predicate WellFormedEntry(e: Entry) {
    && (e.marker == "" || e.marker == REVOKED || e.marker == CERT_AUTHORITY)
    && e.hosts != [] && (forall h :: h in e.hosts ==> ',' !in h)
    && IsWord(Join(e.hosts, ","))
    && (e.marker == "" ==> Join(e.hosts, ",")[0] != '#' && Join(e.hosts, ",")[0] != '@')
    && IsWord(e.typ) && IsWord(e.key)
    && e.comment == Join(Fields(e.comment), " ")
    && AllComments(e.notes)
  }

  predicate WellFormed(d: Document) {
    && AllComments(d.header) && AllComments(d.trailer)
    && forall e :: e in d.entries ==> WellFormedEntry(e)
  }

  // ----- a written line read back -----

  function EntryWords(e: Entry): seq<string> {
    (if e.marker == "" then [] else [e.marker]) + [Join(e.hosts, ","), e.typ, e.key] + Fields(e.comment)
  }

  lemma {:induction false} JoinAppend(a: seq<string>, b: seq<string>)
    requires a != [] && b != []
    ensures Join(a + b, " ") == Join(a, " ") + " " + Join(b, " ")
  {
    if |a| == 1 {
      assert (a + b)[1..] == b;
    } else {
      assert (a + b)[1..] == a[1..] + b;
      JoinAppend(a[1..], b);
      assert a[0] + " " + (Join(a[1..], " ") + " " + Join(b, " ")) == a[0] + " " + Join(a[1..], " ") + " " + Join(b, " ");
    }
  }

  lemma {:induction false} JoinThree(a: string, b: string, c: string)
    ensures Join([a, b, c], " ") == a + " " + b + " " + c
  {
    assert [a, b, c][1..] == [b, c] && [b, c][1..] == [c];
    assert Join([b, c], " ") == b + " " + c;
    assert Join([a, b, c], " ") == a + " " + (b + " " + c);
    Assoc(a + " ", b + " ", c);
    Assoc(a + " ", b, " ");
  }

  lemma {:induction false} EntryWordsAreWords(e: Entry)
    requires WellFormedEntry(e)
    ensures forall w :: w in EntryWords(e) ==> IsWord(w)
  {
    FieldsAreWords(e.comment);
    assert IsWord(REVOKED) && IsWord(CERT_AUTHORITY);
  }

  lemma {:induction false} EntryTextIsWords(e: Entry)
    requires WellFormedEntry(e)
    ensures EntryText(e) == Join(EntryWords(e), " ")
  {
    EntryTailIsWords(e);
    var three, words := [Join(e.hosts, ","), e.typ, e.key], Fields(e.comment);
    var line, comment := Join(three, " "), if e.comment == "" then "" else " " + e.comment;
    var tail := three + words;
    if e.marker == "" {
      assert EntryWords(e) == tail;
      assert line + "" == line;
      Assoc(line, " ", e.comment);
    } else {
      var marked := e.marker + " ";
      JoinAppend([e.marker], tail);
      assert EntryWords(e) == [e.marker] + tail;
      assert Join(EntryWords(e), " ") == marked + (line + comment);
      Assoc(marked, line, comment);
      assert marked + line + "" == marked + line;
      Assoc(marked + line, " ", e.comment);
    }
  }

  lemma {:induction false} EntryTailIsWords(e: Entry)
    requires WellFormedEntry(e)
    ensures var three := [Join(e.hosts, ","), e.typ, e.key];
            && Join(three, " ") == Join(e.hosts, ",") + " " + e.typ + " " + e.key
            && Join(three + Fields(e.comment), " ") == Join(three, " ") + if e.comment == "" then "" else " " + e.comment
  {
    var three := [Join(e.hosts, ","), e.typ, e.key];
    JoinThree(three[0], three[1], three[2]);
    var words := Fields(e.comment);
    if words == [] {
      assert three + words == three;
    } else {
      FieldsAreWords(e.comment);
      JoinTrimmed(words);
      JoinAppend(three, words);
      Assoc(Join(three, " "), " ", e.comment);
    }
  }

  lemma {:induction false} ReadEntry(st: Reading, e: Entry, n: nat)
    requires st.Reading? && WellFormedEntry(e)
    ensures ReadLine(st, EntryText(e), n) == Reading(st.header, st.entries + [e.(notes := st.notes)], [], true)
  {
    EntryTextReads(e);
    SplitJoin(e.hosts, ',');
    var words := EntryWords(e);
    if e.marker == "" {
      assert words[3..] == Fields(e.comment);
      assert WithEntry(st, "", words) == Reading(st.header, st.entries + [e.(notes := st.notes)], [], true);
    } else {
      var rest := words[1..];
      assert rest[3..] == Fields(e.comment);
      assert WithEntry(st, e.marker, rest) == Reading(st.header, st.entries + [e.(notes := st.notes)], [], true);
    }
  }

  /** A written entry is neither blank nor a comment, and reads as its words. */
  lemma {:induction false} EntryTextReads(e: Entry)
    requires WellFormedEntry(e)
    ensures TrimSpace(EntryText(e)) == EntryText(e) != ""
    ensures Fields(EntryText(e)) == EntryWords(e)
    ensures EntryText(e)[0] == EntryWords(e)[0][0]
  {
    EntryTextIsWords(e);
    EntryWordsAreWords(e);
    JoinTrimmed(EntryWords(e));
    TrimTrimmed(EntryText(e));
    FieldsJoin(EntryWords(e));
  }

  lemma {:induction false} ReadComment(st: Reading, line: string, n: nat)
    requires st.Reading? && IsComment(line)
    ensures ReadLine(st, line, n)
            == if st.body then st.(notes := st.notes + [line]) else st.(header := st.header + [line])
  {
    TrimTrimmed(line);
  }

  // ----- a written file read back -----

  /** All the lines read. */
  function ReadAll(lines: seq<string>): Reading {
    ReadLines(NOTHING_READ, lines, |lines|)
  }

  lemma {:induction false} ReadLinesAppend(st: Reading, a: seq<string>, b: seq<string>, n: nat)
    requires n <= |a|
    ensures ReadLines(st, a + b, n) == ReadLines(st, a, n)
  {
    if n > 0 {
      ReadLinesAppend(st, a, b, n - 1);
    }
  }

  lemma {:induction false} ReadOneMore(lines: seq<string>, line: string)
    ensures ReadAll(lines + [line]) == ReadLine(ReadAll(lines), line, |lines| + 1)
  {
    ReadLinesAppend(NOTHING_READ, lines, [line], |lines|);
  }

  function WithComments(st: Reading, comments: seq<string>): Reading
    requires st.Reading?
  {
    if st.body then st.(notes := st.notes + comments) else st.(header := st.header + comments)
  }

  lemma {:induction false} ReadComments(before: seq<string>, comments: seq<string>)
    requires AllComments(comments) && ReadAll(before).Reading?
    ensures ReadAll(before + comments) == WithComments(ReadAll(before), comments)
  {
    var st := ReadAll(before);
    if comments == [] {
      assert before + comments == before;
    } else {
      var front, c := comments[..|comments| - 1], comments[|comments| - 1];
      assert c in comments && comments == front + [c];
      ReadComments(before, front);
      ReadOneMore(before + front, c);
      ReadComment(WithComments(st, front), c, |before + front| + 1);
      Assoc(before, front, [c]);
      Assoc(st.notes, front, [c]);
      Assoc(st.header, front, [c]);
    }
  }

  /** One more entry, under its notes. */
  lemma {:induction false} ReadEntryUnderNotes(before: seq<string>, e: Entry)
    requires ReadAll(before).Reading? && WellFormedEntry(e)
    ensures var st := WithComments(ReadAll(before), e.notes);
            ReadAll(before + e.notes + [EntryText(e)])
            == Reading(st.header, st.entries + [e.(notes := st.notes)], [], true)
  {
    ReadComments(before, e.notes);
    ReadOneMore(before + e.notes, EntryText(e));
    ReadEntry(WithComments(ReadAll(before), e.notes), e, |before + e.notes| + 1);
  }

  /** The notes of the first entry counted to the comment block. */
  function ReadBack(header: seq<string>, entries: seq<Entry>): Reading {
    if entries == [] then Reading(header, [], [], false)
    else Reading(header + entries[0].notes, entries[0 := entries[0].(notes := [])], [], true)
  }

  lemma {:induction false} ReadBackMore(header: seq<string>, front: seq<Entry>, e: Entry)
    ensures var st := WithComments(ReadBack(header, front), e.notes);
            ReadBack(header, front + [e]) == Reading(st.header, st.entries + [e.(notes := st.notes)], [], true)
  {
    assert [] + e.notes == e.notes;
    if front != [] {
      assert (front + [e])[0 := front[0].(notes := [])] == front[0 := front[0].(notes := [])] + [e];
    }
  }

  lemma {:induction false} ReadEntries(header: seq<string>, entries: seq<Entry>)
    requires AllComments(header) && forall i :: 0 <= i < |entries| ==> WellFormedEntry(entries[i])
    ensures ReadAll(header + EntryLines(entries)) == ReadBack(header, entries)
  {
    if entries == [] {
      ReadComments([], header);
      assert header + EntryLines(entries) == header && [] + header == header;
    } else {
      var last := |entries| - 1;
      var front, e := entries[..last], entries[last];
      assert entries == front + [e];
      ReadEntries(header, front);
      ReadEntryUnderNotes(header + EntryLines(front), e);
      EntryLinesMore(header, front, e);
      ReadBackMore(header, front, e);
    }
  }

  lemma {:induction false} SplitLines(lines: seq<string>)
    requires forall s :: s in lines ==> '\n' !in s
    ensures Split(LinesText(lines), '\n') == lines + [""]
  {
    if lines != [] {
      assert lines[0] in lines;
      SplitLines(lines[1..]);
      SplitFirst(lines[0], '\n', LinesText(lines[1..]));
    }
  }

  lemma {:induction false} EntryTextOneLine(e: Entry)
    requires WellFormedEntry(e)
    ensures '\n' !in EntryText(e)
  {
    EntryTextIsWords(e);
    EntryWordsAreWords(e);
    JoinChars(EntryWords(e), " ");
  }

  lemma {:induction false} EntryLinesOneLine(entries: seq<Entry>)
    requires forall e :: e in entries ==> WellFormedEntry(e)
    ensures forall s :: s in EntryLines(entries) ==> '\n' !in s
  {
    if entries != [] {
      assert entries[0] in entries;
      EntryTextOneLine(entries[0]);
      EntryLinesOneLine(entries[1..]);
    }
  }

  lemma {:induction false} EntryOrder()
    ensures TotalPreorder(EntryLe)
  {
    forall a, b ensures EntryLe(a, b) || EntryLe(b, a) {
      EntryLeTotal(a, b);
    }
    forall a, b, c | EntryLe(a, b) && EntryLe(b, c) ensures EntryLe(a, c) {
      EntryLeTransitive(a, b, c);
    }
  }

  lemma {:induction false} EntryLeTotal(a: Entry, b: Entry)
    ensures EntryLe(a, b) || EntryLe(b, a)
  {
    if EntryLess(a, b) && EntryLess(b, a) {
      var x, y := Join(a.hosts, ","), Join(b.hosts, ",");
      if x != y {
        StrAsymmetric(x, y);
      } else if a.marker != b.marker {
        StrAsymmetric(a.marker, b.marker);
      } else {
        StrAsymmetric(a.typ, b.typ);
      }
    }
  }

  lemma {:induction false} EntryLeTransitive(a: Entry, b: Entry, c: Entry)
    requires EntryLe(a, b) && EntryLe(b, c)
    ensures EntryLe(a, c)
  {
    var x, y, z := Join(a.hosts, ","), Join(b.hosts, ","), Join(c.hosts, ",");
    StrOrder(x, y, z);
    StrOrder(z, x, y);
    StrOrder(y, z, x);
    StrOrder(a.marker, b.marker, c.marker);
    StrOrder(b.marker, c.marker, a.marker);
    StrOrder(c.marker, a.marker, b.marker);
    StrOrder(a.typ, b.typ, c.typ);
  }

  /** What reading a written file gives: the entries in order, and the notes
      above the first of them, which nothing tells apart from the comment
      block, counted to the block. */
  function Normal(d: Document): Document {
    var entries := SortedEntries(d.entries);
    if entries == [] then Document(d.header + d.trailer, [], [])
    else Document(d.header + entries[0].notes, [entries[0].(notes := [])] + entries[1..], d.trailer)
  }

  /** A written file reads back as its normal form. */
  lemma {:induction false} ParseRendered(d: Document)
    requires WellFormed(d)
    ensures ParseText(RenderText(d)) == Parsed(Normal(d))
  {
    var entries := SortedEntries(d.entries);
    EntryOrder();
    SortSorts(EntryLe, d.entries);
    EntryLinesOneLine(entries);
    var lines := DocLines(d);
    SplitLines(lines);
    forall i | 0 <= i < |entries| ensures WellFormedEntry(entries[i]) {
      assert entries[i] in entries;
    }
    ReadEntries(d.header, entries);
    ReadComments(d.header + EntryLines(entries), d.trailer);
    ReadOneMore(lines, "");
    assert TrimSpace("") == "";
    if entries != [] {
      assert entries[0 := entries[0].(notes := [])] == [entries[0].(notes := [])] + entries[1..];
    }
  }

  /** The comment lines of a file as they are written. */
  function Comments(d: Document): seq<string> {
    d.header + NotesOf(SortedEntries(d.entries)) + d.trailer
  }

  function NotesOf(entries: seq<Entry>): seq<string> {
    if entries == [] then [] else entries[0].notes + NotesOf(entries[1..])
  }

  lemma {:induction false} NormalSorted(d: Document)
    ensures SortedEntries(Normal(d).entries) == Normal(d).entries
  {
    EntryOrder();
    SortSorts(EntryLe, d.entries);
    SortIdentity(EntryLe, Normal(d).entries);
  }

  /** Every comment line is kept, in its order. */
  lemma {:induction false} NormalKeepsComments(d: Document)
    ensures Comments(Normal(d)) == Comments(d)
  {
    NormalSorted(d);
    var entries := SortedEntries(d.entries);
    if entries != [] {
      NotesOfRest(entries);
      Assoc(d.header, entries[0].notes, NotesOf(entries[1..]));
    } else {
      Assoc(d.header, d.trailer, []);
      assert d.header + [] == d.header;
    }
  }

  lemma {:induction false} NotesOfRest(entries: seq<Entry>)
    requires entries != []
    ensures NotesOf([entries[0].(notes := [])] + entries[1..]) == NotesOf(entries[1..])
  {
    assert ([entries[0].(notes := [])] + entries[1..])[1..] == entries[1..];
  }

  /** Writing the normal form writes the same file. */
  lemma {:induction false} RenderNormal(d: Document)
    ensures RenderText(Normal(d)) == RenderText(d)
  {
    NormalSorted(d);
    var entries, n := SortedEntries(d.entries), Normal(d);
    if entries != [] {
      assert n.entries[1..] == entries[1..];
      assert EntryText(n.entries[0]) == EntryText(entries[0]);
      assert d.header + entries[0].notes + ([] + [EntryText(entries[0])] + EntryLines(entries[1..])) + d.trailer
          == d.header + (entries[0].notes + [EntryText(entries[0])] + EntryLines(entries[1..])) + d.trailer;
    }
    assert DocLines(n) == DocLines(d);
  }

  // ----- every file that parses is well formed -----

  ghost predicate WellRead(st: Reading) {
    match st
    case Refused(r) => !r.Parsed?
    case Reading(header, entries, notes, _) =>
      AllComments(header) && AllComments(notes) && forall e :: e in entries ==> WellFormedEntry(e)
  }

  lemma {:induction false} ReadEntryWellFormed(line: string, marker: string, fields: seq<string>, notes: seq<string>)
    requires line != "" && Trimmed(line) && line[0] != '#' && |fields| >= 3
    requires if line[0] == '@'
             then (marker == REVOKED || marker == CERT_AUTHORITY) && Fields(line) == [marker] + fields
             else marker == "" && Fields(line) == fields
    requires AllComments(notes)
    ensures WellFormedEntry(Entry(marker, Split(fields[0], ','), fields[1], fields[2], Join(fields[3..], " "), notes))
  {
    FieldsAreWords(line);
    FieldsFirstWord(line);
    assert forall w :: w in fields ==> w in Fields(line);
    assert fields[0] in fields && fields[1] in fields && fields[2] in fields;
    JoinSplit(fields[0], ',');
    SplitPieces(fields[0], ',');
    FieldsJoin(fields[3..]);
  }

  lemma {:induction false} ReadLineWellFormed(st: Reading, raw: string, n: nat)
    requires WellRead(st) && '\n' !in raw
    ensures WellRead(ReadLine(st, raw, n))
  {
    var line := TrimSpace(raw);
    TrimSpaceIs(raw);
    if st.Reading? && line != "" && line[0] != '#' {
      FieldsFirstWord(line);
      var fields := Fields(line);
      if fields[0][0] == '@' {
        if (fields[0] == REVOKED || fields[0] == CERT_AUTHORITY) && |fields| > 3 {
          ReadEntryWellFormed(line, fields[0], fields[1..], st.notes);
        }
      } else if |fields| >= 3 {
        ReadEntryWellFormed(line, "", fields, st.notes);
      }
    }
  }

  lemma {:induction false} ReadLinesWellFormed(lines: seq<string>, n: nat)
    requires n <= |lines| && forall s :: s in lines ==> '\n' !in s
    ensures WellRead(ReadLines(NOTHING_READ, lines, n))
  {
    if n > 0 {
      ReadLinesWellFormed(lines, n - 1);
      assert lines[n - 1] in lines;
      ReadLineWellFormed(ReadLines(NOTHING_READ, lines, n - 1), lines[n - 1], n);
    }
  }

  lemma {:induction false} ParsedIsWellFormed(text: string)
    ensures ParseText(text).Parsed? ==> WellFormed(ParseText(text).doc)
  {
    SplitPieces(text, '\n');
    var lines := Split(text, '\n');
    ReadLinesWellFormed(lines, |lines|);
  }

  /** For every text that parses: rewriting it gives a file that reads back,
      keeps its entries and comments, and that rewriting does not change. */
  lemma {:induction false} RewritingIsStable(text: string)
    requires ParseText(text).Parsed?
    ensures var rewritten := RenderText(ParseText(text).doc);
            && ParseText(rewritten) == Parsed(Normal(ParseText(text).doc))
            && RenderText(ParseText(rewritten).doc) == rewritten
  {
    ParsedIsWellFormed(text);
    ParseRendered(ParseText(text).doc);
    RenderNormal(ParseText(text).doc);
  }

  lemma {:induction false} NormalWellFormed(d: Document)
    requires WellFormed(Normal(d))
    ensures WellFormed(d)
  {
    EntryOrder();
    SortSorts(EntryLe, d.entries);
    var sorted, n := SortedEntries(d.entries), Normal(d);
    forall s | s in d.header ensures IsComment(s) {
      assert s in n.header;
    }
    if sorted == [] {
      forall s | s in d.trailer ensures IsComment(s) {
        assert s in n.header;
      }
    }
    forall e | e in d.entries ensures WellFormedEntry(e) {
      assert e in sorted;
      if e == sorted[0] {
        assert n.entries[0] in n.entries && n.entries[0] == e.(notes := []);
        forall s | s in e.notes ensures IsComment(s) {
          assert s in n.header;
        }
      } else {
        assert e in n.entries;
      }
    }
  }

  /** Of every file, whatever it holds: it is written so that it reads back, as its
      normal form, exactly when it is well formed. */
  lemma {:induction false} ReadsBackWhenWellFormed(d: Document)
    ensures ParseText(RenderText(d)) == Parsed(Normal(d)) <==> WellFormed(d)
  {
    if WellFormed(d) {
      ParseRendered(d);
    }
    if ParseText(RenderText(d)) == Parsed(Normal(d)) {
      ParsedIsWellFormed(RenderText(d));
      NormalWellFormed(d);
    }
  }
}
