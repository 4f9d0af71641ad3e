/** Removing hosts, or replacing their keys, and writing the file back: what the next
    reader finds (internal/hostkeys/hostkeys.go, `Modify`). */
module Rewriting {
  import opened Text
  import opened Sorting
  import opened Patterns
  import opened Removal
  import opened Replacement
  import opened KnownHostsText

  /** The file after a removal. */
  function Without(hash: HashMatch, d: Document, hosts: seq<string>): Document {
    d.(entries := Remaining(hash, d.entries, hosts))
  }

  /** The patterns, written as the first word of a line, are there and read as
      neither a comment nor a marker. */
  predicate BeginsLine(patterns: seq<string>) {
    var word := Join(patterns, ",");
    word != "" && word[0] != '#' && word[0] != '@'
  }

  /** Of every host key that something is left of, a line can begin with what is. */
  predicate LinesBegin(hash: HashMatch, entries: seq<Entry>, hosts: seq<string>) {
    forall e :: e in entries && e.IsHostKey() && Rest(hash, e.hosts, hosts) != [] ==>
                  BeginsLine(Rest(hash, e.hosts, hosts))
  }

  lemma {:induction false} JoinedContains(hosts: seq<string>, h: string, c: char)
    requires h in hosts && c in h
    ensures c in Join(hosts, ",")
  {
    if |hosts| > 1 && h != hosts[0] {
      JoinedContains(hosts[1..], h, c);
    }
  }

  /** No character of a well-formed line's patterns ends a word. */
  lemma {:induction false} RestIsWord(hash: HashMatch, e: Entry, hosts: seq<string>)
    requires WellFormedEntry(e) && BeginsLine(Rest(hash, e.hosts, hosts))
    ensures IsWord(Join(Rest(hash, e.hosts, hosts), ","))
  {
    var rest := Rest(hash, e.hosts, hosts);
    RestIs(hash, e.hosts, hosts);
    JoinChars(rest, ",");
    forall i | 0 <= i < |Join(rest, ",")| ensures !IsSpace(Join(rest, ",")[i]) {
      var c := Join(rest, ",")[i];
      assert c in Join(rest, ",");
      if c != ',' {
        var h :| h in rest && c in h;
        JoinedContains(e.hosts, h, c);
      }
    }
  }

  lemma {:induction false} KeptWellFormed(hash: HashMatch, e: Entry, hosts: seq<string>)
    requires WellFormedEntry(e) && LinesBegin(hash, [e], hosts)
    ensures forall k :: k in Kept(hash, e, hosts) ==> WellFormedEntry(k)
  {
    if e.IsHostKey() && Rest(hash, e.hosts, hosts) != [] {
      assert e in [e];
      RestIs(hash, e.hosts, hosts);
      RestIsWord(hash, e, hosts);
    }
  }

  lemma {:induction false} RemainingWellFormed(hash: HashMatch, entries: seq<Entry>, hosts: seq<string>)
    requires LinesBegin(hash, entries, hosts) && forall i :: 0 <= i < |entries| ==> WellFormedEntry(entries[i])
    ensures forall k :: k in Remaining(hash, entries, hosts) ==> WellFormedEntry(k)
  {
    if entries != [] {
      KeptWellFormed(hash, entries[0], hosts);
      RemainingWellFormed(hash, entries[1..], hosts);
    }
  }

  lemma {:induction false} KeptRemains(hash: HashMatch, entries: seq<Entry>, hosts: seq<string>, e: Entry)
    requires e in entries && e.IsHostKey() && Rest(hash, e.hosts, hosts) != []
    ensures e.(hosts := Rest(hash, e.hosts, hosts)) in Remaining(hash, entries, hosts)
  {
    if e != entries[0] {
      KeptRemains(hash, entries[1..], hosts, e);
    }
  }

  /** What a removal leaves of well-formed lines is well formed exactly when every line
      can begin with the patterns it has left. */
  lemma {:induction false} LeftWellFormed(hash: HashMatch, entries: seq<Entry>, hosts: seq<string>)
    requires forall i :: 0 <= i < |entries| ==> WellFormedEntry(entries[i])
    ensures (forall k :: k in Remaining(hash, entries, hosts) ==> WellFormedEntry(k)) <==> LinesBegin(hash, entries, hosts)
  {
    if LinesBegin(hash, entries, hosts) {
      RemainingWellFormed(hash, entries, hosts);
    }
    if forall k :: k in Remaining(hash, entries, hosts) ==> WellFormedEntry(k) {
      forall e | e in entries && e.IsHostKey() && Rest(hash, e.hosts, hosts) != []
        ensures BeginsLine(Rest(hash, e.hosts, hosts))
      {
        KeptRemains(hash, entries, hosts, e);
        assert WellFormedEntry(e.(hosts := Rest(hash, e.hosts, hosts)));
      }
    }
  }

  /** For every text that parses: once hosts are removed and the file is written,
      it reads back as what was left exactly when every line that lost patterns, or
      kept them, can begin with those it has. */
  lemma {:induction false} ReadsBackAsLeft(hash: HashMatch, text: string, hosts: seq<string>)
    requires ParseText(text).Parsed?
    ensures var left := Without(hash, ParseText(text).doc, hosts);
            ParseText(RenderText(left)) == Parsed(Normal(left)) <==> LinesBegin(hash, ParseText(text).doc.entries, hosts)
  {
    var d := ParseText(text).doc;
    ParsedIsWellFormed(text);
    LeftWellFormed(hash, d.entries, hosts);
    ReadsBackWhenWellFormed(Without(hash, d, hosts));
  }

  lemma {:induction false} FromNormal(d: Document, n: Entry)
    requires n in Normal(d).entries
    ensures exists e :: e in d.entries && e.hosts == n.hosts && e.marker == n.marker
  {
    EntryOrder();
    SortSorts(EntryLe, d.entries);
    var sorted := SortedEntries(d.entries);
    if n !in sorted {
      assert sorted[0] in sorted && sorted[0] in d.entries && n.hosts == sorted[0].hosts && n.marker == sorted[0].marker;
    } else {
      assert n in d.entries;
    }
  }

  /** And then no host key that is read back names one of the hosts. */
  lemma {:induction false} ForgottenWhenReadBack(hash: HashMatch, text: string, hosts: seq<string>)
    requires ParseText(text).Parsed? && LinesBegin(hash, ParseText(text).doc.entries, hosts)
    ensures var back := ParseText(RenderText(Without(hash, ParseText(text).doc, hosts)));
            && back.Parsed?
            && forall e, p :: e in back.doc.entries && e.IsHostKey() && p in e.hosts ==> !NamedBy(hash, p, hosts)
  {
    var d := ParseText(text).doc;
    var left := Without(hash, d, hosts);
    ReadsBackAsLeft(hash, text, hosts);
    NoneNamedAfterwards(hash, d.entries, hosts);
    forall e, p | e in Normal(left).entries && e.IsHostKey() && p in e.hosts
      ensures !NamedBy(hash, p, hosts)
    {
      FromNormal(left, e);
    }
  }

  // ----- the keys replaced -----

  /** The file after the keys of hosts were replaced. */
  function Replaced(hash: HashMatch, d: Document, hosts: seq<string>, keys: string -> seq<Entry>): Document {
    d.(entries := ReplacedAll(hash, d.entries, hosts, keys))
  }

  predicate AllWellFormed(es: seq<Entry>) {
    forall e :: e in es ==> WellFormedEntry(e)
  }

  lemma {:induction false} PutWellFormed(hash: HashMatch, host: string, st: Placing, keys: seq<Entry>)
    requires st.Valid() && AllWellFormed(st.entries) && AllWellFormed(keys) && FiledUnder(keys, host)
    ensures AllWellFormed(PutKeys(hash, {ToLower(host)}, st, keys).entries)
    decreases |keys|
  {
    if keys != [] {
      var k, next := keys[0], PutKey(hash, {ToLower(host)}, st, keys[0]);
      assert k in keys && forall x :: x in keys[1..] ==> x in keys;
      if k.hosts != [] && SlotOf(k) in st.added {
        assert st.entries[st.added[SlotOf(k)]] in st.entries;
      }
      PutWellFormed(hash, host, next, keys[1..]);
    }
  }

  lemma {:induction false} NotesAreComments(hash: HashMatch, entries: seq<Entry>, hosts: seq<string>, k: nat)
    requires k < |hosts| && AllWellFormed(entries)
    ensures AllComments(NotesAt(hash, entries, hosts, k))
  {
    if entries != [] {
      assert entries[0] in entries && forall x :: x in entries[1..] ==> x in entries;
      NotesAreComments(hash, entries[1..], hosts, k);
    }
  }

  lemma {:induction false} BlockWellFormed(hash: HashMatch, host: string, keys: seq<Entry>, notes: seq<string>)
    requires AllWellFormed(keys) && FiledUnder(keys, host) && AllComments(notes)
    ensures AllWellFormed(Block(hash, host, Noted(keys, notes)))
  {
    NotedPatterns(keys, notes);
    if keys != [] {
      assert keys[0] in keys;
    }
    PutWellFormed(hash, host, Placing([], map[]), Noted(keys, notes));
  }

  lemma {:induction false} BlocksWellFormed(hash: HashMatch, entries: seq<Entry>, hosts: seq<string>,
                                            keys: string -> seq<Entry>, m: nat)
    requires m <= |hosts| && AllWellFormed(entries) && Filed(hosts, keys)
    requires forall i :: 0 <= i < |hosts| ==> AllWellFormed(keys(hosts[i]))
    ensures AllWellFormed(Blocks(hash, entries, hosts, keys, m))
  {
    if m > 0 {
      BlocksWellFormed(hash, entries, hosts, keys, m - 1);
      var first := FirstSpelling(hosts, m - 1);
      NotesAreComments(hash, entries, hosts, first);
      BlockWellFormed(hash, hosts[m - 1], keys(hosts[m - 1]), NotesAt(hash, entries, hosts, first));
    }
  }

  /** The same of hosts whose keys are replaced: for keys that are well formed and filed
      under their host, the file reads back as it was left exactly when every line that is
      kept can begin with the patterns it has. */
  lemma {:induction false} ReadsBackAsReplaced(hash: HashMatch, text: string, hosts: seq<string>, keys: string -> seq<Entry>)
    requires ParseText(text).Parsed? && Filed(hosts, keys)
    requires forall i :: 0 <= i < |hosts| ==> AllWellFormed(keys(hosts[i]))
    ensures var replaced := Replaced(hash, ParseText(text).doc, hosts, keys);
            ParseText(RenderText(replaced)) == Parsed(Normal(replaced))
            <==> LinesBegin(hash, ParseText(text).doc.entries, hosts)
  {
    var d := ParseText(text).doc;
    ParsedIsWellFormed(text);
    LeftWellFormed(hash, d.entries, hosts);
    PlacedBlocks(hash, d.entries, hosts, keys, |hosts|);
    BlocksWellFormed(hash, d.entries, hosts, keys, |hosts|);
    BothWellFormed(Remaining(hash, d.entries, hosts), Blocks(hash, d.entries, hosts, keys, |hosts|));
    ReadsBackWhenWellFormed(Replaced(hash, d, hosts, keys));
  }

  lemma {:induction false} BothWellFormed(a: seq<Entry>, b: seq<Entry>)
    ensures AllWellFormed(a + b) <==> AllWellFormed(a) && AllWellFormed(b)
  {
    if AllWellFormed(a + b) {
      forall e | e in a ensures WellFormedEntry(e) {
        assert e in a + b;
      }
      forall e | e in b ensures WellFormedEntry(e) {
        assert e in a + b;
      }
    }
  }

  // ----- what becomes of a line that cannot begin so -----

  /** A file of one line, which names a host and has one more pattern. */
  function OfTwo(p: string, comment: string): Document {
    Document([], [Entry("", ["a", p], "t", "k", comment, [])], [])
  }

  predicate OfOtherHost(p: string) {
    ',' !in p && (p == "" || (IsWord(p) && (p[0] == '#' || p[0] == '@')))
  }

  lemma {:induction false} OfTwoReads(p: string, comment: string)
    requires OfOtherHost(p) && comment in {"", "c"}
    ensures ParseText(RenderText(OfTwo(p, comment))) == Parsed(OfTwo(p, comment))
  {
    var d := OfTwo(p, comment);
    var e := d.entries[0];
    assert ["a", p][1..] == [p] && Join(["a", p], ",") == "a" + "," + p;
    assert Fields("") == [] && (comment == "c" ==> Fields("c") == ["c"]) by {
      FieldsJoin(["c"]);
    }
    assert WellFormedEntry(e);
    ParseRendered(d);
    OneSorted(e);
    assert [e][1..] == [] && [e.(notes := [])] + [] == [e];
  }

  lemma {:induction false} OneSorted(e: Entry)
    ensures SortedEntries([e]) == [e]
  {
    assert [e][1..] == [] && Sort(EntryLe, [e][1..]) == [];
  }

  lemma {:induction false} NamesItself(hash: HashMatch)
    ensures NamedBy(hash, "a", ["a"])
  {
    var a := "a";
    assert a[0] == 'a' && ["a"][0] == a;
    assert Names(hash, a, ["a"][0]);
  }

  lemma {:induction false} NotNamed(hash: HashMatch, p: string)
    requires OfOtherHost(p)
    ensures !NamedBy(hash, p, ["a"])
  {
    var a := "a";
    assert a[0] == 'a' && ToLower(a)[0] == 'a' && |ToLower(p)| == |p|;
    assert p != "" ==> ToLower(p)[0] == p[0];
    assert !Names(hash, p, a);
  }

  lemma {:induction false} OtherHostStays(hash: HashMatch, p: string, comment: string)
    requires OfOtherHost(p)
    ensures Remaining(hash, OfTwo(p, comment).entries, ["a"]) == [Entry("", [p], "t", "k", comment, [])]
  {
    NamesItself(hash);
    NotNamed(hash, p);
    assert ["a", p][1..] == [p] && [p][1..] == [];
    assert Rest(hash, [p], ["a"]) == [p] && Rest(hash, ["a", p], ["a"]) == [p];
    assert OfTwo(p, comment).entries[1..] == [];
    var kept := Entry("", [p], "t", "k", comment, []);
    assert Kept(hash, OfTwo(p, comment).entries[0], ["a"]) == [kept];
  }

  /** The line that the other pattern is left to begin. */
  function LeftLine(p: string, comment: string): string {
    p + " t k" + if comment == "" then "" else " " + comment
  }

  /** The file is read, the host removed, the file written and read again. */
  ghost predicate ReadsThen(hash: HashMatch, p: string, comment: string, again: ParseResult) {
    var d := OfTwo(p, comment);
    && ParseText(RenderText(d)) == Parsed(d)
    && ParseText(RenderText(Without(hash, d, ["a"]))) == again
  }

  lemma {:induction false} LeftText(hash: HashMatch, p: string, comment: string)
    requires OfOtherHost(p)
    ensures RenderText(Without(hash, OfTwo(p, comment), ["a"])) == LinesText([LeftLine(p, comment)])
  {
    var kept := Entry("", [p], "t", "k", comment, []);
    OtherHostStays(hash, p, comment);
    OneSorted(kept);
    assert EntryText(kept) == LeftLine(p, comment);
    assert [kept][1..] == [] && EntryLines([kept]) == [LeftLine(p, comment)];
    assert [] + [LeftLine(p, comment)] + [] == [LeftLine(p, comment)];
  }

  lemma {:induction false} OneLineReads(line: string)
    requires '\n' !in line
    ensures ParseText(LinesText([line])) == Finished(ReadLine(NOTHING_READ, line, 1))
  {
    SplitLines([line]);
    ReadOneMore([line], "");
    ReadOneMore([], line);
    assert [] + [line] == [line];
    assert TrimSpace("") == "";
  }

  lemma {:induction false} ReadsAgain(hash: HashMatch, p: string, comment: string, st: Reading)
    requires OfOtherHost(p) && comment in {"", "c"}
    requires ReadLine(NOTHING_READ, LeftLine(p, comment), 1) == st
    ensures ReadsThen(hash, p, comment, Finished(st))
  {
    OfTwoReads(p, comment);
    LeftText(hash, p, comment);
    assert IsSpace('\n');
    OneLineReads(LeftLine(p, comment));
  }

  /** A line of at least three words that begins like a comment or a marker. */
  lemma {:induction false} ReadsWords(line: string, words: seq<string>)
    requires |words| >= 3 && (forall w :: w in words ==> IsWord(w)) && line == Join(words, " ")
    ensures var st := ReadLine(NOTHING_READ, line, 1);
            && words[0] != ""
            && (words[0][0] == '#' ==> st == Reading([line], [], [], false))
            && (words[0][0] == '@' && words[0] != REVOKED && words[0] != CERT_AUTHORITY ==> st == Refused(UnknownMarker(1)))
            && (words[0] == REVOKED && |words| > 3 ==> st == WithEntry(NOTHING_READ, REVOKED, words[1..]))
  {
    assert words[0] in words;
    JoinTrimmed(words);
    TrimTrimmed(line);
    FieldsJoin(words);
    assert [] + [line] == [line];
  }

  lemma {:induction false} LeftWords(p: string)
    requires IsWord(p)
    ensures LeftLine(p, "") == Join([p, "t", "k"], " ")
    ensures LeftLine(p, "c") == Join([p, "t", "k", "c"], " ")
  {
    JoinThree(p, "t", "k");
    JoinAppend([p, "t", "k"], ["c"]);
    assert [p, "t", "k"] + ["c"] == [p, "t", "k", "c"];
  }

  /** A pattern that begins with # is left to make a comment of its line, and the
      key goes with it. */
  lemma {:induction false} LineBecomesComment(hash: HashMatch, p: string)
    requires OfOtherHost(p) && p != "" && p[0] == '#'
    ensures ReadsThen(hash, p, "", Parsed(Document([LeftLine(p, "")], [], [])))
  {
    LeftWords(p);
    ReadsWords(LeftLine(p, ""), [p, "t", "k"]);
    ReadsAgain(hash, p, "", Reading([LeftLine(p, "")], [], [], false));
  }

  /** One that begins with @ is left to make a marker that is none, and the whole
      file is refused. */
  lemma {:induction false} FileIsRefused(hash: HashMatch, p: string)
    requires OfOtherHost(p) && p != "" && p[0] == '@' && p != REVOKED && p != CERT_AUTHORITY
    ensures ReadsThen(hash, p, "", UnknownMarker(1))
  {
    LeftWords(p);
    ReadsWords(LeftLine(p, ""), [p, "t", "k"]);
    ReadsAgain(hash, p, "", Refused(UnknownMarker(1)));
  }

  /** One that is a marker is left to mark its line: what was a host's key revokes
      the comment for another name. */
  lemma {:induction false} KeyBecomesRevocation(hash: HashMatch)
    ensures ReadsThen(hash, REVOKED, "c", Parsed(Document([], [Entry(REVOKED, ["t"], "k", "c", "", [])], [])))
  {
    var words := [REVOKED, "t", "k", "c"];
    assert IsWord(REVOKED);
    LeftWords(REVOKED);
    ReadsWords(LeftLine(REVOKED, "c"), words);
    RevocationRead(words);
    ReadsAgain(hash, REVOKED, "c", Reading([], [Entry(REVOKED, ["t"], "k", "c", "", [])], [], true));
  }

  lemma {:induction false} RevocationRead(words: seq<string>)
    requires words == [REVOKED, "t", "k", "c"]
    ensures WithEntry(NOTHING_READ, REVOKED, words[1..]) == Reading([], [Entry(REVOKED, ["t"], "k", "c", "", [])], [], true)
  {
    assert words[1..] == ["t", "k", "c"] && words[1..][3..] == [];
    SplitJoin(["t"], ',');
  }

  lemma {:induction false} ReadsTooFew(line: string)
    requires line == " " + Join(["t", "k"], " ")
    ensures ReadLine(NOTHING_READ, line, 1) == Refused(NotAHostKey(1))
  {
    var words := ["t", "k"];
    FieldsJoin(words);
    JoinTrimmed(words);
    TrimTrimmed(Join(words, " "));
    assert line[1..] == Join(words, " ");
    assert TrimLeft(line) == TrimLeft(line[1..]);
  }

  /** An empty one is left to make a line that is no host key, and the whole file is
      refused. */
  lemma {:induction false} EmptyPatternIsRefused(hash: HashMatch)
    ensures ReadsThen(hash, "", "", NotAHostKey(1))
  {
    assert LeftLine("", "") == " " + Join(["t", "k"], " ");
    ReadsTooFew(LeftLine("", ""));
    ReadsAgain(hash, "", "", Refused(NotAHostKey(1)));
  }
}
