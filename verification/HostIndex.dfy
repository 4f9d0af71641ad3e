/** The index that answers for a known_hosts file without reading every line
    (internal/hostkeys/hostkeys.go). */
module HostIndex {
  import opened Text
  import opened Patterns
  import opened Removal
  import opened KnownHosts
  import opened Selection

  /** A pattern that can only cover the one host it spells. */
  predicate Plain(pattern: string) {
    !Negated(pattern) && !Hashed(pattern) && !HasWildcard(pattern)
  }

  lemma {:induction false} PlainIs(pattern: string)
    ensures Plain(pattern) <==> !("!" <= pattern) && !("|1|" <= pattern) && forall c :: c in pattern ==> c != '*' && c != '?'
  {
    assert forall i :: 0 <= i < |pattern| ==> pattern[i] in pattern;
  }

  predicate AllPlain(e: Entry) {
    forall p :: p in e.hosts ==> Plain(p)
  }

  predicate Spells(patterns: seq<string>, name: string) {
    exists p :: p in patterns && Plain(p) && ToLower(p) == name
  }

  predicate Ascending(s: seq<nat>) {
    forall i, j :: 0 <= i < j < |s| ==> s[i] < s[j]
  }

  /** The index of a file: for each spelled name the lines that spell it, and
      the lines that have to be read for every host. */
  datatype Index = Index(entries: seq<Entry>, literal: map<string, seq<nat>>, other: seq<nat>)

  function NamedLines(x: Index, name: string): seq<nat> {
    LinesOf(x.literal, name)
  }

  ghost predicate ListsOther(other: seq<nat>, entries: seq<Entry>, n: nat)
    requires n <= |entries|
  {
    Ascending(other) && forall i: nat :: i in other <==> i < n && !AllPlain(entries[i])
  }

  /** The lines listed for a name are those before n that spell it, and line n
      once its own patterns are read. */
  ghost predicate ListsName(lines: seq<nat>, name: string, entries: seq<Entry>, n: nat, patterns: seq<string>)
    requires n <= |entries|
  {
    && Ascending(lines)
    && forall i: nat :: i in lines <==>
                       (i < n && Spells(entries[i].hosts, name)) || (i == n && Spells(patterns, name))
  }

  ghost predicate ListsNames(literal: map<string, seq<nat>>, entries: seq<Entry>, n: nat, patterns: seq<string>)
    requires n <= |entries|
  {
    forall name :: ListsName(LinesOf(literal, name), name, entries, n, patterns)
  }

  /** The index holds what the file held when it was made. */
  ghost predicate IndexOf(x: Index, entries: seq<Entry>) {
    && x.entries == entries
    && ListsOther(x.other, entries, |entries|)
    && ListsNames(x.literal, entries, |entries|, [])
  }

  lemma {:induction false} SpellsAppend(patterns: seq<string>, p: string, name: string)
    ensures Spells(patterns + [p], name) <==> Spells(patterns, name) || (Plain(p) && ToLower(p) == name)
  {
    assert p in patterns + [p];
  }

  lemma {:induction false} ListMore(lines: seq<nat>, name: string, entries: seq<Entry>, n: nat, patterns: seq<string>, p: string)
    requires n < |entries| && ListsName(lines, name, entries, n, patterns)
    ensures !(Plain(p) && ToLower(p) == name) || n in lines ==> ListsName(lines, name, entries, n, patterns + [p])
    ensures Plain(p) && ToLower(p) == name && n !in lines ==> ListsName(lines + [n], name, entries, n, patterns + [p])
  {
    SpellsAppend(patterns, p, name);
    assert forall i :: 0 <= i < |lines| ==> lines[i] in lines;
  }

  lemma {:induction false} LastIsGreatest(lines: seq<nat>, n: nat)
    requires Ascending(lines) && forall i :: i in lines ==> i <= n
    ensures n in lines <==> lines != [] && lines[|lines| - 1] == n
  {
    if n in lines {
      var k :| 0 <= k < |lines| && lines[k] == n;
      assert lines[|lines| - 1] in lines;
    }
  }

  function LinesOf(literal: map<string, seq<nat>>, name: string): seq<nat> {
    if name in literal then literal[name] else []
  }

  /** Line n put under the name a pattern spells. */
  function WithName(literal: map<string, seq<nat>>, p: string, n: nat): map<string, seq<nat>> {
    var seen := LinesOf(literal, ToLower(p));
    if !Plain(p) || (seen != [] && seen[|seen| - 1] == n) then literal
    else literal[ToLower(p) := seen + [n]]
  }

  lemma {:induction false} WithNameLists(literal: map<string, seq<nat>>, entries: seq<Entry>, n: nat, patterns: seq<string>, p: string)
    requires n < |entries| && ListsNames(literal, entries, n, patterns)
    ensures ListsNames(WithName(literal, p, n), entries, n, patterns + [p])
  {
    forall name ensures ListsName(LinesOf(WithName(literal, p, n), name), name, entries, n, patterns + [p]) {
      var lines := LinesOf(literal, name);
      assert ListsName(lines, name, entries, n, patterns);
      LastIsGreatest(lines, n);
      ListMore(lines, name, entries, n, patterns, p);
    }
  }

  method IndexLine(literal: map<string, seq<nat>>, ghost entries: seq<Entry>, n: nat, patterns: seq<string>)
    returns (r: map<string, seq<nat>>, plain: bool)
    requires n < |entries| && ListsNames(literal, entries, n, [])
    ensures ListsNames(r, entries, n, patterns)
    ensures plain <==> forall p :: p in patterns ==> Plain(p)
  {
    r, plain := literal, true;
    for j := 0 to |patterns|
      invariant ListsNames(r, entries, n, patterns[..j])
      invariant plain <==> forall p :: p in patterns[..j] ==> Plain(p)
    {
      var p := patterns[j];
      assert patterns[..j + 1] == patterns[..j] + [p] && p in patterns[..j + 1];
      WithNameLists(r, entries, n, patterns[..j], p);
      if Negated(p) || Hashed(p) || HasWildcard(p) {
        plain := false;
      } else {
        var name := ToLower(p);
        var seen := LinesOf(r, name);
        if seen == [] || seen[|seen| - 1] != n {
          r := r[name := seen + [n]];
        }
      }
    }
    assert patterns[..|patterns|] == patterns;
  }

  lemma {:induction false} NextLine(literal: map<string, seq<nat>>, entries: seq<Entry>, n: nat)
    requires n < |entries| && ListsNames(literal, entries, n, entries[n].hosts)
    ensures ListsNames(literal, entries, n + 1, [])
  {
    forall name ensures ListsName(LinesOf(literal, name), name, entries, n + 1, []) {
      assert ListsName(LinesOf(literal, name), name, entries, n, entries[n].hosts);
    }
  }

  method MakeIndex(entries: seq<Entry>) returns (x: Index)
    ensures IndexOf(x, entries)
  {
    var literal: map<string, seq<nat>> := map[];
    var other: seq<nat> := [];
    for i := 0 to |entries|
      invariant ListsOther(other, entries, i)
      invariant ListsNames(literal, entries, i, [])
    {
      var plain;
      literal, plain := IndexLine(literal, entries, i, entries[i].hosts);
      NextLine(literal, entries, i);
      if !plain {
        assert forall k :: 0 <= k < |other| ==> other[k] in other;
        other := other + [i];
      }
    }
    x := Index(entries, literal, other);
  }

  /** `candidates`: the two ascending lists merged, each line once. */
  method Candidates(x: Index, host: string) returns (out: seq<nat>)
    requires Ascending(NamedLines(x, ToLower(host))) && Ascending(x.other)
    ensures Ascending(out)
    ensures forall i :: i in out <==> i in NamedLines(x, ToLower(host)) || i in x.other
  {
    var named, other := NamedLines(x, ToLower(host)), x.other;
    out := [];
    var i, j := 0, 0;
    while i < |named| || j < |other|
      invariant 0 <= i <= |named| && 0 <= j <= |other|
      invariant Ascending(out)
      invariant forall a, k :: a in out && i <= k < |named| ==> a < named[k]
      invariant forall a, k :: a in out && j <= k < |other| ==> a < other[k]
      invariant forall a :: a in out <==> a in named[..i] || a in other[..j]
      decreases |named| - i + |other| - j
    {
      assert forall k :: 0 <= k < |out| ==> out[k] in out;
      assert i < |named| ==> named[..i + 1] == named[..i] + [named[i]];
      assert j < |other| ==> other[..j + 1] == other[..j] + [other[j]];
      if j == |other| || (i < |named| && named[i] < other[j]) {
        out := out + [named[i]];
        i := i + 1;
      } else if i == |named| || other[j] < named[i] {
        out := out + [other[j]];
        j := j + 1;
      } else {
        out := out + [named[i]];
        i, j := i + 1, j + 1;
      }
    }
    assert named[..|named|] == named && other[..|other|] == other;
  }

  /** A line that covers a host spells it or has to be read for every host. */
  lemma {:induction false} CoveringLineIsCandidate(hash: HashMatch, e: Entry, host: string)
    requires Covers(hash, e.hosts, host)
    ensures Spells(e.hosts, ToLower(host)) || !AllPlain(e)
  {
    var p :| p in e.hosts && !Negated(p) && PatternMatches(hash, p, ToLower(host));
    if Plain(p) {
      LowerKeepsWildcards(p);
      GlobLiteral(ToLower(p), ToLower(host));
    }
  }

  lemma {:induction false} CandidatesCover(hash: HashMatch, x: Index, host: string, i: nat)
    requires IndexOf(x, x.entries) && i < |x.entries| && Covers(hash, x.entries[i].hosts, host)
    ensures i in NamedLines(x, ToLower(host)) || i in x.other
  {
    CoveringLineIsCandidate(hash, x.entries[i], host);
    assert ListsName(NamedLines(x, ToLower(host)), ToLower(host), x.entries, |x.entries|, []);
  }

  lemma {:induction false} SkipLines(hash: HashMatch, entries: seq<Entry>, host: string, a: nat, b: nat)
    requires a <= b <= |entries|
    requires forall i :: a <= i < b ==> !KeyFor(hash, entries[i], host)
    ensures KeysFor(hash, entries[..b], host) == KeysFor(hash, entries[..a], host)
    decreases b - a
  {
    if a < b {
      assert entries[..b][..b - 1] == entries[..b - 1];
      SkipLines(hash, entries, host, a, b - 1);
    }
  }

  /** Lines are listed up to but not including line `upto`. */
  ghost predicate ReadUpTo(lines: seq<nat>, n: nat, upto: nat)
    requires n <= |lines|
  {
    && (forall k :: 0 <= k < n ==> lines[k] < upto)
    && (forall k :: n <= k < |lines| ==> upto <= lines[k])
  }

  /** What of the file was answered once the lines before `upto` were read. */
  ghost predicate Answered(hash: HashMatch, x: Index, host: string, lines: seq<nat>, n: nat, upto: nat, out: seq<Entry>)
    requires n <= |lines|
  {
    && upto <= |x.entries|
    && ReadUpTo(lines, n, upto)
    && out == KeysFor(hash, x.entries[..upto], host)
  }

  /** The lines that may cover a host, each once and in order. */
  ghost predicate AreCandidates(x: Index, host: string, lines: seq<nat>) {
    && Ascending(lines)
    && forall i: nat :: i in lines <==> i in NamedLines(x, ToLower(host)) || i in x.other
  }

  lemma {:induction false} SkipToNext(hash: HashMatch, x: Index, host: string, lines: seq<nat>, n: nat, upto: nat, next: nat)
    requires IndexOf(x, x.entries) && AreCandidates(x, host, lines)
    requires n <= |lines| && ReadUpTo(lines, n, upto) && upto <= |x.entries|
    requires if n < |lines| then next == lines[n] else next == |x.entries|
    ensures upto <= next <= |x.entries|
    ensures KeysFor(hash, x.entries[..next], host) == KeysFor(hash, x.entries[..upto], host)
  {
    assert ListsName(NamedLines(x, ToLower(host)), ToLower(host), x.entries, |x.entries|, []);
    if n < |lines| {
      assert lines[n] in lines;
    }
    forall j | upto <= j < next ensures !KeyFor(hash, x.entries[j], host) {
      assert j !in lines;
      if KeyFor(hash, x.entries[j], host) {
        CandidatesCover(hash, x, host, j);
      }
    }
    SkipLines(hash, x.entries, host, upto, next);
  }

  /** `Index.Find` answers what `File.Find` answers, in the same order. */
  method Find(hash: HashMatch, x: Index, host: string) returns (out: seq<Entry>)
    requires IndexOf(x, x.entries)
    ensures out == KeysFor(hash, x.entries, host)
    ensures Filters(x.entries, out, HoldsKeyOf(hash, host))
  {
    assert ListsName(NamedLines(x, ToLower(host)), ToLower(host), x.entries, |x.entries|, []);
    var lines := Candidates(x, host);
    out := [];
    ghost var upto: nat := 0;
    for n := 0 to |lines|
      invariant Answered(hash, x, host, lines, n, upto, out)
    {
      var i := lines[n];
      assert i in lines;
      SkipToNext(hash, x, host, lines, n, upto, i);
      var e := x.entries[i];
      assert x.entries[..i + 1][..i] == x.entries[..i];
      assert KeysFor(hash, x.entries[..i + 1], host) == out + if KeyFor(hash, e, host) then [e] else [];
      if e.IsHostKey() {
        var hit := Matches(hash, e.hosts, host);
        if hit {
          out := out + [e];
        }
      }
      upto := i + 1;
    }
    SkipToNext(hash, x, host, lines, |lines|, upto, |x.entries|);
    assert x.entries[..|x.entries|] == x.entries;
    KeysForAre(hash, x.entries, host);
  }

  /** `Index.Revoked` answers what `File.Revoked` answers. */
  method Revoked(hash: HashMatch, x: Index, host: string, key: string) returns (r: bool)
    requires IndexOf(x, x.entries)
    ensures r <==> exists e :: e in x.entries && e.marker == "@revoked" && e.key == key && Covers(hash, e.hosts, host)
  {
    assert ListsName(NamedLines(x, ToLower(host)), ToLower(host), x.entries, |x.entries|, []);
    var lines := Candidates(x, host);
    assert forall n :: 0 <= n < |lines| ==> lines[n] in lines;
    for n := 0 to |lines|
      invariant forall k :: 0 <= k < n ==> !RevokedFor(hash, x.entries[lines[k]], host, key)
    {
      var e := x.entries[lines[n]];
      if e.marker == REVOKED && e.key == key {
        var hit := Matches(hash, e.hosts, host);
        if hit {
          return true;
        }
      }
    }
    forall i | 0 <= i < |x.entries| && RevokedFor(hash, x.entries[i], host, key) ensures false {
      CandidatesCover(hash, x, host, i);
    }
    return false;
  }
}
