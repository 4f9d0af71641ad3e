/** Host name patterns of a known_hosts line (internal/hostkeys/hostkeys.go):
    the wildcard matcher, and what it means for a pattern to cover or to
    name a host. */
module Patterns {
  import opened Text

  /** What comparing a hashed name with a host answers; the HMAC itself is
      not modelled. */
  type HashMatch = (string, string) -> bool

  const HASH_PREFIX := "|1|"

  // ----- declarative wildcard matching -----

  /** Whether a piece of the name is one that a pattern character stands for. */
  predicate PieceMatches(c: char, piece: string) {
    c == '*' || (if c == '?' then |piece| == 1 else piece == [c])
  }

  ghost predicate Cuts(pattern: string, s: string, pieces: seq<string>) {
    && |pieces| == |pattern|
    && Concat(pieces) == s
    && forall i :: 0 <= i < |pattern| ==> PieceMatches(pattern[i], pieces[i])
  }

  /** The name can be cut into one piece for each character of the pattern,
      as PATTERNS of ssh_config(5) has it. */
  ghost predicate Glob(pattern: string, s: string) {
    exists pieces :: Cuts(pattern, s, pieces)
  }

  lemma {:induction false} GlobEmpty(s: string)
    ensures Glob("", s) <==> s == ""
  {
    assert s == "" ==> Cuts("", s, []);
  }

  lemma {:induction false} CutsTail(pattern: string, s: string, pieces: seq<string>)
    requires pattern != "" && Cuts(pattern, s, pieces)
    ensures PieceMatches(pattern[0], pieces[0])
    ensures |pieces[0]| <= |s| && pieces[0] == s[..|pieces[0]|]
    ensures Cuts(pattern[1..], s[|pieces[0]|..], pieces[1..])
  {
  }

  lemma {:induction false} CutsCons(pattern: string, s: string, n: nat, tail: seq<string>)
    requires pattern != "" && n <= |s| && PieceMatches(pattern[0], s[..n])
    requires Cuts(pattern[1..], s[n..], tail)
    ensures Glob(pattern, s)
  {
    var pieces := [s[..n]] + tail;
    assert pieces[1..] == tail;
    assert Concat(pieces) == s[..n] + s[n..] == s;
    forall i | 0 <= i < |pattern| ensures PieceMatches(pattern[i], pieces[i]) {
      if i > 0 {
        assert pattern[i] == pattern[1..][i - 1];
      }
    }
    assert Cuts(pattern, s, pieces);
  }

  /** A leading `*` takes some beginning of the name. */
  lemma {:induction false} GlobStar(pattern: string, s: string)
    requires pattern != "" && pattern[0] == '*'
    ensures Glob(pattern, s) <==> exists i :: 0 <= i <= |s| && Glob(pattern[1..], s[i..])
  {
    if Glob(pattern, s) {
      var pieces :| Cuts(pattern, s, pieces);
      CutsTail(pattern, s, pieces);
      assert Glob(pattern[1..], s[|pieces[0]|..]);
    }
    if i :| 0 <= i <= |s| && Glob(pattern[1..], s[i..]) {
      var tail :| Cuts(pattern[1..], s[i..], tail);
      CutsCons(pattern, s, i, tail);
    }
  }

  /** Any other leading character takes exactly one. */
  lemma {:induction false} GlobChar(pattern: string, s: string)
    requires pattern != "" && pattern[0] != '*'
    ensures Glob(pattern, s) <==>
            s != "" && (pattern[0] == '?' || pattern[0] == s[0]) && Glob(pattern[1..], s[1..])
  {
    if Glob(pattern, s) {
      var pieces :| Cuts(pattern, s, pieces);
      CutsTail(pattern, s, pieces);
      assert Glob(pattern[1..], s[1..]);
    }
    if s != "" && (pattern[0] == '?' || pattern[0] == s[0]) && Glob(pattern[1..], s[1..]) {
      var tail :| Cuts(pattern[1..], s[1..], tail);
      CutsCons(pattern, s, 1, tail);
    }
  }

  /** A second star adds nothing to the first. */
  lemma {:induction false} GlobTwoStars(pattern: string, s: string)
    requires |pattern| >= 2 && pattern[0] == pattern[1] == '*'
    ensures Glob(pattern, s) <==> Glob(pattern[1..], s)
  {
    GlobStar(pattern, s);
    GlobStar(pattern[1..], s);
    forall i | 0 <= i <= |s| && Glob(pattern[1..], s[i..])
      ensures Glob(pattern[1..], s)
    {
      GlobStar(pattern[1..], s[i..]);
      var j :| 0 <= j <= |s[i..]| && Glob(pattern[1..][1..], s[i..][j..]);
      assert s[i..][j..] == s[i + j..];
    }
    assert s[0..] == s;
  }

  lemma {:induction false} GlobLoneStar(s: string)
    ensures Glob("*", s)
  {
    GlobEmpty(s[|s|..]);
    assert "*"[1..] == "";
    assert Glob("*"[1..], s[|s|..]);
    GlobStar("*", s);
  }

  /** Without wildcards the pattern covers itself alone. */
  lemma {:induction false} GlobLiteral(pattern: string, s: string)
    requires !ContainsAny(pattern, {'*', '?'})
    ensures Glob(pattern, s) <==> pattern == s
  {
    if pattern == "" {
      GlobEmpty(s);
    } else {
      assert pattern[0] !in {'*', '?'};
      GlobChar(pattern, s);
      if s != "" {
        assert forall i :: 0 <= i < |pattern[1..]| ==> pattern[1..][i] == pattern[i + 1];
        GlobLiteral(pattern[1..], s[1..]);
        assert pattern == [pattern[0]] + pattern[1..] && s == [s[0]] + s[1..];
      }
    }
  }

  /** The backtracking matcher decides declarative matching. */
  method MatchWildcard(pattern: string, s: string) returns (r: bool)
    ensures r == Glob(pattern, s)
    decreases |pattern|
  {
    var p, t := pattern, s;
    while p != ""
      invariant |p| <= |pattern|
      invariant Glob(p, t) == Glob(pattern, s)
      decreases |p|
    {
      if p[0] == '*' {
        while |p| >= 2 && p[1] == '*'
          invariant 1 <= |p| <= |pattern| && p[0] == '*'
          invariant Glob(p, t) == Glob(pattern, s)
          decreases |p|
        {
          GlobTwoStars(p, t);
          p := p[1..];
        }
        GlobStar(p, t);
        if |p| == 1 {
          GlobLoneStar(t);
          assert p == "*";
          return true;
        }
        var i := 0;
        while i <= |t|
          invariant 0 <= i <= |t| + 1
          invariant forall j :: 0 <= j < i ==> !Glob(p[1..], t[j..])
        {
          var found := MatchWildcard(p[1..], t[i..]);
          if found {
            return true;
          }
          i := i + 1;
        }
        return false;
      }
      GlobChar(p, t);
      if t == "" || (p[0] != '?' && t[0] != p[0]) {
        return false;
      }
      p, t := p[1..], t[1..];
    }
    GlobEmpty(t);
    return t == "";
  }

  // ----- covering and naming -----

  predicate Negated(pattern: string) {
    "!" <= pattern
  }

  function TrimNegation(pattern: string): string {
    if Negated(pattern) then pattern[1..] else pattern
  }

  predicate Hashed(pattern: string) {
    HASH_PREFIX <= pattern
  }

  predicate HasWildcard(pattern: string) {
    ContainsAny(pattern, {'*', '?'})
  }

  /** A pattern compared with a lowered host name. */
  ghost predicate PatternMatches(hash: HashMatch, pattern: string, host: string) {
    if Hashed(pattern) then hash(pattern, host) else Glob(ToLower(pattern), host)
  }

  /** Some pattern covers the host and no negated one does. */
  ghost predicate Covers(hash: HashMatch, patterns: seq<string>, host: string) {
    && (exists p :: p in patterns && !Negated(p) && PatternMatches(hash, p, ToLower(host)))
    && (forall p :: p in patterns && Negated(p) ==> !PatternMatches(hash, TrimNegation(p), ToLower(host)))
  }

  /** The pattern names exactly this host: literally, in any case, or by its
      hash, but not through a wildcard. */
  predicate Names(hash: HashMatch, pattern: string, host: string) {
    && !Negated(pattern)
    && !HasWildcard(pattern)
    && if Hashed(pattern) then hash(pattern, ToLower(host)) else ToLower(pattern) == ToLower(host)
  }

  lemma {:induction false} LowerKeepsWildcards(s: string)
    ensures HasWildcard(ToLower(s)) <==> HasWildcard(s)
  {
    LowerKeepsOthers(s, '*');
    LowerKeepsOthers(s, '?');
  }

  /** Naming is matching by a pattern that is neither negated nor a wildcard. */
  lemma {:induction false} NamesIsLiteralMatch(hash: HashMatch, pattern: string, host: string)
    ensures Names(hash, pattern, host) <==>
            !Negated(pattern) && !HasWildcard(pattern) && PatternMatches(hash, pattern, ToLower(host))
  {
    LowerKeepsWildcards(pattern);
    if !HasWildcard(pattern) {
      GlobLiteral(ToLower(pattern), ToLower(host));
    }
  }

  method MatchPattern(hash: HashMatch, pattern: string, host: string) returns (r: bool)
    ensures r == PatternMatches(hash, pattern, host)
  {
    if Hashed(pattern) {
      return hash(pattern, host);
    }
    r := MatchWildcard(ToLower(pattern), host);
  }

  method NamesHost(hash: HashMatch, pattern: string, host: string) returns (r: bool)
    ensures r == Names(hash, pattern, host)
  {
    NamesIsLiteralMatch(hash, pattern, host);
    if Negated(pattern) || HasWildcard(pattern) {
      return false;
    }
    r := MatchPattern(hash, pattern, ToLower(host));
  }

  /** `Entry.Matches`: the loop over a line's patterns. */
  method Matches(hash: HashMatch, patterns: seq<string>, host: string) returns (r: bool)
    ensures r == Covers(hash, patterns, host)
  {
    var lower := ToLower(host);
    r := false;
    for i := 0 to |patterns|
      invariant r <==> exists k :: 0 <= k < i && !Negated(patterns[k]) && PatternMatches(hash, patterns[k], lower)
      invariant forall k :: 0 <= k < i && Negated(patterns[k]) ==>
                              !PatternMatches(hash, TrimNegation(patterns[k]), lower)
    {
      var hit := MatchPattern(hash, TrimNegation(patterns[i]), lower);
      if hit {
        if Negated(patterns[i]) {
          return false;
        }
        r := true;
      }
    }
  }
}
