/** Every group of a source as one expression: each group's own expression, or a
    reference to the group where joining it would change what it means
    (internal/groups/groups.go). */
module GroupUnion {
  import opened Options
  import opened Text

  // ----- how an expression is evaluated: from left to right -----

  datatype Op = Union | Minus | And | Xor

  function OpOf(c: char): Option<Op> {
    if c == ',' then Some(Union)
    else if c == '!' then Some(Minus)
    else if c == '&' then Some(And)
    else if c == '^' then Some(Xor)
    else None
  }

  predicate Separates(c: char) {
    OpOf(c).Some? || c in {' ', '\t', '\n', '\r'}
  }

  /** Nodes, or no answer. */
  type Nodes = Option<set<string>>

  function Applied(op: Op, a: Nodes, b: Nodes): Nodes {
    if a.None? || b.None? then None
    else
      Some(match op
           case Union => a.value + b.value
           case Minus => a.value - b.value
           case And => a.value * b.value
           case Xor => (a.value - b.value) + (b.value - a.value))
  }

  /** What a group reference answers, and what any other term stands for. */
  datatype World = World(lookup: (string, string) -> Nodes, range: string -> Nodes)

  /** unicode.IsSpace. */
  predicate UnicodeSpace(c: char) {
    || IsSpace(c) || c in {'\U{0085}', '\U{00A0}', '\U{1680}', '\U{2028}', '\U{2029}', '\U{202F}', '\U{205F}', '\U{3000}'}
    || '\U{2000}' <= c <= '\U{200A}'
  }

  function TrimFront(s: string): string {
    if s != "" && UnicodeSpace(s[0]) then TrimFront(s[1..]) else s
  }

  function TrimBack(s: string): string {
    if s != "" && UnicodeSpace(s[|s| - 1]) then TrimBack(s[..|s| - 1]) else s
  }

  /** The group a term refers to, if it is a reference. */
  function Reference(term: string): Option<(string, string)> {
    if term == "" || term[0] != '@' then None
    else match Cut(term[1..], ':')
      case None => Some(("", term[1..]))
      case Some((source, group)) => Some((source, group))
  }

  function TermValue(w: World, term: string): Nodes {
    var t := TrimBack(TrimFront(term));
    match Reference(t)
    case Some((source, group)) => w.lookup(source, group)
    case None => w.range(t)
  }

  /** Where the evaluation stands: how deep in brackets, the term being read, the
      operator before it, and the value of what is before that. */
  datatype Reading = Reading(depth: int, term: string, op: Op, value: Nodes)

  function Closed(w: World, r: Reading): Reading {
    if r.term == "" then r
    else Reading(r.depth, "", Union, Applied(r.op, r.value, TermValue(w, r.term)))
  }

  function Read(w: World, r: Reading, c: char): Reading {
    if c == '[' then r.(depth := r.depth + 1, term := r.term + [c])
    else if c == ']' then r.(depth := r.depth - 1, term := r.term + [c])
    else if r.depth > 0 || !Separates(c) then r.(term := r.term + [c])
    else if OpOf(c).Some? then Closed(w, r).(op := OpOf(c).value)
    else Closed(w, r)
  }

  function ReadAll(w: World, r: Reading, s: string): Reading
    decreases |s|
  {
    if s == "" then r else ReadAll(w, Read(w, r, s[0]), s[1..])
  }

  const START := Reading(0, "", Union, Some({}))

  function Eval(w: World, s: string): Nodes {
    Closed(w, ReadAll(w, START, s)).value
  }

  // ----- unionOperand -----

  const OPERATORS: set<char> := {'!', '&', '^'}

  predicate HasOperator(s: string) {
    exists i :: 0 <= i < |s| && s[i] in OPERATORS
  }

  /** How many more brackets open than close. */
  function Depth(s: string): int {
    if s == "" then 0
    else
      var c := s[|s| - 1];
      Depth(s[..|s| - 1]) + if c == '[' then 1 else if c == ']' then -1 else 0
  }

  predicate IsBalanced(s: string) {
    Depth(s) == 0 && forall n :: 0 <= n <= |s| ==> Depth(s[..n]) >= 0
  }

  /** `balanced`. */
  method Balanced(expr: string) returns (b: bool)
    ensures b == IsBalanced(expr)
  {
    var depth := 0;
    for i := 0 to |expr|
      invariant depth == Depth(expr[..i])
      invariant forall n :: 0 <= n <= i ==> Depth(expr[..n]) >= 0
    {
      assert expr[..i + 1][..i] == expr[..i];
      if expr[i] == '[' {
        depth := depth + 1;
      } else if expr[i] == ']' {
        depth := depth - 1;
        if depth < 0 {
          assert Depth(expr[..i + 1]) < 0;
          return false;
        }
      }
    }
    assert expr[..|expr|] == expr;
    return depth == 0;
  }

  /** `referable`. */
  predicate Referable(name: string) {
    forall i :: 0 <= i < |name| ==> !UnicodeSpace(name[i]) && name[i] !in {',', '!', '&', '^', '[', ']'}
  }

  predicate Named(source: string, group: string) {
    group != "" && group != "*" && Referable(group) && Referable(source) && ':' !in source
  }

  function RefTo(source: string, group: string): string {
    "@" + source + ":" + group
  }

  /** A group as an operand of the union, or nothing when it is refused. */
  function Operand(source: string, group: string, expr: string): Option<string> {
    if !HasOperator(expr) && IsBalanced(expr) then Some(expr)
    else if Named(source, group) then Some(RefTo(source, group))
    else None
  }

  /** `unionOperand`. */
  method UnionOperand(source: string, group: string, expr: string) returns (operand: Option<string>)
    ensures operand == Operand(source, group, expr)
  {
    var balanced := Balanced(expr);
    if !HasOperator(expr) && balanced {
      return Some(expr);
    }
    if group == "" || group == "*" || !Referable(group) || !Referable(source) || ':' in source {
      return None;
    }
    return Some("@" + source + ":" + group);
  }

  predicate IsJoined(source: string, names: seq<string>, exprs: seq<string>, parts: seq<string>)
    requires |names| == |exprs|
  {
    |parts| == |names| && forall i :: 0 <= i < |names| ==> Operand(source, names[i], exprs[i]) == Some(parts[i])
  }

  // ----- what the union means -----

  lemma {:induction false} ReadAllAppend(w: World, r: Reading, a: string, b: string)
    ensures ReadAll(w, r, a + b) == ReadAll(w, ReadAll(w, r, a), b)
    decreases |a|
  {
    if a == "" {
      assert a + b == b;
    } else {
      assert (a + b)[1..] == a[1..] + b;
      ReadAllAppend(w, Read(w, r, a[0]), a[1..], b);
    }
  }

  /** An expression that can stand in a union: no operator but the union's, and
      every bracket closed. */
  predicate Joinable(s: string) {
    !HasOperator(s) && Depth(s) == 0
  }

  /** Reading the same text after some value, and from the start. */
  predicate Alike(before: Nodes, p: Reading, q: Reading) {
    && p.depth == q.depth && p.term == q.term && p.op == q.op == Union
    && q.value == Applied(Union, before, p.value)
  }

  lemma {:induction false} UnionAssoc(a: Nodes, b: Nodes, c: Nodes)
    ensures Applied(Union, Applied(Union, a, b), c) == Applied(Union, a, Applied(Union, b, c))
  {
    if a.Some? && b.Some? && c.Some? {
      assert a.value + b.value + c.value == a.value + (b.value + c.value);
    }
  }

  lemma {:induction false} ClosedAlike(w: World, before: Nodes, p: Reading, q: Reading)
    requires Alike(before, p, q)
    ensures Alike(before, Closed(w, p), Closed(w, q))
  {
    UnionAssoc(before, p.value, TermValue(w, p.term));
  }

  lemma {:induction false} ReadAlike(w: World, before: Nodes, p: Reading, q: Reading, s: string)
    requires Alike(before, p, q) && !HasOperator(s)
    ensures Alike(before, ReadAll(w, p, s), ReadAll(w, q, s))
    decreases |s|
  {
    if s != "" {
      ClosedAlike(w, before, p, q);
      assert s[0] !in OPERATORS && OpOf(s[0]) in {None, Some(Union)};
      assert forall i :: 0 <= i < |s[1..]| ==> s[1..][i] == s[i + 1];
      ReadAlike(w, before, Read(w, p, s[0]), Read(w, q, s[0]), s[1..]);
    }
  }

  lemma {:induction false} DepthFront(c: char, s: string)
    ensures Depth([c] + s) == (if c == '[' then 1 else if c == ']' then -1 else 0) + Depth(s)
  {
    if s == "" {
      assert [c] + s == [c] && [c][..0] == "";
    } else {
      assert ([c] + s)[..|s|] == [c] + s[..|s| - 1];
      DepthFront(c, s[..|s| - 1]);
    }
  }

  lemma {:induction false} ReadDepth(w: World, r: Reading, s: string)
    ensures ReadAll(w, r, s).depth == r.depth + Depth(s)
    decreases |s|
  {
    if s != "" {
      DepthFront(s[0], s[1..]);
      assert [s[0]] + s[1..] == s;
      ReadDepth(w, Read(w, r, s[0]), s[1..]);
    }
  }

  /** Where one operand ends and the next begins. */
  predicate Between(r: Reading) {
    r.depth == 0 && r.term == "" && r.op == Union
  }

  lemma {:induction false} PlusEmpty(a: Nodes)
    ensures Applied(Union, a, Some({})) == a && Applied(Union, Some({}), a) == a
  {
    if a.Some? {
      assert a.value + {} == a.value && {} + a.value == a.value;
    }
  }

  lemma {:induction false} ReadOperand(w: World, r: Reading, s: string)
    requires Between(r) && Joinable(s)
    ensures Between(Closed(w, ReadAll(w, r, s)))
    ensures Closed(w, ReadAll(w, r, s)).value == Applied(Union, r.value, Eval(w, s))
  {
    PlusEmpty(r.value);
    ReadAlike(w, r.value, START, r, s);
    ClosedAlike(w, r.value, ReadAll(w, START, s), ReadAll(w, r, s));
    ReadDepth(w, r, s);
  }

  function AllOf(w: World, parts: seq<string>): Nodes {
    if parts == [] then Some({}) else Applied(Union, Eval(w, parts[0]), AllOf(w, parts[1..]))
  }

  /** Operands that can stand in a union, joined, are the union of what each is on
      its own. */
  lemma {:induction false} JoinedIsUnion(w: World, r: Reading, parts: seq<string>)
    requires Between(r) && forall p :: p in parts ==> Joinable(p)
    ensures Closed(w, ReadAll(w, r, Join(parts, ","))).value == Applied(Union, r.value, AllOf(w, parts))
    decreases |parts|
  {
    PlusEmpty(r.value);
    if parts != [] {
      var p, rest := parts[0], parts[1..];
      assert p in parts;
      ReadOperand(w, r, p);
      if |parts| == 1 {
        PlusEmpty(Eval(w, p));
      } else {
        var next := Closed(w, ReadAll(w, r, p));
        ReadAllAppend(w, r, p, "," + Join(rest, ","));
        Assoc(p, ",", Join(rest, ","));
        ReadDepth(w, r, p);
        assert ("," + Join(rest, ","))[1..] == Join(rest, ",");
        JoinedIsUnion(w, next, rest);
        UnionAssoc(r.value, Eval(w, p), AllOf(w, rest));
      }
    }
  }

  // ----- references -----

  lemma {:induction false} NoSeparator(s: string, i: nat)
    requires i <= |s| && forall k :: 0 <= k < |s| ==> !Separates(s[k]) && s[k] != '[' && s[k] != ']'
    ensures Depth(s[..i]) == 0
  {
    if i > 0 {
      assert s[..i][..i - 1] == s[..i - 1];
      NoSeparator(s, i - 1);
    }
  }

  lemma {:induction false} ReadPlain(w: World, r: Reading, s: string)
    requires forall k :: 0 <= k < |s| ==> !Separates(s[k]) && s[k] != '[' && s[k] != ']'
    ensures ReadAll(w, r, s) == r.(term := r.term + s)
    decreases |s|
  {
    if s == "" {
      assert r.term + s == r.term;
    } else {
      ReadPlain(w, Read(w, r, s[0]), s[1..]);
      Assoc(r.term, [s[0]], s[1..]);
      assert [s[0]] + s[1..] == s;
    }
  }

  predicate PlainChar(c: char) {
    !Separates(c) && c != '[' && c != ']' && !UnicodeSpace(c)
  }

  lemma {:induction false} RefIsPlain(source: string, group: string, k: nat)
    requires Named(source, group) && k < |RefTo(source, group)|
    ensures PlainChar(RefTo(source, group)[k])
    ensures RefTo(source, group)[k] !in OPERATORS
  {
    var s := RefTo(source, group);
    if k == 0 {
      assert s[k] == '@';
    } else if k <= |source| {
      assert s[k] == source[k - 1];
    } else if k == |source| + 1 {
      assert s[k] == ':';
    } else {
      assert s[k] == group[k - |source| - 2];
    }
  }

  lemma {:induction false} EvalPlain(w: World, s: string)
    requires s != "" && forall k :: 0 <= k < |s| ==> PlainChar(s[k])
    ensures Depth(s) == 0
    ensures Eval(w, s) == TermValue(w, s) && TrimBack(TrimFront(s)) == s
  {
    NoSeparator(s, |s|);
    assert s[..|s|] == s;
    ReadPlain(w, START, s);
    assert "" + s == s;
    PlusEmpty(TermValue(w, s));
  }

  /** A reference to a group that is not refused stands for that group alone. */
  lemma {:induction false} RefReadsBack(w: World, source: string, group: string)
    requires Named(source, group)
    ensures Reference(RefTo(source, group)) == Some((source, group))
    ensures Joinable(RefTo(source, group))
    ensures Eval(w, RefTo(source, group)) == w.lookup(source, group)
  {
    var s := RefTo(source, group);
    assert s[1..] == source + [':'] + group;
    CutAt(source, ':', group);
    forall k | 0 <= k < |s| ensures PlainChar(s[k]) && s[k] !in OPERATORS {
      RefIsPlain(source, group, k);
    }
    EvalPlain(w, s);
  }

  // ----- the main results -----

  lemma {:induction false} OperandMeans(w: World, source: string, group: string, expr: string, operand: string)
    requires Operand(source, group, expr) == Some(operand)
    requires w.lookup(source, group) == Eval(w, expr)
    ensures Joinable(operand) && Eval(w, operand) == Eval(w, expr)
  {
    if HasOperator(expr) || !IsBalanced(expr) {
      RefReadsBack(w, source, group);
    }
  }

  /** A reference to a group of the source is what the group's expression is. */
  ghost predicate KnowsGroups(w: World, source: string, names: seq<string>, exprs: seq<string>)
    requires |names| == |exprs|
  {
    forall i :: 0 <= i < |names| ==> w.lookup(source, names[i]) == Eval(w, exprs[i])
  }

  /** The join of the operands is the union of the groups, each evaluated on its
      own, whatever operators and brackets their expressions hold: provided that a
      reference to a group of the source is what the group's expression is. */
  lemma {:induction false} UnionOfGroups(w: World, source: string, names: seq<string>, exprs: seq<string>, parts: seq<string>)
    requires |names| == |exprs| && IsJoined(source, names, exprs, parts)
    requires KnowsGroups(w, source, names, exprs)
    ensures Eval(w, Join(parts, ",")) == AllOf(w, exprs)
  {
    forall p | p in parts ensures Joinable(p) {
      var i :| 0 <= i < |parts| && parts[i] == p;
      OperandMeans(w, source, names[i], exprs[i], p);
    }
    JoinedIsUnion(w, START, parts);
    PlusEmpty(AllOf(w, parts));
    SameMeaning(w, source, names, exprs, parts);
  }

  lemma {:induction false} SameMeaning(w: World, source: string, names: seq<string>, exprs: seq<string>, parts: seq<string>)
    requires |names| == |exprs| && IsJoined(source, names, exprs, parts)
    requires KnowsGroups(w, source, names, exprs)
    ensures AllOf(w, parts) == AllOf(w, exprs)
    decreases |names|
  {
    if names != [] {
      OperandMeans(w, source, names[0], exprs[0], parts[0]);
      SameMeaning(w, source, names[1..], exprs[1..], parts[1..]);
    }
  }

  /** Some group cannot stand in a union: its expression has an operator or an open
      bracket, and its name cannot be referred to. */
  predicate SomeRefused(source: string, names: seq<string>, exprs: seq<string>)
    requires |names| == |exprs|
  {
    exists i :: 0 <= i < |names| && (HasOperator(exprs[i]) || !IsBalanced(exprs[i])) && !Named(source, names[i])
  }

  /** `union`, given the expression of each group: one expression that is, wherever
      the groups are known, the union of them all; and none when a group cannot stand
      in it. */
  method JoinGroups(source: string, names: seq<string>, exprs: seq<string>) returns (joined: Option<string>)
    requires |names| == |exprs|
    ensures joined.None? <==> SomeRefused(source, names, exprs)
    ensures joined.Some? ==>
              forall w: World :: KnowsGroups(w, source, names, exprs) ==> Eval(w, joined.value) == AllOf(w, exprs)
  {
    var parts := [];
    for i := 0 to |names|
      invariant |parts| == i
      invariant forall k :: 0 <= k < i ==> Operand(source, names[k], exprs[k]) == Some(parts[k])
    {
      var part := UnionOperand(source, names[i], exprs[i]);
      if part.None? {
        return None;
      }
      parts := parts + [part.value];
    }
    assert IsJoined(source, names, exprs, parts);
    forall w: World | KnowsGroups(w, source, names, exprs) ensures Eval(w, Join(parts, ",")) == AllOf(w, exprs) {
      UnionOfGroups(w, source, names, exprs, parts);
    }
    return Some(Join(parts, ","));
  }

  /** What all the groups come to: the nodes of every group, and no answer when a
      group has none. */
  lemma {:induction false} AllOfIs(w: World, exprs: seq<string>)
    ensures AllOf(w, exprs).Some? <==> forall i :: 0 <= i < |exprs| ==> Eval(w, exprs[i]).Some?
    ensures AllOf(w, exprs).Some? ==> forall n :: n in AllOf(w, exprs).value <==>
                                              exists i :: 0 <= i < |exprs| && Eval(w, exprs[i]).Some? && n in Eval(w, exprs[i]).value
  {
    if exprs != [] {
      var rest := exprs[1..];
      AllOfIs(w, rest);
      assert forall i :: 0 <= i < |rest| ==> rest[i] == exprs[i + 1];
      if forall i :: 0 <= i < |rest| ==> Eval(w, rest[i]).Some? {
        forall i | 0 < i < |exprs| ensures Eval(w, exprs[0]).Some? ==> Eval(w, exprs[i]).Some? {
          assert exprs[i] == rest[i - 1];
        }
        if AllOf(w, exprs).Some? {
          MembersOf(w, exprs);
        }
      }
    }
  }

  lemma {:induction false} MembersOf(w: World, exprs: seq<string>)
    requires exprs != [] && AllOf(w, exprs).Some? && AllOf(w, exprs[1..]).Some?
    requires forall n :: n in AllOf(w, exprs[1..]).value <==>
                           exists i :: 0 <= i < |exprs[1..]| && Eval(w, exprs[1..][i]).Some? && n in Eval(w, exprs[1..][i]).value
    ensures forall n :: n in AllOf(w, exprs).value <==>
                          exists i :: 0 <= i < |exprs| && Eval(w, exprs[i]).Some? && n in Eval(w, exprs[i]).value
  {
    var rest := exprs[1..];
    forall n
      ensures n in AllOf(w, exprs).value <==> exists i :: 0 <= i < |exprs| && Eval(w, exprs[i]).Some? && n in Eval(w, exprs[i]).value
    {
      if i :| 0 <= i < |rest| && Eval(w, rest[i]).Some? && n in Eval(w, rest[i]).value {
        assert exprs[i + 1] == rest[i];
      }
      if i :| 0 < i < |exprs| && Eval(w, exprs[i]).Some? && n in Eval(w, exprs[i]).value {
        assert exprs[i] == rest[i - 1];
      }
    }
  }

  predicate PlainTerm(s: string) {
    s != "" && forall k :: 0 <= k < |s| ==> PlainChar(s[k])
  }

  /** One term, and the operator before it. */
  lemma {:induction false} ReadTerm(w: World, op: Op, before: Nodes, x: string)
    requires PlainTerm(x)
    ensures ReadAll(w, Reading(0, "", op, before), x) == Reading(0, x, op, before)
    ensures Closed(w, Reading(0, x, op, before)) == Reading(0, "", Union, Applied(op, before, TermValue(w, x)))
  {
    ReadPlain(w, Reading(0, "", op, before), x);
    assert "" + x == x;
  }

  lemma {:induction false} ReadOperator(w: World, r: Reading, x: string, c: char, op: Op, y: string)
    requires Between(r) && PlainTerm(x) && PlainTerm(y) && OpOf(c) == Some(op)
    ensures Closed(w, ReadAll(w, r, x + [c] + y)).value
            == Applied(op, Applied(Union, r.value, TermValue(w, x)), TermValue(w, y))
  {
    var both := Applied(Union, r.value, TermValue(w, x));
    ReadTerm(w, Union, r.value, x);
    ReadTerm(w, op, both, y);
    ReadAfter(w, r, x, c, y, Reading(0, "", op, both));
  }

  /** What follows a term. */
  lemma {:induction false} ReadAfter(w: World, r: Reading, x: string, c: char, y: string, next: Reading)
    requires Read(w, ReadAll(w, r, x), c) == next
    ensures ReadAll(w, r, x + [c] + y) == ReadAll(w, next, y)
  {
    Assoc(x, [c], y);
    ReadAllAppend(w, r, x, [c] + y);
    assert ([c] + y)[1..] == y;
  }

  /** What an expression of two terms comes to, by what is between them. */
  lemma {:induction false} OperatorsMean(w: World, x: string, y: string, a: set<string>, b: set<string>)
    requires PlainTerm(x) && PlainTerm(y) && TermValue(w, x) == Some(a) && TermValue(w, y) == Some(b)
    ensures Eval(w, x + "," + y) == Some(a + b) && Eval(w, x + "!" + y) == Some(a - b)
    ensures Eval(w, x + "&" + y) == Some(a * b) && Eval(w, x + "^" + y) == Some((a - b) + (b - a))
    ensures forall c :: c == ' ' || c == '\t' || c == '\n' || c == '\r' ==> Eval(w, x + [c] + y) == Some(a + b)
  {
    PlusEmpty(Some(a));
    ReadOperator(w, START, x, ',', Union, y);
    ReadOperator(w, START, x, '!', Minus, y);
    ReadOperator(w, START, x, '&', And, y);
    ReadOperator(w, START, x, '^', Xor, y);
    forall c | c == ' ' || c == '\t' || c == '\n' || c == '\r' ensures Eval(w, x + [c] + y) == Some(a + b) {
      ReadBlank(w, x, c, y);
    }
  }

  lemma {:induction false} ReadBlank(w: World, x: string, c: char, y: string)
    requires PlainTerm(x) && PlainTerm(y) && (c == ' ' || c == '\t' || c == '\n' || c == '\r')
    ensures Eval(w, x + [c] + y) == Applied(Union, Applied(Union, Some({}), TermValue(w, x)), TermValue(w, y))
  {
    var first := Applied(Union, Some({}), TermValue(w, x));
    ReadTerm(w, Union, Some({}), x);
    ReadTerm(w, Union, first, y);
    ReadAfter(w, START, x, c, y, Reading(0, "", Union, first));
  }

  /** What is in brackets belongs to its term, whatever would separate terms elsewhere. */
  lemma {:induction false} BracketsHold(w: World, x: string, inside: string)
    requires PlainTerm(x) && x[0] != '@' && forall c :: c in inside ==> c != '[' && c != ']'
    ensures Eval(w, x + "[" + inside + "]") == Applied(Union, Some({}), w.range(x + "[" + inside + "]"))
  {
    var term := x + "[" + inside;
    ReadTerm(w, Union, Some({}), x);
    ReadAfter(w, START, x, '[', inside, Reading(1, x + "[", Union, Some({})));
    ReadInside(w, Reading(1, x + "[", Union, Some({})), inside);
    ReadAllAppend(w, START, term, "]");
    assert "]"[1..] == "";
    var whole := term + "]";
    assert ReadAll(w, START, whole) == Reading(0, whole, Union, Some({}));
    assert whole[0] == x[0] && whole[|whole| - 1] == ']';
    assert TrimFront(whole) == whole && TrimBack(whole) == whole;
  }

  lemma {:induction false} ReadInside(w: World, r: Reading, inside: string)
    requires r.depth > 0 && forall c :: c in inside ==> c != '[' && c != ']'
    ensures ReadAll(w, r, inside) == r.(term := r.term + inside)
    decreases |inside|
  {
    if inside == "" {
      assert r.term + "" == r.term;
    } else {
      var c := inside[0];
      assert c in inside && forall d :: d in inside[1..] ==> d in inside;
      ReadInside(w, r.(term := r.term + [c]), inside[1..]);
      Assoc(r.term, [c], inside[1..]);
      assert [c] + inside[1..] == inside;
    }
  }

  /** A term is trimmed; one with an `@` is a reference, to a group of the source before
      its first colon, or of none; any other is a range of nodes. */
  lemma {:induction false} TermIs(w: World, t: string, a: string, b: string)
    requires t != "" && !UnicodeSpace(t[0]) && !UnicodeSpace(t[|t| - 1])
    requires forall c :: c in a + b ==> UnicodeSpace(c)
    ensures TermValue(w, a + t + b) == TermValue(w, t)
    ensures t[0] != '@' ==> TermValue(w, t) == w.range(t)
    ensures t[0] == '@' && ':' !in t ==> TermValue(w, t) == w.lookup("", t[1..])
    ensures forall source, group :: t == "@" + source + ":" + group && ':' !in source ==>
                                      TermValue(w, t) == w.lookup(source, group)
  {
    TrimmedFront(a, t + b);
    TrimmedBack(t, b);
    Assoc(a, t, b);
    assert TrimFront(t) == t && TrimBack(t) == t;
    CutNone(t[1..], ':');
    forall source, group | t == "@" + source + ":" + group && ':' !in source
      ensures Cut(t[1..], ':') == Some((source, group))
    {
      CutAt(source, ':', group);
      assert t[1..] == source + [':'] + group;
    }
  }

  lemma {:induction false} TrimmedFront(a: string, t: string)
    requires t != "" && !UnicodeSpace(t[0]) && forall c :: c in a ==> UnicodeSpace(c)
    ensures TrimFront(a + t) == t
  {
    if a == "" {
      assert a + t == t;
    } else {
      TrimmedFront(a[1..], t);
      assert (a + t)[1..] == a[1..] + t;
    }
  }

  lemma {:induction false} TrimmedBack(t: string, b: string)
    requires t != "" && !UnicodeSpace(t[|t| - 1]) && forall c :: c in b ==> UnicodeSpace(c)
    ensures TrimBack(t + b) == t
  {
    if b == "" {
      assert t + b == t;
    } else {
      var n := |b| - 1;
      TrimmedBack(t, b[..n]);
      assert (t + b)[..|t + b| - 1] == t + b[..n];
    }
  }

  /** The characters of Unicode that are white space, by their code points. */
  lemma {:induction false} UnicodeSpaceIs(c: char)
    ensures UnicodeSpace(c) <==>
            || 0x09 <= c as int <= 0x0D || 0x2000 <= c as int <= 0x200A
            || c as int in {0x20, 0x85, 0xA0, 0x1680, 0x2028, 0x2029, 0x202F, 0x205F, 0x3000}
  {
  }

  /** A group can be referred to exactly when it has a name of its own, and nothing in
      the reference ends it, groups it, or would be trimmed off. */
  lemma {:induction false} NamedIs(source: string, group: string)
    ensures Named(source, group) <==>
            && group != "" && group != "*" && ':' !in source
            && forall c :: c in source + group ==> c !in ",!&^[]" && !UnicodeSpace(c)
  {
    assert forall i :: 0 <= i < |source| ==> source[i] in source + group;
    assert forall i :: 0 <= i < |group| ==> group[i] in source + group;
  }

  /** Why a group with an operator is not joined as it is: the operator would reach
      back to the groups before it. */
  lemma {:induction false} OperatorsReachBack(w: World, before: string, x: string, y: string)
    requires Joinable(before) && PlainTerm(x) && PlainTerm(y)
    ensures Eval(w, x + "!" + y) == Applied(Minus, TermValue(w, x), TermValue(w, y))
    ensures Eval(w, before + "," + (x + "!" + y))
            == Applied(Minus, Applied(Union, Eval(w, before), TermValue(w, x)), TermValue(w, y))
  {
    PlusEmpty(TermValue(w, x));
    ReadOperator(w, START, x, '!', Minus, y);
    var group := x + "!" + y;
    ReadOperand(w, START, before);
    PlusEmpty(Eval(w, before));
    Assoc(before, ",", group);
    ReadAllAppend(w, START, before, "," + group);
    assert ("," + group)[1..] == group;
    ReadDepth(w, START, before);
    ReadOperator(w, Closed(w, ReadAll(w, START, before)), x, '!', Minus, y);
  }
}
