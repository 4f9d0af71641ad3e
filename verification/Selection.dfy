/** Some elements of a sequence, taken in their order: what a loop that skips
    some elements and changes others leaves. */
module Selection {
  /** The elements of t are those of s that are picked, each once, in their order
      and as `made` has it. */
  ghost predicate Selects<S, T>(s: seq<S>, t: seq<T>, picked: S -> bool, made: (S, T) -> bool) {
    if s == [] then t == []
    else if picked(s[0]) then t != [] && made(s[0], t[0]) && Selects(s[1..], t[1..], picked, made)
    else Selects(s[1..], t, picked, made)
  }

  /** The elements picked, as they are. */
  ghost predicate Filters<T>(s: seq<T>, t: seq<T>, picked: T -> bool) {
    if s == [] then t == []
    else if picked(s[0]) then t != [] && t[0] == s[0] && Filters(s[1..], t[1..], picked)
    else Filters(s[1..], t, picked)
  }

  lemma {:induction false} SelectsFirst<S, T>(s: seq<S>, t: seq<T>, picked: S -> bool, made: (S, T) -> bool, x: S, y: T)
    requires Selects(s, t, picked, made)
    ensures !picked(x) ==> Selects([x] + s, t, picked, made)
    ensures picked(x) && made(x, y) ==> Selects([x] + s, [y] + t, picked, made)
  {
    assert ([x] + s)[1..] == s && ([y] + t)[1..] == t;
  }

  lemma {:induction false} SelectsLast<S, T>(s: seq<S>, t: seq<T>, picked: S -> bool, made: (S, T) -> bool, x: S, y: T)
    requires Selects(s, t, picked, made)
    ensures !picked(x) ==> Selects(s + [x], t, picked, made)
    ensures picked(x) && made(x, y) ==> Selects(s + [x], t + [y], picked, made)
  {
    if s != [] {
      assert (s + [x])[1..] == s[1..] + [x];
      if picked(s[0]) {
        SelectsLast(s[1..], t[1..], picked, made, x, y);
        assert (t + [y])[1..] == t[1..] + [y];
      } else {
        SelectsLast(s[1..], t, picked, made, x, y);
      }
    } else {
      assert (s + [x])[1..] == [] && (t + [y])[1..] == [];
    }
  }

  lemma {:induction false} SelectedFrom<S, T>(s: seq<S>, t: seq<T>, picked: S -> bool, made: (S, T) -> bool, y: T)
    returns (x: S)
    requires Selects(s, t, picked, made) && y in t
    ensures x in s && picked(x) && made(x, y)
  {
    if !picked(s[0]) {
      x := SelectedFrom(s[1..], t, picked, made, y);
    } else if y == t[0] {
      x := s[0];
    } else {
      x := SelectedFrom(s[1..], t[1..], picked, made, y);
    }
  }

  lemma {:induction false} SelectedTo<S, T>(s: seq<S>, t: seq<T>, picked: S -> bool, made: (S, T) -> bool, x: S)
    returns (y: T)
    requires Selects(s, t, picked, made) && x in s && picked(x)
    ensures y in t && made(x, y)
  {
    if x == s[0] {
      y := t[0];
    } else {
      y := SelectedTo(s[1..], if picked(s[0]) then t[1..] else t, picked, made, x);
    }
  }

  lemma {:induction false} FiltersFirst<T>(s: seq<T>, t: seq<T>, picked: T -> bool, x: T)
    requires Filters(s, t, picked)
    ensures Filters([x] + s, if picked(x) then [x] + t else t, picked)
  {
    assert ([x] + s)[1..] == s && ([x] + t)[1..] == t;
  }

  lemma {:induction false} FiltersLast<T>(s: seq<T>, t: seq<T>, picked: T -> bool, x: T)
    requires Filters(s, t, picked)
    ensures Filters(s + [x], if picked(x) then t + [x] else t, picked)
  {
    if s != [] {
      assert (s + [x])[1..] == s[1..] + [x];
      if picked(s[0]) {
        FiltersLast(s[1..], t[1..], picked, x);
        assert (t + [x])[1..] == t[1..] + [x];
      } else {
        FiltersLast(s[1..], t, picked, x);
      }
    } else {
      assert (s + [x])[1..] == [] && (t + [x])[1..] == [];
    }
  }

  lemma {:induction false} FiltersMembers<T(!new)>(s: seq<T>, t: seq<T>, picked: T -> bool)
    requires Filters(s, t, picked)
    ensures forall x :: x in t <==> x in s && picked(x)
  {
    if s != [] {
      FiltersMembers(s[1..], if picked(s[0]) then t[1..] else t, picked);
      assert s == [s[0]] + s[1..];
      assert picked(s[0]) ==> t == [t[0]] + t[1..];
    }
  }
}
