/** Bracket bookkeeping over symbol strings: the net level change of a string
    and whether it stays well nested from a given starting level. */
module Brackets {

  predicate IsBracket(c: char) {
    c == '[' || c == ']'
  }

  /** Net change of bracket depth across `s`: one up per `[`, one down per `]`. */
  function Level(s: string): int {
    if |s| == 0 then 0
    else (if s[0] == '[' then 1 else if s[0] == ']' then -1 else 0) + Level(s[1..])
  }

  /** Starting at depth `d`, no `]` closes below depth 0 and every other
      symbol sits at depth at least `lo`. With `lo == 0` this is plain
      nesting; with `lo == 1` every non-bracket symbol is inside some pair. */
  predicate Nested(s: string, d: int, lo: int) {
    if |s| == 0 then true
    else if s[0] == '[' then Nested(s[1..], d + 1, lo)
    else if s[0] == ']' then d > 0 && Nested(s[1..], d - 1, lo)
    else lo <= d && Nested(s[1..], d, lo)
  }

  /** Balanced: well nested from depth 0 and back at depth 0 at the end. */
  predicate Balanced(s: string) {
    Nested(s, 0, 0) && Level(s) == 0
  }

  /** Balanced, and no non-bracket symbol at the outermost level. */
  predicate Enclosed(s: string) {
    Nested(s, 0, 1) && Level(s) == 0
  }

  lemma {:induction false} LevelAppend(a: string, b: string)
    ensures Level(a + b) == Level(a) + Level(b)
    decreases |a|
  {
    if |a| == 0 {
      assert a + b == b;
    } else {
      assert (a + b)[1..] == a[1..] + b;
      LevelAppend(a[1..], b);
    }
  }

  lemma {:induction false} NestedAppend(a: string, b: string, d: int, lo: int)
    ensures Nested(a + b, d, lo) <==> Nested(a, d, lo) && Nested(b, d + Level(a), lo)
    decreases |a|
  {
    if |a| == 0 {
      assert a + b == b;
    } else {
      assert (a + b)[1..] == a[1..] + b;
      assert (a + b)[0] == a[0];
      var d' := if a[0] == '[' then d + 1 else if a[0] == ']' then d - 1 else d;
      NestedAppend(a[1..], b, d', lo);
    }
  }

  /** A string that is nested from depth `d` stays nested when placed deeper,
      with the floor moved by the same amount. */
  lemma {:induction false} NestedLift(s: string, d: int, lo: int, k: nat)
    requires Nested(s, d, lo)
    ensures Nested(s, d + k, lo + k)
    decreases |s|
  {
    if |s| > 0 {
      var d' := if s[0] == '[' then d + 1 else if s[0] == ']' then d - 1 else d;
      NestedLift(s[1..], d', lo, k);
    }
  }

  /** Lowering the floor only weakens the demand. */
  lemma {:induction false} NestedLowerFloor(s: string, d: int, lo: int, lo': int)
    requires Nested(s, d, lo) && lo' <= lo
    ensures Nested(s, d, lo')
    decreases |s|
  {
    if |s| > 0 {
      var d' := if s[0] == '[' then d + 1 else if s[0] == ']' then d - 1 else d;
      NestedLowerFloor(s[1..], d', lo, lo');
    }
  }

  /** A balanced piece may be placed at any depth `d >= lo >= 0`. */
  lemma BalancedPlaced(e: string, d: int, lo: int)
    requires Balanced(e) && 0 <= lo <= d
    ensures Nested(e, d, lo)
  {
    NestedLift(e, 0, 0, d);
    NestedLowerFloor(e, d, d, lo);
  }

  /** A string without brackets does not change the level. */
  lemma {:induction false} NoBracketsLevel(s: string)
    requires forall i :: 0 <= i < |s| ==> !IsBracket(s[i])
    ensures Level(s) == 0
    decreases |s|
  {
    if |s| > 0 {
      NoBracketsLevel(s[1..]);
    }
  }

  /** A string without brackets is nested at any depth at or above its floor. */
  lemma {:induction false} NoBracketsNested(s: string, d: int, lo: int)
    requires forall i :: 0 <= i < |s| ==> !IsBracket(s[i])
    requires lo <= d
    ensures Nested(s, d, lo)
    decreases |s|
  {
    if |s| > 0 {
      NoBracketsNested(s[1..], d, lo);
    }
  }

  lemma NoBracketsBalanced(s: string)
    requires forall i :: 0 <= i < |s| ==> !IsBracket(s[i])
    ensures Balanced(s)
  {
    NoBracketsNested(s, 0, 0);
    NoBracketsLevel(s);
  }

  /** Wrapping a balanced string in a bracket pair encloses it. */
  lemma WrapEnclosed(s: string)
    requires Balanced(s)
    ensures Enclosed("[" + s + "]")
  {
    var w := "[" + s + "]";
    assert w[0] == '[' && w[1..] == s + "]";
    NestedLift(s, 0, 0, 1);
    NestedAppend(s, "]", 1, 1);
    LevelAppend(s, "]");
    LevelAppend("[", s + "]");
  }

  lemma EnclosedBalanced(s: string)
    requires Enclosed(s)
    ensures Balanced(s)
  {
    NestedLowerFloor(s, 0, 1, 0);
  }

  lemma ConcatBalanced(a: string, b: string)
    requires Balanced(a) && Balanced(b)
    ensures Balanced(a + b)
  {
    NestedAppend(a, b, 0, 0);
    LevelAppend(a, b);
  }

  lemma ConcatEnclosed(a: string, b: string)
    requires Enclosed(a) && Enclosed(b)
    ensures Enclosed(a + b)
  {
    NestedAppend(a, b, 0, 1);
    LevelAppend(a, b);
  }

  /** For a string of brackets only, the floor on other symbols is moot. */
  lemma {:induction false} AllBracketsEnclosed(s: string, d: int)
    requires forall i :: 0 <= i < |s| ==> IsBracket(s[i])
    requires Nested(s, d, 0)
    ensures Nested(s, d, 1)
    decreases |s|
  {
    if |s| > 0 {
      var d' := if s[0] == '[' then d + 1 else d - 1;
      AllBracketsEnclosed(s[1..], d');
    }
  }

  /** The deepest bracket level reached while reading `s` from depth `d`,
      with `]` decrementing the running depth. */
  function Deepest(s: string, d: int): (r: int)
    ensures r >= d
  {
    if |s| == 0 then d
    else
      var d' := if s[0] == '[' then d + 1 else if s[0] == ']' then d - 1 else d;
      var rest := Deepest(s[1..], d');
      if rest > d then rest else d
  }
}
