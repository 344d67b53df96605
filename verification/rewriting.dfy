/** Properties of rule selection and of `construct`: when selection always
    succeeds, what a deterministic grammar produces, and that balanced rules
    keep a balanced string balanced. */
module Rewriting {
  import opened Common
  import opened Brackets
  import opened LSystem

  // ---------------------------------------------------------------- selection

  /** A one-rule set does not depend on the draw at all. */
  lemma SingleRuleIgnoresDraw(rs: RuleSet, d1: real, d2: real)
    requires |rs.rules| == 1
    ensures SelectRule(rs, d1) == SelectRule(rs, d2) == Some(rs.rules[0])
  {
  }

  /** With a positive total that equals the weight sum, any draw below 1
      selects some rule: the last running sum is the total itself. */
  lemma SelectionSucceeds(rs: RuleSet, draw: real)
    requires WellFormed(rs) && rs.totalWeight > 0.0 && draw < 1.0
    ensures SelectIndex(rs, draw).Some?
  {
    if |rs.rules| != 1 {
      assert |rs.rules| > 0;
      assert rs.rules[..|rs.rules|] == rs.rules;
      assert Cumulative(rs.rules, |rs.rules| - 1) == rs.totalWeight;
      assert (1.0 - draw) * rs.totalWeight > 0.0;
      assert Cumulative(rs.rules, |rs.rules| - 1) > draw * rs.totalWeight;
    }
  }

  /** A draw at or above 1 with non-negative weights selects nothing from a
      set of two or more rules: no running sum exceeds the total. */
  lemma {:induction false} CumulativeBounded(rules: seq<Rule>, k: nat)
    requires k < |rules|
    requires forall j :: 0 <= j < |rules| ==> rules[j].weight >= 0.0
    ensures Cumulative(rules, k) <= SumWeights(rules)
    decreases |rules| - k
  {
    if k + 1 < |rules| {
      CumulativeBounded(rules, k + 1);
      assert rules[..k + 2][..k + 1] == rules[..k + 1];
    } else {
      assert rules[..k + 1] == rules;
    }
  }

  lemma SelectionExhausted(rs: RuleSet, draw: real)
    requires WellFormed(rs) && |rs.rules| >= 2 && rs.totalWeight >= 0.0 && draw >= 1.0
    requires forall j :: 0 <= j < |rs.rules| ==> rs.rules[j].weight >= 0.0
    ensures SelectIndex(rs, draw) == None
  {
    ScaledAtLeast(rs.totalWeight, draw);
    forall j | 0 <= j < |rs.rules|
      ensures Cumulative(rs.rules, j) <= draw * rs.totalWeight
    {
      CumulativeBounded(rs.rules, j);
    }
  }

  lemma ScaledAtLeast(total: real, draw: real)
    requires total >= 0.0 && draw >= 1.0
    ensures total <= draw * total
  {
    var e := draw - 1.0;
    assert draw * total == total + e * total;
    assert e * total >= 0.0;
  }

  /** Every rule set can always select: the precondition under which
      `construct` cannot fail. */
  predicate Selectable(rules: map<char, RuleSet>) {
    forall c :: c in rules ==> WellFormed(rules[c]) && rules[c].totalWeight > 0.0
  }

  ghost predicate DrawsBelowOne(noise: Noise2) {
    forall x, y :: noise(x, y) < 1.0
  }

  lemma {:induction false} PiecesSucceed(rules: map<char, RuleSet>, s: string, seed: real, gen: int,
                                         noise: Noise2, i: nat, done: seq<string>)
    requires i <= |s| && |done| == i
    requires Selectable(rules) && DrawsBelowOne(noise)
    ensures Pieces(rules, s, seed, gen, noise, i, done).Success?
    decreases |s| - i
  {
    if i < |s| {
      if s[i] in rules {
        var draw := Draw(noise, seed, |Flatten(done)|, gen);
        SelectionSucceeds(rules[s[i]], draw);
        PiecesSucceed(rules, s, seed, gen, noise, i + 1, done + [SelectRule(rules[s[i]], draw).value.expr]);
      } else {
        PiecesSucceed(rules, s, seed, gen, noise, i + 1, done + [[s[i]]]);
      }
    }
  }

  lemma {:induction false} GenerationsSucceed(rules: map<char, RuleSet>, s: string, seed: real, n: int,
                                              noise: Noise2)
    requires Selectable(rules) && DrawsBelowOne(noise)
    ensures Generations(rules, s, seed, n, noise).Success?
    decreases n
  {
    if n > 0 {
      PiecesSucceed(rules, s, seed, n - 1, noise, 0, []);
      GenerationsSucceed(rules, Flatten(Generation(rules, s, seed, n - 1, noise).value), seed, n - 1, noise);
    }
  }

  /** `construct` of a grammar with an axiom, whose rule sets all have a
      positive total, never fails while the noise stays below 1. */
  lemma ConstructSucceeds<A>(g: Grammar<A>, iterations: int, noise: Noise2)
    requires g.rootString.Some? && Selectable(g.rules) && DrawsBelowOne(noise)
    ensures Construct(g, iterations, noise).Success?
  {
    GenerationsSucceed(g.rules, g.rootString.value, g.seed, iterations, noise);
  }

  // ---------------------------------------------------------------- flatten

  lemma {:induction false} FlattenAppend(p: seq<string>, q: seq<string>)
    ensures Flatten(p + q) == Flatten(p) + Flatten(q)
    decreases |q|
  {
    if |q| == 0 {
      assert p + q == p;
    } else {
      var q', x := q[..|q| - 1], q[|q| - 1];
      assert (p + q)[..|p + q| - 1] == p + q' && (p + q)[|p + q| - 1] == x;
      FlattenAppend(p, q');
      calc {
        Flatten(p + q);
        Flatten(p + q') + x;
        Flatten(p) + Flatten(q') + x;
        Flatten(p) + (Flatten(q') + x);
        Flatten(p) + Flatten(q);
      }
    }
  }

  lemma FlattenOne(x: string)
    ensures Flatten([x]) == x
  {
    assert [x][..0] == [];
  }

  // ---------------------------------------------------------------- deterministic grammars

  /** Every rule set has a single rule, so no draw is ever consulted. */
  predicate Deterministic(rules: map<char, RuleSet>) {
    forall c :: c in rules ==> |rules[c].rules| == 1
  }

  function DetPiece(rules: map<char, RuleSet>, c: char): string
    requires Deterministic(rules)
  {
    if c in rules then rules[c].rules[0].expr else [c]
  }

  function DetPieces(rules: map<char, RuleSet>, s: string): (p: seq<string>)
    requires Deterministic(rules)
    ensures |p| == |s| && forall k :: 0 <= k < |s| ==> p[k] == DetPiece(rules, s[k])
  {
    seq(|s|, k requires 0 <= k < |s| => DetPiece(rules, s[k]))
  }

  /** One generation of a deterministic grammar, as an independent
      definition: every symbol replaced by its only expansion. */
  function Expand(rules: map<char, RuleSet>, s: string): string
    requires Deterministic(rules)
  {
    Flatten(DetPieces(rules, s))
  }

  function ExpandN(rules: map<char, RuleSet>, s: string, n: int): string
    requires Deterministic(rules)
    decreases n
  {
    if n <= 0 then s else ExpandN(rules, Expand(rules, s), n - 1)
  }

  lemma {:induction false} PiecesDeterministic(rules: map<char, RuleSet>, s: string, seed: real, gen: int,
                                               noise: Noise2, i: nat, done: seq<string>)
    requires i <= |s| && |done| == i && Deterministic(rules)
    ensures Pieces(rules, s, seed, gen, noise, i, done) == Success(done + DetPieces(rules, s)[i..])
    decreases |s| - i
  {
    var all := DetPieces(rules, s);
    if i == |s| {
      assert all[i..] == [];
      assert done + all[i..] == done;
    } else {
      PiecesDetStep(rules, s, seed, gen, noise, i, done);
      PiecesDeterministic(rules, s, seed, gen, noise, i + 1, done + [all[i]]);
      ShiftPiece(all, i, done);
    }
  }

  /** One symbol of a deterministic grammar: its only expansion is taken. */
  lemma PiecesDetStep(rules: map<char, RuleSet>, s: string, seed: real, gen: int,
                      noise: Noise2, i: nat, done: seq<string>)
    requires i < |s| && |done| == i && Deterministic(rules)
    ensures Pieces(rules, s, seed, gen, noise, i, done)
         == Pieces(rules, s, seed, gen, noise, i + 1, done + [DetPiece(rules, s[i])])
  {
    if s[i] in rules {
      var draw := Draw(noise, seed, |Flatten(done)|, gen);
      SingleRuleIgnoresDraw(rules[s[i]], draw, draw);
    }
  }

  lemma ShiftPiece(all: seq<string>, i: nat, done: seq<string>)
    requires i < |all|
    ensures done + [all[i]] + all[i + 1..] == done + all[i..]
  {
    assert all[i..] == [all[i]] + all[i + 1..];
  }

  /** A deterministic grammar's generation ignores seed and noise. */
  lemma GenerationDeterministic(rules: map<char, RuleSet>, s: string, seed: real, gen: int, noise: Noise2)
    requires Deterministic(rules)
    ensures Generation(rules, s, seed, gen, noise).Success?
    ensures Flatten(Generation(rules, s, seed, gen, noise).value) == Expand(rules, s)
  {
    PiecesDeterministic(rules, s, seed, gen, noise, 0, []);
    assert [] + DetPieces(rules, s)[0..] == DetPieces(rules, s);
  }

  lemma {:induction false} GenerationsDeterministic(rules: map<char, RuleSet>, s: string, seed: real,
                                                    n: int, noise: Noise2)
    requires Deterministic(rules)
    ensures Generations(rules, s, seed, n, noise) == Success(ExpandN(rules, s, n))
    decreases n
  {
    if n > 0 {
      GenerationDeterministic(rules, s, seed, n - 1, noise);
      GenerationsDeterministic(rules, Expand(rules, s), seed, n - 1, noise);
    }
  }

  lemma {:induction false} ExpandNCompose(rules: map<char, RuleSet>, s: string, a: nat, b: nat)
    requires Deterministic(rules)
    ensures ExpandN(rules, ExpandN(rules, s, a), b) == ExpandN(rules, s, a + b)
    decreases a
  {
    if a > 0 {
      ExpandNCompose(rules, Expand(rules, s), a - 1, b);
    }
  }

  lemma ExpandAppend(rules: map<char, RuleSet>, a: string, b: string)
    requires Deterministic(rules)
    ensures Expand(rules, a + b) == Expand(rules, a) + Expand(rules, b)
  {
    assert DetPieces(rules, a + b) == DetPieces(rules, a) + DetPieces(rules, b);
    FlattenAppend(DetPieces(rules, a), DetPieces(rules, b));
  }

  lemma ExpandOne(rules: map<char, RuleSet>, c: char)
    requires Deterministic(rules)
    ensures Expand(rules, [c]) == DetPiece(rules, c)
  {
    assert DetPieces(rules, [c]) == [DetPiece(rules, c)];
    FlattenOne(DetPiece(rules, c));
  }

  /** For a deterministic grammar, `construct(a)` followed by `construct(b)`
      leaves the same string as `construct(a + b)`: the string is rewritten
      in place and the second call continues from the first one's result. */
  lemma ConstructTwice<A>(g: Grammar<A>, a: nat, b: nat, noise: Noise2)
    requires g.rootString.Some? && Deterministic(g.rules)
    ensures Construct(g, a, noise).Success? && Construct(g, a + b, noise).Success?
    ensures Construct(Construct(g, a, noise).value, b, noise).Success?
    ensures Construct(Construct(g, a, noise).value, b, noise).value.rootString
         == Construct(g, a + b, noise).value.rootString
         == Some(ExpandN(g.rules, g.rootString.value, a + b))
  {
    ConstructDeterministic(g, a, noise);
    ConstructDeterministic(Construct(g, a, noise).value, b, noise);
    ConstructDeterministic(g, a + b, noise);
    ExpandNCompose(g.rules, g.rootString.value, a, b);
  }

  /** `construct` of a deterministic grammar yields the `n`-fold expansion. */
  lemma ConstructDeterministic<A>(g: Grammar<A>, n: nat, noise: Noise2)
    requires g.rootString.Some? && Deterministic(g.rules)
    ensures Construct(g, n, noise).Success?
    ensures Construct(g, n, noise).value.rootString == Some(ExpandN(g.rules, g.rootString.value, n))
  {
    GenerationsDeterministic(g.rules, g.rootString.value, g.seed, n, noise);
  }

  // ---------------------------------------------------------------- bracket balance

  /** No rule rewrites a bracket, and every expansion is balanced. */
  predicate BalancedRules(rules: map<char, RuleSet>) {
    forall c :: c in rules ==>
      !IsBracket(c) && forall j :: 0 <= j < |rules[c].rules| ==> Balanced(rules[c].rules[j].expr)
  }

  lemma {:induction false} PiecesKeepNesting(rules: map<char, RuleSet>, s: string, pieces: seq<string>,
                                             d: int, lo: int, k: nat)
    requires BalancedRules(rules) && 0 <= lo
    requires |pieces| == |s| && forall i :: 0 <= i < |s| ==> PieceFor(rules, s[i], pieces[i])
    requires k <= |s| && Nested(s[..k], d, lo)
    ensures Nested(Flatten(pieces[..k]), d, lo) && Level(Flatten(pieces[..k])) == Level(s[..k])
    decreases k
  {
    if k > 0 {
      var pre, c, p := s[..k - 1], s[k - 1], pieces[k - 1];
      assert s[..k] == pre + [c];
      assert pieces[..k] == pieces[..k - 1] + [p];
      NestedAppend(pre, [c], d, lo);
      LevelAppend(pre, [c]);
      PiecesKeepNesting(rules, s, pieces, d, lo, k - 1);
      var d' := d + Level(pre);
      assert Flatten(pieces[..k]) == Flatten(pieces[..k - 1]) + p;
      if c in rules {
        var j :| 0 <= j < |rules[c].rules| && rules[c].rules[j].expr == p;
        assert [c][1..] == [];
        BalancedPlaced(p, d', lo);
        assert Level([c]) == 0;
      }
      NestedAppend(Flatten(pieces[..k - 1]), p, d, lo);
      LevelAppend(Flatten(pieces[..k - 1]), p);
    }
  }

  lemma NestedPrefix(s: string, k: nat, d: int, lo: int)
    requires k <= |s| && Nested(s, d, lo)
    ensures Nested(s[..k], d, lo)
  {
    assert s == s[..k] + s[k..];
    NestedAppend(s[..k], s[k..], d, lo);
  }

  /** One generation keeps a string nested from depth 0 with floor `lo`, and
      keeps its net level. */
  lemma GenerationKeepsNesting(rules: map<char, RuleSet>, s: string, seed: real, gen: int, noise: Noise2,
                               lo: int)
    requires BalancedRules(rules) && 0 <= lo && Nested(s, 0, lo)
    requires Generation(rules, s, seed, gen, noise).Success?
    ensures var t := Flatten(Generation(rules, s, seed, gen, noise).value);
      Nested(t, 0, lo) && Level(t) == Level(s)
  {
    var pieces := Generation(rules, s, seed, gen, noise).value;
    NestedPrefix(s, |s|, 0, lo);
    PiecesKeepNesting(rules, s, pieces, 0, lo, |s|);
    assert s[..|s|] == s;
    assert pieces[..|s|] == pieces;
  }

  lemma {:induction false} GenerationsKeepNesting(rules: map<char, RuleSet>, s: string, seed: real, n: int,
                                                  noise: Noise2, lo: int)
    requires BalancedRules(rules) && 0 <= lo && Nested(s, 0, lo)
    requires Generations(rules, s, seed, n, noise).Success?
    ensures var t := Generations(rules, s, seed, n, noise).value;
      Nested(t, 0, lo) && Level(t) == Level(s)
    decreases n
  {
    if n > 0 {
      GenerationKeepsNesting(rules, s, seed, n - 1, noise, lo);
      var t := Flatten(Generation(rules, s, seed, n - 1, noise).value);
      GenerationsKeepNesting(rules, t, seed, n - 1, noise, lo);
    }
  }

  /** With balanced rules, a balanced working string stays balanced through
      `construct`, and one with every symbol inside brackets stays so. */
  lemma ConstructKeepsBalance<A>(g: Grammar<A>, iterations: int, noise: Noise2)
    requires g.rootString.Some? && BalancedRules(g.rules)
    requires Construct(g, iterations, noise).Success?
    ensures Balanced(g.rootString.value) ==> Balanced(Construct(g, iterations, noise).value.rootString.value)
    ensures Enclosed(g.rootString.value) ==> Enclosed(Construct(g, iterations, noise).value.rootString.value)
  {
    var s := g.rootString.value;
    if Balanced(s) {
      GenerationsKeepNesting(g.rules, s, g.seed, iterations, noise, 0);
    }
    if Enclosed(s) {
      GenerationsKeepNesting(g.rules, s, g.seed, iterations, noise, 1);
    }
  }

  // ---------------------------------------------------------------- depth scan

  lemma CountStep(s: string, k: nat)
    requires k < |s|
    ensures Count(s[..k + 1], '[') == Count(s[..k], '[') + (if s[k] == '[' then 1 else 0)
  {
    assert s[..k + 1][..k] == s[..k];
  }

  /** The recorded `maxDepth` is not the nesting depth: the running counter
      never goes down on `]`, so sibling branches add up ... */
  lemma MaxDepthOvercounts()
    ensures Deepest("[][][]", 0) == 1
    ensures MaxDepthOf("[][][]") == 2
  {
    var s := "[][][]";
    assert Count(s[..0], '[') == 0;
    CountStep(s, 0);
    assert Count(s[..1], '[') == 1;
    CountStep(s, 1);
    assert Count(s[..2], '[') == 1;
    CountStep(s, 2);
    assert Count(s[..3], '[') == 2;
    CountStep(s, 3);
    assert Count(s[..4], '[') == 2;
    CountStep(s, 4);
    assert Count(s[..5], '[') == 3;
    CountStep(s, 5);
    assert Count(s[..6], '[') == 3;
    assert DepthScan(s, 5, 1, 2) == 2;
    assert DepthScan(s, 4, 1, 1) == 2;
    assert DepthScan(s, 3, 1, 1) == 2;
    assert DepthScan(s, 2, 1, 0) == 2;
    assert DepthScan(s, 1, 0, 1) == 2;
    assert DepthScan(s, 0, 0, 0) == 2;
    assert s[1..] == "][][]" && s[2..] == "[][]" && s[3..] == "][]" && s[4..] == "[]" && s[5..] == "]";
    assert Deepest("]", 1) == 1;
    assert Deepest("[]", 0) == 1;
    assert Deepest("][]", 1) == 1;
    assert Deepest("[][]", 0) == 1;
    assert Deepest("][][]", 1) == 1;
  }

  /** ... and resetting it to 0 inside a branch loses the enclosing levels. */
  lemma MaxDepthUndercounts()
    ensures Deepest("[[][[]]]", 0) == 3
    ensures MaxDepthOf("[[][[]]]") == 2
  {
    var s := "[[][[]]]";
    assert Count(s[..0], '[') == 0;
    CountStep(s, 0);
    assert Count(s[..1], '[') == 1;
    CountStep(s, 1);
    assert Count(s[..2], '[') == 2;
    CountStep(s, 2);
    assert Count(s[..3], '[') == 2;
    CountStep(s, 3);
    assert Count(s[..4], '[') == 3;
    CountStep(s, 4);
    assert Count(s[..5], '[') == 4;
    CountStep(s, 5);
    assert Count(s[..6], '[') == 4;
    CountStep(s, 6);
    assert Count(s[..7], '[') == 4;
    CountStep(s, 7);
    assert Count(s[..8], '[') == 4;
    assert DepthScan(s, 7, 2, 2) == 2;
    assert DepthScan(s, 6, 2, 2) == 2;
    assert DepthScan(s, 5, 2, 2) == 2;
    assert DepthScan(s, 4, 2, 1) == 2;
    assert DepthScan(s, 3, 2, 0) == 2;
    assert DepthScan(s, 2, 0, 2) == 2;
    assert DepthScan(s, 1, 0, 1) == 2;
    assert DepthScan(s, 0, 0, 0) == 2;
    assert s[1..] == "[][[]]]" && s[2..] == "][[]]]" && s[3..] == "[[]]]";
    assert s[4..] == "[]]]" && s[5..] == "]]]" && s[6..] == "]]" && s[7..] == "]";
    assert Deepest("]", 1) == 1;
    assert Deepest("]]", 2) == 2;
    assert Deepest("]]]", 3) == 3;
    assert Deepest("[]]]", 2) == 3;
    assert Deepest("[[]]]", 1) == 3;
    assert Deepest("][[]]]", 2) == 3;
    assert Deepest("[][[]]]", 1) == 3;
  }
}
