/** The branching-tree client of the engine: five bracketed branches as the
    axiom, three weighted rules for `F`, one rule for `B`, and handlers that
    move the turtle and place leaves. The handlers' control logic and the
    scope entries each one reads are modelled; their geometry is opaque. */
module TreeGrammar {
  import opened Common
  import opened LinkedStack
  import opened Brackets
  import opened LSystem
  import opened Rewriting
  import opened Execution
  import opened Replay

  datatype TreeAction =
    | BranchLeaf     // `l`
    | BranchSegment  // `D`
    | NatureTick     // `S`
    | TurtleCCW      // `-`
    | TurtleCW       // `+`
    | TiltCW         // `/`
    | TiltCCW        // `*`

  /** What a segment's collision test finds among the nearest stored
      segments: none stored there, some compared and none too close, or one
      closer than `constraints.minCollisionDistance`. */
  datatype Collision = NoneStored | Clear | Hit

  /** The caller's scope as the handlers see it: the number of leaf meshes
      in `leafInstances` (none until added); the mesh index each placed leaf
      went to, in order; whether `constraints`, `sunlightDir` and
      `boundingLines` exist; `influencers`, missing or with the truthiness of
      its `collisionCheck`; whether `instanceMap` holds a `branch` mesh; and
      `collisionCount`. */
  datatype TreeScope = TreeScope(
    leafInstances: Option<nat>, leaves: seq<nat>,
    constraints: bool, influencers: Option<bool>, sunlightDir: bool,
    boundingLines: bool, branchMesh: bool, collisions: nat)

  /** The floating-point parts the handlers use, as opaque functions: the
      fresh turtle; the height of the turtle's world origin, which both the
      segment and the leaf handler test; the four rotations, with the
      configured angles and the Perlin noise at the turtle folded in; the
      sun and gravity bend, given `depth` and `maxDepth`; the collision test
      and the move of a drawn segment, given `depth`; and the Perlin noise
      that picks a leaf mesh. */
  datatype TreeOps<!T> = TreeOps(
    start: T,
    originY: T -> real,
    rotate: (TreeAction, T) -> T,
    bend: (T, int, Option<nat>) -> T,
    collision: (T, int) -> Collision,
    advance: (T, int) -> T,
    leafNoise: T -> real)

  /** `new LSystem1(seed)`'s own scope: `instanceMap`, empty until
      `addInstance`, and `collisionCount` 0; everything else comes from
      `addScope`. */
  const ConstructorScope: TreeScope := TreeScope(None, [], false, None, false, false, false, 0)

  /** Every entry a handler other than the leaf handler reads is present. */
  predicate EntriesPresent(p: TreeScope) {
    p.constraints && p.influencers.Some? && p.sunlightDir && p.boundingLines && p.branchMesh
  }

  /** `q` has the entries of `p`: the handlers never add or remove one. */
  predicate SameEntries(p: TreeScope, q: TreeScope) {
    q.leafInstances == p.leafInstances && q.constraints == p.constraints && q.influencers == p.influencers
    && q.sunlightDir == p.sunlightDir && q.boundingLines == p.boundingLines && q.branchMesh == p.branchMesh
  }

  // What each missing entry makes the program read through `undefined`.
  const LeafInstancesMissing: string := "scope.leafInstances is undefined"
  const LeafMeshMissing: string := "leaf mesh instance is undefined"
  const ConstraintsMissing: string := "scope.constraints is undefined"
  const InfluencersMissing: string := "scope.influencers is undefined"
  const SunlightDirMissing: string := "scope.sunlightDir is undefined"
  const BoundingLinesMissing: string := "scope.boundingLines is undefined"
  const BranchMeshMissing: string := "branch mesh instance is undefined"

  /** The two ways the leaf handler throws. */
  predicate LeafError(e: Error) {
    e == TypeError(LeafInstancesMissing) || e == TypeError(LeafMeshMissing)
  }

  // The axiom and the expansions, written as the bracket pieces they are made
  // of: the axiom is `[F][/-F][*+F][++*F][--*F]`, the `F` expansions are
  // `BS++[/lBFS][*BFS]++[/BFS][*lBFS]`, `BS++[/lBFS][*BFS]++[/BFS]` and
  // `BS++[/BFS][*BFS]`, and the `B` expansion is `SD[l+++l+++l]SD`.

  /** `x` inside a bracket pair. */
  function Pair(x: string): string {
    "[" + x + "]"
  }

  const Axiom: string := Pair("F") + Pair("/-F") + Pair("*+F") + Pair("++*F") + Pair("--*F")
  const Shared: string := "BS++" + Pair("/lBFS") + Pair("*BFS")
  const F2: string := Shared + "++" + Pair("/BFS")
  const F1: string := F2 + Pair("*lBFS")
  const F3: string := "BS++" + Pair("/BFS") + Pair("*BFS")
  const B1: string := "SD" + Pair("l+++l+++l") + "SD"

  /** `new LSystem1(seed)`'s axiom and rules ... */
  function TreeRuleSystem(seed: real): Grammar<TreeAction> {
    var g := SetAxiom(NewLSystem(seed), Axiom);
    var g := AddWeightedRule(g, 'F', F1, 5.0);
    var g := AddWeightedRule(g, 'F', F2, 7.0);
    var g := AddWeightedRule(g, 'F', F3, 4.0);
    AddRule(g, 'B', B1)
  }

  /** ... and its symbols: `new LSystem1(seed)`'s grammar is the tree rule
      table, the tree symbol table, the seed and the axiom, with no
      `maxDepth` yet. */
  function TreeSystem(seed: real): (r: Grammar<TreeAction>)
    ensures r == Grammar(TreeRules, TreeSymbols, seed, Some(Axiom), None)
  {
    TreeRuleSystemIs(seed);
    var g := AddSymbol(TreeRuleSystem(seed), 'l', Some(Client(BranchLeaf)));
    var g := AddSymbol(g, 'D', Some(Client(BranchSegment)));
    var g := AddSymbol(g, 'S', Some(Client(NatureTick)));
    var g := AddSymbol(g, '-', Some(Client(TurtleCCW)));
    var g := AddSymbol(g, '+', Some(Client(TurtleCW)));
    var g := AddSymbol(g, '/', Some(Client(TiltCW)));
    AddSymbol(g, '*', Some(Client(TiltCCW)))
  }

  const FRules: RuleSet := RuleSet([Rule('F', F1, 5.0), Rule('F', F2, 7.0), Rule('F', F3, 4.0)], 16.0)

  const TreeRules: map<char, RuleSet> := map['F' := FRules, 'B' := RuleSet([Rule('B', B1, 1.0)], 1.0)]

  const TreeSymbols: map<char, Symbol<TreeAction>> :=
    map['[' := Symbol('[', Some(SaveState)), ']' := Symbol(']', Some(RestoreState)),
        'l' := Symbol('l', Some(Client(BranchLeaf))), 'D' := Symbol('D', Some(Client(BranchSegment))),
        'S' := Symbol('S', Some(Client(NatureTick))), '-' := Symbol('-', Some(Client(TurtleCCW))),
        '+' := Symbol('+', Some(Client(TurtleCW))), '/' := Symbol('/', Some(Client(TiltCW))),
        '*' := Symbol('*', Some(Client(TiltCCW)))]

  // The constructor's rule additions one at a time, each from the rule map
  // the previous one leaves.

  lemma AddedF1<A>(g: Grammar<A>)
    requires g.rules == map[]
    ensures AddWeightedRule(g, 'F', F1, 5.0).rules == map['F' := RuleSet([Rule('F', F1, 5.0)], 5.0)]
  {
    assert [] + [Rule('F', F1, 5.0)] == [Rule('F', F1, 5.0)];
  }

  lemma AddedF2<A>(g: Grammar<A>)
    requires g.rules == map['F' := RuleSet([Rule('F', F1, 5.0)], 5.0)]
    ensures AddWeightedRule(g, 'F', F2, 7.0).rules == map['F' := RuleSet([Rule('F', F1, 5.0), Rule('F', F2, 7.0)], 12.0)]
  {
    assert [Rule('F', F1, 5.0)] + [Rule('F', F2, 7.0)] == [Rule('F', F1, 5.0), Rule('F', F2, 7.0)];
  }

  lemma AddedF3<A>(g: Grammar<A>)
    requires g.rules == map['F' := RuleSet([Rule('F', F1, 5.0), Rule('F', F2, 7.0)], 12.0)]
    ensures AddWeightedRule(g, 'F', F3, 4.0).rules == map['F' := FRules]
  {
    assert [Rule('F', F1, 5.0), Rule('F', F2, 7.0)] + [Rule('F', F3, 4.0)] == FRules.rules;
  }

  lemma AddedB<A>(g: Grammar<A>)
    requires g.rules == map['F' := FRules]
    ensures AddRule(g, 'B', B1).rules == TreeRules
  {
    assert [] + [Rule('B', B1, 1.0)] == [Rule('B', B1, 1.0)];
  }

  lemma TreeRuleSystemIs(seed: real)
    ensures TreeRuleSystem(seed).rules == TreeRules
    ensures TreeRuleSystem(seed).symbols == NewLSystem<TreeAction>(seed).symbols
    ensures TreeRuleSystem(seed).rootString == Some(Axiom) && TreeRuleSystem(seed).seed == seed
  {
    var g0 := SetAxiom(NewLSystem<TreeAction>(seed), Axiom);
    AddedF1(g0);
    var g1 := AddWeightedRule(g0, 'F', F1, 5.0);
    AddedF2(g1);
    var g2 := AddWeightedRule(g1, 'F', F2, 7.0);
    AddedF3(g2);
    AddedB(AddWeightedRule(g2, 'F', F3, 4.0));
  }

  lemma FRulesWellFormed()
    ensures FRules.totalWeight == 16.0 && WellFormed(FRules)
  {
    var rs := FRules.rules;
    assert rs[..2][..1][..0] == [];
    assert SumWeights(rs[..2][..1]) == 5.0;
    assert SumWeights(rs[..2]) == 12.0;
    assert SumWeights(rs) == 16.0;
  }

  /** A bracket-free branch body wrapped in a pair. */
  lemma Branch(x: string)
    requires forall i :: 0 <= i < |x| ==> !IsBracket(x[i])
    ensures Enclosed(Pair(x)) && Balanced(Pair(x))
  {
    NoBracketsBalanced(x);
    WrapEnclosed(x);
    EnclosedBalanced(Pair(x));
  }

  lemma Balanced3(a: string, b: string, c: string)
    requires Balanced(a) && Balanced(b) && Balanced(c)
    ensures Balanced(a + b + c)
  {
    ConcatBalanced(a, b);
    ConcatBalanced(a + b, c);
  }

  lemma SharedBalanced()
    ensures Balanced(Shared)
  {
    NoBracketsBalanced("BS++");
    Branch("/lBFS");
    Branch("*BFS");
    Balanced3("BS++", Pair("/lBFS"), Pair("*BFS"));
  }

  lemma F2Balanced()
    ensures Balanced(F2)
  {
    SharedBalanced();
    NoBracketsBalanced("++");
    Branch("/BFS");
    Balanced3(Shared, "++", Pair("/BFS"));
  }

  lemma F1Balanced()
    ensures Balanced(F1)
  {
    F2Balanced();
    Branch("*lBFS");
    ConcatBalanced(F2, Pair("*lBFS"));
  }

  lemma F3Balanced()
    ensures Balanced(F3)
  {
    NoBracketsBalanced("BS++");
    Branch("/BFS");
    Branch("*BFS");
    Balanced3("BS++", Pair("/BFS"), Pair("*BFS"));
  }

  lemma B1Balanced()
    ensures Balanced(B1)
  {
    NoBracketsBalanced("SD");
    LeafBranchBalanced();
    Balanced3("SD", Pair("l+++l+++l"), "SD");
  }

  lemma LeafBranchBalanced()
    ensures Balanced(Pair("l+++l+++l"))
  {
    Branch("l+++l+++l");
  }

  lemma AxiomEnclosed()
    ensures Enclosed(Axiom)
  {
    Branch("F");
    Branch("/-F");
    Branch("*+F");
    Branch("++*F");
    Branch("--*F");
    ConcatEnclosed(Pair("F"), Pair("/-F"));
    ConcatEnclosed(Pair("F") + Pair("/-F"), Pair("*+F"));
    ConcatEnclosed(Pair("F") + Pair("/-F") + Pair("*+F"), Pair("++*F"));
    ConcatEnclosed(Pair("F") + Pair("/-F") + Pair("*+F") + Pair("++*F"), Pair("--*F"));
  }

  /** The rule sets keep their weight totals (16 for `F`), are selectable,
      and every expansion is balanced; the axiom puts every symbol inside a
      bracket pair; and the brackets keep their built-in handlers. */
  lemma TreeGrammarShape()
    ensures FRules.totalWeight == 16.0 && WellFormed(FRules)
    ensures |TreeRules['B'].rules| == 1
    ensures Selectable(TreeRules) && BalancedRules(TreeRules)
    ensures Enclosed(Axiom)
    ensures BuiltinBrackets(TreeSymbols)
  {
    FRulesWellFormed();
    F1Balanced();
    F2Balanced();
    F3Balanced();
    B1Balanced();
    AxiomEnclosed();
    assert [Rule('B', B1, 1.0)][..0] == [];
    assert WellFormed(TreeRules['B']);
    assert forall j :: 0 <= j < |FRules.rules| ==> Balanced(FRules.rules[j].expr);
  }

  /** How the draw picks among the three `F` rules: with a total of 16 the
      rules cover `[0, 5)`, `[5, 12)` and `[12, 16)` of `draw * 16`, and a
      draw of 1 or more selects nothing. */
  lemma FSelection(draw: real)
    ensures draw * 16.0 < 5.0 ==> SelectIndex(FRules, draw) == Some(0)
    ensures 5.0 <= draw * 16.0 < 12.0 ==> SelectIndex(FRules, draw) == Some(1)
    ensures 12.0 <= draw * 16.0 < 16.0 ==> SelectIndex(FRules, draw) == Some(2)
    ensures 16.0 <= draw * 16.0 ==> SelectIndex(FRules, draw) == None
  {
    TreeGrammarShape();
    assert Cumulative(FRules.rules, 0) == 5.0;
    assert Cumulative(FRules.rules, 1) == 12.0;
    assert FRules.rules[..3] == FRules.rules;
    assert Cumulative(FRules.rules, 2) == 16.0;
  }

  // ---------------------------------------------------------------- the leaf handler

  /** The lookahead scan of `drawBranchLeaf` from index `i`, at running
      depth `depth`, with `last` the depth recorded so far: it stops at the
      first `l` deeper than `last`, recording that depth, or as soon as the
      running depth drops to 0 or below. */
  function Lookahead(s: string, i: nat, depth: int, last: int): (r: int)
    requires i <= |s|
    ensures r >= last
    decreases |s| - i
  {
    if i == |s| then last
    else if s[i] == 'l' && depth > last then depth
    else
      var d := if s[i] == '[' then depth + 1 else if s[i] == ']' then depth - 1 else depth;
      if d <= 0 then last else Lookahead(s, i + 1, d, last)
  }

  /** The running depth once the scan from `i` has read `s[j]`. */
  function DepthAfter(s: string, i: nat, depth: int, j: nat): int
    requires i <= j < |s|
  {
    depth + Level(s[i..j + 1])
  }

  /** Reference condition: `s[k]` is an `l` deeper than `last`, and the
      running depth from `i` stays positive on the way there. */
  predicate DeeperLeafAt(s: string, i: nat, depth: int, last: int, k: nat)
    requires i <= |s|
  {
    i <= k < |s| && s[k] == 'l' && depth + Level(s[i..k]) > last
    && forall j :: i <= j < k ==> DepthAfter(s, i, depth, j) > 0
  }

  predicate DeeperLeafAhead(s: string, i: nat, depth: int, last: int)
    requires i <= |s|
  {
    exists k: nat :: i <= k < |s| && DeeperLeafAt(s, i, depth, last, k)
  }

  /** The scan records a deeper depth exactly when a deeper `l` is reachable,
      and the depth it records is that leaf's depth. */
  lemma {:induction false} LookaheadFinds(s: string, i: nat, depth: int, last: int)
    requires i <= |s|
    ensures Lookahead(s, i, depth, last) > last ==>
      exists k: nat :: DeeperLeafAt(s, i, depth, last, k) && Lookahead(s, i, depth, last) == depth + Level(s[i..k])
    ensures (exists k: nat :: DeeperLeafAt(s, i, depth, last, k)) ==> Lookahead(s, i, depth, last) > last
    decreases |s| - i
  {
    assert s[i..i] == [];
    if i == |s| {
    } else if s[i] == 'l' && depth > last {
      assert DeeperLeafAt(s, i, depth, last, i);
    } else {
      var d := if s[i] == '[' then depth + 1 else if s[i] == ']' then depth - 1 else depth;
      forall k | i + 1 <= k <= |s| ensures depth + Level(s[i..k]) == d + Level(s[i + 1..k]) {
        assert s[i..k][0] == s[i] && s[i..k][1..] == s[i + 1..k];
      }
      assert s[i + 1..i + 1] == [];
      assert depth + Level(s[i..i + 1]) == d;
      if d <= 0 {
        forall k: nat | i <= k < |s| ensures !DeeperLeafAt(s, i, depth, last, k) {
          if k > i {
            assert DepthAfter(s, i, depth, i) == d;
          }
        }
      } else {
        LookaheadFinds(s, i + 1, d, last);
        forall k | DeeperLeafAt(s, i, depth, last, k) ensures DeeperLeafAt(s, i + 1, d, last, k) {
          assert k != i;
          var i1 := i + 1;
          forall j | i1 <= j < k ensures DepthAfter(s, i1, d, j) > 0 {
            assert DepthAfter(s, i, depth, j) > 0;
          }
        }
        if Lookahead(s, i, depth, last) > last {
          var k: nat :| DeeperLeafAt(s, i + 1, d, last, k) && Lookahead(s, i + 1, d, last) == d + Level(s[i + 1..k]);
          forall j | i <= j < k ensures DepthAfter(s, i, depth, j) > 0 {
            if j > i {
              assert DepthAfter(s, i + 1, d, j) > 0;
            }
          }
          assert DeeperLeafAt(s, i, depth, last, k);
        }
      }
    }
  }

  /** The scan reads only the symbols from `i` on. */
  lemma {:induction false} LookaheadReadsAhead(s: string, s': string, i: nat, depth: int, last: int)
    requires i <= |s| == |s'|
    requires forall k :: i <= k < |s| ==> s[k] == s'[k]
    ensures Lookahead(s, i, depth, last) == Lookahead(s', i, depth, last)
    decreases |s| - i
  {
    if i < |s| {
      var d := if s[i] == '[' then depth + 1 else if s[i] == ']' then depth - 1 else depth;
      LookaheadReadsAhead(s, s', i + 1, d, last);
    }
  }

  /** The depth the leaf at index `itr` looks for: the scan from `itr + 1`
      with the current depth as both running and recorded depth. */
  function LeafLookahead(s: string, itr: nat, depth: int): (r: int)
    ensures r >= depth
  {
    if itr + 1 <= |s| then Lookahead(s, itr + 1, depth, depth) else depth
  }

  /** `floor((n - 1) * (noise + 1) / 2)`, the noise-chosen leaf mesh. */
  function LeafIndex(n: nat, noise: real): int {
    ((n - 1) as real * (noise + 1.0) / 2.0).Floor
  }

  /** For noise in `[-1, 1]` and at least one leaf mesh, the index is a
      valid one. */
  lemma LeafIndexInRange(n: nat, noise: real)
    requires n >= 1 && -1.0 <= noise <= 1.0
    ensures 0 <= LeafIndex(n, noise) <= n - 1
  {
    var m := (n - 1) as real;
    var x := noise + 1.0;
    assert 0.0 <= m * x by {
      assert 0.0 <= m && 0.0 <= x;
    }
    assert m * x <= m * 2.0 by {
      assert 0.0 <= m * (2.0 - x);
    }
    assert 0.0 <= m * x / 2.0 <= m;
  }

  /** `drawBranchLeaf`: nothing below depth 3 or below height 1; otherwise the
      leaf mesh is the noise-chosen one when a deeper `l` lies ahead in the
      same branch and the last mesh when none does. The index reads through
      `scope.leafInstances`, which throws while it is missing, and an index
      outside the list yields an undefined mesh, which throws on use. */
  function DrawBranchLeaf<T>(ops: TreeOps<T>, sc: Scope<T, TreeScope>): (r: Result<Option<nat>>)
    ensures sc.depth < 3 ==> r == Success(None)
    ensures sc.depth >= 3 && ops.originY(sc.turtle) < 1.0 ==> r == Success(None)
    ensures sc.depth >= 3 && ops.originY(sc.turtle) >= 1.0 && sc.payload.leafInstances.None? ==>
      r.Failure? && r.error.TypeError?
    ensures r.Success? && r.value.Some? ==>
      sc.payload.leafInstances.Some? && r.value.value < sc.payload.leafInstances.value
    ensures r.Failure? ==> LeafError(r.error)
  {
    if sc.depth < 3 then Success(None)
    else if ops.originY(sc.turtle) < 1.0 then Success(None)
    else match sc.payload.leafInstances
      case None => Failure(TypeError(LeafInstancesMissing))
      case Some(n) =>
        var idx := LeafIndex(n, ops.leafNoise(sc.turtle));
        var useLast := LeafLookahead(sc.rootString, sc.itr, sc.depth) <= sc.depth;
        var chosen := if useLast then n - 1 else idx;
        if 0 <= chosen < n then Success(Some(chosen))
        else Failure(TypeError(LeafMeshMissing))
  }

  /** Which mesh a leaf gets, against the reference condition: the last one
      exactly when no deeper `l` lies ahead, the noise-chosen one otherwise;
      with at least one mesh and noise in `[-1, 1]` the leaf is placed. */
  lemma LeafChoice<T>(ops: TreeOps<T>, sc: Scope<T, TreeScope>, n: nat)
    requires sc.depth >= 3 && ops.originY(sc.turtle) >= 1.0 && sc.payload.leafInstances == Some(n)
    requires sc.itr < |sc.rootString|
    ensures var deeper := DeeperLeafAhead(sc.rootString, sc.itr + 1, sc.depth, sc.depth);
      && (!deeper ==> DrawBranchLeaf(ops, sc) == (if n >= 1 then Success(Some(n - 1)) else Failure(TypeError(LeafMeshMissing))))
      && (deeper && 0 <= LeafIndex(n, ops.leafNoise(sc.turtle)) < n ==>
            DrawBranchLeaf(ops, sc) == Success(Some(LeafIndex(n, ops.leafNoise(sc.turtle)))))
    ensures n >= 1 && -1.0 <= ops.leafNoise(sc.turtle) <= 1.0 ==> DrawBranchLeaf(ops, sc).Success?
  {
    LookaheadFinds(sc.rootString, sc.itr + 1, sc.depth, sc.depth);
    if n >= 1 && -1.0 <= ops.leafNoise(sc.turtle) <= 1.0 {
      LeafIndexInRange(n, ops.leafNoise(sc.turtle));
    }
  }

  /** `drawBranchSegment` once past its collision test: the mesh instance
      is added to the `branch` mesh, read through `undefined` when there is
      none, and the turtle moves along the segment. */
  function AddSegment<T>(ops: TreeOps<T>, sc: Scope<T, TreeScope>): Result<(T, TreeScope)> {
    if sc.payload.branchMesh then Success((ops.advance(sc.turtle, sc.depth), sc.payload))
    else Failure(TypeError(BranchMeshMissing))
  }

  /** `drawBranchSegment`: nothing below the ground. Above it `influencers`
      is read; with `collisionCheck` set, any compared segment reads
      `constraints`, a hit counts a collision and draws nothing, and a clear
      segment is recorded in `boundingLines` before it is drawn. */
  function DrawBranchSegment<T>(ops: TreeOps<T>, sc: Scope<T, TreeScope>): (r: Result<(T, TreeScope)>)
    ensures ops.originY(sc.turtle) < 0.0 ==> r == Success((sc.turtle, sc.payload))
    ensures ops.originY(sc.turtle) >= 0.0 && sc.payload.influencers.None? ==>
      r == Failure(TypeError(InfluencersMissing))
    ensures EntriesPresent(sc.payload) ==> r.Success?
    ensures r.Failure? ==> r.error.TypeError? && !LeafError(r.error)
    ensures r.Success? && r.value.1 != sc.payload ==>
      sc.payload.influencers == Some(true) && ops.collision(sc.turtle, sc.depth) == Hit
      && r.value == (sc.turtle, sc.payload.(collisions := sc.payload.collisions + 1))
    ensures r.Success? && r.value.1 == sc.payload && ops.originY(sc.turtle) >= 0.0 ==>
      sc.payload.branchMesh && r.value.0 == ops.advance(sc.turtle, sc.depth)
  {
    var p := sc.payload;
    if ops.originY(sc.turtle) < 0.0 then Success((sc.turtle, p))
    else match p.influencers
      case None => Failure(TypeError(InfluencersMissing))
      case Some(check) =>
        if !check then AddSegment(ops, sc)
        else match ops.collision(sc.turtle, sc.depth)
          case NoneStored =>
            if p.boundingLines then AddSegment(ops, sc) else Failure(TypeError(BoundingLinesMissing))
          case Clear =>
            if !p.constraints then Failure(TypeError(ConstraintsMissing))
            else if p.boundingLines then AddSegment(ops, sc) else Failure(TypeError(BoundingLinesMissing))
          case Hit =>
            if p.constraints then Success((sc.turtle, p.(collisions := p.collisions + 1)))
            else Failure(TypeError(ConstraintsMissing))
  }

  /** `natureTick`: the sun bend reads `sunlightDir`, then
      `influencers.sunlight`; the gravity bend scales with
      `depth / maxDepth`. */
  function NatureBend<T>(ops: TreeOps<T>, sc: Scope<T, TreeScope>): (r: Result<(T, TreeScope)>)
    ensures r.Failure? <==> !sc.payload.sunlightDir || sc.payload.influencers.None?
    ensures r.Failure? ==> r.error.TypeError? && !LeafError(r.error)
    ensures r.Success? ==> r.value == (ops.bend(sc.turtle, sc.depth, sc.maxDepth), sc.payload)
  {
    if !sc.payload.sunlightDir then Failure(TypeError(SunlightDirMissing))
    else if sc.payload.influencers.None? then Failure(TypeError(InfluencersMissing))
    else Success((ops.bend(sc.turtle, sc.depth, sc.maxDepth), sc.payload))
  }

  /** The four rotations read their angles from `constraints`. */
  function RotateTurtle<T>(ops: TreeOps<T>, sc: Scope<T, TreeScope>, a: TreeAction): (r: Result<(T, TreeScope)>)
    ensures r.Failure? <==> !sc.payload.constraints
    ensures r.Failure? ==> r.error == TypeError(ConstraintsMissing)
    ensures r.Success? ==> r.value == (ops.rotate(a, sc.turtle), sc.payload)
  {
    if sc.payload.constraints then Success((ops.rotate(a, sc.turtle), sc.payload))
    else Failure(TypeError(ConstraintsMissing))
  }

  /** The handlers: the leaf handler records the mesh it placed a leaf on,
      the segment handler counts collisions, and all but the leaf handler
      move the turtle. Each throws when an entry it reads is missing; with
      every such entry present only the leaf handler can throw. */
  function TreeHandler<T>(ops: TreeOps<T>, sc: Scope<T, TreeScope>, a: TreeAction): (r: Result<(T, TreeScope)>)
    ensures r.Success? ==> SameEntries(sc.payload, r.value.1) && r.value.1.collisions >= sc.payload.collisions
    ensures r.Success? ==> |sc.payload.leaves| <= |r.value.1.leaves| <= |sc.payload.leaves| + 1
    ensures r.Success? ==> r.value.1.leaves[..|sc.payload.leaves|] == sc.payload.leaves
    ensures r.Failure? ==> r.error.TypeError?
    ensures r.Failure? && LeafError(r.error) ==> a == BranchLeaf
    ensures EntriesPresent(sc.payload) && r.Failure? ==> a == BranchLeaf && LeafError(r.error)
    ensures a == BranchLeaf ==> (r.Failure? <==> DrawBranchLeaf(ops, sc).Failure?)
  {
    match a
    case BranchLeaf =>
      var placed :- DrawBranchLeaf(ops, sc);
      var leaves := if placed.Some? then sc.payload.leaves + [placed.value] else sc.payload.leaves;
      Success((sc.turtle, sc.payload.(leaves := leaves)))
    case BranchSegment => DrawBranchSegment(ops, sc)
    case NatureTick => NatureBend(ops, sc)
    case _ => RotateTurtle(ops, sc, a)
  }

  function TreeRun<T>(ops: TreeOps<T>): ClientRun<TreeAction, T, TreeScope> {
    (sc, a) => TreeHandler(ops, sc, a)
  }

  lemma TreeNeverUnderflows<T(!new)>(ops: TreeOps<T>)
    ensures ClientsNeverUnderflow(TreeRun(ops))
  {
    forall sc, a ensures TreeRun(ops)(sc, a).Failure? ==> !TreeRun(ops)(sc, a).error.StackUnderflow? {
    }
  }

  /** Every placed leaf names an existing mesh. */
  predicate LeavesInRange(p: TreeScope) {
    p.leafInstances.Some? && forall j :: 0 <= j < |p.leaves| ==> p.leaves[j] < p.leafInstances.value
  }

  /** The leaves a replay from `sc` ends with keep to their range, extend
      the leaves it started with, and leave the instance list alone. */
  ghost predicate LeavesKept<T>(symbols: map<char, Symbol<TreeAction>>, ops: TreeOps<T>, sc: Scope<T, TreeScope>)
    requires sc.itr <= |sc.rootString|
  {
    var r := Run(symbols, TreeRun(ops), sc);
    r.Success? ==>
      var p := r.value.0.payload;
      LeavesInRange(p) && p.leafInstances == sc.payload.leafInstances
      && |p.leaves| >= |sc.payload.leaves| && p.leaves[..|sc.payload.leaves|] == sc.payload.leaves
  }

  /** A replay keeps the leaf meshes as they are and every recorded leaf in
      range. */
  lemma {:induction false} RunKeepsLeavesInRange<T>(symbols: map<char, Symbol<TreeAction>>, ops: TreeOps<T>,
                                                    sc: Scope<T, TreeScope>)
    requires sc.itr <= |sc.rootString| && LeavesInRange(sc.payload)
    ensures LeavesKept(symbols, ops, sc)
    decreases |sc.rootString| - sc.itr
  {
    if sc.itr < |sc.rootString| {
      match HandlerAt(symbols, sc.rootString[sc.itr])
      case None =>
        RunKeepsLeavesInRange(symbols, ops, sc.(itr := sc.itr + 1));
        RunSkipped(symbols, TreeRun(ops), sc);
      case Some(h) =>
        var r := Invoke(sc, h, TreeRun(ops));
        if r.Success? {
          InvokeKeepsLeaves(ops, sc, h);
          RunKeepsLeavesInRange(symbols, ops, r.value.(itr := sc.itr + 1));
          LeavesKeptStep(symbols, ops, sc, h, r.value);
        } else {
          RunHandlerFails(symbols, TreeRun(ops), sc, h);
        }
    }
  }

  /** One handler keeps the leaves in range and only appends to them. */
  lemma InvokeKeepsLeaves<T>(ops: TreeOps<T>, sc: Scope<T, TreeScope>, h: Handler<TreeAction>)
    requires LeavesInRange(sc.payload) && Invoke(sc, h, TreeRun(ops)).Success?
    ensures var p := Invoke(sc, h, TreeRun(ops)).value.payload;
      LeavesInRange(p) && p.leafInstances == sc.payload.leafInstances
      && |p.leaves| >= |sc.payload.leaves| && p.leaves[..|sc.payload.leaves|] == sc.payload.leaves
  {
    if h.Client? {
      var p := TreeHandler(ops, sc, h.action).value.1;
      assert Invoke(sc, h, TreeRun(ops)).value.payload == p;
      if |p.leaves| > |sc.payload.leaves| {
        assert p.leaves == sc.payload.leaves + [p.leaves[|sc.payload.leaves|]];
      } else {
        assert p.leaves == sc.payload.leaves;
      }
    }
  }

  lemma LeavesKeptStep<T>(symbols: map<char, Symbol<TreeAction>>, ops: TreeOps<T>, sc: Scope<T, TreeScope>,
                          h: Handler<TreeAction>, sc': Scope<T, TreeScope>)
    requires sc.itr < |sc.rootString| && HandlerAt(symbols, sc.rootString[sc.itr]) == Some(h)
    requires Invoke(sc, h, TreeRun(ops)) == Success(sc')
    requires sc'.payload.leafInstances == sc.payload.leafInstances
    requires |sc'.payload.leaves| >= |sc.payload.leaves| && sc'.payload.leaves[..|sc.payload.leaves|] == sc.payload.leaves
    requires LeavesKept(symbols, ops, sc'.(itr := sc.itr + 1))
    ensures LeavesKept(symbols, ops, sc)
  {
    RunHandled(symbols, TreeRun(ops), sc, h, sc');
    var r := Run(symbols, TreeRun(ops), sc'.(itr := sc.itr + 1));
    if r.Success? {
      var q := r.value.0.payload.leaves;
      assert q[..|sc.payload.leaves|] == q[..|sc'.payload.leaves|][..|sc.payload.leaves|];
    }
  }

  /** No handler adds or removes a scope entry. */
  lemma InvokeKeepsEntries<T>(ops: TreeOps<T>, sc: Scope<T, TreeScope>, h: Handler<TreeAction>)
    requires Invoke(sc, h, TreeRun(ops)).Success?
    ensures SameEntries(sc.payload, Invoke(sc, h, TreeRun(ops)).value.payload)
  {
  }

  /** How a tree replay can fail: by underflow or a `TypeError`; and, with
      every entry the other handlers read present, only by underflow or in
      the leaf handler. */
  ghost predicate FailsOnlyAs<T>(symbols: map<char, Symbol<TreeAction>>, ops: TreeOps<T>, sc: Scope<T, TreeScope>)
    requires sc.itr <= |sc.rootString|
  {
    var r := Run(symbols, TreeRun(ops), sc);
    r.Failure? ==>
      (r.error.StackUnderflow? || r.error.TypeError?)
      && (EntriesPresent(sc.payload) ==> r.error.StackUnderflow? || LeafError(r.error))
  }

  lemma {:induction false} TreeRunFailsInLeaf<T>(symbols: map<char, Symbol<TreeAction>>, ops: TreeOps<T>,
                                                 sc: Scope<T, TreeScope>)
    requires sc.itr <= |sc.rootString|
    ensures FailsOnlyAs(symbols, ops, sc)
    decreases |sc.rootString| - sc.itr
  {
    if sc.itr < |sc.rootString| {
      match HandlerAt(symbols, sc.rootString[sc.itr])
      case None =>
        TreeRunFailsInLeaf(symbols, ops, sc.(itr := sc.itr + 1));
        RunSkipped(symbols, TreeRun(ops), sc);
      case Some(h) =>
        var r := Invoke(sc, h, TreeRun(ops));
        if r.Success? {
          InvokeKeepsEntries(ops, sc, h);
          TreeRunFailsInLeaf(symbols, ops, r.value.(itr := sc.itr + 1));
          RunHandled(symbols, TreeRun(ops), sc, h, r.value);
        } else {
          RunHandlerFails(symbols, TreeRun(ops), sc, h);
        }
    }
  }

  // ---------------------------------------------------------------- construct

  /** The grammar `LSystem1` keeps: its rules and symbols as made and a
      working string whose every symbol sits inside a bracket pair. */
  predicate TreeState(g: Grammar<TreeAction>) {
    g.rules == TreeRules && g.symbols == TreeSymbols && g.rootString.Some? && Enclosed(g.rootString.value)
  }

  lemma TreeStateInitially(seed: real)
    ensures TreeState(TreeSystem(seed))
  {
    TreeGrammarShape();
  }

  /** `construct` keeps the tree state, and cannot fail while the noise
      stays below 1. */
  lemma TreeConstruct(g: Grammar<TreeAction>, itr: int, noise: Noise2)
    requires TreeState(g)
    ensures DrawsBelowOne(noise) ==> Construct(g, itr, noise).Success?
    ensures Construct(g, itr, noise).Success? ==> TreeState(Construct(g, itr, noise).value)
  {
    TreeGrammarShape();
    if DrawsBelowOne(noise) {
      ConstructSucceeds(g, itr, noise);
    }
    if Construct(g, itr, noise).Success? {
      ConstructKeepsBalance(g, itr, noise);
    }
  }

  /** `process` of a tree string never pops an empty stack; when it succeeds
      it ends with an empty stack, at depth 1, on the fresh turtle, with
      every recorded leaf on an existing mesh. */
  lemma TreeProcess<T(!new)>(g: Grammar<TreeAction>, payload: TreeScope, ops: TreeOps<T>)
    requires TreeState(g)
    ensures var r := Process(g, payload, ops.start, TreeRun(ops));
      r.Failure? ==> !r.error.StackUnderflow?
    ensures var r := Process(g, payload, ops.start, TreeRun(ops));
      r.Success? ==> IsEmpty(r.value.0.stack) && r.value.0.depth == 1 && r.value.0.turtle == ops.start
    ensures var r := Process(g, payload, ops.start, TreeRun(ops));
      r.Success? && LeavesInRange(payload) ==> LeavesInRange(r.value.0.payload)
  {
    TreeGrammarShape();
    TreeNeverUnderflows(ops);
    ProcessEnclosed(g, payload, ops.start, TreeRun(ops));
    if LeavesInRange(payload) {
      var sc := FreshScope(g.rootString.value, g.maxDepth, ops.start, payload);
      RunKeepsLeavesInRange(g.symbols, ops, sc);
    }
  }

  /** `LSystem1.construct(itr)`: rewrite, then replay into the kept scope. */
  function TreeConstructAll<T>(g: Grammar<TreeAction>, scope: TreeScope, itr: int, ops: TreeOps<T>, noise: Noise2)
    : (r: Result<(Grammar<TreeAction>, TreeScope)>)
    ensures g.rootString.None? ==> r == Failure(MissingAxiom)
    ensures r.Success? ==> r.value.0.rules == g.rules && r.value.0.symbols == g.symbols
  {
    var g' :- Construct(g, itr, noise);
    var out :- Process(g', scope, ops.start, TreeRun(ops));
    Success((g', out.0.payload))
  }

  /** From the tree state, a whole `construct` call keeps the tree state,
      never underflows the turtle stack, fails only in a handler or in rule
      selection, and keeps every recorded leaf on an existing mesh. With
      every entry the other handlers read present, the only handler that
      can fail is the leaf handler. */
  lemma TreeConstructAllSafe<T(!new)>(g: Grammar<TreeAction>, scope: TreeScope, itr: int, ops: TreeOps<T>, noise: Noise2)
    requires TreeState(g)
    ensures var r := TreeConstructAll(g, scope, itr, ops, noise);
      r.Failure? ==> r.error.TypeError? || r.error.NoRuleSelected?
    ensures var r := TreeConstructAll(g, scope, itr, ops, noise);
      r.Failure? && DrawsBelowOne(noise) ==> r.error.TypeError?
    ensures var r := TreeConstructAll(g, scope, itr, ops, noise);
      r.Failure? && EntriesPresent(scope) ==> LeafError(r.error) || r.error.NoRuleSelected?
    ensures var r := TreeConstructAll(g, scope, itr, ops, noise);
      r.Success? ==> TreeState(r.value.0) && (LeavesInRange(scope) ==> LeavesInRange(r.value.1))
  {
    TreeConstruct(g, itr, noise);
    var c := Construct(g, itr, noise);
    if c.Success? {
      TreeProcess(c.value, scope, ops);
      var sc := FreshScope(c.value.rootString.value, c.value.maxDepth, ops.start, scope);
      TreeRunFailsInLeaf(c.value.symbols, ops, sc);
    }
  }

  /** The scope `new LSystem1(seed)` builds holds no `constraints`: given
      only its leaf meshes, `construct(0)` throws at the axiom's first `/`,
      index 4, the first symbol with a handler other than a bracket. */
  lemma ConstructorScopeThrows<T>(seed: real, n: nat, ops: TreeOps<T>, noise: Noise2)
    ensures TreeConstructAll(TreeSystem(seed), ConstructorScope.(leafInstances := Some(n)), 0, ops, noise)
      == Failure(TypeError(ConstraintsMissing))
  {
    var c := Construct(TreeSystem(seed), 0, noise);
    assert c.Success? && c.value.rootString == Some(Axiom) && c.value.symbols == TreeSymbols;
    AxiomStart();
    AxiomHandlers();
    ReplayWithoutConstraints(TreeSymbols, ops,
      FreshScope(Axiom, c.value.maxDepth, ops.start, ConstructorScope.(leafInstances := Some(n))));
  }

  lemma AxiomStart()
    ensures |Axiom| > 4 && Axiom[0] == '[' && Axiom[1] == 'F' && Axiom[2] == ']' && Axiom[3] == '[' && Axiom[4] == '/'
  {
  }

  lemma AxiomHandlers()
    ensures HandlerAt(TreeSymbols, '[') == Some(SaveState) && HandlerAt(TreeSymbols, ']') == Some(RestoreState)
    ensures HandlerAt(TreeSymbols, 'F').None? && HandlerAt(TreeSymbols, '/') == Some(Client(TiltCW))
  {
  }

  /** The replay of a string starting `[F][/` from a fresh scope without
      `constraints`: save, skip `F`, restore, save, and `/` throws. */
  lemma ReplayWithoutConstraints<T>(symbols: map<char, Symbol<TreeAction>>, ops: TreeOps<T>, sc0: Scope<T, TreeScope>)
    requires var s := sc0.rootString;
      |s| > 4 && s[0] == '[' && s[1] == 'F' && s[2] == ']' && s[3] == '[' && s[4] == '/'
    requires HandlerAt(symbols, '[') == Some(SaveState) && HandlerAt(symbols, ']') == Some(RestoreState)
    requires HandlerAt(symbols, 'F').None? && HandlerAt(symbols, '/') == Some(Client(TiltCW))
    requires sc0.itr == 0 && IsEmpty(sc0.stack) && !sc0.payload.constraints
    ensures Run(symbols, TreeRun(ops), sc0) == Failure(TypeError(ConstraintsMissing))
  {
    var run := TreeRun(ops);
    var sc1 := OpSaveState(sc0).(depth := sc0.depth + 1);
    RunHandled(symbols, run, sc0, SaveState, sc1);
    var sc2 := sc1.(itr := 1);
    RunSkipped(symbols, run, sc2);
    var sc3 := sc2.(itr := 2);
    var sc4 := OpRestoreState(sc3).value.(depth := sc3.depth - 1);
    RunHandled(symbols, run, sc3, RestoreState, sc4);
    var sc5 := sc4.(itr := 3);
    var sc6 := OpSaveState(sc5).(depth := sc5.depth + 1);
    RunHandled(symbols, run, sc5, SaveState, sc6);
    var sc7 := sc6.(itr := 4);
    assert sc7.payload == sc0.payload;
    RunHandlerFails(symbols, run, sc7, Client(TiltCW));
  }
}
