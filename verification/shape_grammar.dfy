/** The lot-layout client of the engine: axiom `P`, the single rule
    `P -> bF{1}+P`, and handlers that drop a square lot, step forward and
    turn. Turtle geometry is kept opaque. */
module ShapeGrammar {
  import opened Common
  import opened Brackets
  import opened LSystem
  import opened Rewriting
  import opened Execution

  datatype ShapeAction = DrawSquareLot | RotateCCW90 | MoveForward

  /** A lot record: which lot, its scale, and where the turtle put it. */
  datatype Lot<L, V> = Lot(lot: L, localScale: int, localTranslation: V)

  /** The caller's scope: the growing result list, and `lotsMap.Square` once
      `addScope('lotsMap', ...)` has supplied it. */
  datatype ShapeScope<L, V> = ShapeScope(resultLots: seq<Lot<L, V>>, square: Option<L>)

  /** The floating-point turtle operations the handlers perform, as opaque
      functions: the fresh turtle, a -90 degree turn about Y, a unit step
      along X, and the world position of the turtle's local origin. */
  datatype TurtleOps<!T, V> = TurtleOps(start: T, rotateCCW90: T -> T, moveForward: T -> T, lotPosition: T -> V)

  datatype ShapeGrammarSystem<L, V> = ShapeGrammarSystem(system: Grammar<ShapeAction>, scope: ShapeScope<L, V>)

  const Unit: string := "bF{1}+"

  function ShapeSystem(seed: real): Grammar<ShapeAction> {
    var g := AddRule(SetAxiom(NewLSystem(seed), "P"), 'P', Unit + "P");
    var g := AddSymbol(g, 'b', Some(Client(DrawSquareLot)));
    var g := AddSymbol(g, '+', Some(Client(RotateCCW90)));
    AddSymbol(g, 'F', Some(Client(MoveForward)))
  }

  /** `new LSystemShapeGrammar(seed)`. */
  function NewShapeGrammar<L, V>(seed: real): (sg: ShapeGrammarSystem<L, V>)
    ensures sg.system.rootString == Some("P") && sg.system.seed == seed
    ensures sg.scope.resultLots == [] && sg.scope.square.None?
  {
    ShapeGrammarSystem(ShapeSystem(seed), ShapeScope([], None))
  }

  /** `addScope('lotsMap', lotsMap)`, reduced to the `Square` entry read. */
  function AddLotsMap<L, V>(sg: ShapeGrammarSystem<L, V>, square: L): (r: ShapeGrammarSystem<L, V>)
    ensures r.system == sg.system && r.scope.resultLots == sg.scope.resultLots && r.scope.square == Some(square)
  {
    sg.(scope := sg.scope.(square := Some(square)))
  }

  /** The handlers. `drawSquareLot` reads `scope.lotsMap.Square`, which
      throws while no lots map has been added. */
  function ShapeHandler<T, L, V>(ops: TurtleOps<T, V>, sc: Scope<T, ShapeScope<L, V>>, a: ShapeAction)
    : (r: Result<(T, ShapeScope<L, V>)>)
    ensures r.Failure? <==> a == DrawSquareLot && sc.payload.square.None?
    ensures r.Failure? ==> r.error.TypeError?
    ensures a == DrawSquareLot && r.Success? ==>
      r.value.0 == sc.turtle && r.value.1.square == sc.payload.square
      && r.value.1.resultLots == sc.payload.resultLots + [Lot(sc.payload.square.value, 30, ops.lotPosition(sc.turtle))]
    ensures a == RotateCCW90 ==> r == Success((ops.rotateCCW90(sc.turtle), sc.payload))
    ensures a == MoveForward ==> r == Success((ops.moveForward(sc.turtle), sc.payload))
  {
    match a
    case DrawSquareLot =>
      if sc.payload.square.None? then Failure(TypeError("scope.lotsMap is undefined"))
      else
        var lot := Lot(sc.payload.square.value, 30, ops.lotPosition(sc.turtle));
        Success((sc.turtle, sc.payload.(resultLots := sc.payload.resultLots + [lot])))
    case RotateCCW90 => Success((ops.rotateCCW90(sc.turtle), sc.payload))
    case MoveForward => Success((ops.moveForward(sc.turtle), sc.payload))
  }

  function ShapeRun<T, L, V>(ops: TurtleOps<T, V>): ClientRun<ShapeAction, T, ShapeScope<L, V>> {
    (sc, a) => ShapeHandler(ops, sc, a)
  }

  /** `LSystemShapeGrammar.construct(itr)`: rewrite, replay into the kept
      scope, and hand back that scope's result list. */
  function ShapeConstruct<T, L, V>(sg: ShapeGrammarSystem<L, V>, itr: int, ops: TurtleOps<T, V>, noise: Noise2)
    : (r: Result<(ShapeGrammarSystem<L, V>, seq<Lot<L, V>>)>)
    ensures sg.system.rootString.None? ==> r == Failure(MissingAxiom)
    ensures r.Success? ==> r.value.1 == r.value.0.scope.resultLots
    ensures r.Success? ==> r.value.0.system.rules == sg.system.rules && r.value.0.system.symbols == sg.system.symbols
  {
    var g :- Construct(sg.system, itr, noise);
    var out :- Process(g, sg.scope, ops.start, ShapeRun(ops));
    Success((ShapeGrammarSystem(g, out.0.payload), out.0.payload.resultLots))
  }

  // ---------------------------------------------------------------- the working string

  const ShapeRules: map<char, RuleSet> := map['P' := RuleSet([Rule('P', Unit + "P", 1.0)], 1.0)]

  /** `k` copies of `u`. */
  function Repeat(u: string, k: nat): (r: string)
    ensures |r| == k * |u|
  {
    if k == 0 then [] else Repeat(u, k - 1) + u
  }

  /** The grammar the constructor builds: the one rule for `P`, the two
      bracket symbols and the three client symbols, axiom `P`. */
  lemma ShapeSystemIs(seed: real)
    ensures ShapeSystem(seed).rules == ShapeRules && ShapeSystem(seed).symbols == ShapeSymbols
    ensures ShapeSystem(seed).rootString == Some("P") && ShapeSystem(seed).seed == seed
    ensures ShapeSystem(seed).maxDepth == None
    ensures Deterministic(ShapeRules)
  {
    var g0 := SetAxiom(NewLSystem<ShapeAction>(seed), "P");
    var g1 := AddRule(g0, 'P', Unit + "P");
    assert g1.rules == ShapeRules;
    var g2 := AddSymbol(g1, 'b', Some(Client(DrawSquareLot)));
    var g3 := AddSymbol(g2, '+', Some(Client(RotateCCW90)));
    var g4 := AddSymbol(g3, 'F', Some(Client(MoveForward)));
    assert g4.symbols == ShapeSymbols;
  }

  /** A string without `P` is left as it is by a generation. */
  lemma {:induction false} ExpandKeepsNonP(s: string)
    requires PlainUnits(s)
    ensures Expand(ShapeRules, s) == s
    decreases |s|
  {
    ShapeRulesDeterministic();
    if |s| == 0 {
      assert DetPieces(ShapeRules, s) == [];
    } else {
      var init, last := s[..|s| - 1], s[|s| - 1];
      assert s == init + [last];
      assert PlainUnits(init) by {
        forall j | 0 <= j < |init| ensures init[j] != 'P' && !IsBracket(init[j]) {
          assert init[j] == s[j];
        }
      }
      ExpandAppend(ShapeRules, init, [last]);
      ExpandKeepsNonP(init);
      ExpandOne(ShapeRules, last);
      assert last != 'P';
      assert DetPiece(ShapeRules, last) == [last];
    }
  }

  /** Neither `P` nor a bracket occurs in `s`. */
  predicate PlainUnits(s: string) {
    forall j :: 0 <= j < |s| ==> s[j] != 'P' && !IsBracket(s[j])
  }

  /** `k` units hold neither `P` nor a bracket. */
  lemma {:induction false} RepeatChars(k: nat)
    ensures PlainUnits(Repeat(Unit, k))
  {
    if k > 0 {
      RepeatChars(k - 1);
      var r := Repeat(Unit, k);
      var n := |Repeat(Unit, k - 1)|;
      assert r == Repeat(Unit, k - 1) + Unit;
      assert PlainUnits(Unit);
      forall j | 0 <= j < |r| ensures r[j] != 'P' && !IsBracket(r[j]) {
        if j >= n {
          assert r[j] == Unit[j - n];
        } else {
          assert r[j] == Repeat(Unit, k - 1)[j];
        }
      }
    }
  }

  lemma ShapeRulesDeterministic()
    ensures Deterministic(ShapeRules)
    ensures DetPiece(ShapeRules, 'P') == Unit + "P"
  {
  }

  /** One generation appends one more `bF{1}+` before the trailing `P`. */
  lemma ExpandShape(k: nat)
    ensures Expand(ShapeRules, Repeat(Unit, k) + "P") == Repeat(Unit, k + 1) + "P"
  {
    ShapeRulesDeterministic();
    RepeatChars(k);
    ExpandAppend(ShapeRules, Repeat(Unit, k), "P");
    ExpandKeepsNonP(Repeat(Unit, k));
    ExpandOne(ShapeRules, 'P');
    assert "P" == ['P'];
    assert Repeat(Unit, k + 1) == Repeat(Unit, k) + Unit;
  }

  lemma {:induction false} ExpandNShape(k: nat, n: nat)
    ensures ExpandN(ShapeRules, Repeat(Unit, k) + "P", n) == Repeat(Unit, k + n) + "P"
    decreases n
  {
    ShapeRulesDeterministic();
    if n > 0 {
      ExpandShape(k);
      ExpandNShape(k + 1, n - 1);
      assert ExpandN(ShapeRules, Repeat(Unit, k) + "P", n)
          == ExpandN(ShapeRules, Repeat(Unit, k + 1) + "P", n - 1);
    }
  }

  lemma {:induction false} RepeatStartsWithB(k: nat)
    requires k >= 1
    ensures Repeat(Unit, k)[0] == 'b'
  {
    if k > 1 {
      RepeatStartsWithB(k - 1);
    }
  }

  // ---------------------------------------------------------------- the lot walk

  /** The turtle move one `bF{1}+` performs: a step forward, then a turn. */
  function Step<T, V>(ops: TurtleOps<T, V>, t: T): T {
    ops.rotateCCW90(ops.moveForward(t))
  }

  /** The turtle after `k` steps from `t`. */
  function Iterate<T, V>(ops: TurtleOps<T, V>, k: nat, t: T): T {
    if k == 0 then t else Step(ops, Iterate(ops, k - 1, t))
  }

  /** The lot a symbol lays where the turtle `t` stands: only `b` lays one. */
  function LaidBy<T, L, V>(ops: TurtleOps<T, V>, sq: L, c: char, t: T): seq<Lot<L, V>> {
    if c == 'b' then [Lot(sq, 30, ops.lotPosition(t))] else []
  }

  /** Where a symbol moves the turtle: `F` steps, `+` turns. */
  function MovedBy<T, V>(ops: TurtleOps<T, V>, c: char, t: T): T {
    if c == 'F' then ops.moveForward(t) else if c == '+' then ops.rotateCCW90(t) else t
  }

  /** Reference reading of a bracket-free string: the lots it lays and the
      turtle it leaves, symbol by symbol. */
  function Walk<T, L, V>(ops: TurtleOps<T, V>, sq: L, s: string, t: T): (seq<Lot<L, V>>, T)
    decreases |s|
  {
    if |s| == 0 then ([], t)
    else
      var rest := Walk(ops, sq, s[1..], MovedBy(ops, s[0], t));
      (LaidBy(ops, sq, s[0], t) + rest.0, rest.1)
  }

  lemma {:induction false} WalkAppend<T, L, V>(ops: TurtleOps<T, V>, sq: L, a: string, b: string, t: T)
    ensures var wa := Walk(ops, sq, a, t); var wb := Walk(ops, sq, b, wa.1);
      Walk(ops, sq, a + b, t).0 == wa.0 + wb.0 && Walk(ops, sq, a + b, t).1 == wb.1
    decreases |a|
  {
    if |a| == 0 {
      assert a + b == b;
    } else {
      assert (a + b)[0] == a[0] && (a + b)[1..] == a[1..] + b;
      WalkAppend(ops, sq, a[1..], b, MovedBy(ops, a[0], t));
    }
  }

  /** Reading one symbol off the front. */
  lemma WalkCons<T, L, V>(ops: TurtleOps<T, V>, sq: L, c: char, s: string, t: T)
    ensures var rest := Walk(ops, sq, s, MovedBy(ops, c, t));
      Walk(ops, sq, [c] + s, t).0 == LaidBy(ops, sq, c, t) + rest.0 && Walk(ops, sq, [c] + s, t).1 == rest.1
  {
    assert ([c] + s)[0] == c && ([c] + s)[1..] == s;
  }

  lemma WalkUnit<T, L, V>(ops: TurtleOps<T, V>, sq: L, t: T)
    ensures Walk(ops, sq, Unit, t).0 == [Lot(sq, 30, ops.lotPosition(t))]
    ensures Walk(ops, sq, Unit, t).1 == Step(ops, t)
  {
    WalkUnitTail(ops, sq, ops.moveForward(t));
    WalkCons(ops, sq, 'F', "{1}+", t);
    WalkCons(ops, sq, 'b', "F{1}+", t);
    assert ['F'] + "{1}+" == "F{1}+" && ['b'] + "F{1}+" == Unit;
  }

  /** After `bF` the unit lays nothing more and only turns. */
  lemma WalkUnitTail<T, L, V>(ops: TurtleOps<T, V>, sq: L, t: T)
    ensures Walk(ops, sq, "{1}+", t) == ([], ops.rotateCCW90(t))
  {
    WalkCons(ops, sq, '+', [], t);
    WalkCons(ops, sq, '}', "+", t);
    WalkCons(ops, sq, '1', "}+", t);
    WalkCons(ops, sq, '{', "1}+", t);
    assert ['+'] + [] == "+" && ['}'] + "+" == "}+" && ['1'] + "}+" == "1}+" && ['{'] + "1}+" == "{1}+";
  }

  /** `k` units lay `k` lots, the `j`-th where the turtle stands after `j`
      steps. */
  lemma {:induction false} WalkRepeat<T, L, V>(ops: TurtleOps<T, V>, sq: L, k: nat, t: T)
    ensures var w := Walk(ops, sq, Repeat(Unit, k), t);
      |w.0| == k && w.1 == Iterate(ops, k, t)
      && forall j :: 0 <= j < k ==> w.0[j] == Lot(sq, 30, ops.lotPosition(Iterate(ops, j, t)))
  {
    if k > 0 {
      WalkRepeat(ops, sq, k - 1, t);
      WalkAppend(ops, sq, Repeat(Unit, k - 1), Unit, t);
      WalkUnit(ops, sq, Iterate(ops, k - 1, t));
    }
  }

  // ---------------------------------------------------------------- the replay

  const ShapeSymbols: map<char, Symbol<ShapeAction>> :=
    map['[' := Symbol('[', Some(SaveState)), ']' := Symbol(']', Some(RestoreState)),
        'b' := Symbol('b', Some(Client(DrawSquareLot))), '+' := Symbol('+', Some(Client(RotateCCW90))),
        'F' := Symbol('F', Some(Client(MoveForward)))]

  /** `{`, `1`, `}` and `P` are registered nowhere, so the replay passes
      over them; `b`, `F` and `+` reach their handlers. */
  lemma ShapeHandlers()
    ensures HandlerAt(ShapeSymbols, 'b') == Some(Client(DrawSquareLot))
    ensures HandlerAt(ShapeSymbols, 'F') == Some(Client(MoveForward))
    ensures HandlerAt(ShapeSymbols, '+') == Some(Client(RotateCCW90))
    ensures forall c :: c in "{1}P" ==> HandlerAt(ShapeSymbols, c) == None
  {
  }

  /** The scope after one bracket-free symbol with a lots map in scope. */
  function ShapeStep<T, L, V>(ops: TurtleOps<T, V>, sq: L, sc: Scope<T, ShapeScope<L, V>>): Scope<T, ShapeScope<L, V>>
    requires sc.itr < |sc.rootString|
  {
    var c := sc.rootString[sc.itr];
    sc.(itr := sc.itr + 1, turtle := MovedBy(ops, c, sc.turtle),
        payload := sc.payload.(resultLots := sc.payload.resultLots + LaidBy(ops, sq, c, sc.turtle)))
  }

  /** Replaying from `sc` and from the scope after its next symbol end alike. */
  ghost predicate StepAgrees<T, L, V>(ops: TurtleOps<T, V>, sq: L, sc: Scope<T, ShapeScope<L, V>>)
    requires sc.itr < |sc.rootString|
  {
    var r, r' := Run(ShapeSymbols, ShapeRun(ops), sc), Run(ShapeSymbols, ShapeRun(ops), ShapeStep(ops, sq, sc));
    r.Success? == r'.Success? && (r.Success? ==> r.value.0 == r'.value.0)
  }

  lemma RunShapeStep<T, L, V>(ops: TurtleOps<T, V>, sq: L, sc: Scope<T, ShapeScope<L, V>>)
    requires sc.itr < |sc.rootString| && sc.payload.square == Some(sq)
    requires !IsBracket(sc.rootString[sc.itr])
    ensures StepAgrees(ops, sq, sc)
  {
    var c := sc.rootString[sc.itr];
    if c == 'b' {
      RunShapeDraw(ops, sq, sc);
    } else if c == 'F' || c == '+' {
      RunShapeMove(ops, sq, sc);
    } else {
      RunShapeSkip(ops, sq, sc);
    }
  }

  lemma RunShapeDraw<T, L, V>(ops: TurtleOps<T, V>, sq: L, sc: Scope<T, ShapeScope<L, V>>)
    requires sc.itr < |sc.rootString| && sc.payload.square == Some(sq)
    requires sc.rootString[sc.itr] == 'b'
    ensures StepAgrees(ops, sq, sc)
  {
    var next := ShapeStep(ops, sq, sc);
    var h := Client(DrawSquareLot);
    assert HandlerAt(ShapeSymbols, 'b') == Some(h);
    assert Invoke(sc, h, ShapeRun(ops)) == Success(next.(itr := sc.itr));
    RunHandled(ShapeSymbols, ShapeRun(ops), sc, h, next.(itr := sc.itr));
  }

  lemma RunShapeMove<T, L, V>(ops: TurtleOps<T, V>, sq: L, sc: Scope<T, ShapeScope<L, V>>)
    requires sc.itr < |sc.rootString| && sc.payload.square == Some(sq)
    requires sc.rootString[sc.itr] == 'F' || sc.rootString[sc.itr] == '+'
    ensures StepAgrees(ops, sq, sc)
  {
    var c := sc.rootString[sc.itr];
    var next := ShapeStep(ops, sq, sc);
    var h := if c == 'F' then Client(MoveForward) else Client(RotateCCW90);
    assert HandlerAt(ShapeSymbols, c) == Some(h);
    assert LaidBy(ops, sq, c, sc.turtle) == [];
    assert sc.payload.resultLots + [] == sc.payload.resultLots;
    assert next.(itr := sc.itr) == sc.(turtle := MovedBy(ops, c, sc.turtle));
    assert Invoke(sc, h, ShapeRun(ops)) == Success(next.(itr := sc.itr));
    RunHandled(ShapeSymbols, ShapeRun(ops), sc, h, next.(itr := sc.itr));
  }

  lemma RunShapeSkip<T, L, V>(ops: TurtleOps<T, V>, sq: L, sc: Scope<T, ShapeScope<L, V>>)
    requires sc.itr < |sc.rootString| && sc.payload.square == Some(sq)
    requires !IsBracket(sc.rootString[sc.itr])
    requires sc.rootString[sc.itr] !in "bF+"
    ensures StepAgrees(ops, sq, sc)
  {
    var c := sc.rootString[sc.itr];
    assert HandlerAt(ShapeSymbols, c) == None;
    assert sc.payload.resultLots + [] == sc.payload.resultLots;
    assert sc.(itr := sc.itr + 1) == ShapeStep(ops, sq, sc);
  }

  /** The replay from `sc` succeeds, leaving the turtle and the lots the
      reference walk of the rest of the string gives. */
  ghost predicate RunMatchesWalk<T, L, V>(ops: TurtleOps<T, V>, sq: L, sc: Scope<T, ShapeScope<L, V>>)
    requires sc.itr <= |sc.rootString|
  {
    var r := Run(ShapeSymbols, ShapeRun(ops), sc);
    var w := Walk(ops, sq, sc.rootString[sc.itr..], sc.turtle);
    r.Success? && r.value.0.turtle == w.1
    && r.value.0.payload == ShapeScope(sc.payload.resultLots + w.0, Some(sq))
  }

  /** With a lots map in scope, replaying a bracket-free string does what the
      reference walk says. */
  lemma {:induction false} RunWalk<T, L, V>(ops: TurtleOps<T, V>, sq: L, sc: Scope<T, ShapeScope<L, V>>)
    requires sc.itr <= |sc.rootString| && sc.payload.square == Some(sq)
    requires forall k :: sc.itr <= k < |sc.rootString| ==> !IsBracket(sc.rootString[k])
    ensures RunMatchesWalk(ops, sq, sc)
    decreases |sc.rootString| - sc.itr
  {
    if sc.itr < |sc.rootString| {
      RunWalk(ops, sq, ShapeStep(ops, sq, sc));
      RunWalkStep(ops, sq, sc);
    } else {
      assert sc.rootString[sc.itr..] == [];
      assert sc.payload.resultLots + [] == sc.payload.resultLots;
    }
  }

  lemma RunWalkStep<T, L, V>(ops: TurtleOps<T, V>, sq: L, sc: Scope<T, ShapeScope<L, V>>)
    requires sc.itr < |sc.rootString| && sc.payload.square == Some(sq)
    requires !IsBracket(sc.rootString[sc.itr])
    requires RunMatchesWalk(ops, sq, ShapeStep(ops, sq, sc))
    ensures RunMatchesWalk(ops, sq, sc)
  {
    var s := sc.rootString;
    var c := s[sc.itr];
    RunShapeStep(ops, sq, sc);
    assert s[sc.itr..] == [c] + s[sc.itr + 1..];
    WalkCons(ops, sq, c, s[sc.itr + 1..], sc.turtle);
    var rest := Walk(ops, sq, s[sc.itr + 1..], MovedBy(ops, c, sc.turtle));
    assert sc.payload.resultLots + LaidBy(ops, sq, c, sc.turtle) + rest.0
        == sc.payload.resultLots + (LaidBy(ops, sq, c, sc.turtle) + rest.0);
  }

  /** The state a shape grammar is in after `k` generations in all: its
      rules and symbols as made, `k` units before the `P`. */
  predicate AfterGenerations<L, V>(sg: ShapeGrammarSystem<L, V>, k: nat) {
    sg.system.rules == ShapeRules && sg.system.symbols == ShapeSymbols
    && sg.system.rootString == Some(Repeat(Unit, k) + "P")
  }

  /** `lots` is `prior` followed by the `m` lots a replay from the start
      turtle lays: the `j`-th where the turtle stands after `j` steps. */
  ghost predicate LaysAfter<T, L, V>(lots: seq<Lot<L, V>>, prior: seq<Lot<L, V>>, m: nat, sq: L, ops: TurtleOps<T, V>) {
    |lots| == |prior| + m && lots[..|prior|] == prior
    && forall j :: 0 <= j < m ==> lots[|prior| + j] == Lot(sq, 30, ops.lotPosition(Iterate(ops, j, ops.start)))
  }

  lemma ShapeRewrite(g: Grammar<ShapeAction>, k: nat, n: nat, noise: Noise2)
    requires g.rules == ShapeRules && g.rootString == Some(Repeat(Unit, k) + "P")
    ensures Construct(g, n, noise).Success?
    ensures Construct(g, n, noise).value.rootString == Some(Repeat(Unit, k + n) + "P")
  {
    GenerationsDeterministic(ShapeRules, Repeat(Unit, k) + "P", g.seed, n, noise);
    ExpandNShape(k, n);
  }

  /** Replaying `m` units and a `P` with a lots map in scope lays `m` lots
      after the ones already in the list. */
  lemma ShapeReplay<T, L, V>(g: Grammar<ShapeAction>, m: nat, sq: L, payload: ShapeScope<L, V>, ops: TurtleOps<T, V>)
    requires g.symbols == ShapeSymbols && g.rootString == Some(Repeat(Unit, m) + "P")
    requires payload.square == Some(sq)
    ensures var r := Process(g, payload, ops.start, ShapeRun(ops));
      r.Success? && r.value.0.payload.square == Some(sq)
      && LaysAfter(r.value.0.payload.resultLots, payload.resultLots, m, sq, ops)
  {
    var t := Repeat(Unit, m) + "P";
    RepeatChars(m);
    var sc := FreshScope(t, g.maxDepth, ops.start, payload);
    forall j | 0 <= j < |t| ensures !IsBracket(t[j]) {
      if j < |Repeat(Unit, m)| {
        assert t[j] == Repeat(Unit, m)[j];
      } else {
        assert t[j] == 'P';
      }
    }
    RunWalk(ops, sq, sc);
    assert t[0..] == t;
    WalkAppend(ops, sq, Repeat(Unit, m), "P", ops.start);
    WalkCons(ops, sq, 'P', [], Iterate(ops, m, ops.start));
    assert ['P'] + [] == "P";
    WalkRepeat(ops, sq, m, ops.start);
  }

  /** `construct(n)` on a grammar with `k` generations behind it and a lots
      map in scope: the string gains `n` units, and the whole string is
      replayed from a fresh turtle, so the scope's list grows by `k + n`
      lots, the `j`-th at the turtle's position after `j` steps. */
  lemma ShapeConstructLots<T, L, V>(sg: ShapeGrammarSystem<L, V>, k: nat, n: nat, sq: L,
                                    ops: TurtleOps<T, V>, noise: Noise2)
    requires AfterGenerations(sg, k) && sg.scope.square == Some(sq)
    ensures ShapeConstruct(sg, n, ops, noise).Success?
    ensures var (sg', lots) := ShapeConstruct(sg, n, ops, noise).value;
      AfterGenerations(sg', k + n) && sg'.scope.square == Some(sq)
      && LaysAfter(lots, sg.scope.resultLots, k + n, sq, ops)
  {
    ShapeRewrite(sg.system, k, n, noise);
    var g := Construct(sg.system, n, noise).value;
    ShapeReplay(g, k + n, sq, sg.scope, ops);
  }

  /** From `new LSystemShapeGrammar(seed)` with a lots map added,
      `construct(a)` returns `a` lots, and a following `construct(b)` returns
      the same list grown to `a + (a + b)` lots: the second replay lays the
      first `a` lots again. */
  lemma ShapeConstructTwice<T, L, V>(seed: real, sq: L, a: nat, b: nat, ops: TurtleOps<T, V>, noise: Noise2)
    ensures var sg0 := AddLotsMap(NewShapeGrammar<L, V>(seed), sq);
      var r1 := ShapeConstruct(sg0, a, ops, noise);
      r1.Success? && |r1.value.1| == a
      && var r2 := ShapeConstruct(r1.value.0, b, ops, noise);
         r2.Success? && |r2.value.1| == a + (a + b) && r2.value.1[..a] == r1.value.1
         && r2.value.0.system.rootString == Some(Repeat(Unit, a + b) + "P")
  {
    var sg0 := AddLotsMap(NewShapeGrammar<L, V>(seed), sq);
    ShapeSystemIs(seed);
    assert Repeat(Unit, 0) + "P" == "P";
    assert AfterGenerations(sg0, 0);
    ShapeConstructLots(sg0, 0, a, sq, ops, noise);
    var sg1 := ShapeConstruct(sg0, a, ops, noise).value.0;
    ShapeConstructLots(sg1, a, b, sq, ops, noise);
  }

  /** Without a lots map, a `b` under the replay throws. */
  lemma DrawWithoutLotsMap<T, L, V>(ops: TurtleOps<T, V>, sc: Scope<T, ShapeScope<L, V>>)
    requires sc.itr < |sc.rootString| && sc.rootString[sc.itr] == 'b' && sc.payload.square.None?
    ensures Run(ShapeSymbols, ShapeRun(ops), sc).Failure?
    ensures Run(ShapeSymbols, ShapeRun(ops), sc).error.TypeError?
  {
    ShapeHandlers();
    assert Invoke(sc, Client(DrawSquareLot), ShapeRun(ops)).Failure?;
  }

  /** Replaying a string that starts with `b` without a lots map throws. */
  lemma ProcessNeedsLotsMap<T, L, V>(g: Grammar<ShapeAction>, payload: ShapeScope<L, V>, ops: TurtleOps<T, V>)
    requires g.symbols == ShapeSymbols && g.rootString.Some?
    requires |g.rootString.value| > 0 && g.rootString.value[0] == 'b' && payload.square.None?
    ensures Process(g, payload, ops.start, ShapeRun(ops)).Failure?
    ensures Process(g, payload, ops.start, ShapeRun(ops)).error.TypeError?
  {
    var sc := FreshScope(g.rootString.value, g.maxDepth, ops.start, payload);
    DrawWithoutLotsMap(ops, sc);
  }

  /** `n` generations from the grammar the constructor builds. */
  lemma ConstructedShape(g: Grammar<ShapeAction>, n: nat, noise: Noise2)
    requires g.rules == ShapeRules && g.symbols == ShapeSymbols && g.rootString == Some("P")
    ensures Construct(g, n, noise).Success?
    ensures Construct(g, n, noise).value.symbols == ShapeSymbols
    ensures Construct(g, n, noise).value.rootString == Some(Repeat(Unit, n) + "P")
  {
    assert Repeat(Unit, 0) + "P" == "P";
    ShapeRewrite(g, 0, n, noise);
  }

  /** Without a lots map, the first `b` the replay meets throws. */
  lemma ShapeConstructNeedsLotsMap<T, L, V>(seed: real, n: nat, ops: TurtleOps<T, V>, noise: Noise2)
    requires n >= 1
    ensures ShapeConstruct(NewShapeGrammar<L, V>(seed), n, ops, noise).Failure?
    ensures ShapeConstruct(NewShapeGrammar<L, V>(seed), n, ops, noise).error.TypeError?
  {
    var sg := NewShapeGrammar<L, V>(seed);
    ShapeSystemIs(seed);
    ConstructedShape(sg.system, n, noise);
    var g := Construct(sg.system, n, noise).value;
    var t := Repeat(Unit, n) + "P";
    RepeatStartsWithB(n);
    assert |Repeat(Unit, n)| >= 1 && t[0] == Repeat(Unit, n)[0];
    ProcessNeedsLotsMap(g, sg.scope, ops);
  }
}
