/** The stochastic L-system engine: grammar set-up, weighted rule selection,
    parallel rewriting and the bracket-depth scan that follows it. */
module LSystem {
  import opened Common
  import opened Brackets

  datatype Rule = Rule(source: char, expr: string, weight: real)

  /** The rules of one source symbol, in the order they were added, with the
      running sum of their weights. */
  datatype RuleSet = RuleSet(rules: seq<Rule>, totalWeight: real)

  /** What a registered symbol does when `process` reaches it: the two
      built-in bracket handlers, or a client handler named by `A`. */
  datatype Handler<A> = SaveState | RestoreState | Client(action: A)

  /** A registered symbol. `handler == None` is a symbol registered with a
      falsy handler, which `process` skips. */
  datatype Symbol<A> = Symbol(value: char, handler: Option<Handler<A>>)

  datatype Grammar<A> = Grammar(
    rules: map<char, RuleSet>,
    symbols: map<char, Symbol<A>>,
    seed: real,
    rootString: Option<string>,  // `None` until `setAxiom`
    maxDepth: Option<nat>)       // `None` until the first `construct`

  function SumWeights(rules: seq<Rule>): real {
    if |rules| == 0 then 0.0 else SumWeights(rules[..|rules| - 1]) + rules[|rules| - 1].weight
  }

  /** Sum of the weights of `rules[0..k]`, the progress after rule `k`. */
  function Cumulative(rules: seq<Rule>, k: nat): real
    requires k < |rules|
  {
    SumWeights(rules[..k + 1])
  }

  /** The invariant the engine maintains: `totalWeight` is the weight sum. */
  predicate WellFormed(rs: RuleSet) {
    rs.totalWeight == SumWeights(rs.rules)
  }

  predicate GrammarWellFormed<A>(g: Grammar<A>) {
    forall c :: c in g.rules ==> WellFormed(g.rules[c])
  }

  function EmptyRuleSet(): (rs: RuleSet)
    ensures WellFormed(rs) && |rs.rules| == 0
  {
    RuleSet([], 0.0)
  }

  lemma SumWeightsAppend(rules: seq<Rule>, r: Rule)
    ensures SumWeights(rules + [r]) == SumWeights(rules) + r.weight
  {
    assert (rules + [r])[..|rules|] == rules;
  }

  /** `LSystemRuleSet.addWeightedRule`: append, and add the weight to the total. */
  function AddWeightedRuleToSet(rs: RuleSet, src: char, exp: string, w: real): (r: RuleSet)
    ensures r.rules == rs.rules + [Rule(src, exp, w)]
    ensures WellFormed(rs) ==> WellFormed(r)
  {
    SumWeightsAppend(rs.rules, Rule(src, exp, w));
    RuleSet(rs.rules + [Rule(src, exp, w)], rs.totalWeight + w)
  }

  /** `LSystemRuleSet.addRule`: a rule of the default weight 1.0. */
  function AddRuleToSet(rs: RuleSet, src: char, exp: string): (r: RuleSet)
    ensures r.rules == rs.rules + [Rule(src, exp, 1.0)]
    ensures WellFormed(rs) ==> WellFormed(r)
  {
    SumWeightsAppend(rs.rules, Rule(src, exp, 1.0));
    RuleSet(rs.rules + [Rule(src, exp, 1.0)], rs.totalWeight + 1.0)
  }

  /** The rules registered for `c` so far (none if no rule set exists yet). */
  function RulesOf<A>(g: Grammar<A>, c: char): seq<Rule> {
    if c in g.rules then g.rules[c].rules else []
  }

  /** `new LSystem(seed)`: no rules, no axiom, and the two bracket symbols. */
  function NewLSystem<A>(seed: real): (g: Grammar<A>)
    ensures GrammarWellFormed(g) && g.rules == map[] && g.rootString == None
    ensures g.symbols.Keys == {'[', ']'}
    ensures g.symbols['['].handler == Some(SaveState)
    ensures g.symbols[']'].handler == Some(RestoreState)
  {
    Grammar(map[], map['[' := Symbol('[', Some(SaveState)), ']' := Symbol(']', Some(RestoreState))],
            seed, None, None)
  }

  /** `setAxiom`: the working string becomes exactly the characters of `s`. */
  function SetAxiom<A>(g: Grammar<A>, s: string): (r: Grammar<A>)
    ensures r.rootString == Some(s)
    ensures r.rules == g.rules && r.symbols == g.symbols && r.seed == g.seed && r.maxDepth == g.maxDepth
  {
    g.(rootString := Some(s))
  }

  /** `addSymbol`: registers or overwrites the entry for `c`. */
  function AddSymbol<A>(g: Grammar<A>, c: char, h: Option<Handler<A>>): (r: Grammar<A>)
    ensures r.symbols.Keys == g.symbols.Keys + {c}
    ensures r.symbols[c] == Symbol(c, h)
    ensures forall d :: d in g.symbols && d != c ==> r.symbols[d] == g.symbols[d]
    ensures r.rules == g.rules && r.rootString == g.rootString
  {
    g.(symbols := g.symbols[c := Symbol(c, h)])
  }

  /** Replacing one rule set by a well-formed one keeps the grammar well formed. */
  lemma UpdateWellFormed<A>(g: Grammar<A>, src: char, rs: RuleSet)
    ensures GrammarWellFormed(g) && WellFormed(rs) ==> GrammarWellFormed(g.(rules := g.rules[src := rs]))
  {
  }

  /** `addRule`: creates the rule set of `src` on first use, then appends. */
  function AddRule<A>(g: Grammar<A>, src: char, exp: string): (r: Grammar<A>)
    ensures r.rules.Keys == g.rules.Keys + {src}
    ensures r.rules[src].rules == RulesOf(g, src) + [Rule(src, exp, 1.0)]
    ensures forall c :: c in g.rules && c != src ==> r.rules[c] == g.rules[c]
    ensures GrammarWellFormed(g) ==> GrammarWellFormed(r)
    ensures r.symbols == g.symbols && r.rootString == g.rootString && r.seed == g.seed
  {
    var rs := if src in g.rules then g.rules[src] else EmptyRuleSet();
    var rs' := AddRuleToSet(rs, src, exp);
    UpdateWellFormed(g, src, rs');
    g.(rules := g.rules[src := rs'])
  }

  /** `addWeightedRule`: as `AddRule`, with an explicit weight. */
  function AddWeightedRule<A>(g: Grammar<A>, src: char, exp: string, w: real): (r: Grammar<A>)
    ensures r.rules.Keys == g.rules.Keys + {src}
    ensures r.rules[src].rules == RulesOf(g, src) + [Rule(src, exp, w)]
    ensures forall c :: c in g.rules && c != src ==> r.rules[c] == g.rules[c]
    ensures GrammarWellFormed(g) ==> GrammarWellFormed(r)
    ensures r.symbols == g.symbols && r.rootString == g.rootString && r.seed == g.seed
  {
    var rs := if src in g.rules then g.rules[src] else EmptyRuleSet();
    var rs' := AddWeightedRuleToSet(rs, src, exp, w);
    UpdateWellFormed(g, src, rs');
    g.(rules := g.rules[src := rs'])
  }

  // ---------------------------------------------------------------- selection

  /** The roulette scan from rule `i` on, with `progress` the weight of the
      rules before it: the first rule whose running sum exceeds `target`. */
  function Scan(rules: seq<Rule>, target: real, i: nat, progress: real): (r: Option<nat>)
    requires i <= |rules| && progress == SumWeights(rules[..i])
    ensures r.Some? ==> i <= r.value < |rules| && Cumulative(rules, r.value) > target
    ensures r.Some? ==> forall j :: i <= j < r.value ==> Cumulative(rules, j) <= target
    ensures r.None? ==> forall j :: i <= j < |rules| ==> Cumulative(rules, j) <= target
    decreases |rules| - i
  {
    if i == |rules| then None
    else
      assert rules[..i + 1][..i] == rules[..i];
      var p := progress + rules[i].weight;
      if p > target then Some(i) else Scan(rules, target, i + 1, p)
  }

  /** `selectRule` given the noise draw: a one-rule set yields its rule
      whatever the draw; otherwise the first rule whose cumulative weight
      strictly exceeds `draw * totalWeight`, or nothing. */
  function SelectIndex(rs: RuleSet, draw: real): (r: Option<nat>)
    ensures |rs.rules| == 1 ==> r == Some(0)
    ensures |rs.rules| != 1 && r.Some? ==>
      r.value < |rs.rules| && Cumulative(rs.rules, r.value) > draw * rs.totalWeight
      && forall j :: 0 <= j < r.value ==> Cumulative(rs.rules, j) <= draw * rs.totalWeight
    ensures |rs.rules| != 1 && r.None? ==>
      forall j :: 0 <= j < |rs.rules| ==> Cumulative(rs.rules, j) <= draw * rs.totalWeight
  {
    if |rs.rules| == 1 then Some(0) else Scan(rs.rules, draw * rs.totalWeight, 0, 0.0)
  }

  function SelectRule(rs: RuleSet, draw: real): (r: Option<Rule>)
    ensures r.Some? <==> SelectIndex(rs, draw).Some?
    ensures r.Some? ==> r.value == rs.rules[SelectIndex(rs, draw).value]
  {
    match SelectIndex(rs, draw)
    case None => None
    case Some(k) => Some(rs.rules[k])
  }

  /** The noise draw used for the symbol that lands at output position `pos`
      during generation `gen`. */
  function Draw(noise: Noise2, seed: real, pos: nat, gen: int): real {
    noise(seed * pos as real * 13.0, seed * gen as real * 29.0)
  }

  // ---------------------------------------------------------------- rewriting

  /** Concatenation of the pieces, in order. */
  function Flatten(pieces: seq<string>): string {
    if |pieces| == 0 then [] else Flatten(pieces[..|pieces| - 1]) + pieces[|pieces| - 1]
  }

  predicate IsExpansion(rs: RuleSet, p: string) {
    exists j :: 0 <= j < |rs.rules| && rs.rules[j].expr == p
  }

  /** What one generation may put in place of symbol `c`. */
  predicate PieceFor(rules: map<char, RuleSet>, c: char, p: string) {
    if c in rules then IsExpansion(rules[c], p) else p == [c]
  }

  /** One generation of `construct` over `s`, from symbol `i` on, with `done`
      the replacements already spliced in for `s[..i]`. The splice puts a
      rule's expansion where its source symbol was and moves the scan past
      it, so each result piece stands for exactly one symbol of `s`. */
  function Pieces(rules: map<char, RuleSet>, s: string, seed: real, gen: int, noise: Noise2,
                  i: nat, done: seq<string>): (r: Result<seq<string>>)
    requires i <= |s| && |done| == i
    ensures r.Success? ==> |r.value| == |s| && r.value[..i] == done
    ensures r.Success? ==> forall k :: i <= k < |s| ==> PieceFor(rules, s[k], r.value[k])
    ensures r.Failure? ==> (r.error.NoRuleSelected?
      && exists k :: i <= k < |s| && s[k] == r.error.symbol && s[k] in rules && |rules[s[k]].rules| != 1)
    decreases |s| - i
  {
    if i == |s| then Success(done)
    else if s[i] !in rules then
      var r := Pieces(rules, s, seed, gen, noise, i + 1, done + [[s[i]]]);
      assert r.Success? ==> r.value[..i] == r.value[..i + 1][..i];
      r
    else
      match SelectRule(rules[s[i]], Draw(noise, seed, |Flatten(done)|, gen))
      case None => Failure(NoRuleSelected(s[i]))
      case Some(rule) =>
        var r := Pieces(rules, s, seed, gen, noise, i + 1, done + [rule.expr]);
        assert r.Success? ==> r.value[..i] == r.value[..i + 1][..i];
        r
  }

  /** One generation with generation index `gen`. */
  function Generation(rules: map<char, RuleSet>, s: string, seed: real, gen: int, noise: Noise2)
    : (r: Result<seq<string>>)
    ensures r.Success? ==> |r.value| == |s|
    ensures r.Success? ==> forall k :: 0 <= k < |s| ==> PieceFor(rules, s[k], r.value[k])
  {
    Pieces(rules, s, seed, gen, noise, 0, [])
  }

  /** Generations `n - 1` down to `0`, each rewriting the previous result. */
  function Generations(rules: map<char, RuleSet>, s: string, seed: real, n: int, noise: Noise2)
    : (r: Result<string>)
    ensures n <= 0 ==> r == Success(s)
    ensures r.Failure? ==> r.error.NoRuleSelected? && r.error.symbol in rules
    decreases n
  {
    if n <= 0 then Success(s)
    else
      var pieces :- Generation(rules, s, seed, n - 1, noise);
      Generations(rules, Flatten(pieces), seed, n - 1, noise)
  }

  // ---------------------------------------------------------------- depth scan

  /** The scan that sets `maxDepth`: `current` counts `[` and is never
      decremented; on a `]` that finds it above `possible` it becomes the new
      maximum and is reset to 0. */
  function DepthScan(s: string, i: nat, possible: nat, current: nat): (r: nat)
    requires i <= |s| && possible + current <= Count(s[..i], '[')
    ensures r <= Count(s, '[')
    decreases |s| - i
  {
    assert s[..|s|] == s;
    if i == |s| then possible
    else
      assert s[..i + 1][..i] == s[..i];
      if s[i] == '[' then DepthScan(s, i + 1, possible, current + 1)
      else if s[i] == ']' && possible < current then DepthScan(s, i + 1, current, 0)
      else DepthScan(s, i + 1, possible, current)
  }

  function MaxDepthOf(s: string): (r: nat)
    ensures r <= Count(s, '[')
  {
    DepthScan(s, 0, 0, 0)
  }

  /** `construct(iterations)`: rewrites the working string in place for
      `iterations` generations, then records its `maxDepth`. */
  function Construct<A>(g: Grammar<A>, iterations: int, noise: Noise2): (r: Result<Grammar<A>>)
    ensures g.rootString.None? ==> r == Failure(MissingAxiom)
    ensures r.Success? ==> (r.value.rootString.Some?
      && r.value.maxDepth == Some(MaxDepthOf(r.value.rootString.value))
      && r.value.maxDepth.value <= Count(r.value.rootString.value, '['))
    ensures r.Success? ==> r.value.rules == g.rules && r.value.symbols == g.symbols && r.value.seed == g.seed
    ensures r.Success? && iterations <= 0 ==> r.value.rootString == g.rootString
    ensures r.Failure? ==> r.error == MissingAxiom || (r.error.NoRuleSelected? && r.error.symbol in g.rules)
  {
    match g.rootString
    case None => Failure(MissingAxiom)
    case Some(s) =>
      var t :- Generations(g.rules, s, g.seed, iterations, noise);
      Success(g.(rootString := Some(t), maxDepth := Some(MaxDepthOf(t))))
  }
}
