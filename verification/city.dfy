/** The city generator: a greedy placement of square properties over a grid,
    each placed property then handed to a blueprint picked with cached noise.
    `Property.checkOverlap` and `GenerationConstraint.isValid` are not part
    of this model; they are the parameters `overlap` and `isValid`. */
module City {
  import opened Common
  import opened Blueprint

  // ---------------------------------------------------------------- noise tables

  /** A cached noise table as stored in the noise configuration file. */
  datatype NoiseTable = NoiseTable(sizeX: nat, sizeY: nat, values: seq<seq<real>>)

  /** Truncation toward zero, as JavaScript's `%` uses for its quotient. */
  function Trunc(r: real): int {
    if r >= 0.0 then r.Floor else -((-r).Floor)
  }

  /** JavaScript's `a % m` for `m != 0`: the remainder takes the sign of `a`. */
  function JsRem(a: real, m: real): real
    requires m != 0.0
  {
    a - m * Trunc(a / m) as real
  }

  /** `Math.floor(v % size)`; `None` stands for the `NaN` of a zero size. */
  function TableIndex(v: real, size: nat): Option<int> {
    if size == 0 then None else Some(JsRem(v, size as real).Floor)
  }

  lemma TableIndexInRange(v: real, size: nat)
    requires v >= 0.0 && size > 0
    ensures TableIndex(v, size).Some? && 0 <= TableIndex(v, size).value < size
  {
    var m := size as real;
    var q := (v / m).Floor;
    assert Trunc(v / m) == q;
    RemBounds(v, m, q);
  }

  /** The remainder left by a quotient between `q` and `q + 1`. */
  lemma RemBounds(v: real, m: real, q: int)
    requires m > 0.0 && q as real <= v / m < q as real + 1.0
    ensures 0.0 <= v - m * (q as real) < m
  {
    var f := v / m;
    var qr := q as real;
    assert m * f == v;
    MulStrict(m, f, qr + 1.0);
    assert m * (qr + 1.0) == m * qr + m;
    assert v < m * qr + m;
    if qr < f {
      MulStrict(m, qr, f);
    } else {
      assert qr == f;
      assert m * qr == m * f;
    }
  }

  lemma MulStrict(m: real, a: real, b: real)
    requires m > 0.0 && a < b
    ensures m * a < m * b
  {
    assert m * b - m * a == m * (b - a);
  }

  /** A negative coordinate that is not a multiple of the size gives a
      negative index, which reads outside the table. */
  lemma TableIndexNegative(v: real, size: nat)
    requires size > 0 && v < 0.0 && JsRem(v, size as real) != 0.0
    ensures TableIndex(v, size).Some? && TableIndex(v, size).value < 0
  {
    var m := size as real;
    var q := (-v / m).Floor;
    assert Trunc(v / m) == -q by { assert -(v / m) == -v / m; }
    assert q as real <= -v / m;
    assert m * (q as real) <= -v by { assert m * (-v / m) == -v; }
  }

  /** `getRandom2D(x, y)`: the table entry at the truncated remainders.
      Reading a missing row throws; a missing entry in a present row is
      `undefined`, here `None`. */
  function GetRandom2D(t: NoiseTable, x: real, y: real): (r: Result<Option<real>>)
    ensures r.Success? <==> TableIndex(x, t.sizeX).Some? && 0 <= TableIndex(x, t.sizeX).value < |t.values|
    ensures r.Success? && r.value.Some? ==>
      var i := TableIndex(x, t.sizeX).value;
      TableIndex(y, t.sizeY).Some? && 0 <= TableIndex(y, t.sizeY).value < |t.values[i]|
      && r.value.value == t.values[i][TableIndex(y, t.sizeY).value]
  {
    match TableIndex(x, t.sizeX)
    case None => Failure(TypeError("row NaN of the simplex table"))
    case Some(i) =>
      if !(0 <= i < |t.values|) then Failure(TypeError("row outside the simplex table"))
      else match TableIndex(y, t.sizeY)
        case None => Success(None)
        case Some(j) => if 0 <= j < |t.values[i]| then Success(Some(t.values[i][j])) else Success(None)
  }

  /** For non-negative inputs into a table with `sizeX` rows of `sizeY`
      entries, the lookup always finds its entry. */
  lemma GetRandom2DInTable(t: NoiseTable, x: real, y: real)
    requires x >= 0.0 && y >= 0.0 && t.sizeX > 0 && t.sizeY > 0
    requires |t.values| == t.sizeX && forall i :: 0 <= i < |t.values| ==> |t.values[i]| == t.sizeY
    ensures GetRandom2D(t, x, y).Success? && GetRandom2D(t, x, y).value.Some?
  {
    TableIndexInRange(x, t.sizeX);
    TableIndexInRange(y, t.sizeY);
  }

  /** `populationNoise(p)` at a grid point: the entry at the remainders,
      with negative and missing (`undefined > 0` is false) entries read as
      0. A zero `sizeX` or a short table reads through a missing row. */
  function PopulationNoise(t: NoiseTable, x: nat, z: nat): (r: Result<real>)
    ensures r.Success? <==> t.sizeX > 0 && x % t.sizeX < |t.values|
    ensures r.Success? ==> r.value >= 0.0
    ensures r.Success? && t.sizeY > 0 && z % t.sizeY < |t.values[x % t.sizeX]| ==>
      var v := t.values[x % t.sizeX][z % t.sizeY];
      (v > 0.0 ==> r.value == v) && (v <= 0.0 ==> r.value == 0.0)
  {
    if t.sizeX == 0 || x % t.sizeX >= |t.values| then Failure(TypeError("row outside the population table"))
    else
      var row := t.values[x % t.sizeX];
      if t.sizeY == 0 || z % t.sizeY >= |row| then Success(0.0)
      else
        var v := row[z % t.sizeY];
        Success(if v > 0.0 then v else 0.0)
  }

  // ---------------------------------------------------------------- placement

  /** A square lot: its side length and the x and z of its centre. */
  datatype Property = Property(sideLength: nat, x: int, z: int)

  /** The property `build` proposes at a grid point. */
  function Candidate(x: int, z: int): Property {
    Property(15, x, z)
  }

  /** `overlap(a, b)` is `a.checkOverlap(b)`. */
  type Overlap = (Property, Property) -> bool

  /** No placed property reports an overlap with `p`. */
  predicate Free(props: seq<Property>, p: Property, overlap: Overlap) {
    forall i :: 0 <= i < |props| ==> !overlap(props[i], p)
  }

  /** `canPlaceProperty`: asks the placed properties from the last to the
      first, stopping at the first that reports an overlap. */
  method CanPlaceProperty(props: seq<Property>, p: Property, overlap: Overlap) returns (b: bool)
    ensures b <==> Free(props, p, overlap)
  {
    var idx := |props| - 1;
    while idx >= 0
      invariant -1 <= idx < |props|
      invariant forall i :: idx < i < |props| ==> !overlap(props[i], p)
    {
      if overlap(props[idx], p) {
        return false;
      }
      idx := idx - 1;
    }
    return true;
  }

  /** No placed property overlaps one placed before it. */
  predicate Separated(props: seq<Property>, overlap: Overlap) {
    forall i, j :: 0 <= i < j < |props| ==> !overlap(props[i], props[j])
  }

  /** The calls `build` makes on a fresh `GenerationConstraint`, in order. */
  datatype SetterCall = SetPopulation(lo: real, hi: real) | SetLandValue(lo: real, hi: real)

  type Constraint = seq<SetterCall>

  function BuildConstraint(level: real): (c: Constraint)
    ensures |c| == 3 && c[0] == SetPopulation(level, level + 1.0)
    ensures c[1] == SetPopulation(0.0, 1.0) && c[2] == SetLandValue(0.0, 1.0)
  {
    [SetPopulation(level, level + 1.0), SetPopulation(0.0, 1.0), SetLandValue(0.0, 1.0)]
  }

  /** The generator's state and the fixed inputs of a build. */
  datatype City<K> = City(seed: real, properties: seq<Property>, blueprints: seq<Building<K>>)

  /** What `build` reads besides the city: the two cached noise tables, the
      constraint test, the overlap test, and whether the object assigned to
      `debugLines` has an `add` method (the class itself never assigns it). */
  datatype Env<!K> = Env(
    simplex: NoiseTable,
    population: NoiseTable,
    isValid: (Constraint, K) -> bool,
    overlap: Overlap,
    debugLines: bool)

  /** How many blueprints the constraint accepts; `constructProperty` pushes
      one truthy value per accepted blueprint. */
  function SelectedCount<K>(bs: seq<Building<K>>, c: Constraint, isValid: (Constraint, K) -> bool): (n: nat)
    ensures n <= |bs|
  {
    if |bs| == 0 then 0
    else SelectedCount(bs[..|bs| - 1], c, isValid) + (if isValid(c, bs[|bs| - 1].config.constraints) then 1 else 0)
  }

  /** `Math.floor(((r + 1) / 2) * n)`. */
  function BlueprintIndex(r: real, n: nat): int {
    ((r + 1.0) / 2.0 * n as real).Floor
  }

  /** A draw in [-1, 1) gives an index below `n`; the draw 1 gives `n` itself. */
  lemma BlueprintIndexRange(r: real, n: nat)
    requires n > 0 && -1.0 <= r <= 1.0
    ensures r < 1.0 ==> 0 <= BlueprintIndex(r, n) < n
    ensures r == 1.0 ==> BlueprintIndex(r, n) == n
  {
    var u := (r + 1.0) / 2.0;
    assert 0.0 <= u <= 1.0;
    assert 0.0 <= u * n as real;
    if r < 1.0 {
      assert u < 1.0;
      assert u * n as real < n as real;
    }
  }

  /** The cached-noise draw for the blueprint of property `p`. */
  function BlueprintNoise(t: NoiseTable, seed: real, p: Property): Result<Option<real>> {
    GetRandom2D(t, seed * p.x as real * 31.0, seed * p.z as real * 729.0)
  }

  /** The blueprint `constructProperty` hands the property to: `None` when
      no blueprint is valid (an early return); otherwise the index computed
      from the selected count and used into the full blueprint list, which
      throws when it falls outside it or when the noise entry is missing. */
  function ChooseBlueprint<K>(city: City<K>, p: Property, c: Constraint, env: Env<K>): (r: Result<Option<nat>>)
    ensures SelectedCount(city.blueprints, c, env.isValid) == 0 ==> r == Success(None)
    ensures r.Success? && r.value.Some? ==> r.value.value < |city.blueprints|
    ensures r.Success? && r.value.Some? ==>
      var d := BlueprintNoise(env.simplex, city.seed, p);
      d.Success? && d.value.Some?
      && r.value.value == BlueprintIndex(d.value.value, SelectedCount(city.blueprints, c, env.isValid))
    ensures r.Failure? ==> r.error.TypeError?
  {
    var n := SelectedCount(city.blueprints, c, env.isValid);
    if n == 0 then Success(None)
    else
      var rnd :- BlueprintNoise(env.simplex, city.seed, p);
      match rnd
      case None => Failure(TypeError("blueprint NaN"))
      case Some(d) =>
        var idx := BlueprintIndex(d, n);
        if 0 <= idx < |city.blueprints| then Success(Some(idx)) else Failure(TypeError("blueprint outside the list"))
  }

  /** When every blueprint is valid, the top draw 1 indexes one past the list. */
  lemma TopDrawOverruns<K>(city: City<K>, p: Property, c: Constraint, env: Env<K>)
    requires SelectedCount(city.blueprints, c, env.isValid) == |city.blueprints| > 0
    requires BlueprintNoise(env.simplex, city.seed, p) == Success(Some(1.0))
    ensures ChooseBlueprint(city, p, c, env).Failure?
  {
    var n := |city.blueprints|;
    BlueprintIndexRange(1.0, n);
    assert BlueprintIndex(1.0, n) == n;
  }

  /** The index counts selected blueprints but names a position in the full
      list: with the first of two blueprints rejected and the draw -1, the
      rejected one is chosen. */
  lemma ChoosesRejectedBlueprint()
    ensures var b0 := Building("a", BuildingConfig("a", None, None, false), None, None);
      var b1 := Building("b", BuildingConfig("b", None, None, true), None, None);
      var env := Env(NoiseTable(1, 1, [[-1.0]]), NoiseTable(1, 1, [[0.0]]),
                     (c: Constraint, k: bool) => k, (a: Property, b: Property) => false, true);
      var city := City(1.0, [], [b0, b1]);
      ChooseBlueprint(city, Candidate(0, 0), BuildConstraint(0.0), env) == Success(Some(0))
      && !env.isValid(BuildConstraint(0.0), city.blueprints[0].config.constraints)
  {
    var b0 := Building("a", BuildingConfig("a", None, None, false), None, None);
    var b1 := Building("b", BuildingConfig("b", None, None, true), None, None);
    assert [b0, b1][..1] == [b0];
    assert [b0][..0] == [];
    assert JsRem(0.0, 1.0) == 0.0;
  }

  /** `constructProperty`: the property is recorded first, so the spot stays
      taken even when no blueprint is valid; `debugProperty` then draws the
      lot's outline through `debugLines.add`, which throws when `debugLines`
      has no `add`; the chosen blueprint's `construct` does nothing. */
  function ConstructProperty<K>(city: City<K>, p: Property, c: Constraint, env: Env<K>): (r: Result<City<K>>)
    ensures r.Success? <==> env.debugLines && ChooseBlueprint(city, p, c, env).Success?
    ensures r.Success? ==> r.value == city.(properties := city.properties + [p])
    ensures r.Failure? ==> r.error.TypeError?
  {
    if !env.debugLines then Failure(TypeError("debugLines.add is not a function"))
    else
      var _ :- ChooseBlueprint(city, p, c, env);
      Success(city.(properties := city.properties + [p]))
  }

  /** One grid point of `build`: the population lookup, then a candidate
      placed only where no earlier property overlaps it. */
  function Step<K>(city: City<K>, x: nat, z: nat, env: Env<K>): (r: Result<City<K>>)
    ensures r.Success? ==> r.value.seed == city.seed && r.value.blueprints == city.blueprints
    ensures r.Success? ==>
      (Free(city.properties, Candidate(x, z), env.overlap)
        && r.value.properties == city.properties + [Candidate(x, z)])
      || (!Free(city.properties, Candidate(x, z), env.overlap) && r.value.properties == city.properties)
  {
    var level :- PopulationNoise(env.population, x, z);
    if !Free(city.properties, Candidate(x, z), env.overlap) then Success(city)
    else ConstructProperty(city, Candidate(x, z), BuildConstraint(level), env)
  }

  /** The inner loop of `build` from `z` on. */
  function Row<K>(city: City<K>, x: nat, z: nat, height: int, env: Env<K>): Result<City<K>>
    decreases height - z
  {
    if z >= height then Success(city)
    else
      var next :- Step(city, x, z, env);
      Row(next, x, z + 1, height, env)
  }

  /** The outer loop of `build` from `x` on. */
  function Grid<K>(city: City<K>, x: nat, width: int, height: int, env: Env<K>): Result<City<K>>
    decreases width - x
  {
    if x >= width then Success(city)
    else
      var next :- Row(city, x, 0, height, env);
      Grid(next, x + 1, width, height, env)
  }

  /** `new Building(config)` for every configured building, in order. */
  function LoadBlueprints<K>(configs: seq<BuildingConfig<K>>): (r: Result<seq<Building<K>>>)
    ensures r.Success? ==> |r.value| == |configs|
    ensures r.Success? ==> forall i :: 0 <= i < |configs| ==>
      LoadConfig(configs[i]).Success? && r.value[i] == LoadConfig(configs[i]).value
    ensures r.Failure? ==> exists i :: 0 <= i < |configs| && LoadConfig(configs[i]).Failure?
  {
    if |configs| == 0 then Success([])
    else
      var b :- LoadConfig(configs[0]);
      var rest := LoadBlueprints(configs[1..]);
      if rest.Failure? then
        assert configs[1..][0] == configs[1];
        Failure(rest.error)
      else
        assert forall i :: 1 <= i < |configs| ==> configs[i] == configs[1..][i - 1];
        Success([b] + rest.value)
  }

  /** `build(width, height)`: a fresh property and blueprint list, then the
      grid row by row. */
  function BuildSpec<K>(city: City<K>, configs: seq<BuildingConfig<K>>, width: int, height: int, env: Env<K>)
    : Result<City<K>>
  {
    var bs :- LoadBlueprints(configs);
    Grid(City(city.seed, [], bs), 0, width, height, env)
  }

  /** Without a `debugLines` object that has `add`, `build` throws at its
      first grid point, which no earlier property can block. */
  lemma BuildNeedsDebugLines<K>(city: City<K>, configs: seq<BuildingConfig<K>>, width: int, height: int, env: Env<K>)
    requires !env.debugLines && width >= 1 && height >= 1
    requires LoadBlueprints(configs).Success?
    ensures BuildSpec(city, configs, width, height, env).Failure?
    ensures BuildSpec(city, configs, width, height, env).error.TypeError?
  {
    var start := City(city.seed, [], LoadBlueprints(configs).value);
    assert Free(start.properties, Candidate(0, 0), env.overlap);
    assert Step(start, 0, 0, env).Failure?;
    assert Row(start, 0, 0, height, env).Failure?;
  }

  /** `build` as the program writes it: the outer loop over `x`. */
  method Build<K>(city: City<K>, configs: seq<BuildingConfig<K>>, width: int, height: int, env: Env<K>)
    returns (r: Result<City<K>>)
    ensures r == BuildSpec(city, configs, width, height, env)
    ensures r.Success? ==> Separated(r.value.properties, env.overlap)
  {
    var loaded := LoadBlueprints(configs);
    if loaded.Failure? {
      return Failure(loaded.error);
    }
    var current := City(city.seed, [], loaded.value);
    var x: nat := 0;
    while x < width
      invariant Grid(current, x, width, height, env) == BuildSpec(city, configs, width, height, env)
      decreases width - x
    {
      var row := BuildRow(current, x, height, env);
      if row.Failure? {
        return Failure(row.error);
      }
      current := row.value;
      x := x + 1;
    }
    r := Success(current);
    BuildSeparated(city, configs, width, height, env);
  }

  /** The inner loop of `build` over `z`, for one `x`. */
  method BuildRow<K>(city: City<K>, x: nat, height: int, env: Env<K>) returns (r: Result<City<K>>)
    ensures r == Row(city, x, 0, height, env)
  {
    var current := city;
    var z: nat := 0;
    while z < height
      invariant Row(current, x, z, height, env) == Row(city, x, 0, height, env)
      decreases height - z
    {
      var level := PopulationNoise(env.population, x, z);
      if level.Failure? {
        return Failure(level.error);
      }
      var free := CanPlaceProperty(current.properties, Candidate(x, z), env.overlap);
      if free {
        var next := ConstructProperty(current, Candidate(x, z), BuildConstraint(level.value), env);
        if next.Failure? {
          return Failure(next.error);
        }
        current := next.value;
      }
      z := z + 1;
    }
    return Success(current);
  }

  // ---------------------------------------------------------------- placement facts

  predicate IsPrefix(a: seq<Property>, b: seq<Property>) {
    |a| <= |b| && b[..|a|] == a
  }

  /** Placed, or blocked by a placed property. */
  predicate Covered(props: seq<Property>, p: Property, overlap: Overlap) {
    p in props || !Free(props, p, overlap)
  }

  /** Grid point `(x, z)` comes before `(x', z')` in the visiting order. */
  predicate Before(p: Property, x: int, z: int) {
    p.x < x || (p.x == x && p.z < z)
  }

  /** Properties appear in the order their grid points are visited. */
  predicate RowMajor(props: seq<Property>) {
    forall i, j :: 0 <= i < j < |props| ==> Before(props[i], props[j].x, props[j].z)
  }

  predicate AllBefore(props: seq<Property>, x: int, z: int) {
    forall i :: 0 <= i < |props| ==> Before(props[i], x, z)
  }

  lemma StepSeparated<K>(city: City<K>, x: nat, z: nat, env: Env<K>)
    requires Step(city, x, z, env).Success? && Separated(city.properties, env.overlap)
    ensures Separated(Step(city, x, z, env).value.properties, env.overlap)
  {
    var ps := Step(city, x, z, env).value.properties;
    if ps != city.properties {
      forall i, j | 0 <= i < j < |ps| ensures !env.overlap(ps[i], ps[j]) {
        if j == |ps| - 1 {
          assert ps[i] == city.properties[i];
        }
      }
    }
  }

  lemma {:induction false} RowSeparated<K>(city: City<K>, x: nat, z: nat, height: int, env: Env<K>)
    requires Row(city, x, z, height, env).Success? && Separated(city.properties, env.overlap)
    ensures Separated(Row(city, x, z, height, env).value.properties, env.overlap)
    decreases height - z
  {
    if z < height {
      StepSeparated(city, x, z, env);
      RowSeparated(Step(city, x, z, env).value, x, z + 1, height, env);
    }
  }

  lemma {:induction false} GridSeparated<K>(city: City<K>, x: nat, width: int, height: int, env: Env<K>)
    requires Grid(city, x, width, height, env).Success? && Separated(city.properties, env.overlap)
    ensures Separated(Grid(city, x, width, height, env).value.properties, env.overlap)
    decreases width - x
  {
    if x < width {
      RowSeparated(city, x, 0, height, env);
      GridSeparated(Row(city, x, 0, height, env).value, x + 1, width, height, env);
    }
  }

  /** After `build`, no placed property overlaps an earlier one. */
  lemma BuildSeparated<K>(city: City<K>, configs: seq<BuildingConfig<K>>, width: int, height: int, env: Env<K>)
    requires BuildSpec(city, configs, width, height, env).Success?
    ensures Separated(BuildSpec(city, configs, width, height, env).value.properties, env.overlap)
  {
    GridSeparated(City(city.seed, [], LoadBlueprints(configs).value), 0, width, height, env);
  }

  lemma FreeShrinks(a: seq<Property>, b: seq<Property>, p: Property, overlap: Overlap)
    requires IsPrefix(a, b) && !Free(a, p, overlap)
    ensures !Free(b, p, overlap)
  {
    var i :| 0 <= i < |a| && overlap(a[i], p);
    assert b[i] == a[i];
  }

  lemma CoveredGrows(a: seq<Property>, b: seq<Property>, p: Property, overlap: Overlap)
    requires IsPrefix(a, b) && Covered(a, p, overlap)
    ensures Covered(b, p, overlap)
  {
    if p in a {
      var i :| 0 <= i < |a| && a[i] == p;
      assert b[i] == p;
    } else {
      FreeShrinks(a, b, p, overlap);
    }
  }

  lemma PrefixTrans(a: seq<Property>, b: seq<Property>, c: seq<Property>)
    requires IsPrefix(a, b) && IsPrefix(b, c)
    ensures IsPrefix(a, c)
  {
    assert c[..|a|] == c[..|b|][..|a|];
  }

  /** The rows from `z` on keep what was placed and cover each of their
      grid points. */
  lemma {:induction false} RowCovers<K>(city: City<K>, x: nat, z: nat, height: int, env: Env<K>)
    requires Row(city, x, z, height, env).Success?
    ensures var r := Row(city, x, z, height, env).value;
      IsPrefix(city.properties, r.properties) && r.blueprints == city.blueprints && r.seed == city.seed
      && forall z' :: z <= z' < height ==> Covered(r.properties, Candidate(x, z'), env.overlap)
    decreases height - z
  {
    if z < height {
      var next := Step(city, x, z, env).value;
      var r := Row(city, x, z, height, env).value;
      RowCovers(next, x, z + 1, height, env);
      assert IsPrefix(city.properties, next.properties);
      PrefixTrans(city.properties, next.properties, r.properties);
      assert Covered(next.properties, Candidate(x, z), env.overlap) by {
        if next.properties != city.properties {
          assert next.properties[|city.properties|] == Candidate(x, z);
        }
      }
      CoveredGrows(next.properties, r.properties, Candidate(x, z), env.overlap);
    } else {
      assert Row(city, x, z, height, env).value == city;
    }
  }

  lemma {:induction false} GridCovers<K>(city: City<K>, x: nat, width: int, height: int, env: Env<K>)
    requires Grid(city, x, width, height, env).Success?
    ensures var r := Grid(city, x, width, height, env).value;
      IsPrefix(city.properties, r.properties) && r.blueprints == city.blueprints && r.seed == city.seed
      && forall x', z' :: x <= x' < width && 0 <= z' < height ==> Covered(r.properties, Candidate(x', z'), env.overlap)
    decreases width - x
  {
    if x < width {
      var next := Row(city, x, 0, height, env).value;
      var r := Grid(city, x, width, height, env).value;
      RowCovers(city, x, 0, height, env);
      GridCovers(next, x + 1, width, height, env);
      PrefixTrans(city.properties, next.properties, r.properties);
      forall z' | 0 <= z' < height ensures Covered(r.properties, Candidate(x, z'), env.overlap) {
        CoveredGrows(next.properties, r.properties, Candidate(x, z'), env.overlap);
      }
    } else {
      assert Grid(city, x, width, height, env).value == city;
    }
  }

  /** Every grid point of a completed `build` holds a property or is blocked
      by one: the placement is maximal. */
  lemma BuildCovers<K>(city: City<K>, configs: seq<BuildingConfig<K>>, width: int, height: int, env: Env<K>)
    requires BuildSpec(city, configs, width, height, env).Success?
    ensures forall x: nat, z: nat :: x < width && z < height ==>
      Covered(BuildSpec(city, configs, width, height, env).value.properties, Candidate(x, z), env.overlap)
    ensures BuildSpec(city, configs, width, height, env).value.blueprints == LoadBlueprints(configs).value
  {
    GridCovers(City(city.seed, [], LoadBlueprints(configs).value), 0, width, height, env);
  }

  lemma StepOrdered<K>(city: City<K>, x: nat, z: nat, env: Env<K>)
    requires Step(city, x, z, env).Success?
    requires RowMajor(city.properties) && AllBefore(city.properties, x, z)
    ensures var ps := Step(city, x, z, env).value.properties;
      RowMajor(ps) && AllBefore(ps, x, z + 1) && IsPrefix(city.properties, ps)
      && (|ps| == |city.properties| || (|ps| == |city.properties| + 1 && ps[|city.properties|] == Candidate(x, z)))
  {
    var ps := Step(city, x, z, env).value.properties;
    if ps != city.properties {
      assert ps == city.properties + [Candidate(x, z)];
      forall i, j | 0 <= i < j < |ps| ensures Before(ps[i], ps[j].x, ps[j].z) {
        if j == |ps| - 1 {
          assert ps[i] == city.properties[i];
        } else {
          assert ps[i] == city.properties[i] && ps[j] == city.properties[j];
        }
      }
    }
  }

  lemma {:induction false} RowOrdered<K>(city: City<K>, x: nat, z: nat, height: int, env: Env<K>)
    requires Row(city, x, z, height, env).Success?
    requires RowMajor(city.properties) && AllBefore(city.properties, x, z)
    ensures var ps := Row(city, x, z, height, env).value.properties;
      RowMajor(ps) && AllBefore(ps, x + 1, 0)
      && forall i :: |city.properties| <= i < |ps| ==> ps[i].sideLength == 15 && ps[i].x == x && z <= ps[i].z < height
    decreases height - z
  {
    if z < height {
      var next := Step(city, x, z, env).value;
      StepOrdered(city, x, z, env);
      RowOrdered(next, x, z + 1, height, env);
      RowCovers(next, x, z + 1, height, env);
      var ps := Row(city, x, z, height, env).value.properties;
      forall i | |city.properties| <= i < |ps|
        ensures ps[i].sideLength == 15 && ps[i].x == x && z <= ps[i].z < height
      {
        if i < |next.properties| {
          assert ps[i] == next.properties[i];
        }
      }
    } else {
      assert Row(city, x, z, height, env).value == city;
    }
  }

  lemma {:induction false} GridOrdered<K>(city: City<K>, x: nat, width: int, height: int, env: Env<K>)
    requires Grid(city, x, width, height, env).Success?
    requires RowMajor(city.properties) && AllBefore(city.properties, x, 0)
    ensures var ps := Grid(city, x, width, height, env).value.properties;
      RowMajor(ps)
      && forall i :: |city.properties| <= i < |ps| ==>
           ps[i].sideLength == 15 && x <= ps[i].x < width && 0 <= ps[i].z < height
    decreases width - x
  {
    if x < width {
      var next := Row(city, x, 0, height, env).value;
      RowOrdered(city, x, 0, height, env);
      RowCovers(city, x, 0, height, env);
      GridOrdered(next, x + 1, width, height, env);
      GridCovers(next, x + 1, width, height, env);
      var ps := Grid(city, x, width, height, env).value.properties;
      forall i | |city.properties| <= i < |ps|
        ensures ps[i].sideLength == 15 && x <= ps[i].x < width && 0 <= ps[i].z < height
      {
        if i < |next.properties| {
          assert ps[i] == next.properties[i];
        }
      }
    } else {
      assert Grid(city, x, width, height, env).value == city;
    }
  }

  /** A completed `build` places only 15-unit candidates at grid points, in
      the order row by row. */
  lemma BuildOrdered<K>(city: City<K>, configs: seq<BuildingConfig<K>>, width: int, height: int, env: Env<K>)
    requires BuildSpec(city, configs, width, height, env).Success?
    ensures var ps := BuildSpec(city, configs, width, height, env).value.properties;
      RowMajor(ps)
      && forall i :: 0 <= i < |ps| ==> ps[i].sideLength == 15 && 0 <= ps[i].x < width && 0 <= ps[i].z < height
  {
    GridOrdered(City(city.seed, [], LoadBlueprints(configs).value), 0, width, height, env);
  }
}
