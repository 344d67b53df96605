/** A building blueprint as loaded from its JSON configuration: the random
    number generator its walls section describes. The mesh instances and the
    shape grammar a building holds are not used by anything modelled here. */
module Blueprint {
  import opened Common
  import opened Rng

  /** An RNG section of the configuration. `seed == None` is a missing seed,
      `rngType == None` a missing (or non-string) `type`; `val` lists the
      properties of the `val` object in their visiting order, and is empty
      when `val` is missing, since `for..in` over `undefined` runs no
      iteration. */
  datatype RngConfig = RngConfig(seed: Option<real>, rngType: Option<string>, val: seq<Entry>)

  /** A building's configuration; `constraints` is read only by the city
      generator. */
  datatype BuildingConfig<K> = BuildingConfig(
    name: string, walls: Option<RngConfig>, floor: Option<RngConfig>, constraints: K)

  /** A loaded building. `floorsRng` exists in the program but is never assigned. */
  datatype Building<K> = Building(
    name: string, config: BuildingConfig<K>, wallsRng: Option<WeightedRng>, floorsRng: Option<WeightedRng>)

  const DefaultSeed: real := 1723.0

  /** The seed `getRNG` uses: the configured one when it is truthy. */
  function SeedOf(cfg: RngConfig): (s: real)
    ensures cfg.seed.None? ==> s == DefaultSeed
    ensures cfg.seed.Some? && cfg.seed.value == 0.0 ==> s == DefaultSeed
    ensures cfg.seed.Some? && cfg.seed.value != 0.0 ==> s == cfg.seed.value
  {
    match cfg.seed
    case Some(s) => if s != 0.0 then s else DefaultSeed
    case None => DefaultSeed
  }

  /** `String.prototype.toUpperCase`, restricted to ASCII letters. */
  function Upper(c: char): char {
    if 'a' <= c <= 'z' then (c as int - 'a' as int + 'A' as int) as char else c
  }

  function ToUpper(s: string): (r: string)
    ensures |r| == |s| && forall i :: 0 <= i < |s| ==> r[i] == Upper(s[i])
  {
    if |s| == 0 then [] else [Upper(s[0])] + ToUpper(s[1..])
  }

  const WeightedName: string := "WEIGHTEDRNG"

  /** `c` is `u` or, when `u` is an upper-case letter, its lower-case form. */
  predicate SameLetter(c: char, u: char) {
    c == u || ('A' <= u <= 'Z' && c as int == u as int - 'A' as int + 'a' as int)
  }

  predicate NoLowerCase(u: string) {
    forall i :: 0 <= i < |u| ==> !('a' <= u[i] <= 'z')
  }

  /** Upper-casing compares letters without regard to case: `t` upper-cases
      to `u` exactly when it spells `u` letter by letter in either case. */
  lemma MatchesIgnoringCase(t: string, u: string)
    requires NoLowerCase(u)
    ensures ToUpper(t) == u <==> |t| == |u| && forall i :: 0 <= i < |t| ==> SameLetter(t[i], u[i])
  {
    if |t| == |u| && forall i :: 0 <= i < |t| ==> SameLetter(t[i], u[i]) {
      forall i | 0 <= i < |t| ensures ToUpper(t)[i] == u[i] {
        UpperOfSameLetter(t[i], u[i]);
      }
    }
    if ToUpper(t) == u {
      forall i | 0 <= i < |t| ensures SameLetter(t[i], u[i]) {
        assert !('a' <= u[i] <= 'z');
        SameLetterOfUpper(t[i], u[i]);
      }
    }
  }

  lemma UpperOfSameLetter(c: char, u: char)
    requires SameLetter(c, u) && !('a' <= u <= 'z')
    ensures Upper(c) == u
  {
  }

  lemma SameLetterOfUpper(c: char, u: char)
    requires Upper(c) == u && !('a' <= u <= 'z')
    ensures SameLetter(c, u)
  {
  }

  lemma WeightedNameUpper()
    ensures NoLowerCase(WeightedName)
  {
  }

  /** `getRNG(config)`: a `WeightedRNG` fed one `add` per property of `val`,
      or nothing for any other type; reading the type of a section without
      one throws. */
  function GetRng(cfg: RngConfig): (r: Result<Option<WeightedRng>>)
    ensures cfg.rngType.None? <==> r.Failure?
    ensures r.Failure? ==> r.error.TypeError?
    ensures r.Success? ==> (r.value.Some? <==> ToUpper(cfg.rngType.value) == WeightedName)
    ensures r.Success? && r.value.Some? ==>
      r.value.value.seed == SeedOf(cfg) && r.value.value.rollItr == 13.0
      && r.value.value.totalWeight == Sum(cfg.val)
  {
    match cfg.rngType
    case None => Failure(TypeError("toUpperCase of undefined"))
    case Some(t) =>
      if ToUpper(t) == WeightedName then
        AddAllTotal(NewWeightedRng(SeedOf(cfg)), cfg.val);
        Success(Some(AddAll(NewWeightedRng(SeedOf(cfg)), cfg.val)))
      else Success(None)
  }

  /** The keys of a JSON object are distinct, so the generator holds exactly
      the configured weights, in order, and its total is their sum. */
  lemma GetRngLoadsWeights(cfg: RngConfig)
    requires DistinctKeys(cfg.val)
    requires GetRng(cfg).Success? && GetRng(cfg).value.Some?
    ensures GetRng(cfg).value.value.entries == cfg.val
    ensures Tracks(GetRng(cfg).value.value)
  {
    AddAllFresh(NewWeightedRng(SeedOf(cfg)), cfg.val);
  }

  /** With the type present, the generator is built exactly when the type
      spells `WEIGHTEDRNG` in any mix of cases. */
  lemma GetRngIgnoresCase(cfg: RngConfig)
    requires cfg.rngType.Some?
    ensures GetRng(cfg).Success?
    ensures GetRng(cfg).value.Some? <==>
      |cfg.rngType.value| == |WeightedName|
      && forall i :: 0 <= i < |cfg.rngType.value| ==> SameLetter(cfg.rngType.value[i], WeightedName[i])
  {
    WeightedNameUpper();
    MatchesIgnoringCase(cfg.rngType.value, WeightedName);
  }

  /** `loadConfig` via the constructor: only `wallsRng` is assigned; a missing
      `walls` section is logged and then read through, which throws; a
      missing `floor` section is only logged. */
  function LoadConfig<K>(cfg: BuildingConfig<K>): (r: Result<Building<K>>)
    ensures r.Success? <==> cfg.walls.Some? && GetRng(cfg.walls.value).Success?
    ensures r.Failure? ==> r.error.TypeError?
    ensures r.Success? ==>
      r.value.wallsRng == GetRng(cfg.walls.value).value && r.value.floorsRng.None?
      && r.value.name == cfg.name && r.value.config == cfg
  {
    match cfg.walls
    case None => Failure(TypeError("seed of undefined"))
    case Some(walls) =>
      var rng :- GetRng(walls);
      Success(Building(cfg.name, cfg, rng, None))
  }

  /** The `floor` section has no effect on the loaded generators. */
  lemma FloorIgnored<K>(cfg: BuildingConfig<K>, floor: Option<RngConfig>)
    ensures LoadConfig(cfg).Success? == LoadConfig(cfg.(floor := floor)).Success?
    ensures LoadConfig(cfg).Success? ==>
      LoadConfig(cfg).value.wallsRng == LoadConfig(cfg.(floor := floor)).value.wallsRng
  {
  }
}
