/** The two noise-driven random number generators: `WeightedRNG`, a roulette
    over named weights, and `RNG`, an affine map of one draw onto [min, max].
    Each owns a noise source seeded with its own seed; here that source is
    the `Noise2` parameter of `Roll`. */
module Rng {
  import opened Common

  // ---------------------------------------------------------------- weighted

  /** One property of the weights object. */
  datatype Entry = Entry(key: string, weight: real)

  /** `WeightedRNG`. `entries` is the weights object in the order a `for..in`
      loop visits it: the order in which the keys were first added. */
  datatype WeightedRng = WeightedRng(seed: real, entries: seq<Entry>, totalWeight: real, rollItr: real)

  /** What one `roll` returns, and the generator after it. */
  datatype WeightedDraw = WeightedDraw(key: Option<string>, next: WeightedRng)

  function Keys(es: seq<Entry>): (r: seq<string>)
    ensures |r| == |es| && forall i :: 0 <= i < |es| ==> r[i] == es[i].key
  {
    if |es| == 0 then [] else [es[0].key] + Keys(es[1..])
  }

  /** An object never holds one key twice. */
  predicate DistinctKeys(es: seq<Entry>) {
    forall i, j :: 0 <= i < |es| && 0 <= j < |es| && es[i].key == es[j].key ==> i == j
  }

  /** Position of `key` among the entries, if it is there. */
  function IndexOf(es: seq<Entry>, key: string): (r: Option<nat>)
    ensures r.Some? ==> r.value < |es| && es[r.value].key == key
    ensures r.None? ==> forall i :: 0 <= i < |es| ==> es[i].key != key
  {
    if |es| == 0 then None
    else if es[0].key == key then Some(0)
    else match IndexOf(es[1..], key)
      case None => None
      case Some(i) => Some(i + 1)
  }

  /** `weights[key]`, or nothing when the property is absent. */
  function Lookup(es: seq<Entry>, key: string): Option<real> {
    match IndexOf(es, key)
    case None => None
    case Some(i) => Some(es[i].weight)
  }

  /** Sum of the weights, front to back. */
  function Sum(es: seq<Entry>): real {
    if |es| == 0 then 0.0 else es[0].weight + Sum(es[1..])
  }

  /** Sum of the weights of the entries `0..k`. */
  function Cumulative(es: seq<Entry>, k: nat): real
    requires k < |es|
  {
    Sum(es[..k + 1])
  }

  /** The invariant `add` keeps as long as every key is added once. */
  predicate Tracks(w: WeightedRng) {
    DistinctKeys(w.entries) && w.totalWeight == Sum(w.entries)
  }

  predicate NonNegative(es: seq<Entry>) {
    forall i :: 0 <= i < |es| ==> es[i].weight >= 0.0
  }

  /** `new WeightedRNG(seed)`. */
  function NewWeightedRng(seed: real): (w: WeightedRng)
    ensures w.entries == [] && w.totalWeight == 0.0 && w.rollItr == 13.0 && w.seed == seed
    ensures Tracks(w)
  {
    WeightedRng(seed, [], 0.0, 13.0)
  }

  lemma {:induction false} SumAppend(es: seq<Entry>, e: Entry)
    ensures Sum(es + [e]) == Sum(es) + e.weight
    decreases |es|
  {
    if |es| == 0 {
      assert [e][1..] == [];
    } else {
      assert (es + [e])[1..] == es[1..] + [e];
      SumAppend(es[1..], e);
    }
  }

  lemma {:induction false} SumUpdate(es: seq<Entry>, i: nat, e: Entry)
    requires i < |es|
    ensures Sum(es[i := e]) == Sum(es) - es[i].weight + e.weight
    decreases |es|
  {
    if i == 0 {
      assert es[i := e][1..] == es[1..];
    } else {
      assert es[i := e][1..] == es[1..][i - 1 := e];
      SumUpdate(es[1..], i - 1, e);
    }
  }

  /** `add(key, value)`: the property is created at the end of the visiting
      order, or overwritten where it is; the total grows by `value` either way. */
  function Add(w: WeightedRng, key: string, value: real): (r: WeightedRng)
    ensures r.totalWeight == w.totalWeight + value
    ensures Lookup(r.entries, key) == Some(value)
    ensures forall k :: k != key ==> Lookup(r.entries, k) == Lookup(w.entries, k)
    ensures Lookup(w.entries, key).Some? ==> Keys(r.entries) == Keys(w.entries)
    ensures Lookup(w.entries, key).None? ==> r.entries == w.entries + [Entry(key, value)]
    ensures Lookup(w.entries, key).None? ==> Keys(r.entries) == Keys(w.entries) + [key]
    ensures DistinctKeys(w.entries) ==> DistinctKeys(r.entries)
    ensures r.seed == w.seed && r.rollItr == w.rollItr
  {
    var es := match IndexOf(w.entries, key)
      case Some(i) => w.entries[i := Entry(key, value)]
      case None => w.entries + [Entry(key, value)];
    AddLookup(w.entries, key, value);
    WeightedRng(w.seed, es, w.totalWeight + value, w.rollItr)
  }

  lemma AddLookup(es: seq<Entry>, key: string, value: real)
    ensures var es' := match IndexOf(es, key)
                         case Some(i) => es[i := Entry(key, value)]
                         case None => es + [Entry(key, value)];
      && Lookup(es', key) == Some(value)
      && (forall k :: k != key ==> Lookup(es', k) == Lookup(es, k))
      && (IndexOf(es, key).Some? ==> Keys(es') == Keys(es))
      && (IndexOf(es, key).None? ==> Keys(es') == Keys(es) + [key])
      && (DistinctKeys(es) ==> DistinctKeys(es'))
  {
    match IndexOf(es, key)
    case Some(i) => AddLookupReplace(es, key, value, i);
    case None => AddLookupAppend(es, key, value);
  }

  lemma AddLookupReplace(es: seq<Entry>, key: string, value: real, i: nat)
    requires IndexOf(es, key) == Some(i)
    ensures var es' := es[i := Entry(key, value)];
      && Lookup(es', key) == Some(value)
      && (forall k :: k != key ==> Lookup(es', k) == Lookup(es, k))
      && Keys(es') == Keys(es)
      && (DistinctKeys(es) ==> DistinctKeys(es'))
  {
    var es' := es[i := Entry(key, value)];
    assert Keys(es') == Keys(es);
    forall k ensures IndexOf(es', k) == IndexOf(es, k) { IndexOfByKeys(es', es, k); }
  }

  lemma AddLookupAppend(es: seq<Entry>, key: string, value: real)
    requires IndexOf(es, key).None?
    ensures var es' := es + [Entry(key, value)];
      && Lookup(es', key) == Some(value)
      && (forall k :: k != key ==> Lookup(es', k) == Lookup(es, k))
      && Keys(es') == Keys(es) + [key]
      && (DistinctKeys(es) ==> DistinctKeys(es'))
  {
    var es' := es + [Entry(key, value)];
    assert Keys(es') == Keys(es) + [key];
    forall k ensures IndexOf(es', k) == (if IndexOf(es, k).Some? then IndexOf(es, k)
                                         else if k == key then Some(|es|) else None) {
      IndexOfAppend(es, Entry(key, value), k);
    }
  }

  /** `IndexOf` looks only at the keys. */
  lemma {:induction false} IndexOfByKeys(a: seq<Entry>, b: seq<Entry>, k: string)
    requires Keys(a) == Keys(b)
    ensures IndexOf(a, k) == IndexOf(b, k)
    decreases |a|
  {
    if |a| > 0 {
      assert Keys(a[1..]) == Keys(a)[1..] && Keys(b[1..]) == Keys(b)[1..];
      IndexOfByKeys(a[1..], b[1..], k);
    }
  }

  lemma {:induction false} IndexOfAppend(es: seq<Entry>, e: Entry, k: string)
    ensures IndexOf(es + [e], k) ==
      (if IndexOf(es, k).Some? then IndexOf(es, k) else if e.key == k then Some(|es|) else None)
    decreases |es|
  {
    if |es| == 0 {
      assert (es + [e])[1..] == [];
    } else {
      assert (es + [e])[1..] == es[1..] + [e];
      IndexOfAppend(es[1..], e, k);
    }
  }

  /** `IndexOf` finds the first occurrence. */
  lemma {:induction false} LookupFirst(es: seq<Entry>, key: string)
    ensures IndexOf(es, key).Some? ==> forall j :: 0 <= j < IndexOf(es, key).value ==> es[j].key != key
    decreases |es|
  {
    if |es| > 0 && es[0].key != key {
      LookupFirst(es[1..], key);
    }
  }

  /** While keys are distinct, adding a new key keeps `totalWeight` the sum
      of the stored weights. */
  lemma AddNewKeyTracks(w: WeightedRng, key: string, value: real)
    requires Tracks(w) && Lookup(w.entries, key).None?
    ensures Tracks(Add(w, key, value))
  {
    SumAppend(w.entries, Entry(key, value));
  }

  /** Re-adding a key overwrites its weight but still adds the new value to
      the total: the total then exceeds the sum by the replaced weight. */
  lemma ReAddDoubleCounts(w: WeightedRng, key: string, value: real)
    requires Tracks(w) && Lookup(w.entries, key).Some?
    ensures Add(w, key, value).totalWeight == Sum(Add(w, key, value).entries) + Lookup(w.entries, key).value
  {
    var i := IndexOf(w.entries, key).value;
    SumUpdate(w.entries, i, Entry(key, value));
  }

  /** The concrete case: adding "a" with weight 1 twice totals 2 over a single
      stored weight of 1. */
  lemma ReAddExample(seed: real)
    ensures var w := Add(Add(NewWeightedRng(seed), "a", 1.0), "a", 1.0);
      w.totalWeight == 2.0 && Sum(w.entries) == 1.0
  {
    var w1 := Add(NewWeightedRng(seed), "a", 1.0);
    AddNewKeyTracks(NewWeightedRng(seed), "a", 1.0);
    ReAddDoubleCounts(w1, "a", 1.0);
  }

  lemma CumulativeFirst(es: seq<Entry>)
    requires |es| > 0
    ensures Cumulative(es, 0) == es[0].weight
  {
    assert es[..1][1..] == [];
    assert Sum(es[..1]) == es[..1][0].weight + Sum(es[..1][1..]);
  }

  lemma CumulativeTail(es: seq<Entry>, j: nat)
    requires j + 1 < |es|
    ensures Cumulative(es, j + 1) == es[0].weight + Cumulative(es[1..], j)
  {
    assert es[..j + 2][1..] == es[1..][..j + 1];
  }

  /** The body of the `for..in` loop of `roll`: each weight that does not
      exceed the remaining `range` is subtracted from it. The result is the
      first entry whose cumulative weight strictly exceeds the starting
      `range`. */
  function Roulette(es: seq<Entry>, range: real): (r: Option<nat>)
    ensures r.Some? ==> r.value < |es| && Cumulative(es, r.value) > range
    ensures r.Some? ==> forall j :: 0 <= j < r.value ==> Cumulative(es, j) <= range
    ensures r.None? ==> forall j :: 0 <= j < |es| ==> Cumulative(es, j) <= range
    decreases |es|
  {
    if |es| == 0 then None
    else
      CumulativeFirst(es);
      if es[0].weight > range then Some(0)
      else
        var rest := Roulette(es[1..], range - es[0].weight);
        forall j | 1 <= j < |es| ensures Cumulative(es, j) == es[0].weight + Cumulative(es[1..], j - 1) {
          CumulativeTail(es, j - 1);
        }
        match rest
        case None => None
        case Some(k) => Some(k + 1)
  }

  /** The noise draw behind a roll at counter `itr`. */
  function Draw(noise: Noise2, itr: real): real {
    noise(itr * 13.0, itr * 29.0)
  }

  /** `roll()`: scales the draw by the total and runs the roulette; the
      counter advances by 19 and nothing else changes. */
  function Roll(w: WeightedRng, noise: Noise2): (r: WeightedDraw)
    ensures r.next == w.(rollItr := w.rollItr + 19.0)
    ensures r.key.Some? <==> Roulette(w.entries, Draw(noise, w.rollItr) * w.totalWeight).Some?
    ensures r.key.Some? ==>
      r.key.value == w.entries[Roulette(w.entries, Draw(noise, w.rollItr) * w.totalWeight).value].key
  {
    var range := Draw(noise, w.rollItr) * w.totalWeight;
    var key := match Roulette(w.entries, range)
      case None => None
      case Some(i) => Some(w.entries[i].key);
    WeightedDraw(key, w.(rollItr := w.rollItr + 19.0))
  }

  lemma {:induction false} SumNonNegative(es: seq<Entry>)
    requires NonNegative(es)
    ensures Sum(es) >= 0.0
    decreases |es|
  {
    if |es| > 0 {
      assert NonNegative(es[1..]) by {
        forall i | 0 <= i < |es| - 1 ensures es[1..][i].weight >= 0.0 { assert es[1..][i] == es[i + 1]; }
      }
      SumNonNegative(es[1..]);
    }
  }

  lemma {:induction false} CumulativeAtMostSum(es: seq<Entry>, j: nat)
    requires NonNegative(es) && j < |es|
    ensures Cumulative(es, j) <= Sum(es)
    decreases |es|
  {
    assert NonNegative(es[1..]) by {
      forall i | 0 <= i < |es| - 1 ensures es[1..][i].weight >= 0.0 { assert es[1..][i] == es[i + 1]; }
    }
    if j == 0 {
      CumulativeFirst(es);
      SumNonNegative(es[1..]);
    } else {
      CumulativeTail(es, j - 1);
      CumulativeAtMostSum(es[1..], j - 1);
    }
  }

  /** With non-negative weights and a positive total, a negative draw yields
      the first key. */
  lemma NegativeDrawPicksFirst(w: WeightedRng, noise: Noise2)
    requires Tracks(w) && NonNegative(w.entries) && w.totalWeight > 0.0
    requires Draw(noise, w.rollItr) < 0.0
    ensures |w.entries| > 0 && Roll(w, noise).key == Some(w.entries[0].key)
  {
    var d := Draw(noise, w.rollItr);
    assert d * w.totalWeight < 0.0;
    CumulativeFirst(w.entries);
  }

  /** A draw of 1 or more covers the whole total, so no key is chosen. */
  lemma LargeDrawPicksNothing(w: WeightedRng, noise: Noise2)
    requires Tracks(w) && NonNegative(w.entries)
    requires Draw(noise, w.rollItr) >= 1.0
    ensures Roll(w, noise).key == None
  {
    var d := Draw(noise, w.rollItr);
    SumNonNegative(w.entries);
    assert d * w.totalWeight - w.totalWeight == (d - 1.0) * w.totalWeight;
    assert (d - 1.0) * w.totalWeight >= 0.0;
    forall j | 0 <= j < |w.entries| ensures Cumulative(w.entries, j) <= d * w.totalWeight {
      CumulativeAtMostSum(w.entries, j);
    }
  }

  /** `key` is not among the keys of `val`. */
  predicate Absent(val: seq<Entry>, key: string) {
    forall i :: 0 <= i < |val| ==> val[i].key != key
  }

  /** `add` for each entry of `val`, in order: every key of `val` ends with
      the weight of its last occurrence, and every other key keeps its
      weight or stays missing. */
  function AddAll(w: WeightedRng, val: seq<Entry>): (r: WeightedRng)
    ensures r.seed == w.seed && r.rollItr == w.rollItr
    ensures forall i :: 0 <= i < |val| && Absent(val[i + 1..], val[i].key) ==>
      Lookup(r.entries, val[i].key) == Some(val[i].weight)
    ensures forall k :: Absent(val, k) ==> Lookup(r.entries, k) == Lookup(w.entries, k)
    decreases |val|
  {
    if |val| == 0 then w
    else
      var w1 := Add(w, val[0].key, val[0].weight);
      var r := AddAll(w1, val[1..]);
      AddAllStep(w, val, w1, r);
      r
  }

  /** What the first `add` and the rest of the loop together leave. */
  lemma AddAllStep(w: WeightedRng, val: seq<Entry>, w1: WeightedRng, r: WeightedRng)
    requires |val| > 0 && w1 == Add(w, val[0].key, val[0].weight)
    requires forall i :: 0 <= i < |val[1..]| && Absent(val[1..][i + 1..], val[1..][i].key) ==>
      Lookup(r.entries, val[1..][i].key) == Some(val[1..][i].weight)
    requires forall k :: Absent(val[1..], k) ==> Lookup(r.entries, k) == Lookup(w1.entries, k)
    ensures forall i :: 0 <= i < |val| && Absent(val[i + 1..], val[i].key) ==>
      Lookup(r.entries, val[i].key) == Some(val[i].weight)
    ensures forall k :: Absent(val, k) ==> Lookup(r.entries, k) == Lookup(w.entries, k)
  {
    var t := val[1..];
    forall i | 0 <= i < |val| && Absent(val[i + 1..], val[i].key)
      ensures Lookup(r.entries, val[i].key) == Some(val[i].weight)
    {
      if i == 0 {
        assert t == val[1..];
      } else {
        assert t[i - 1] == val[i] && t[i..] == val[i + 1..];
      }
    }
    forall k | Absent(val, k) ensures Lookup(r.entries, k) == Lookup(w.entries, k) {
      assert val[0].key != k;
      assert forall j :: 0 <= j < |t| ==> t[j] == val[j + 1];
    }
  }

  /** Every `add` adds its value to the total, whatever the keys. */
  lemma {:induction false} AddAllTotal(w: WeightedRng, val: seq<Entry>)
    ensures AddAll(w, val).totalWeight == w.totalWeight + Sum(val)
    decreases |val|
  {
    if |val| > 0 {
      AddAllTotal(Add(w, val[0].key, val[0].weight), val[1..]);
    }
  }

  lemma {:induction false} AddAllDistinct(w: WeightedRng, val: seq<Entry>)
    requires DistinctKeys(w.entries)
    ensures DistinctKeys(AddAll(w, val).entries)
    decreases |val|
  {
    if |val| > 0 {
      AddAllDistinct(Add(w, val[0].key, val[0].weight), val[1..]);
    }
  }

  /** No key of `val` is among `es` yet. */
  predicate Fresh(es: seq<Entry>, val: seq<Entry>) {
    forall i :: 0 <= i < |val| ==> Lookup(es, val[i].key).None?
  }

  /** Adding distinct keys that are not yet present appends them in order. */
  lemma {:induction false} AddAllAppends(w: WeightedRng, val: seq<Entry>)
    requires DistinctKeys(val)
    requires Fresh(w.entries, val)
    ensures AddAll(w, val).entries == w.entries + val
    decreases |val|
  {
    if |val| == 0 {
      assert w.entries + val == w.entries;
    } else {
      var w1 := Add(w, val[0].key, val[0].weight);
      AppendStep(w, val);
      AddAllAppends(w1, val[1..]);
      ConsConcat(w.entries, val);
    }
  }

  /** The first `add` of a fresh key appends it and leaves the rest fresh. */
  lemma AppendStep(w: WeightedRng, val: seq<Entry>)
    requires DistinctKeys(val) && |val| > 0
    requires Fresh(w.entries, val)
    ensures Add(w, val[0].key, val[0].weight).entries == w.entries + [val[0]]
    ensures Fresh(Add(w, val[0].key, val[0].weight).entries, val[1..])
    ensures DistinctKeys(val[1..])
  {
    assert Lookup(w.entries, val[0].key).None?;
    FreshAfterAdd(w, val);
    DistinctTail(val);
  }

  lemma ConsConcat(es: seq<Entry>, val: seq<Entry>)
    requires |val| > 0
    ensures es + [val[0]] + val[1..] == es + val
  {
    assert val == [val[0]] + val[1..];
  }

  lemma {:induction false} SumConcat(a: seq<Entry>, b: seq<Entry>)
    ensures Sum(a + b) == Sum(a) + Sum(b)
    decreases |a|
  {
    if |a| == 0 {
      assert a + b == b;
    } else {
      assert (a + b)[1..] == a[1..] + b;
      SumConcat(a[1..], b);
    }
  }

  /** Distinct fresh keys keep `totalWeight` equal to the sum of the weights. */
  lemma AddAllFresh(w: WeightedRng, val: seq<Entry>)
    requires Tracks(w) && DistinctKeys(val)
    requires Fresh(w.entries, val)
    ensures AddAll(w, val).entries == w.entries + val
    ensures Tracks(AddAll(w, val))
  {
    AddAllTotal(w, val);
    AddAllDistinct(w, val);
    AddAllAppends(w, val);
    SumConcat(w.entries, val);
  }

  lemma DistinctTail(val: seq<Entry>)
    requires DistinctKeys(val) && |val| > 0
    ensures DistinctKeys(val[1..])
  {
    forall i, j | 0 <= i < |val| - 1 && 0 <= j < |val| - 1 && val[1..][i].key == val[1..][j].key
      ensures i == j
    {
      assert val[1..][i] == val[i + 1] && val[1..][j] == val[j + 1];
    }
  }

  lemma FreshAfterAdd(w: WeightedRng, val: seq<Entry>)
    requires DistinctKeys(val) && |val| > 0
    requires Fresh(w.entries, val)
    ensures Fresh(Add(w, val[0].key, val[0].weight).entries, val[1..])
  {
    forall i | 0 <= i < |val| - 1
      ensures Lookup(Add(w, val[0].key, val[0].weight).entries, val[1..][i].key).None?
    {
      assert val[1..][i] == val[i + 1];
      assert val[i + 1].key != val[0].key;
    }
  }

  /** Two rolls move the counter by 38 and leave the weights alone. */
  lemma RollTwice(w: WeightedRng, noise: Noise2)
    ensures Roll(Roll(w, noise).next, noise).next == w.(rollItr := w.rollItr + 38.0)
  {
  }

  // ---------------------------------------------------------------- affine

  /** `RNG`: a uniform-looking value in [min, max] per roll. */
  datatype AffineRng = AffineRng(seed: real, min: real, max: real, rollItr: real)

  datatype AffineDraw = AffineDraw(value: real, next: AffineRng)

  /** `new RNG(seed, min, max)`. */
  function NewAffineRng(seed: real, min: real, max: real): (g: AffineRng)
    ensures g.seed == seed && g.min == min && g.max == max && g.rollItr == 232.0
  {
    AffineRng(seed, min, max, 232.0)
  }

  /** The affine map of a draw onto the generator's range. */
  function Scale(g: AffineRng, d: real): (v: real)
    ensures d == 0.0 ==> v == g.min
    ensures d == 1.0 ==> v == g.max
  {
    d * (g.max - g.min) + g.min
  }

  /** `roll()`. */
  function RollAffine(g: AffineRng, noise: Noise2): (r: AffineDraw)
    ensures r.next == g.(rollItr := g.rollItr + 19.0)
    ensures r.value == Scale(g, Draw(noise, g.rollItr))
  {
    AffineDraw(Scale(g, Draw(noise, g.rollItr)), g.(rollItr := g.rollItr + 19.0))
  }

  /** For `min <= max` a larger draw never gives a smaller value. */
  lemma ScaleMonotone(g: AffineRng, d1: real, d2: real)
    requires g.min <= g.max && d1 <= d2
    ensures Scale(g, d1) <= Scale(g, d2)
  {
    var a, b := d2 - d1, g.max - g.min;
    assert Scale(g, d2) - Scale(g, d1) == a * b;
    NonNegativeProduct(a, b);
  }

  lemma NonNegativeProduct(a: real, b: real)
    requires a >= 0.0 && b >= 0.0
    ensures a * b >= 0.0
  {
  }

  /** Draws in [-1, 1] land in [2 min - max, max]; only draws in [0, 1] are
      guaranteed to land in [min, max]. */
  lemma ScaleRange(g: AffineRng, d: real)
    requires g.min <= g.max && -1.0 <= d <= 1.0
    ensures 2.0 * g.min - g.max <= Scale(g, d) <= g.max
    ensures 0.0 <= d ==> g.min <= Scale(g, d)
  {
    ScaleMonotone(g, -1.0, d);
    ScaleMonotone(g, d, 1.0);
    if 0.0 <= d {
      ScaleMonotone(g, 0.0, d);
    }
  }

  /** A strict negative draw falls below `min` whenever the range is not
      degenerate, so values outside [min, max] do occur. */
  lemma NegativeDrawBelowMin(g: AffineRng, d: real)
    requires g.min < g.max && d < 0.0
    ensures Scale(g, d) < g.min
  {
    assert Scale(g, d) - g.min == d * (g.max - g.min);
  }
}
