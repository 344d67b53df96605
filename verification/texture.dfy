/** The texture wrapper: the power-of-two test that decides between mipmaps
    and clamped sampling once the image has loaded, and the slot-to-unit
    mapping of `bind`. GL calls are recorded as values. */
module TextureGl {

  const Two32: nat := 0x1_0000_0000

  /** JavaScript's ToUint32 on an integer: the low 32 bits. The bitwise `&`
      works on these bits, and its result is 0 exactly when they are. */
  function ToUint32(x: int): (r: nat)
    ensures r < Two32
    ensures 0 <= x < Two32 ==> r == x
  {
    x % Two32
  }

  /** Bitwise and of two non-negative integers, bit by bit from the lowest. */
  function And(a: nat, b: nat): (r: nat)
    ensures r <= a && r <= b
  {
    if a == 0 || b == 0 then 0
    else 2 * And(a / 2, b / 2) + (if a % 2 == 1 && b % 2 == 1 then 1 else 0)
  }

  /** `n` is 1, 2, 4, 8, ... */
  predicate IsPow2(n: nat) {
    n == 1 || (n >= 2 && n % 2 == 0 && IsPow2(n / 2))
  }

  lemma {:induction false} AndSelf(k: nat)
    ensures And(k, k) == k
  {
    if k > 0 {
      AndSelf(k / 2);
    }
  }

  /** Clearing the lowest set bit leaves nothing exactly for powers of two. */
  lemma {:induction false} AndPredecessor(v: nat)
    requires v >= 1
    ensures And(v, v - 1) == 0 <==> IsPow2(v)
  {
    if v >= 2 {
      if v % 2 == 0 {
        assert (v - 1) / 2 == v / 2 - 1 && (v - 1) % 2 == 1;
        assert And(v, v - 1) == 2 * And(v / 2, v / 2 - 1);
        AndPredecessor(v / 2);
      } else {
        assert (v - 1) / 2 == v / 2 && (v - 1) % 2 == 0;
        assert And(v, v - 1) == 2 * And(v / 2, v / 2);
        AndSelf(v / 2);
      }
    }
  }

  /** `isPowerOf2(value)`: `(value & (value - 1)) == 0`. */
  function IsPowerOf2(value: int): (r: bool)
    ensures value == 0 ==> r
    ensures 1 <= value < Two32 ==> (r <==> IsPow2(value))
  {
    if 1 <= value < Two32 then
      AndPredecessor(value);
      And(ToUint32(value), ToUint32(value - 1)) == 0
    else
      And(ToUint32(value), ToUint32(value - 1)) == 0
  }

  /** Only the low 32 bits take part, so 2^32 + 1 passes the test. */
  lemma WrapsAbove32Bits()
    ensures IsPowerOf2(Two32 + 1) && !IsPow2(Two32 + 1)
  {
    assert ToUint32(Two32 + 1) == 1;
    assert ToUint32(Two32) == 0;
  }

  // ---------------------------------------------------------------- GL state

  /** WebGL enumerants, as given by the OpenGL ES 2.0 specification. */
  const TEXTURE0: int := 0x84C0
  const TEXTURE_MIN_FILTER: int := 0x2801
  const TEXTURE_WRAP_S: int := 0x2802
  const TEXTURE_WRAP_T: int := 0x2803
  const LINEAR: int := 0x2601
  const CLAMP_TO_EDGE: int := 0x812F

  datatype GlCall = GenerateMipmap | TexParameter(pname: int, param: int)

  /** The texture unit `bind` activates for a slot: units 1 to 4 for the
      slots 1 to 4, unit 0 for any other value. */
  function SlotUnit(slot: real): (u: int)
    ensures TEXTURE0 <= u <= TEXTURE0 + 4
    ensures u != TEXTURE0 <==> slot in {1.0, 2.0, 3.0, 4.0}
    ensures u != TEXTURE0 ==> (u - TEXTURE0) as real == slot
  {
    if slot == 1.0 then TEXTURE0 + 1
    else if slot == 2.0 then TEXTURE0 + 2
    else if slot == 3.0 then TEXTURE0 + 3
    else if slot == 4.0 then TEXTURE0 + 4
    else TEXTURE0
  }

  /** The active unit and the 2D texture bound on each unit. */
  datatype GlState<T> = GlState(activeTexture: int, bound2D: map<int, T>)

  /** `bind(slot)`: activate the slot's unit and bind the texture on it. */
  function Bind<T>(st: GlState<T>, slot: real, texture: T): (r: GlState<T>)
    ensures r.activeTexture == SlotUnit(slot)
    ensures r.activeTexture in r.bound2D && r.bound2D[r.activeTexture] == texture
    ensures forall u :: u in st.bound2D && u != SlotUnit(slot) ==> u in r.bound2D && r.bound2D[u] == st.bound2D[u]
  {
    var u := SlotUnit(slot);
    GlState(u, st.bound2D[u := texture])
  }

  /** Two textures bound to two different slots in 1..4 both stay bound. */
  lemma BindDistinctSlots<T>(st: GlState<T>, s1: real, s2: real, t1: T, t2: T)
    requires s1 in {1.0, 2.0, 3.0, 4.0} && s2 in {1.0, 2.0, 3.0, 4.0} && s1 != s2
    ensures var r := Bind(Bind(st, s1, t1), s2, t2);
      r.bound2D[SlotUnit(s1)] == t1 && r.bound2D[SlotUnit(s2)] == t2
  {
  }

  /** Any slot outside 1..4, such as 0, 5 or 1.5, shares unit 0. */
  lemma OtherSlotsShareUnitZero<T>(st: GlState<T>, s1: real, s2: real, t1: T, t2: T)
    requires s1 !in {1.0, 2.0, 3.0, 4.0} && s2 !in {1.0, 2.0, 3.0, 4.0}
    ensures Bind(Bind(st, s1, t1), s2, t2).bound2D[TEXTURE0] == t2
  {
  }

  /** The sampling set-up once the image is in: mipmaps when both sides pass
      `isPowerOf2`, otherwise clamping in both directions and linear
      minification. */
  function OnImageLoad(width: int, height: int): (calls: seq<GlCall>)
    ensures calls == [GenerateMipmap] <==> IsPowerOf2(width) && IsPowerOf2(height)
    ensures calls != [GenerateMipmap] ==> calls == [
      TexParameter(TEXTURE_WRAP_S, CLAMP_TO_EDGE),
      TexParameter(TEXTURE_WRAP_T, CLAMP_TO_EDGE),
      TexParameter(TEXTURE_MIN_FILTER, LINEAR)]
  {
    if IsPowerOf2(width) && IsPowerOf2(height) then [GenerateMipmap]
    else [TexParameter(TEXTURE_WRAP_S, CLAMP_TO_EDGE),
          TexParameter(TEXTURE_WRAP_T, CLAMP_TO_EDGE),
          TexParameter(TEXTURE_MIN_FILTER, LINEAR)]
  }

  /** For real image sizes, mipmaps are generated exactly for power-of-two
      sides. */
  lemma MipmapsForPowersOfTwo(width: int, height: int)
    requires 1 <= width < Two32 && 1 <= height < Two32
    ensures OnImageLoad(width, height) == [GenerateMipmap] <==> IsPow2(width) && IsPow2(height)
  {
  }
}
