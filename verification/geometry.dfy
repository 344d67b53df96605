/** Values the CPU-side geometry builders push into their arrays. */
module Geometry {

  datatype Vec4 = Vec4(x: real, y: real, z: real, w: real)

  /** The four components in memory order. */
  function Components(v: Vec4): (r: seq<real>)
    ensures |r| == 4
  {
    [v.x, v.y, v.z, v.w]
  }

  /** The components of every vector, in order. */
  function FlattenVecs(vs: seq<Vec4>): (r: seq<real>)
    ensures |r| == 4 * |vs|
  {
    if |vs| == 0 then [] else FlattenVecs(vs[..|vs| - 1]) + Components(vs[|vs| - 1])
  }

  lemma {:induction false} FlattenVecsAppend(vs: seq<Vec4>, ws: seq<Vec4>)
    ensures FlattenVecs(vs + ws) == FlattenVecs(vs) + FlattenVecs(ws)
    decreases |ws|
  {
    if |ws| > 0 {
      assert (vs + ws)[..|vs + ws| - 1] == vs + ws[..|ws| - 1];
      FlattenVecsAppend(vs, ws[..|ws| - 1]);
    } else {
      assert vs + ws == vs;
    }
  }

  /** `[lo, lo + 1, ..., hi - 1]`. */
  function Range(lo: int, hi: int): (r: seq<int>)
    ensures |r| == if hi > lo then hi - lo else 0
    ensures forall i :: 0 <= i < |r| ==> r[i] == lo + i
    decreases hi - lo
  {
    if hi <= lo then [] else Range(lo, hi - 1) + [hi - 1]
  }

  lemma FlattenThree(a: Vec4, b: Vec4, c: Vec4)
    ensures FlattenVecs([a, b, c]) == Components(a) + Components(b) + Components(c)
  {
    assert [a, b, c][..2] == [a, b];
    assert [a, b][..1] == [a];
    assert [a][..0] == [];
    assert FlattenVecs([a]) == Components(a);
    assert FlattenVecs([a, b]) == Components(a) + Components(b);
  }

  lemma {:induction false} RangeSplit(lo: int, mid: int, hi: int)
    requires lo <= mid <= hi
    ensures Range(lo, mid) + Range(mid, hi) == Range(lo, hi)
    decreases hi - mid
  {
    if hi > mid {
      RangeSplit(lo, mid, hi - 1);
      assert Range(mid, hi) == Range(mid, hi - 1) + [hi - 1];
      assert Range(lo, mid) + Range(mid, hi) == (Range(lo, mid) + Range(mid, hi - 1)) + [hi - 1];
    } else {
      assert Range(mid, hi) == [];
      assert Range(lo, mid) + [] == Range(lo, mid);
    }
  }
}
