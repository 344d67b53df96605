/** The roof mesh builder: every `addTriangle` appends three corners, three
    normals, four colours and three indices to growing arrays. */
module DynamicRoof {
  import opened Geometry

  datatype Roof = Roof(points: seq<real>, index: seq<int>, nors: seq<real>, cols: seq<real>, indexCounter: int)

  datatype Triangle = Triangle(p1: Vec4, p2: Vec4, p3: Vec4)

  /** The normal pushed with every corner: straight up. */
  const Up: Vec4 := Vec4(0.0, 1.0, 0.0, 0.0)

  /** The colour pushed four times per triangle. */
  const RoofColour: Vec4 := Vec4(0.752, 0.752, 0.764, 1.0)

  /** `new DynamicRoof()`. */
  function NewRoof(): (r: Roof)
    ensures r.points == [] && r.index == [] && r.nors == [] && r.cols == [] && r.indexCounter == 0
  {
    Roof([], [], [], [], 0)
  }

  /** `addTriangle(p1, p2, p3)`. */
  function AddTriangle(r: Roof, t: Triangle): (r': Roof)
    ensures r'.points == r.points + FlattenVecs([t.p1, t.p2, t.p3])
    ensures r'.nors == r.nors + Blocks(Components(Up), 3)
    ensures r'.cols == r.cols + Blocks(Components(RoofColour), 4)
    ensures r'.index == r.index + Range(r.indexCounter, r.indexCounter + 3)
    ensures r'.indexCounter == r.indexCounter + 3
  {
    FlattenThree(t.p1, t.p2, t.p3);
    assert Blocks(Components(Up), 3) == Components(Up) + Components(Up) + Components(Up);
    assert Blocks(Components(RoofColour), 4)
      == Components(RoofColour) + Components(RoofColour) + Components(RoofColour) + Components(RoofColour);
    assert Range(r.indexCounter, r.indexCounter + 3)
      == [r.indexCounter, r.indexCounter + 1, r.indexCounter + 2];
    Roof(r.points + Components(t.p1) + Components(t.p2) + Components(t.p3),
         r.index + [r.indexCounter, r.indexCounter + 1, r.indexCounter + 2],
         r.nors + Components(Up) + Components(Up) + Components(Up),
         r.cols + Components(RoofColour) + Components(RoofColour) + Components(RoofColour) + Components(RoofColour),
         r.indexCounter + 3)
  }

  /** The corners of the triangles, in order. */
  function Corners(ts: seq<Triangle>): (r: seq<Vec4>)
    ensures |r| == 3 * |ts|
  {
    if |ts| == 0 then [] else Corners(ts[..|ts| - 1]) + [ts[|ts| - 1].p1, ts[|ts| - 1].p2, ts[|ts| - 1].p3]
  }

  /** `addTriangle` for each triangle, in order. */
  function AddTriangles(r: Roof, ts: seq<Triangle>): Roof {
    if |ts| == 0 then r else AddTriangle(AddTriangles(r, ts[..|ts| - 1]), ts[|ts| - 1])
  }

  /** After `n` triangles on a fresh roof, the counter is `3n` and the
      index list is `0 .. 3n - 1`. */
  lemma {:induction false} IndicesAfter(ts: seq<Triangle>)
    ensures var r := AddTriangles(NewRoof(), ts);
      r.indexCounter == 3 * |ts| && r.index == Range(0, 3 * |ts|)
  {
    if |ts| > 0 {
      var n := |ts| - 1;
      IndicesAfter(ts[..n]);
      RangeSplit(0, 3 * n, 3 * n + 3);
    }
  }

  /** The points are the corners of the triangles, in order. */
  lemma {:induction false} PointsAfter(ts: seq<Triangle>)
    ensures AddTriangles(NewRoof(), ts).points == FlattenVecs(Corners(ts))
  {
    if |ts| > 0 {
      var n := |ts| - 1;
      var t := ts[n];
      PointsAfter(ts[..n]);
      FlattenVecsAppend(Corners(ts[..n]), [t.p1, t.p2, t.p3]);
    }
  }

  lemma {:induction false} BlocksAdd(b: seq<real>, m: nat, n: nat)
    ensures Blocks(b, m) + Blocks(b, n) == Blocks(b, m + n)
    decreases n
  {
    if n > 0 {
      BlocksAdd(b, m, n - 1);
      assert Blocks(b, m) + Blocks(b, n) == Blocks(b, m) + Blocks(b, n - 1) + b;
    } else {
      assert Blocks(b, m) + [] == Blocks(b, m);
    }
  }

  /** The normal array holds one `(0, 1, 0, 0)` per vertex. */
  lemma {:induction false} NormalsAfter(ts: seq<Triangle>)
    ensures AddTriangles(NewRoof(), ts).nors == Blocks(Components(Up), 3 * |ts|)
  {
    if |ts| > 0 {
      var n := |ts| - 1;
      NormalsAfter(ts[..n]);
      BlocksAdd(Components(Up), 3 * n, 3);
    }
  }

  /** The colour array holds four roof colours per triangle. */
  lemma {:induction false} ColoursAfter(ts: seq<Triangle>)
    ensures AddTriangles(NewRoof(), ts).cols == Blocks(Components(RoofColour), 4 * |ts|)
  {
    if |ts| > 0 {
      var n := |ts| - 1;
      ColoursAfter(ts[..n]);
      BlocksAdd(Components(RoofColour), 4 * n, 4);
    }
  }

  lemma {:induction false} BlocksLength(b: seq<real>, n: nat)
    ensures |Blocks(b, n)| == n * |b|
  {
    if n > 0 {
      BlocksLength(b, n - 1);
      assert (n - 1) * |b| + |b| == n * |b|;
    }
  }

  /** `n` copies of `b`, concatenated. */
  function Blocks(b: seq<real>, n: nat): seq<real> {
    if n == 0 then [] else Blocks(b, n - 1) + b
  }

  /** Every stored index names a vertex that was pushed. */
  lemma IndicesNameVertices(ts: seq<Triangle>)
    ensures var r := AddTriangles(NewRoof(), ts);
      |r.points| % 4 == 0 && forall i :: 0 <= i < |r.index| ==> 0 <= r.index[i] < |r.points| / 4
  {
    IndicesAfter(ts);
    PointsAfter(ts);
  }

  /** Four colours per three vertices: from the first triangle on, the colour
      array holds more tuples than there are vertices. */
  lemma ColoursOutnumberVertices(ts: seq<Triangle>)
    requires |ts| > 0
    ensures var r := AddTriangles(NewRoof(), ts);
      |r.cols| == 16 * |ts| && |r.points| == 12 * |ts| && |r.cols| / 4 > |r.points| / 4
  {
    PointsAfter(ts);
    ColoursAfter(ts);
    BlocksLength(Components(RoofColour), 4 * |ts|);
  }
}
