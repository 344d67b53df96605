/** The debug line mesh: a list of points taken two at a time as segments,
    turned into a position buffer and an index buffer by `create`. */
module LineMesh {
  import opened Common
  import opened Geometry

  /** `lines` and `instanced` are the draw-mode flags inherited from the
      drawable base. */
  datatype Line = Line(lines: bool, instanced: bool, linesArray: seq<Vec4>)

  /** The CPU-side buffers `create` assembles, and the index count it records. */
  datatype LineBuffers = LineBuffers(positions: seq<real>, indices: seq<int>, count: nat)

  /** `new Line()`. */
  function NewLine(): (l: Line)
    ensures l.lines && !l.instanced && l.linesArray == []
  {
    Line(true, false, [])
  }

  /** The assembly loop of `create`. A list of odd length makes the last
      segment read its end point past the list, which throws. */
  method Create(l: Line) returns (r: Result<LineBuffers>)
    ensures r.Failure? <==> |l.linesArray| % 2 == 1
    ensures r.Failure? ==> r.error.TypeError?
    ensures r.Success? ==> r.value.positions == FlattenVecs(l.linesArray)
    ensures r.Success? ==> r.value.indices == Range(0, |l.linesArray|) && r.value.count == |l.linesArray|
    ensures r.Success? ==> forall i :: 0 <= i < |r.value.indices| ==> 0 <= r.value.indices[i] < |r.value.positions| / 4
  {
    var pts := l.linesArray;
    var positions: seq<real> := [];
    var indices: seq<int> := [];
    var itr := 0;
    while itr < |pts|
      invariant 0 <= itr <= |pts| && itr % 2 == 0
      invariant positions == FlattenVecs(pts[..itr])
      invariant indices == Range(0, itr)
      decreases |pts| - itr
    {
      if itr + 1 >= |pts| {
        return Failure(TypeError("end point of an unpaired segment"));
      }
      var start, end := pts[itr], pts[itr + 1];
      SegmentStep(pts, itr);
      positions := positions + (Components(start) + Components(end));
      indices := indices + [itr, itr + 1];
      itr := itr + 2;
    }
    assert pts[..itr] == pts;
    IndicesBelowVertexCount(|pts|);
    return Success(LineBuffers(positions, indices, |indices|));
  }

  /** One turn of the loop: the segment's two points and two indices. */
  lemma SegmentStep(pts: seq<Vec4>, itr: nat)
    requires itr + 1 < |pts|
    ensures FlattenVecs(pts[..itr + 2]) == FlattenVecs(pts[..itr]) + (Components(pts[itr]) + Components(pts[itr + 1]))
    ensures Range(0, itr + 2) == Range(0, itr) + [itr, itr + 1]
  {
    FlattenVecsAppend(pts[..itr], [pts[itr], pts[itr + 1]]);
    FlattenTwo(pts[itr], pts[itr + 1]);
    assert pts[..itr + 2] == pts[..itr] + [pts[itr], pts[itr + 1]];
    RangeSplit(0, itr, itr + 2);
    assert Range(itr, itr + 2) == [itr, itr + 1];
  }

  lemma IndicesBelowVertexCount(n: nat)
    ensures forall i :: 0 <= i < n ==> 0 <= Range(0, n)[i] < (4 * n) / 4
  {
  }

  lemma FlattenTwo(a: Vec4, b: Vec4)
    ensures FlattenVecs([a, b]) == Components(a) + Components(b)
  {
    assert [a, b][..1] == [a];
    assert [a][..0] == [];
    assert FlattenVecs([a]) == Components(a);
  }
}
