/**
 * Triangulating a polygon node: each polygon's coordinate slice and the
 * starts of its holes go to a triangulator, whose vertex indices, relative
 * to the slice, are shifted back to global coordinate indices; the results
 * of all polygons are concatenated into one `Uint32Array`.
 */
module Earcut {
  import opened Arrow
  import opened Polygon
  import Child

  /**
   * The triangulator (math.gl's `earcut`): flat coordinates, the coordinate
   * index at which each hole starts, and the dimension, to vertex indices
   * into those coordinates, three per triangle.  Its algorithm is not part
   * of this model.
   */
  type Triangulator = (seq<real>, seq<int>, int) -> seq<int>

  /** The number of values a `Uint32Array` element can hold. */
  const Uint32Modulus: int := 0x1_0000_0000

  /** Storing a whole number into a `Uint32Array`: it is taken modulo 2^32. */
  function ToUint32(x: int): (r: int)
    ensures 0 <= r < Uint32Modulus
    ensures 0 <= x < Uint32Modulus ==> r == x
    ensures (x - r) % Uint32Modulus == 0
  {
    x % Uint32Modulus
  }

  /**
   * The start of every hole, as a coordinate index relative to the
   * polygon's first coordinate: one per ring after the first.
   */
  function HoleIndices(ringOffsets: seq<int>, ringBegin: int, ringEnd: int): seq<int>
    requires 0 <= ringBegin < |ringOffsets| && ringEnd <= |ringOffsets|
  {
    var holes := if ringEnd - ringBegin - 1 > 0 then ringEnd - ringBegin - 1 else 0;
    seq(holes, k requires 0 <= k < holes => ringOffsets[ringBegin + 1 + k] - ringOffsets[ringBegin])
  }

  /** The hole starts of polygon `g`. */
  function Holes(d: Data, g: int): seq<int>
    requires PolygonLayout(d) && GeometryInRange(d, g)
  {
    HoleIndices(RingOffsets(d), Ranges(d, g).ringBegin, Ranges(d, g).ringEnd)
  }

  /** Every index moved by `delta`. */
  function Shifted(xs: seq<int>, delta: int): seq<int>
  {
    seq(|xs|, i requires 0 <= i < |xs| => xs[i] + delta)
  }

  /** What the triangulator returns for polygon `g`, indices relative to its slice. */
  function RawTriangles(d: Data, g: int, triangulate: Triangulator): seq<int>
    requires PolygonLayout(d) && GeometryInRange(d, g)
  {
    triangulate(PolygonSlice(d, g).elems.floats, Holes(d, g), Dim(d))
  }

  /** `earcutSinglePolygon`'s result: the triangulator's indices made global. */
  function SinglePolygonTriangles(d: Data, g: int, triangulate: Triangulator): seq<int>
    requires PolygonLayout(d) && GeometryInRange(d, g)
  {
    Shifted(RawTriangles(d, g, triangulate), Ranges(d, g).coordsBegin)
  }

  /** `earcutSinglePolygon`: slice, collect the hole starts, triangulate, shift in place. */
  method EarcutSinglePolygon(data: Data, geomIndex: int, triangulate: Triangulator) returns (triangles: seq<int>)
    requires PolygonLayout(data) && GeometryInRange(data, geomIndex)
    ensures triangles == SinglePolygonTriangles(data, geomIndex, triangulate)
  {
    var geomOffsets := data.buffers.valueOffsets.value.elems.ints;
    var rings := Child.GetPolygonChild(data);
    var ringOffsets := rings.buffers.valueOffsets.value.elems.ints;
    var coords := Child.GetLineStringChild(rings);
    var dim := coords.typ.listSize;
    var flatCoords := Child.GetPointChild(coords);

    var ringBegin := geomOffsets[geomIndex];
    var ringEnd := geomOffsets[geomIndex + 1];
    var coordsBegin := ringOffsets[ringBegin];
    var coordsEnd := ringOffsets[ringEnd];
    var slicedFlatCoords := FloatSubarray(flatCoords.buffers.values.value, coordsBegin * dim, coordsEnd * dim);

    var initialCoordIndex := ringOffsets[ringBegin];
    var holeIndices := CollectHoleIndices(ringOffsets, ringBegin, ringEnd);
    triangles := triangulate(slicedFlatCoords.elems.floats, holeIndices, dim);
    triangles := ShiftIndices(triangles, initialCoordIndex);
  }

  /** The loop pushing `ringOffsets[h] - ringOffsets[ringBegin]` for every ring `h` after the first. */
  method CollectHoleIndices(ringOffsets: seq<int>, ringBegin: int, ringEnd: int) returns (holeIndices: seq<int>)
    requires 0 <= ringBegin < |ringOffsets| && ringEnd <= |ringOffsets|
    ensures holeIndices == HoleIndices(ringOffsets, ringBegin, ringEnd)
  {
    var initialCoordIndex := ringOffsets[ringBegin];
    holeIndices := [];
    var holeRingIdx := ringBegin + 1;
    while holeRingIdx < ringEnd
      invariant ringBegin + 1 <= holeRingIdx && (holeRingIdx <= ringEnd || holeRingIdx == ringBegin + 1)
      invariant holeIndices == HoleIndices(ringOffsets, ringBegin, holeRingIdx)
    {
      holeIndices := holeIndices + [ringOffsets[holeRingIdx] - initialCoordIndex];
      holeRingIdx := holeRingIdx + 1;
    }
  }

  /** The loop adding `delta` to every index in place. */
  method ShiftIndices(raw: seq<int>, delta: int) returns (triangles: seq<int>)
    ensures triangles == Shifted(raw, delta)
  {
    triangles := raw;
    for i := 0 to |triangles|
      invariant |triangles| == |raw|
      invariant forall k :: 0 <= k < |raw| ==> triangles[k] == if k < i then raw[k] + delta else raw[k]
    {
      triangles := triangles[i := triangles[i] + delta];
    }
  }

  /** The one-ring polygon has no holes; otherwise hole `k` starts where ring `ringBegin + 1 + k` does. */
  lemma HolesAreRingStarts(d: Data, g: int)
    requires PolygonLayout(d) && WellFormedGeometry(d, g)
    ensures var r, holes := Ranges(d, g), Holes(d, g);
      && (r.ringEnd - r.ringBegin <= 1 <==> holes == [])
      && (r.ringBegin < r.ringEnd ==> |holes| == r.ringEnd - r.ringBegin - 1)
      && forall k :: 0 <= k < |holes| ==>
           && 0 <= holes[k] <= r.coordsEnd - r.coordsBegin
           && r.coordsBegin + holes[k] == RingOffsets(d)[r.ringBegin + 1 + k]
  {
    var r, ro := Ranges(d, g), RingOffsets(d);
    var holes := Holes(d, g);
    forall k | 0 <= k < |holes|
      ensures 0 <= holes[k] <= r.coordsEnd - r.coordsBegin
    {
      assert ro[r.ringBegin] <= ro[r.ringBegin + 1 + k] <= ro[r.ringEnd];
    }
  }

  /**
   * Shifting makes the triangulator's indices global: every output index
   * is the raw one plus the polygon's first coordinate, and when the raw
   * index names coordinate `t` of the slice, the output names the same
   * coordinate values in the whole.
   */
  lemma ShiftedIndicesNameSameVertices(d: Data, g: int, triangulate: Triangulator, i: int)
    requires PolygonLayout(d) && WellFormedGeometry(d, g)
    requires 0 <= i < |RawTriangles(d, g, triangulate)|
    requires 0 <= RawTriangles(d, g, triangulate)[i] < Ranges(d, g).coordsEnd - Ranges(d, g).coordsBegin
    ensures var r, t, p := Ranges(d, g), RawTriangles(d, g, triangulate)[i], PolygonSlice(d, g).elems.floats;
      && SinglePolygonTriangles(d, g, triangulate)[i] == r.coordsBegin + t
      && Dim(d) * t + Dim(d) <= |p|
      && Dim(d) * (r.coordsBegin + t) + Dim(d) <= |Flat(d)|
      && Vertex(p, Dim(d), t) == Vertex(Flat(d), Dim(d), r.coordsBegin + t)
  {
    PolygonVertex(d, g, RawTriangles(d, g, triangulate)[i]);
  }

  /** The per-polygon results concatenated in order. */
  function Concat(xs: seq<seq<int>>): seq<int>
  {
    if xs == [] then [] else Concat(xs[..|xs| - 1]) + xs[|xs| - 1]
  }

  /** The elements of `xs` as a `Uint32Array` stores them. */
  function Wrapped(xs: seq<int>): seq<int>
  {
    seq(|xs|, i requires 0 <= i < |xs| => ToUint32(xs[i]))
  }

  /** Every polygon's triangles, in geometry order. */
  function PerPolygon(d: Data, triangulate: Triangulator): seq<seq<int>>
    requires PolygonLayout(d) && OffsetsInRange(d)
  {
    seq(d.length, g requires 0 <= g < d.length => SinglePolygonTriangles(d, g, triangulate))
  }

  /** Every polygon of the node has its offsets, and they name existing ring offsets. */
  predicate OffsetsInRange(d: Data)
    requires PolygonLayout(d)
  {
    0 <= d.length && forall g :: 0 <= g < d.length ==> GeometryInRange(d, g)
  }

  /** What `earcut` returns for a polygon node. */
  function EarcutOfData(d: Data, triangulate: Triangulator): seq<int>
    requires PolygonLayout(d) && OffsetsInRange(d)
  {
    Wrapped(Concat(PerPolygon(d, triangulate)))
  }

  lemma {:induction false} ConcatPrefix(xs: seq<seq<int>>, j: int)
    requires 0 <= j < |xs|
    ensures Concat(xs[..j + 1]) == Concat(xs[..j]) + xs[j]
    ensures |Concat(xs[..j])| + |xs[j]| <= |Concat(xs)|
    decreases |xs|
  {
    assert xs[..j + 1][..j] == xs[..j];
    if j + 1 < |xs| {
      var init := xs[..|xs| - 1];
      ConcatPrefix(init, j);
      assert init[..j] == xs[..j] && init[..j + 1] == xs[..j + 1];
    }
  }

  /**
   * Polygon `g`'s triangles occupy the output right after those of the
   * polygons before it, in their own order.
   */
  lemma {:induction false} ConcatLocate(xs: seq<seq<int>>, g: int, k: int)
    requires 0 <= g < |xs| && 0 <= k < |xs[g]|
    ensures |Concat(xs[..g])| + k < |Concat(xs)|
    ensures Concat(xs)[|Concat(xs[..g])| + k] == xs[g][k]
    decreases |xs|
  {
    var init := xs[..|xs| - 1];
    assert xs == init + [xs[|xs| - 1]];
    if g == |xs| - 1 {
      assert xs[..g] == init;
    } else {
      ConcatLocate(init, g, k);
      assert init[..g] == xs[..g];
    }
  }

  /** The output's length is the sum of the per-polygon lengths. */
  function SumLengths(xs: seq<seq<int>>): nat
  {
    if xs == [] then 0 else SumLengths(xs[..|xs| - 1]) + |xs[|xs| - 1]|
  }

  lemma {:induction false} ConcatLength(xs: seq<seq<int>>)
    ensures |Concat(xs)| == SumLengths(xs)
  {
    if xs != [] {
      ConcatLength(xs[..|xs| - 1]);
    }
  }

  /**
   * `earcut` on a polygon node: triangulate every polygon, counting the
   * indices, then copy them in order into a `Uint32Array` of that size.
   */
  method EarcutData(input: Data, triangulate: Triangulator) returns (outputArray: array<int>)
    requires PolygonLayout(input) && OffsetsInRange(input)
    ensures fresh(outputArray)
    ensures outputArray[..] == EarcutOfData(input, triangulate)
  {
    var trianglesResults, outputSize := TriangulateEach(input, triangulate);
    outputArray := new int[outputSize];
    CopyAll(outputArray, trianglesResults);
  }

  /** The first loop: every polygon's triangles pushed in order, with their total count. */
  method TriangulateEach(input: Data, triangulate: Triangulator) returns (trianglesResults: seq<seq<int>>, outputSize: nat)
    requires PolygonLayout(input) && OffsetsInRange(input)
    ensures trianglesResults == PerPolygon(input, triangulate)
    ensures outputSize == |Concat(trianglesResults)|
  {
    trianglesResults := [];
    outputSize := 0;
    for geomIndex := 0 to input.length
      invariant |trianglesResults| == geomIndex
      invariant forall g :: 0 <= g < geomIndex ==> trianglesResults[g] == SinglePolygonTriangles(input, g, triangulate)
      invariant outputSize == |Concat(trianglesResults)|
    {
      var triangles := EarcutSinglePolygon(input, geomIndex, triangulate);
      assert (trianglesResults + [triangles])[..geomIndex] == trianglesResults;
      trianglesResults := trianglesResults + [triangles];
      outputSize := outputSize + |triangles|;
    }
  }

  /** The copy loops: every result's indices, in order, stored through an `idx` cursor. */
  method CopyAll(outputArray: array<int>, trianglesResults: seq<seq<int>>)
    requires outputArray.Length == |Concat(trianglesResults)|
    modifies outputArray
    ensures outputArray[..] == Wrapped(Concat(trianglesResults))
  {
    var idx := 0;
    for j := 0 to |trianglesResults|
      invariant idx <= outputArray.Length
      invariant idx == |Concat(trianglesResults[..j])|
      invariant outputArray[..idx] == Wrapped(Concat(trianglesResults[..j]))
    {
      var triangles := trianglesResults[j];
      ConcatPrefix(trianglesResults, j);
      for k := 0 to |triangles|
        invariant idx == |Concat(trianglesResults[..j])| + k
        invariant outputArray[..idx] == Wrapped(Concat(trianglesResults[..j]) + triangles[..k])
      {
        outputArray[idx] := ToUint32(triangles[k]);
        assert triangles[..k + 1] == triangles[..k] + [triangles[k]];
        idx := idx + 1;
      }
      assert triangles[..|triangles|] == triangles;
    }
    assert trianglesResults[..|trianglesResults|] == trianglesResults;
  }

  /** `earcut` on a polygon vector: one output array per chunk, in chunk order. */
  method EarcutVector(input: Vector, triangulate: Triangulator) returns (outputs: seq<array<int>>)
    requires forall i :: 0 <= i < |input.chunks| ==> PolygonLayout(input.chunks[i]) && OffsetsInRange(input.chunks[i])
    ensures |outputs| == |input.chunks|
    ensures forall i :: 0 <= i < |outputs| ==> fresh(outputs[i])
    ensures forall i :: 0 <= i < |outputs| ==> outputs[i][..] == EarcutOfData(input.chunks[i], triangulate)
  {
    outputs := [];
    for i := 0 to |input.chunks|
      invariant |outputs| == i
      invariant forall j :: 0 <= j < i ==> fresh(outputs[j])
      invariant forall j :: 0 <= j < i ==> outputs[j][..] == EarcutOfData(input.chunks[j], triangulate)
    {
      var output := EarcutData(input.chunks[i], triangulate);
      outputs := outputs + [output];
    }
  }
}
