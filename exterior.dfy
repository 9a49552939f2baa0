/**
 * The "exterior" of polygon and multi-polygon geometries: the node one
 * list level down, returned as it is, without copying anything.
 */
module Exterior {
  import opened Arrow
  import opened GeoData
  import opened GeoVector
  import GeoType
  import Child

  /**
   * `getPolygonExterior` on a node: the ring-level child as it is, a line
   * string node (when the node's child matches its declared type) whose
   * buffers are all buffers of the input.
   */
  function PolygonExterior(input: Data): (r: Data)
    requires IsPolygonData(input) && |input.children| > 0
    ensures ChildMatchesType(input) ==> IsLineStringData(r)
    ensures forall v :: HasView(r, v) ==> HasView(input, v)
  {
    Child.GetPolygonChild(input)
  }

  /**
   * `getMultiPolygonExterior` on a node: the polygon-level child as it is,
   * a polygon node sharing the input's buffers; its line-string level is
   * two levels down.
   */
  function MultiPolygonExterior(input: Data): (r: Data)
    requires IsMultiPolygonData(input) && |input.children| > 0
    ensures ChildMatchesType(input) ==> IsPolygonData(r)
    ensures forall v :: HasView(r, v) ==> HasView(input, v)
  {
    Child.GetMultiPolygonChild(input)
  }

  predicate PolygonChunks(v: Vector)
  {
    forall i :: 0 <= i < |v.chunks| ==> IsPolygonData(v.chunks[i]) && |v.chunks[i].children| > 0
  }

  predicate MultiPolygonChunks(v: Vector)
  {
    forall i :: 0 <= i < |v.chunks| ==> IsMultiPolygonData(v.chunks[i]) && |v.chunks[i].children| > 0
  }

  /** `getPolygonExterior` on a vector: one result chunk per input chunk, in order. */
  function PolygonExteriorOfVector(input: Vector): (r: Vector)
    requires PolygonChunks(input)
    ensures |r.chunks| == |input.chunks|
    ensures forall i :: 0 <= i < |r.chunks| ==> r.chunks[i] == PolygonExterior(input.chunks[i])
  {
    Vector(seq(|input.chunks|, i requires 0 <= i < |input.chunks| => PolygonExterior(input.chunks[i])))
  }

  /** `getMultiPolygonExterior` on a vector: one result chunk per input chunk, in order. */
  function MultiPolygonExteriorOfVector(input: Vector): (r: Vector)
    requires MultiPolygonChunks(input)
    ensures |r.chunks| == |input.chunks|
    ensures forall i :: 0 <= i < |r.chunks| ==> r.chunks[i] == MultiPolygonExterior(input.chunks[i])
  {
    Vector(seq(|input.chunks|, i requires 0 <= i < |input.chunks| => MultiPolygonExterior(input.chunks[i])))
  }

  /**
   * Mapping over the chunks gives the same vector as the vector's own
   * child accessor, and every buffer of the result is a buffer of the input.
   */
  lemma PolygonExteriorIsChildVector(v: Vector)
    requires PolygonChunks(v) && |v.chunks| > 0
    ensures IsPolygonVector(v) && ChunksHaveChild(v)
    ensures PolygonExteriorOfVector(v) == Child.GetPolygonChildOfVector(v)
    ensures forall w :: VectorHasView(PolygonExteriorOfVector(v), w) ==> VectorHasView(v, w)
  {
    var r := PolygonExteriorOfVector(v);
    assert IsPolygonData(v.chunks[0]);
    assert r.chunks == Child.GetPolygonChildOfVector(v).chunks;
    forall w | VectorHasView(r, w)
      ensures VectorHasView(v, w)
    {
      var i :| 0 <= i < |r.chunks| && HasView(r.chunks[i], w);
      assert HasView(v.chunks[i], w);
    }
  }

  lemma MultiPolygonExteriorIsChildVector(v: Vector)
    requires MultiPolygonChunks(v) && |v.chunks| > 0
    ensures IsMultiPolygonVector(v) && ChunksHaveChild(v)
    ensures MultiPolygonExteriorOfVector(v) == Child.GetMultiPolygonChildOfVector(v)
    ensures forall w :: VectorHasView(MultiPolygonExteriorOfVector(v), w) ==> VectorHasView(v, w)
  {
    var r := MultiPolygonExteriorOfVector(v);
    assert IsMultiPolygonData(v.chunks[0]);
    assert r.chunks == Child.GetMultiPolygonChildOfVector(v).chunks;
    forall w | VectorHasView(r, w)
      ensures VectorHasView(v, w)
    {
      var i :| 0 <= i < |r.chunks| && HasView(r.chunks[i], w);
      assert HasView(v.chunks[i], w);
    }
  }

  const XY := Field("xy", Float, false)
  const PointType := FixedSizeList(2, XY)
  const RingType := List(Field("vertices", PointType, false))

  /**
   * One polygon with an outer ring and one hole: its exterior is a line
   * string node of two line strings, the hole being the second.
   */
  const SquareWithHole: Data :=
    Data(List(Field("rings", RingType, false)), 0, 1, 0,
         Buffers(Some(WholeView(0, 8, IntElements([0, 2]))), None, None, None),
         [Data(RingType, 0, 2, 0,
               Buffers(Some(WholeView(1, 12, IntElements([0, 5, 10]))), None, None, None),
               [], None)],
         None)

  /** The exterior of a polygon node holds every ring, holes included. */
  lemma ExteriorKeepsHoles()
    ensures IsPolygonData(SquareWithHole) && ChildMatchesType(SquareWithHole)
    ensures SquareWithHole.length == 1
    ensures PolygonExterior(SquareWithHole).length == 2
    ensures IsLineStringData(PolygonExterior(SquareWithHole))
  {
    assert GeoType.IsPoint(PointType);
  }
}
