/**
 * The total bounding box of a geometry vector: a mutable min/max accumulator,
 * folded over the coordinates of every point chunk after descending as many
 * list levels as the vector's extension name says it has.
 */
module TotalBounds {
  import opened Arrow
  import opened GeoVector
  import GeoData
  import Child

  /** A JavaScript number as the bounds see it: a real or one of the infinities (NaN is not modelled). */
  datatype ExtReal = NegInf | Finite(r: real) | PosInf

  predicate Less(a: ExtReal, b: ExtReal)
  {
    match (a, b)
    case (NegInf, NegInf) => false
    case (NegInf, _) => true
    case (Finite(x), Finite(y)) => x < y
    case (Finite(_), PosInf) => true
    case (_, _) => false
  }

  predicate LessEq(a: ExtReal, b: ExtReal)
  {
    a == b || Less(a, b)
  }

  /** The value of a `min` field after comparing it with a candidate: replaced only by something smaller. */
  function Lower(current: ExtReal, candidate: ExtReal): (r: ExtReal)
    ensures LessEq(r, current) && LessEq(r, candidate)
    ensures r == current || r == candidate
  {
    if Less(candidate, current) then candidate else current
  }

  /** The value of a `max` field after comparing it with a candidate: replaced only by something larger. */
  function Upper(current: ExtReal, candidate: ExtReal): (r: ExtReal)
    ensures LessEq(current, r) && LessEq(candidate, r)
    ensures r == current || r == candidate
  {
    if Less(current, candidate) then candidate else current
  }

  /** The four fields of a `Bbox`, as a value. */
  datatype Box = Box(minX: ExtReal, minY: ExtReal, maxX: ExtReal, maxY: ExtReal)

  /** A fresh `Bbox`: minima at +infinity, maxima at -infinity. */
  const EmptyBox := Box(PosInf, PosInf, NegInf, NegInf)

  predicate Contains(b: Box, x: real, y: real)
  {
    LessEq(b.minX, Finite(x)) && LessEq(Finite(x), b.maxX) && LessEq(b.minY, Finite(y)) && LessEq(Finite(y), b.maxY)
  }

  /** The bounds of `a` are at least as wide as those of `b`. */
  predicate Includes(a: Box, b: Box)
  {
    LessEq(a.minX, b.minX) && LessEq(a.minY, b.minY) && LessEq(b.maxX, a.maxX) && LessEq(b.maxY, a.maxY)
  }

  /** What `updateCoord(x, y)` makes of a box. */
  function Extend(b: Box, x: real, y: real): Box
  {
    Box(Lower(b.minX, Finite(x)), Lower(b.minY, Finite(y)), Upper(b.maxX, Finite(x)), Upper(b.maxY, Finite(y)))
  }

  /** What `updateBbox(other)` makes of a box. */
  function Union(b: Box, other: Box): Box
  {
    Box(Lower(b.minX, other.minX), Lower(b.minY, other.minY), Upper(b.maxX, other.maxX), Upper(b.maxY, other.maxY))
  }

  class Bbox {
    var minX: ExtReal
    var minY: ExtReal
    var maxX: ExtReal
    var maxY: ExtReal

    function Value(): Box
      reads this
    {
      Box(minX, minY, maxX, maxY)
    }

    constructor()
      ensures Value() == EmptyBox
    {
      minX := PosInf;
      minY := PosInf;
      maxX := NegInf;
      maxY := NegInf;
    }

    /** `updateBbox`: widens each bound to the other box's where that one is wider. */
    method UpdateBbox(other: Bbox)
      modifies this
      ensures Value() == Union(old(Value()), old(other.Value()))
    {
      var oMinX, oMinY, oMaxX, oMaxY := other.minX, other.minY, other.maxX, other.maxY;
      if Less(oMinX, minX) {
        minX := oMinX;
      }
      if Less(oMinY, minY) {
        minY := oMinY;
      }
      if Less(maxX, oMaxX) {
        maxX := oMaxX;
      }
      if Less(maxY, oMaxY) {
        maxY := oMaxY;
      }
    }

    /** `updateCoord`: widens the bounds just enough to contain `(x, y)`. */
    method UpdateCoord(x: real, y: real)
      modifies this
      ensures Value() == Extend(old(Value()), x, y)
    {
      if Less(Finite(x), minX) {
        minX := Finite(x);
      }
      if Less(Finite(y), minY) {
        minY := Finite(y);
      }
      if Less(maxX, Finite(x)) {
        maxX := Finite(x);
      }
      if Less(maxY, Finite(y)) {
        maxY := Finite(y);
      }
    }
  }

  lemma LessEqTransitive(a: ExtReal, b: ExtReal, c: ExtReal)
    requires LessEq(a, b) && LessEq(b, c)
    ensures LessEq(a, c)
  {
  }

  /** A fresh box contains no point. */
  lemma EmptyContainsNothing(x: real, y: real)
    ensures !Contains(EmptyBox, x, y)
  {
  }

  /**
   * `updateCoord` yields the least box containing the old one and the
   * point: it contains the point, only widens, and any box with both inside
   * has it inside too.  Repeating the update changes nothing.
   */
  lemma ExtendIsLeast(b: Box, x: real, y: real, c: Box)
    ensures Contains(Extend(b, x, y), x, y)
    ensures Includes(Extend(b, x, y), b)
    ensures forall u: real, v: real :: Contains(b, u, v) ==> Contains(Extend(b, x, y), u, v)
    ensures Includes(c, b) && Contains(c, x, y) ==> Includes(c, Extend(b, x, y))
    ensures Extend(Extend(b, x, y), x, y) == Extend(b, x, y)
  {
    forall u: real, v: real | Contains(b, u, v)
      ensures Contains(Extend(b, x, y), u, v)
    {
      var e := Extend(b, x, y);
      LessEqTransitive(e.minX, b.minX, Finite(u));
      LessEqTransitive(e.minY, b.minY, Finite(v));
      LessEqTransitive(Finite(u), b.maxX, e.maxX);
      LessEqTransitive(Finite(v), b.maxY, e.maxY);
    }
  }

  /**
   * `updateBbox` yields the least box including both: it includes each, and
   * any box including both includes it.  Merging a fresh box changes nothing.
   */
  lemma UnionIsLeast(a: Box, b: Box, c: Box)
    ensures Includes(Union(a, b), a) && Includes(Union(a, b), b)
    ensures Includes(c, a) && Includes(c, b) ==> Includes(c, Union(a, b))
    ensures Union(a, EmptyBox) == a && Union(EmptyBox, a) == a
  {
  }

  /** Bounds that include a box contain every point that box contains. */
  lemma IncludesContains(a: Box, b: Box, x: real, y: real)
    requires Includes(a, b) && Contains(b, x, y)
    ensures Contains(a, x, y)
  {
    LessEqTransitive(a.minX, b.minX, Finite(x));
    LessEqTransitive(a.minY, b.minY, Finite(y));
    LessEqTransitive(Finite(x), b.maxX, a.maxX);
    LessEqTransitive(Finite(y), b.maxY, a.maxY);
  }

  lemma IncludesTransitive(a: Box, b: Box, c: Box)
    requires Includes(a, b) && Includes(b, c)
    ensures Includes(a, c)
  {
    LessEqTransitive(a.minX, b.minX, c.minX);
    LessEqTransitive(a.minY, b.minY, c.minY);
    LessEqTransitive(c.maxX, b.maxX, a.maxX);
    LessEqTransitive(c.maxY, b.maxY, a.maxY);
  }

  /** Coordinate `k` of a run of coordinates with `stride` values each begins inside the run. */
  lemma StrideFits(stride: nat, k: nat, n: nat)
    requires 2 <= stride && k < n
    ensures stride * k + 1 < stride * k + stride <= stride * n
  {
    var m := n - k;
    MulDistrib(stride, k, m);
    MulAtLeast(stride, m);
  }

  lemma MulDistrib(a: int, b: int, c: int)
    ensures a * (b + c) == a * b + a * c
  {
  }

  lemma MulAtLeast(a: nat, m: nat)
    requires m >= 1
    ensures a * m >= a
  {
  }

  lemma NarrowerStride(narrow: nat, wide: nat, n: nat)
    requires narrow <= wide
    ensures narrow * n <= wide * n
  {
  }

  /** The first two values of coordinate `k`, read at `stride` values per coordinate. */
  function CoordAt(flat: seq<real>, stride: nat, k: nat): (real, real)
    requires 2 <= stride && stride * k + stride <= |flat|
  {
    (flat[stride * k], flat[stride * k + 1])
  }

  /** The box of the first `n` coordinates of `flat`, each read as `(flat[stride*k], flat[stride*k+1])`. */
  function StridedBox(flat: seq<real>, stride: nat, n: nat): Box
    requires 2 <= stride && stride * n <= |flat|
  {
    if n == 0 then EmptyBox
    else
      StrideFits(stride, n - 1, n);
      Extend(StridedBox(flat, stride, n - 1), CoordAt(flat, stride, n - 1).0, CoordAt(flat, stride, n - 1).1)
  }

  /** `b` contains each of the first `n` coordinates of `flat`. */
  predicate ContainsAll(b: Box, flat: seq<real>, stride: nat, n: nat)
    requires 2 <= stride && stride * n <= |flat|
  {
    n == 0 ||
      (StrideFits(stride, n - 1, n);
       ContainsAll(b, flat, stride, n - 1) && Contains(b, CoordAt(flat, stride, n - 1).0, CoordAt(flat, stride, n - 1).1))
  }

  lemma {:induction false} ContainsAllAt(b: Box, flat: seq<real>, stride: nat, n: nat, k: nat)
    requires 2 <= stride && stride * n <= |flat| && k < n
    requires ContainsAll(b, flat, stride, n)
    ensures stride * k + stride <= |flat|
    ensures Contains(b, CoordAt(flat, stride, k).0, CoordAt(flat, stride, k).1)
  {
    StrideFits(stride, k, n);
    if k < n - 1 {
      StrideFits(stride, n - 1, n);
      ContainsAllAt(b, flat, stride, n - 1, k);
    }
  }

  /**
   * The folded box is the bounding box of the coordinates: it contains each
   * of them, and any box containing all of them includes it.
   */
  lemma {:induction false} StridedBoxIsBoundingBox(flat: seq<real>, stride: nat, n: nat, c: Box)
    requires 2 <= stride && stride * n <= |flat|
    ensures ContainsAll(StridedBox(flat, stride, n), flat, stride, n)
    ensures ContainsAll(c, flat, stride, n) ==> Includes(c, StridedBox(flat, stride, n))
  {
    if n > 0 {
      StrideFits(stride, n - 1, n);
      var b := StridedBox(flat, stride, n - 1);
      var (x, y) := CoordAt(flat, stride, n - 1);
      StridedBoxIsBoundingBox(flat, stride, n - 1, c);
      ExtendIsLeast(b, x, y, c);
      ContainsAllGrows(b, Extend(b, x, y), flat, stride, n - 1);
    }
  }

  /** Widening a box keeps every coordinate it contained. */
  lemma {:induction false} ContainsAllGrows(b: Box, b': Box, flat: seq<real>, stride: nat, n: nat)
    requires 2 <= stride && stride * n <= |flat|
    requires Includes(b', b) && ContainsAll(b, flat, stride, n)
    ensures ContainsAll(b', flat, stride, n)
  {
    if n > 0 {
      StrideFits(stride, n - 1, n);
      ContainsAllGrows(b, b', flat, stride, n - 1);
      IncludesContains(b', b, CoordAt(flat, stride, n - 1).0, CoordAt(flat, stride, n - 1).1);
    }
  }

  /**
   * An interleaved point node: a fixed-size list of 2 to 4 floats whose one
   * child holds at least `listSize` values per point.
   */
  predicate PointLayout(d: Data)
  {
    && GeoData.IsPointData(d)
    && d.typ.FixedSizeList?
    && |d.children| >= 1
    && d.children[0].buffers.values.Some?
    && d.children[0].buffers.values.value.elems.FloatElements?
    && 0 <= d.length
    && d.typ.listSize * d.length <= |d.children[0].buffers.values.value.elems.floats|
  }

  function FlatCoords(d: Data): seq<real>
    requires PointLayout(d)
  {
    d.children[0].buffers.values.value.elems.floats
  }

  /** The bounding box of a point node's coordinates, `listSize` values apart. */
  function CoordsBox(d: Data): Box
    requires PointLayout(d)
  {
    StridedBox(FlatCoords(d), d.typ.listSize, d.length)
  }

  /** What `coordsBbox` computes: coordinates read two values apart, whatever the dimension. */
  function CoordsBoxAsWritten(d: Data): Box
    requires PointLayout(d)
  {
    NarrowerStride(2, d.typ.listSize, d.length);
    StridedBox(FlatCoords(d), 2, d.length)
  }

  /** `coordsBbox` as written: coordinate `k` is read from values `2k` and `2k + 1`, whatever the list size. */
  method CoordsBboxAsWritten(d: Data) returns (bbox: Bbox)
    requires PointLayout(d)
    ensures fresh(bbox) && bbox.Value() == CoordsBoxAsWritten(d)
  {
    var coordsData := Child.GetPointChild(d);
    var flatCoords := coordsData.buffers.values.value.elems.floats;
    NarrowerStride(2, d.typ.listSize, d.length);
    bbox := new Bbox();
    for coordIdx := 0 to d.length
      invariant bbox.Value() == StridedBox(flatCoords, 2, coordIdx)
    {
      var x := flatCoords[coordIdx * 2];
      var y := flatCoords[coordIdx * 2 + 1];
      bbox.UpdateCoord(x, y);
    }
  }

  /** `coordsBbox` reading coordinate `k` from values `dim*k` and `dim*k + 1`, `dim` being the list size. */
  method CoordsBbox(d: Data) returns (bbox: Bbox)
    requires PointLayout(d)
    ensures fresh(bbox) && bbox.Value() == CoordsBox(d)
  {
    var coordsData := Child.GetPointChild(d);
    var flatCoords := coordsData.buffers.values.value.elems.floats;
    var dim := d.typ.listSize;
    bbox := new Bbox();
    for coordIdx := 0 to d.length
      invariant dim * coordIdx <= |flatCoords|
      invariant bbox.Value() == StridedBox(flatCoords, dim, coordIdx)
    {
      StrideFits(dim, coordIdx, d.length);
      MulDistrib(dim, coordIdx, 1);
      var x := flatCoords[coordIdx * dim];
      var y := flatCoords[coordIdx * dim + 1];
      bbox.UpdateCoord(x, y);
    }
  }

  /** The box of `coordsBbox` bounds exactly the node's coordinates. */
  lemma CoordsBoxIsBoundingBox(d: Data, c: Box)
    requires PointLayout(d)
    ensures ContainsAll(CoordsBox(d), FlatCoords(d), d.typ.listSize, d.length)
    ensures ContainsAll(c, FlatCoords(d), d.typ.listSize, d.length) ==> Includes(c, CoordsBox(d))
  {
    StridedBoxIsBoundingBox(FlatCoords(d), d.typ.listSize, d.length, c);
  }

  /** Two points of three values each: (1, 1, 1) and (5, 5, 5). */
  const ThreeDimensionalPoints: Data :=
    Data(FixedSizeList(3, Field("xyz", Float, false)), 0, 2, 0, NoBuffers,
         [Data(Float, 0, 6, 0, Buffers(None, Some(WholeView(0, 48, FloatElements([1.0, 1.0, 1.0, 5.0, 5.0, 5.0]))), None, None), [], None)],
         None)

  /**
   * On three-dimensional points the stride of two reads (1, 1) and (1, 5):
   * the box as written misses the second point (5, 5, 5), which the box
   * read at the list size contains.
   */
  lemma AsWrittenMissesCoordinate()
    ensures PointLayout(ThreeDimensionalPoints)
    ensures CoordAt(FlatCoords(ThreeDimensionalPoints), 3, 1) == (5.0, 5.0)
    ensures !Contains(CoordsBoxAsWritten(ThreeDimensionalPoints), 5.0, 5.0)
    ensures Contains(CoordsBox(ThreeDimensionalPoints), 5.0, 5.0)
  {
    var d := ThreeDimensionalPoints;
    var flat := FlatCoords(d);
    assert flat == [1.0, 1.0, 1.0, 5.0, 5.0, 5.0];
    assert StridedBox(flat, 2, 1) == Extend(EmptyBox, 1.0, 1.0);
    assert StridedBox(flat, 2, 2) == Extend(Extend(EmptyBox, 1.0, 1.0), 1.0, 5.0);
    StridedBoxIsBoundingBox(flat, 3, 2, EmptyBox);
    ContainsAllAt(CoordsBox(d), flat, 3, 2, 1);
  }

  /**
   * How a chunk's coordinates are read: two values apart, as `coordsBbox`
   * is written, or `listSize` values apart, as the layout intends.
   */
  datatype Reading = AsWritten | Intended

  /** The box of one chunk under a reading. */
  function ChunkBox(d: Data, reading: Reading): Box
    requires PointLayout(d)
  {
    if reading == AsWritten then CoordsBoxAsWritten(d) else CoordsBox(d)
  }

  /** Every chunk is an interleaved point node. */
  predicate PointChunks(v: Vector)
  {
    forall i :: 0 <= i < |v.chunks| ==> PointLayout(v.chunks[i])
  }

  /** The union of the chunks' boxes, in chunk order. */
  function ChunksBox(ds: seq<Data>, reading: Reading): Box
    requires forall i :: 0 <= i < |ds| ==> PointLayout(ds[i])
  {
    if ds == [] then EmptyBox else Union(ChunksBox(ds[..|ds| - 1], reading), ChunkBox(ds[|ds| - 1], reading))
  }

  /** `b` contains every coordinate of every chunk. */
  predicate ContainsAllChunks(b: Box, ds: seq<Data>)
    requires forall i :: 0 <= i < |ds| ==> PointLayout(ds[i])
  {
    forall i :: 0 <= i < |ds| ==> ContainsAll(b, FlatCoords(ds[i]), ds[i].typ.listSize, ds[i].length)
  }

  /**
   * The folded box of a point vector is its bounding box: it contains every
   * coordinate of every chunk, and any box containing them all includes it.
   */
  lemma {:induction false} ChunksBoxIsBoundingBox(ds: seq<Data>, c: Box)
    requires forall i :: 0 <= i < |ds| ==> PointLayout(ds[i])
    ensures ContainsAllChunks(ChunksBox(ds, Intended), ds)
    ensures ContainsAllChunks(c, ds) ==> Includes(c, ChunksBox(ds, Intended))
  {
    if ds != [] {
      var init, last := ds[..|ds| - 1], ds[|ds| - 1];
      var b, lastBox := ChunksBox(init, Intended), CoordsBox(last);
      var u := Union(b, lastBox);
      ChunksBoxIsBoundingBox(init, c);
      CoordsBoxIsBoundingBox(last, c);
      UnionIsLeast(b, lastBox, c);
      forall i | 0 <= i < |ds|
        ensures ContainsAll(u, FlatCoords(ds[i]), ds[i].typ.listSize, ds[i].length)
      {
        if i < |ds| - 1 {
          assert ds[i] == init[i];
          ContainsAllGrows(b, u, FlatCoords(ds[i]), ds[i].typ.listSize, ds[i].length);
        } else {
          ContainsAllGrows(lastBox, u, FlatCoords(last), last.typ.listSize, last.length);
        }
      }
      if ContainsAllChunks(c, ds) {
        assert ContainsAllChunks(c, init) by {
          forall i | 0 <= i < |init|
            ensures ContainsAll(c, FlatCoords(init[i]), init[i].typ.listSize, init[i].length)
          {
            assert init[i] == ds[i];
          }
        }
      }
    }
  }

  /**
   * On two-dimensional chunks both readings give the same box, so there the
   * program's bounds are the bounding box of `ChunksBoxIsBoundingBox`.
   */
  lemma {:induction false} ReadingsAgreeOnPlanarPoints(ds: seq<Data>)
    requires forall i :: 0 <= i < |ds| ==> PointLayout(ds[i]) && ds[i].typ.listSize == 2
    ensures ChunksBox(ds, AsWritten) == ChunksBox(ds, Intended)
  {
    if ds != [] {
      ReadingsAgreeOnPlanarPoints(ds[..|ds| - 1]);
    }
  }

  /** A vector of one chunk: the three-dimensional points (1, 1, 1) and (5, 5, 5). */
  const ThreeDimensionalVector := Vector([ThreeDimensionalPoints])

  /**
   * The whole bounds computation inherits the miss: read as written, the
   * bounds of the three-dimensional vector leave out (5, 5).
   */
  lemma AsWrittenBoundsMissCoordinate()
    ensures PointChunks(ThreeDimensionalVector)
    ensures !Contains(ChunksBox(ThreeDimensionalVector.chunks, AsWritten), 5.0, 5.0)
    ensures Contains(ChunksBox(ThreeDimensionalVector.chunks, Intended), 5.0, 5.0)
  {
    var d := ThreeDimensionalPoints;
    AsWrittenMissesCoordinate();
    assert ThreeDimensionalVector.chunks[..0] == [];
    UnionIsLeast(CoordsBoxAsWritten(d), EmptyBox, EmptyBox);
    UnionIsLeast(CoordsBox(d), EmptyBox, EmptyBox);
  }

  /** `totalBoundsNest0`: the chunk boxes merged in chunk order. */
  method TotalBoundsNest0(v: Vector, reading: Reading) returns (bbox: Bbox)
    requires PointChunks(v)
    ensures fresh(bbox) && bbox.Value() == ChunksBox(v.chunks, reading)
  {
    bbox := new Bbox();
    for i := 0 to |v.chunks|
      invariant bbox.Value() == ChunksBox(v.chunks[..i], reading)
    {
      var chunkBox;
      if reading == AsWritten {
        chunkBox := CoordsBboxAsWritten(v.chunks[i]);
      } else {
        chunkBox := CoordsBbox(v.chunks[i]);
      }
      assert v.chunks[..i + 1][..i] == v.chunks[..i];
      bbox.UpdateBbox(chunkBox);
    }
    assert v.chunks[..|v.chunks|] == v.chunks;
  }

  /**
   * `v` has `depth` list levels of the kinds the extension names promise
   * above interleaved point chunks.
   */
  predicate NestedPoints(v: Vector, depth: nat)
    decreases depth
  {
    if depth == 0 then PointChunks(v)
    else
      && ChunksHaveChild(v)
      && (if depth == 1 then IsLineStringVector(v)
          else if depth == 2 then IsPolygonVector(v)
          else depth == 3 && IsMultiPolygonVector(v))
      && NestedPoints(GetChildAt0(v).value, depth - 1)
  }

  /** The point vector `depth` levels below `v`. */
  function Leaf(v: Vector, depth: nat): Vector
    requires NestedPoints(v, depth)
    decreases depth
  {
    if depth == 0 then v else Leaf(GetChildAt0(v).value, depth - 1)
  }

  /** `totalBoundsNest1`: the bounds of a line string (or multi-point) vector's points. */
  method TotalBoundsNest1(v: Vector, reading: Reading) returns (bbox: Bbox)
    requires NestedPoints(v, 1)
    ensures fresh(bbox) && bbox.Value() == ChunksBox(Leaf(v, 1).chunks, reading)
  {
    var pointVector := Child.GetLineStringChildOfVector(v);
    bbox := TotalBoundsNest0(pointVector, reading);
  }

  /** `totalBoundsNest2`: one level down, then as for line strings. */
  method TotalBoundsNest2(v: Vector, reading: Reading) returns (bbox: Bbox)
    requires NestedPoints(v, 2)
    ensures fresh(bbox) && bbox.Value() == ChunksBox(Leaf(v, 2).chunks, reading)
  {
    var lineStringVector := Child.GetPolygonChildOfVector(v);
    bbox := TotalBoundsNest1(lineStringVector, reading);
  }

  /** `totalBoundsNest3`: one level down, then as for polygons. */
  method TotalBoundsNest3(v: Vector, reading: Reading) returns (bbox: Bbox)
    requires NestedPoints(v, 3)
    ensures fresh(bbox) && bbox.Value() == ChunksBox(Leaf(v, 3).chunks, reading)
  {
    var polygonVector := Child.GetMultiPolygonChildOfVector(v);
    bbox := TotalBoundsNest2(polygonVector, reading);
  }

  /** The GeoArrow extension names. */
  const PointName := "geoarrow.point"
  const LineStringName := "geoarrow.linestring"
  const PolygonName := "geoarrow.polygon"
  const MultiPointName := "geoarrow.multipoint"
  const MultiLineStringName := "geoarrow.multilinestring"
  const MultiPolygonName := "geoarrow.multipolygon"

  /** The metadata key holding a field's extension name. */
  const ExtensionNameKey := "ARROW:extension:name"

  /** The number of list levels above the coordinates for each known extension name. */
  function ExtensionDepth(metadata: map<string, string>): Option<nat>
  {
    if ExtensionNameKey !in metadata then None
    else
      var name := metadata[ExtensionNameKey];
      if name == PointName then Some(0)
      else if name == LineStringName || name == MultiPointName then Some(1)
      else if name == PolygonName || name == MultiLineStringName then Some(2)
      else if name == MultiPolygonName then Some(3)
      else None
  }

  datatype BoundsError = UnknownExtensionName

  /**
   * `totalBounds`: dispatches on the field's extension name to the descent
   * of matching depth; fails for any other name or none.  With `AsWritten`
   * it is the program's computation; with `Intended`, the bounding box.
   */
  method TotalBounds(v: Vector, metadata: map<string, string>, reading: Reading) returns (r: Result<Bbox, BoundsError>)
    requires ExtensionDepth(metadata).Some? ==> NestedPoints(v, ExtensionDepth(metadata).value)
    ensures r.Err? <==> ExtensionDepth(metadata).None?
    ensures r.Ok? ==> fresh(r.value) && r.value.Value() == ChunksBox(Leaf(v, ExtensionDepth(metadata).value).chunks, reading)
  {
    var name := if ExtensionNameKey in metadata then Some(metadata[ExtensionNameKey]) else None;
    if name == Some(PointName) {
      var bbox := TotalBoundsNest0(v, reading);
      r := Ok(bbox);
    } else if name == Some(LineStringName) || name == Some(MultiPointName) {
      var bbox := TotalBoundsNest1(v, reading);
      r := Ok(bbox);
    } else if name == Some(PolygonName) || name == Some(MultiLineStringName) {
      var bbox := TotalBoundsNest2(v, reading);
      r := Ok(bbox);
    } else if name == Some(MultiPolygonName) {
      var bbox := TotalBoundsNest3(v, reading);
      r := Ok(bbox);
    } else {
      r := Err(UnknownExtensionName);
    }
  }
}
