/**
 * The index arithmetic that locates one polygon of a polygon node: its
 * range of rings in the geometry offsets, its range of coordinates in the
 * ring offsets, and the slice of the flat coordinate values those
 * coordinates occupy, taken as a view on the same allocation.
 */
module Polygon {
  import opened Arrow
  import opened GeoData
  import Child

  /**
   * A polygon node with interleaved coordinates: geometry offsets, one ring
   * node with ring offsets, one fixed-size-list coordinate node and its
   * float values.
   */
  predicate PolygonLayout(d: Data)
  {
    && IsPolygonData(d) && |d.children| > 0
    && d.buffers.valueOffsets.Some? && d.buffers.valueOffsets.value.elems.IntElements?
    && var rings := d.children[0];
       && IsLineStringData(rings) && |rings.children| > 0
       && rings.buffers.valueOffsets.Some? && rings.buffers.valueOffsets.value.elems.IntElements?
       && var coords := rings.children[0];
          && IsPointData(coords) && coords.typ.FixedSizeList? && |coords.children| > 0
          && coords.children[0].buffers.values.Some?
          && coords.children[0].buffers.values.value.elems.FloatElements?
  }

  /** `data.valueOffsets`: where each polygon's rings start. */
  function GeomOffsets(d: Data): seq<int>
    requires PolygonLayout(d)
  {
    d.buffers.valueOffsets.value.elems.ints
  }

  /** The ring node's `valueOffsets`: where each ring's coordinates start. */
  function RingOffsets(d: Data): seq<int>
    requires PolygonLayout(d)
  {
    d.children[0].buffers.valueOffsets.value.elems.ints
  }

  /** The coordinate node's `listSize`: values per coordinate. */
  function Dim(d: Data): (dim: int)
    requires PolygonLayout(d)
    ensures 2 <= dim <= 4
  {
    d.children[0].children[0].typ.listSize
  }

  /** The values buffer of the coordinate node's float child. */
  function FlatValues(d: Data): (v: View)
    requires PolygonLayout(d)
    ensures v.elems.FloatElements?
  {
    d.children[0].children[0].children[0].buffers.values.value
  }

  function Flat(d: Data): seq<real>
    requires PolygonLayout(d)
  {
    FlatValues(d).elems.floats
  }

  /** Geometry `g` has both its offsets, and both name an existing ring offset. */
  predicate GeometryInRange(d: Data, g: int)
    requires PolygonLayout(d)
  {
    var go, ro := GeomOffsets(d), RingOffsets(d);
    && 0 <= g && g + 1 < |go|
    && 0 <= go[g] < |ro|
    && 0 <= go[g + 1] < |ro|
  }

  /** Where polygon `g`'s rings and coordinates begin and end. */
  datatype PolygonRanges = PolygonRanges(ringBegin: int, ringEnd: int, coordsBegin: int, coordsEnd: int)

  function Ranges(d: Data, g: int): (r: PolygonRanges)
    requires PolygonLayout(d) && GeometryInRange(d, g)
    ensures r.ringBegin == GeomOffsets(d)[g] && r.ringEnd == GeomOffsets(d)[g + 1]
    ensures r.coordsBegin == RingOffsets(d)[r.ringBegin] && r.coordsEnd == RingOffsets(d)[r.ringEnd]
  {
    var ringBegin := GeomOffsets(d)[g];
    var ringEnd := GeomOffsets(d)[g + 1];
    PolygonRanges(ringBegin, ringEnd, RingOffsets(d)[ringBegin], RingOffsets(d)[ringEnd])
  }

  /**
   * The offsets of polygon `g` are consistent: its rings are in order, their
   * offsets do not decrease and its coordinates lie inside the values.
   */
  predicate WellFormedGeometry(d: Data, g: int)
    requires PolygonLayout(d)
  {
    && GeometryInRange(d, g)
    && var r, ro := Ranges(d, g), RingOffsets(d);
       && r.ringBegin <= r.ringEnd
       && (forall i, j :: r.ringBegin <= i <= j <= r.ringEnd ==> ro[i] <= ro[j])
       && 0 <= r.coordsBegin
       && Dim(d) * r.coordsEnd <= |Flat(d)|
  }

  /**
   * The index a typed array's `subarray` uses for an argument: a negative
   * one counts back from the end, and the result is clamped to the array.
   */
  function RelativeIndex(i: int, n: nat): (r: nat)
    ensures r <= n
    ensures 0 <= i <= n ==> r == i
    ensures i < 0 && -i <= n ==> r == n + i
  {
    if i < 0 then (if n + i < 0 then 0 else n + i)
    else if i > n then n
    else i
  }

  /** The byte at which element `k` of a `Float64Array` view lives, and in which allocation. */
  function ElementAddress(v: View, k: int): (nat, int)
  {
    (v.backing, v.byteOffset + Float64Bytes * k)
  }

  /**
   * `values.subarray(begin, end)` on a `Float64Array`: a view into the same
   * allocation, so writes through it reach the original values.
   */
  function FloatSubarray(v: View, begin: int, end: int): (r: View)
    requires v.elems.FloatElements?
    ensures r.elems.FloatElements? && r.backing == v.backing
    ensures 0 <= begin <= end <= |v.elems.floats| ==>
      && r.elems.floats == v.elems.floats[begin..end]
      && r.byteLength == Float64Bytes * (end - begin)
      && forall k :: 0 <= k < end - begin ==> ElementAddress(r, k) == ElementAddress(v, begin + k)
    ensures 0 <= end <= begin ==> r.elems.floats == []
  {
    var n := |v.elems.floats|;
    var first := RelativeIndex(begin, n);
    var last := if RelativeIndex(end, n) < first then first else RelativeIndex(end, n);
    View(v.backing, v.byteOffset + Float64Bytes * first, Float64Bytes * (last - first), v.backingLength,
         FloatElements(v.elems.floats[first..last]))
  }

  /** math.gl's `Polygon`: flat positions, their stride, and whether the rings are closed. */
  datatype MathGlPolygon = MathGlPolygon(positions: View, size: int, isClosed: bool)

  /** The flat coordinate values of polygon `g`, as `makeMathGlPolygon` slices them. */
  function PolygonSlice(d: Data, g: int): (v: View)
    requires PolygonLayout(d) && GeometryInRange(d, g)
    ensures v.elems.FloatElements? && v.backing == FlatValues(d).backing
  {
    var r := Ranges(d, g);
    FloatSubarray(FlatValues(d), r.coordsBegin * Dim(d), r.coordsEnd * Dim(d))
  }

  /** `makeMathGlPolygon`: polygon `g` as a closed math.gl polygon over a view of the input's values. */
  function MakeMathGlPolygon(data: Data, geomIndex: int): (p: MathGlPolygon)
    requires PolygonLayout(data) && GeometryInRange(data, geomIndex)
    ensures p.size == Dim(data) && p.isClosed
    ensures p.positions == PolygonSlice(data, geomIndex)
    ensures p.positions.backing == FlatValues(data).backing
  {
    var geomOffsets := GeomOffsets(data);
    var rings := Child.GetPolygonChild(data);
    var ringOffsets := rings.buffers.valueOffsets.value.elems.ints;
    var coords := Child.GetLineStringChild(rings);
    var dim := coords.typ.listSize;
    var flatCoordData := Child.GetPointChild(coords);
    var ringBegin := geomOffsets[geomIndex];
    var ringEnd := geomOffsets[geomIndex + 1];
    var coordsBegin := ringOffsets[ringBegin];
    var coordsEnd := ringOffsets[ringEnd];
    var slicedFlatCoords := FloatSubarray(flatCoordData.buffers.values.value, coordsBegin * dim, coordsEnd * dim);
    MathGlPolygon(slicedFlatCoords, dim, true)
  }

  /** The `dim` values of coordinate `k`. */
  function Vertex(flat: seq<real>, dim: int, k: int): seq<real>
    requires 0 <= dim && 0 <= k && dim * k + dim <= |flat|
  {
    flat[dim * k..dim * k + dim]
  }

  lemma MulMonotone(dim: nat, a: int, b: int)
    requires a <= b
    ensures dim * a <= dim * b
  {
  }

  /** The arithmetic that places coordinate `k` of a slice starting at coordinate `cb`. */
  lemma VertexArithmetic(dim: nat, cb: nat, ce: int, k: nat)
    requires k < ce - cb
    ensures cb * dim + dim * k == dim * (cb + k)
    ensures dim * k + dim <= ce * dim - cb * dim
    ensures dim * (cb + k) + dim <= dim * ce
  {
    MulMonotone(dim, k + 1, ce - cb);
    MulMonotone(dim, cb + k + 1, ce);
  }

  /**
   * On a well-formed polygon the slice is exactly values
   * `[coordsBegin*dim, coordsEnd*dim)`, `(coordsEnd - coordsBegin) * dim`
   * of them, each stored at the same bytes of the same allocation as the
   * value it slices.
   */
  lemma SliceIsPolygonCoordinates(d: Data, g: int)
    requires PolygonLayout(d) && WellFormedGeometry(d, g)
    ensures var r, dim, p := Ranges(d, g), Dim(d), MakeMathGlPolygon(d, g).positions;
      && r.coordsBegin <= r.coordsEnd
      && r.coordsBegin * dim <= r.coordsEnd * dim <= |Flat(d)|
      && p.elems.floats == Flat(d)[r.coordsBegin * dim..r.coordsEnd * dim]
      && |p.elems.floats| == (r.coordsEnd - r.coordsBegin) * dim
      && (forall i :: 0 <= i < |p.elems.floats| ==>
            ElementAddress(p, i) == ElementAddress(FlatValues(d), r.coordsBegin * dim + i))
  {
    var r, dim := Ranges(d, g), Dim(d);
    MulMonotone(dim, r.coordsBegin, r.coordsEnd);
  }

  /** Coordinate `k` of polygon `g`'s slice is global coordinate `coordsBegin + k`. */
  lemma PolygonVertex(d: Data, g: int, k: int)
    requires PolygonLayout(d) && WellFormedGeometry(d, g)
    requires 0 <= k < Ranges(d, g).coordsEnd - Ranges(d, g).coordsBegin
    ensures var r, dim, p := Ranges(d, g), Dim(d), MakeMathGlPolygon(d, g).positions.elems.floats;
      && dim * k + dim <= |p|
      && dim * (r.coordsBegin + k) + dim <= |Flat(d)|
      && Vertex(p, dim, k) == Vertex(Flat(d), dim, r.coordsBegin + k)
  {
    var r, dim := Ranges(d, g), Dim(d);
    SliceIsPolygonCoordinates(d, g);
    VertexArithmetic(dim, r.coordsBegin, r.coordsEnd, k);
  }
}
