/**
 * Parsing a column of WKB geometries into GeoArrow's native layout.  Each
 * non-null entry is copied out of the column and handed to a WKB decoder,
 * which yields a flat coordinate buffer (and, for polygons, the local start
 * index of every ring); the results are then repacked into one coordinate
 * buffer with Int32 offset buffers above it.  The decoder is a parameter.
 */
module Wkb {
  import opened Arrow
  import GeoData
  import HardClone

  datatype WkbType = Point | LineString | Polygon | MultiPoint | MultiLineString | MultiPolygon

  /** The ways parsing and repacking fail. */
  datatype WkbError =
    | NullEntry             // a null row in the WKB column
    | NotFloat64            // a decoded coordinate buffer is not a Float64Array
    | EmptyRingIndices      // a decoded polygon has no ring start indices at all
    | UnsupportedDimension  // a dimension other than 2 or 3
    | NotImplemented        // a multi-geometry kind

  /** A decoder's coordinate buffer: `size` values per coordinate. */
  datatype Positions = Positions(value: seq<real>, size: int, isFloat64: bool)

  /**
   * What the decoder returns for one geometry; `primitivePolygonIndices`
   * holds the start index of every ring and, last, the end of the last ring.
   */
  datatype BinaryGeometry = BinaryGeometry(positions: Positions, primitivePolygonIndices: seq<int>)

  /** The decoder delivers `dim` values per coordinate and whole coordinates. */
  predicate Decoded(g: BinaryGeometry, dim: int)
  {
    dim >= 1 && g.positions.size == dim && |g.positions.value| % dim == 0
  }

  predicate AllDecoded(gs: seq<BinaryGeometry>, dim: int)
  {
    forall i :: 0 <= i < |gs| ==> Decoded(gs[i], dim)
  }

  /** A decoded point holds exactly one coordinate. */
  predicate PointDecoded(g: BinaryGeometry, dim: int)
  {
    Decoded(g, dim) && |g.positions.value| == dim
  }

  predicate AllPointsDecoded(gs: seq<BinaryGeometry>, dim: int)
  {
    forall i :: 0 <= i < |gs| ==> PointDecoded(gs[i], dim)
  }

  /** `positions.value.length / positions.size`. */
  function NumCoords(g: BinaryGeometry): int
    requires g.positions.size >= 1
  {
    |g.positions.value| / g.positions.size
  }

  predicate AllFloat64(gs: seq<BinaryGeometry>)
  {
    forall i :: 0 <= i < |gs| ==> gs[i].positions.isFloat64
  }

  /** The sum of the first `n` entries of `xs`. */
  function PrefixSum(xs: seq<int>, n: nat): int
    requires n <= |xs|
  {
    if n == 0 then 0 else PrefixSum(xs, n - 1) + xs[n - 1]
  }

  function Sum(xs: seq<int>): int
  {
    PrefixSum(xs, |xs|)
  }

  /** The running totals of `xs`, starting at 0: an Arrow offsets buffer. */
  function Offsets(xs: seq<int>): seq<int>
  {
    seq(|xs| + 1, i requires 0 <= i <= |xs| => PrefixSum(xs, i))
  }

  function CoordCounts(gs: seq<BinaryGeometry>, dim: int): seq<int>
    requires AllDecoded(gs, dim)
  {
    seq(|gs|, i requires 0 <= i < |gs| => NumCoords(gs[i]))
  }

  /** The coordinate buffers of all geometries, one after another. */
  function FlatCoords(gs: seq<BinaryGeometry>): seq<real>
  {
    if gs == [] then [] else FlatCoords(gs[..|gs| - 1]) + gs[|gs| - 1].positions.value
  }

  /** The number of rings of each polygon. */
  function RingCounts(gs: seq<BinaryGeometry>): seq<int>
  {
    seq(|gs|, i requires 0 <= i < |gs| => |gs[i].primitivePolygonIndices| - 1)
  }

  /** The length of each ring from its start indices. */
  function Diffs(p: seq<int>): seq<int>
  {
    seq(if |p| == 0 then 0 else |p| - 1, k requires 0 <= k < |p| - 1 => p[k + 1] - p[k])
  }

  /** The lengths of all rings of all polygons, in order. */
  function RingLengths(gs: seq<BinaryGeometry>): seq<int>
  {
    if gs == [] then [] else RingLengths(gs[..|gs| - 1]) + Diffs(gs[|gs| - 1].primitivePolygonIndices)
  }

  /** `coordFieldName`: the name of the coordinate field of an interleaved layout. */
  function CoordFieldName(dim: int): (r: Result<string, WkbError>)
    ensures r.Ok? <==> dim == 2 || dim == 3
    ensures r.Ok? ==> |r.value| == dim && r.value == "xyz"[..dim]
    ensures r.Err? ==> r.error == UnsupportedDimension
  {
    if dim == 2 then Ok("xy")
    else if dim == 3 then Ok("xyz")
    else Err(UnsupportedDimension)
  }

  /** A `Float64` node over a freshly allocated buffer holding `flat`. */
  function CoordsData(flat: seq<real>, id: nat): Data
  {
    Data(Float, 0, |flat|, 0, Buffers(None, Some(WholeView(id, Float64Bytes * |flat|, FloatElements(flat))), None, None), [], None)
  }

  /** An interleaved coordinate node: `dim` floats per coordinate. */
  function VerticesData(dim: int, name: string, flat: seq<real>, id: nat): Data
    requires dim >= 1
  {
    Data(FixedSizeList(dim, Field(name, Float, false)), 0, |flat| / dim, 0, NoBuffers, [CoordsData(flat, id)], None)
  }

  /** A list node over `child`, with a freshly allocated Int32 offsets buffer. */
  function ListData(fieldName: string, child: Data, offsets: seq<int>, id: nat): Data
  {
    Data(List(Field(fieldName, child.typ, false)), 0, |offsets| - 1, 0,
         Buffers(Some(WholeView(id, Int32Bytes * |offsets|, IntElements(offsets))), None, None, None), [child], None)
  }


  /** What `repackPoints` returns, fresh buffers numbered from `next`. */
  function RepackedPoints(gs: seq<BinaryGeometry>, dim: int, next: nat): Result<Data, WkbError>
  {
    if !AllFloat64(gs) then Err(NotFloat64)
    else match CoordFieldName(dim)
      case Err(e) => Err(e)
      case Ok(name) => Ok(VerticesData(dim, name, FlatCoords(gs), next))
  }

  /** What `repackLineStrings` returns. */
  function RepackedLineStrings(gs: seq<BinaryGeometry>, dim: int, next: nat): Result<Data, WkbError>
    requires AllDecoded(gs, dim)
  {
    if !AllFloat64(gs) then Err(NotFloat64)
    else match CoordFieldName(dim)
      case Err(e) => Err(e)
      case Ok(name) =>
        Ok(ListData("vertices", VerticesData(dim, name, FlatCoords(gs), next), Offsets(CoordCounts(gs, dim)), next + 1))
  }

  /** Every decoded polygon has at least one ring index. */
  predicate RingIndicesPresent(gs: seq<BinaryGeometry>)
  {
    forall i :: 0 <= i < |gs| ==> |gs[i].primitivePolygonIndices| >= 1
  }

  /** What `repackPolygons` returns. */
  function RepackedPolygons(gs: seq<BinaryGeometry>, dim: int, next: nat): Result<Data, WkbError>
    requires AllDecoded(gs, dim)
  {
    if !RingIndicesPresent(gs) then Err(EmptyRingIndices)
    else if !AllFloat64(gs) then Err(NotFloat64)
    else match CoordFieldName(dim)
      case Err(e) => Err(e)
      case Ok(name) =>
        var vertices := VerticesData(dim, name, FlatCoords(gs), next);
        var rings := ListData("vertices", vertices, Offsets(RingLengths(gs)), next + 1);
        Ok(ListData("rings", rings, Offsets(RingCounts(gs)), next + 2))
  }

  datatype LineStringCapacity = LineStringCapacity(coordCapacity: int, geomCapacity: int)

  datatype PolygonCapacity = PolygonCapacity(coordCapacity: int, ringCapacity: int, geomCapacity: int)

  /** `inferLineStringCapacity`: the coordinate and geometry totals. */
  method InferLineStringCapacity(geoms: seq<BinaryGeometry>, ghost dim: int) returns (capacity: LineStringCapacity)
    requires AllDecoded(geoms, dim)
    ensures capacity.geomCapacity == |geoms|
    ensures capacity.coordCapacity == Sum(CoordCounts(geoms, dim))
  {
    capacity := LineStringCapacity(0, 0);
    ghost var counts := CoordCounts(geoms, dim);
    for i := 0 to |geoms|
      invariant capacity.geomCapacity == i
      invariant capacity.coordCapacity == PrefixSum(counts, i)
    {
      capacity := capacity.(geomCapacity := capacity.geomCapacity + 1);
      capacity := capacity.(coordCapacity := capacity.coordCapacity + |geoms[i].positions.value| / geoms[i].positions.size);
    }
  }

  /** `inferPolygonCapacity`: fails on a polygon without ring indices. */
  method InferPolygonCapacity(geoms: seq<BinaryGeometry>, ghost dim: int) returns (r: Result<PolygonCapacity, WkbError>)
    requires AllDecoded(geoms, dim)
    ensures r.Ok? <==> RingIndicesPresent(geoms)
    ensures r.Err? ==> r.error == EmptyRingIndices
    ensures r.Ok? ==> r.value == PolygonCapacity(Sum(CoordCounts(geoms, dim)), Sum(RingCounts(geoms)), |geoms|)
  {
    var capacity := PolygonCapacity(0, 0, 0);
    ghost var counts, rings := CoordCounts(geoms, dim), RingCounts(geoms);
    for i := 0 to |geoms|
      invariant capacity.geomCapacity == i
      invariant capacity.coordCapacity == PrefixSum(counts, i)
      invariant capacity.ringCapacity == PrefixSum(rings, i)
      invariant forall j :: 0 <= j < i ==> |geoms[j].primitivePolygonIndices| >= 1
    {
      capacity := capacity.(geomCapacity := capacity.geomCapacity + 1);
      if |geoms[i].primitivePolygonIndices| < 1 {
        return Err(EmptyRingIndices);
      }
      capacity := capacity.(ringCapacity := capacity.ringCapacity + |geoms[i].primitivePolygonIndices| - 1);
      capacity := capacity.(coordCapacity := capacity.coordCapacity + |geoms[i].positions.value| / geoms[i].positions.size);
    }
    r := Ok(capacity);
  }

  /**
   * The capacities are exact: the coordinate capacity times `dim` is the
   * number of values the repacking loops write, and the ring capacity is the
   * number of ring lengths they record.
   */
  lemma CapacityIsExact(gs: seq<BinaryGeometry>, dim: int)
    requires AllDecoded(gs, dim)
    ensures dim * Sum(CoordCounts(gs, dim)) == |FlatCoords(gs)|
    ensures RingIndicesPresent(gs) ==> Sum(RingCounts(gs)) == |RingLengths(gs)|
  {
    FlatCoordsLength(gs, dim, |gs|);
    assert gs[..|gs|] == gs;
    if RingIndicesPresent(gs) {
      RingLengthsCount(gs, |gs|);
    }
  }

  /** `TypedArray.prototype.set`: writes `source` into `target` from `offset` on. */
  method CopyInto(target: array<real>, source: seq<real>, offset: nat)
    requires offset + |source| <= target.Length
    modifies target
    ensures target[..offset] == old(target[..offset])
    ensures target[offset..offset + |source|] == source
    ensures target[offset + |source|..] == old(target[offset + |source|..])
  {
    forall j | 0 <= j < |source| {
      target[offset + j] := source[j];
    }
  }

  /**
   * One step of the repacking loops: geometry `i`'s coordinates are written
   * right after those of the geometries before it.
   */
  method CopyGeometry(coords: array<real>, geoms: seq<BinaryGeometry>, i: nat, start: nat)
    requires i < |geoms| && start == |FlatCoords(geoms[..i])|
    requires start <= coords.Length == |FlatCoords(geoms)|
    requires coords[..start] == FlatCoords(geoms[..i])
    modifies coords
    ensures start + |geoms[i].positions.value| == |FlatCoords(geoms[..i + 1])| <= coords.Length
    ensures coords[..start + |geoms[i].positions.value|] == FlatCoords(geoms[..i + 1])
  {
    var value := geoms[i].positions.value;
    FlatCoordsPrefix(geoms, i + 1);
    assert geoms[..i + 1][..i] == geoms[..i];
    CopyInto(coords, value, start);
    assert coords[..start + |value|] == coords[..start] + coords[start..start + |value|];
  }

  /** `repackPoints`: one coordinate per geometry, interleaved. */
  method RepackPoints(geoms: seq<BinaryGeometry>, dim: int, next: nat) returns (r: Result<Data, WkbError>)
    requires AllPointsDecoded(geoms, dim)
    ensures r == RepackedPoints(geoms, dim, next)
  {
    PointsFlatLength(geoms, dim);
    assert AllDecoded(geoms, dim);
    var coords := new real[|geoms| * dim](_ => 0.0);
    var coordOffset := 0;
    for i := 0 to |geoms|
      invariant coordOffset == i
      invariant CoordsFilled(geoms, dim, coords[..], i, coordOffset)
    {
      if !geoms[i].positions.isFloat64 {
        return Err(NotFloat64);
      }
      assert NumCoords(geoms[i]) == 1;
      ghost var coordsBefore := coords[..];
      ScaledStart(geoms, dim, i, coordOffset);
      CopyGeometry(coords, geoms, i, coordOffset * dim);
      CoordsFilledStep(geoms, dim, coordsBefore, coords[..], i, coordOffset);
      coordOffset := coordOffset + 1;
    }
    CoordsFilledAll(geoms, dim, coords[..], coordOffset);

    var name := CoordFieldName(dim);
    if name.Err? {
      return Err(name.error);
    }
    r := Ok(VerticesData(dim, name.value, coords[..], next));
  }

  /** Decoded points fill exactly `dim` values each. */
  lemma {:induction false} PointsFlatLength(gs: seq<BinaryGeometry>, dim: int)
    requires AllPointsDecoded(gs, dim)
    ensures |FlatCoords(gs)| == |gs| * dim
  {
    if gs != [] {
      PointsFlatLength(gs[..|gs| - 1], dim);
      assert (|gs| - 1) * dim + dim == |gs| * dim;
    }
  }

  /** The coordinates of the first `j` geometries fill `dim` times their count. */
  lemma {:induction false} FlatCoordsLength(gs: seq<BinaryGeometry>, dim: int, j: nat)
    requires AllDecoded(gs, dim) && j <= |gs|
    ensures |FlatCoords(gs[..j])| == dim * PrefixSum(CoordCounts(gs, dim), j)
  {
    if j > 0 {
      FlatCoordsLength(gs, dim, j - 1);
      assert gs[..j][..j - 1] == gs[..j - 1];
      var g := gs[j - 1];
      DivMulExact(|g.positions.value|, dim);
      MulDistrib(dim, PrefixSum(CoordCounts(gs, dim), j - 1), NumCoords(g));
    }
  }

  lemma DivMulExact(a: int, d: int)
    requires d >= 1 && a % d == 0
    ensures d * (a / d) == a
  {
  }

  lemma MulDistrib(d: int, a: int, b: int)
    ensures d * (a + b) == d * a + d * b
  {
  }

  /** `repackLineStrings`: all coordinates, plus one offset per geometry boundary. */
  method RepackLineStrings(geoms: seq<BinaryGeometry>, dim: int, next: nat) returns (r: Result<Data, WkbError>)
    requires AllDecoded(geoms, dim)
    ensures r == RepackedLineStrings(geoms, dim, next)
  {
    var capacity := InferLineStringCapacity(geoms, dim);
    CapacityIsExact(geoms, dim);
    var coords := new real[capacity.coordCapacity * dim](_ => 0.0);
    var geomOffsets := new int[capacity.geomCapacity + 1](_ => 0);

    var ok := FillLineStrings(geoms, dim, coords, geomOffsets);
    if !ok {
      return Err(NotFloat64);
    }

    var name := CoordFieldName(dim);
    if name.Err? {
      return Err(name.error);
    }
    var vertices := VerticesData(dim, name.value, coords[..], next);
    r := Ok(ListData("vertices", vertices, geomOffsets[..], next + 1));
  }

  /**
   * The loop of `repackLineStrings`: copies every geometry's coordinates and
   * records after each one the number of coordinates written so far; stops
   * at the first buffer that is not a Float64Array.
   */
  method FillLineStrings(geoms: seq<BinaryGeometry>, dim: int, coords: array<real>, geomOffsets: array<int>) returns (ok: bool)
    requires AllDecoded(geoms, dim)
    requires coords.Length == |FlatCoords(geoms)|
    requires geomOffsets.Length == |geoms| + 1 && geomOffsets[0] == 0
    modifies coords, geomOffsets
    ensures ok == AllFloat64(geoms)
    ensures ok ==> coords[..] == FlatCoords(geoms) && geomOffsets[..] == Offsets(CoordCounts(geoms, dim))
  {
    ghost var counts := CoordCounts(geoms, dim);
    var geomIndex := 0;
    var coordOffset := 0;
    for i := 0 to |geoms|
      invariant geomIndex == i
      invariant CoordsFilled(geoms, dim, coords[..], i, coordOffset)
      invariant OffsetsFilled(geomOffsets[..], counts, i)
    {
      if !geoms[i].positions.isFloat64 {
        return false;
      }
      var numCoords := |geoms[i].positions.value| / geoms[i].positions.size;
      ghost var coordsBefore, offsetsBefore := coords[..], geomOffsets[..];
      ScaledStart(geoms, dim, i, coordOffset);
      CopyGeometry(coords, geoms, i, coordOffset * dim);
      CoordsFilledStep(geoms, dim, coordsBefore, coords[..], i, coordOffset);
      geomIndex := geomIndex + 1;
      coordOffset := coordOffset + numCoords;

      geomOffsets[geomIndex] := coordOffset;
      OffsetsFilledStep(offsetsBefore, geomOffsets[..], counts, i);
    }
    CoordsFilledAll(geoms, dim, coords[..], coordOffset);
    ok := true;
  }

  /** The first `i` geometries' coordinates fill the front of `coords`; `coordOffset` counts them. */
  ghost predicate CoordsFilled(geoms: seq<BinaryGeometry>, dim: int, coords: seq<real>, i: nat, coordOffset: int)
    requires AllDecoded(geoms, dim)
  {
    && i <= |geoms|
    && AllFloat64(geoms[..i])
    && coordOffset == PrefixSum(CoordCounts(geoms, dim), i)
    && |FlatCoords(geoms[..i])| <= |coords| == |FlatCoords(geoms)|
    && coords[..|FlatCoords(geoms[..i])|] == FlatCoords(geoms[..i])
  }

  lemma CoordsFilledStep(geoms: seq<BinaryGeometry>, dim: int, before: seq<real>, after: seq<real>, i: nat, coordOffset: int)
    requires AllDecoded(geoms, dim) && i < |geoms|
    requires CoordsFilled(geoms, dim, before, i, coordOffset)
    requires geoms[i].positions.isFloat64
    requires |after| == |before|
    requires |FlatCoords(geoms[..i + 1])| <= |after|
    requires after[..|FlatCoords(geoms[..i + 1])|] == FlatCoords(geoms[..i + 1])
    ensures CoordsFilled(geoms, dim, after, i + 1, coordOffset + NumCoords(geoms[i]))
  {
    var counts := CoordCounts(geoms, dim);
    assert counts[i] == NumCoords(geoms[i]);
    assert geoms[..i + 1] == geoms[..i] + [geoms[i]];
  }

  lemma CoordsFilledAll(geoms: seq<BinaryGeometry>, dim: int, coords: seq<real>, coordOffset: int)
    requires AllDecoded(geoms, dim)
    requires CoordsFilled(geoms, dim, coords, |geoms|, coordOffset)
    ensures coords == FlatCoords(geoms) && AllFloat64(geoms)
  {
    assert geoms[..|geoms|] == geoms;
  }

  /** The first `n + 1` entries of an offsets buffer under construction are the running totals of `xs`. */
  ghost predicate OffsetsFilled(offsets: seq<int>, xs: seq<int>, n: nat)
  {
    n <= |xs| && |offsets| == |xs| + 1 && forall j :: 0 <= j <= n ==> offsets[j] == PrefixSum(xs, j)
  }

  lemma OffsetsFilledStep(before: seq<int>, after: seq<int>, xs: seq<int>, n: nat)
    requires OffsetsFilled(before, xs, n) && n < |xs|
    requires after == before[n + 1 := PrefixSum(xs, n + 1)]
    ensures OffsetsFilled(after, xs, n + 1)
  {
  }

  lemma OffsetsFilledAll(offsets: seq<int>, xs: seq<int>)
    requires OffsetsFilled(offsets, xs, |xs|)
    ensures offsets == Offsets(xs)
  {
  }

  /** Where the repacking loops write geometry `i`: its coordinate offset times `dim`. */
  lemma ScaledStart(gs: seq<BinaryGeometry>, dim: int, i: nat, coordOffset: int)
    requires AllDecoded(gs, dim) && i <= |gs|
    requires coordOffset == PrefixSum(CoordCounts(gs, dim), i)
    ensures coordOffset * dim == |FlatCoords(gs[..i])|
  {
    FlatCoordsLength(gs, dim, i);
  }

  /** The coordinates of a prefix of the geometries are a prefix of all coordinates. */
  lemma {:induction false} FlatCoordsPrefix(gs: seq<BinaryGeometry>, j: nat)
    requires j <= |gs|
    ensures |FlatCoords(gs[..j])| <= |FlatCoords(gs)|
    ensures FlatCoords(gs)[..|FlatCoords(gs[..j])|] == FlatCoords(gs[..j])
  {
    if j < |gs| {
      var init := gs[..|gs| - 1];
      FlatCoordsPrefix(init, j);
      assert init[..j] == gs[..j];
    } else {
      assert gs[..j] == gs;
    }
  }

  /** `repackPolygons`: coordinates, ring offsets and polygon offsets. */
  method RepackPolygons(geoms: seq<BinaryGeometry>, dim: int, next: nat) returns (r: Result<Data, WkbError>)
    requires AllDecoded(geoms, dim)
    ensures r == RepackedPolygons(geoms, dim, next)
  {
    var capacity := InferPolygonCapacity(geoms, dim);
    if capacity.Err? {
      return Err(capacity.error);
    }
    CapacityIsExact(geoms, dim);
    var coords := new real[capacity.value.coordCapacity * dim](_ => 0.0);
    var ringOffsets := new int[capacity.value.ringCapacity + 1](_ => 0);
    var geomOffsets := new int[capacity.value.geomCapacity + 1](_ => 0);

    var ok := FillPolygons(geoms, dim, coords, ringOffsets, geomOffsets);
    if !ok {
      return Err(NotFloat64);
    }

    var name := CoordFieldName(dim);
    if name.Err? {
      return Err(name.error);
    }
    var vertices := VerticesData(dim, name.value, coords[..], next);
    var rings := ListData("vertices", vertices, ringOffsets[..], next + 1);
    r := Ok(ListData("rings", rings, geomOffsets[..], next + 2));
  }

  /**
   * The loop of `repackPolygons`: copies every polygon's coordinates, appends
   * one running total per ring from consecutive ring start indices, and
   * after each polygon records the number of rings so far.
   */
  method FillPolygons(geoms: seq<BinaryGeometry>, dim: int, coords: array<real>, ringOffsets: array<int>, geomOffsets: array<int>)
    returns (ok: bool)
    requires AllDecoded(geoms, dim) && RingIndicesPresent(geoms)
    requires coords.Length == |FlatCoords(geoms)|
    requires ringOffsets.Length == |RingLengths(geoms)| + 1 && ringOffsets[0] == 0
    requires geomOffsets.Length == |geoms| + 1 && geomOffsets[0] == 0
    requires ringOffsets != geomOffsets
    modifies coords, ringOffsets, geomOffsets
    ensures ok == AllFloat64(geoms)
    ensures ok ==> coords[..] == FlatCoords(geoms)
    ensures ok ==> ringOffsets[..] == Offsets(RingLengths(geoms))
    ensures ok ==> geomOffsets[..] == Offsets(RingCounts(geoms))
  {
    var geomIndex := 0;
    var coordOffset := 0;
    var ringOffset := 0;
    for i := 0 to |geoms|
      invariant geomIndex == i
      invariant PolygonsFilled(geoms, dim, coords[..], ringOffsets[..], geomOffsets[..], i, coordOffset, ringOffset)
    {
      if !geoms[i].positions.isFloat64 {
        return false;
      }
      var numCoords := |geoms[i].positions.value| / geoms[i].positions.size;
      ghost var coordsBefore, ringsBefore, offsetsBefore := coords[..], ringOffsets[..], geomOffsets[..];
      ScaledStart(geoms, dim, i, coordOffset);
      CopyGeometry(coords, geoms, i, coordOffset * dim);
      coordOffset := coordOffset + numCoords;

      ghost var ringStart := ringOffset;
      ringOffset := FillRings(geoms, i, ringOffsets, ringOffset);

      geomOffsets[geomIndex + 1] := ringOffset;
      geomIndex := geomIndex + 1;
      PolygonsFilledStep(geoms, dim, coordsBefore, coords[..], ringsBefore, ringOffsets[..], offsetsBefore, geomOffsets[..],
                         i, coordOffset - numCoords, ringStart, ringOffset);
    }
    PolygonsFilledAll(geoms, dim, coords[..], ringOffsets[..], geomOffsets[..], coordOffset, ringOffset);
    ok := true;
  }

  /** The state of the `repackPolygons` loop after its first `i` polygons. */
  ghost predicate PolygonsFilled(geoms: seq<BinaryGeometry>, dim: int, coords: seq<real>, ringOffsets: seq<int>, geomOffsets: seq<int>,
                                 i: nat, coordOffset: int, ringOffset: int)
    requires AllDecoded(geoms, dim)
  {
    && CoordsFilled(geoms, dim, coords, i, coordOffset)
    && ringOffset == |RingLengths(geoms[..i])|
    && OffsetsFilled(ringOffsets, RingLengths(geoms), ringOffset)
    && OffsetsFilled(geomOffsets, RingCounts(geoms), i)
  }

  lemma PolygonsFilledStep(geoms: seq<BinaryGeometry>, dim: int, coordsBefore: seq<real>, coords: seq<real>,
                           ringsBefore: seq<int>, rings: seq<int>, offsetsBefore: seq<int>, offsets: seq<int>,
                           i: nat, coordOffset: int, ringStart: int, ringOffset: int)
    requires AllDecoded(geoms, dim) && RingIndicesPresent(geoms) && i < |geoms|
    requires geoms[i].positions.isFloat64
    requires PolygonsFilled(geoms, dim, coordsBefore, ringsBefore, offsetsBefore, i, coordOffset, ringStart)
    requires |coords| == |coordsBefore|
    requires |FlatCoords(geoms[..i + 1])| <= |coords|
    requires coords[..|FlatCoords(geoms[..i + 1])|] == FlatCoords(geoms[..i + 1])
    requires ringOffset == |RingLengths(geoms[..i + 1])|
    requires OffsetsFilled(rings, RingLengths(geoms), ringOffset)
    requires offsets == offsetsBefore[i + 1 := ringOffset]
    ensures PolygonsFilled(geoms, dim, coords, rings, offsets, i + 1, coordOffset + NumCoords(geoms[i]), ringOffset)
  {
    CoordsFilledStep(geoms, dim, coordsBefore, coords, i, coordOffset);
    RingLengthsCount(geoms, i + 1);
    OffsetsFilledStep(offsetsBefore, offsets, RingCounts(geoms), i);
  }

  lemma PolygonsFilledAll(geoms: seq<BinaryGeometry>, dim: int, coords: seq<real>, ringOffsets: seq<int>, geomOffsets: seq<int>,
                          coordOffset: int, ringOffset: int)
    requires AllDecoded(geoms, dim)
    requires PolygonsFilled(geoms, dim, coords, ringOffsets, geomOffsets, |geoms|, coordOffset, ringOffset)
    ensures coords == FlatCoords(geoms) && AllFloat64(geoms)
    ensures ringOffsets == Offsets(RingLengths(geoms))
    ensures geomOffsets == Offsets(RingCounts(geoms))
  {
    CoordsFilledAll(geoms, dim, coords, coordOffset);
    assert geoms[..|geoms|] == geoms;
  }

  /**
   * The ring loop of `repackPolygons` for polygon `i`: one running total per
   * ring, each the previous one plus the distance between consecutive ring
   * start indices.
   */
  method FillRings(geoms: seq<BinaryGeometry>, i: nat, ringOffsets: array<int>, start: int) returns (ringOffset: int)
    requires i < |geoms| && |geoms[i].primitivePolygonIndices| >= 1
    requires start == |RingLengths(geoms[..i])|
    requires OffsetsFilled(ringOffsets[..], RingLengths(geoms), start)
    modifies ringOffsets
    ensures ringOffset == |RingLengths(geoms[..i + 1])|
    ensures OffsetsFilled(ringOffsets[..], RingLengths(geoms), ringOffset)
  {
    ghost var lengths := RingLengths(geoms);
    var indices := geoms[i].primitivePolygonIndices;
    ringOffset := start;
    for ringIdx := 0 to |indices| - 1
      invariant ringOffset == start + ringIdx
      invariant OffsetsFilled(ringOffsets[..], lengths, ringOffset)
    {
      RingLengthsAt(geoms, i, ringIdx);
      ghost var ringsBefore := ringOffsets[..];
      ringOffsets[ringOffset + 1] := ringOffsets[ringOffset] + (indices[ringIdx + 1] - indices[ringIdx]);
      OffsetsFilledStep(ringsBefore, ringOffsets[..], lengths, ringOffset);
      ringOffset := ringOffset + 1;
    }
    RingLengthsSplit(geoms, i);
  }

  /** The ring lengths of the first `i + 1` polygons: those of the first `i`, then polygon `i`'s. */
  lemma RingLengthsSplit(gs: seq<BinaryGeometry>, i: nat)
    requires i < |gs|
    ensures RingLengths(gs[..i + 1]) == RingLengths(gs[..i]) + Diffs(gs[i].primitivePolygonIndices)
  {
    assert gs[..i + 1][..i] == gs[..i];
  }

  /** The ring lengths of a prefix of the polygons are a prefix of all ring lengths. */
  lemma {:induction false} RingLengthsPrefix(gs: seq<BinaryGeometry>, j: nat)
    requires j <= |gs|
    ensures |RingLengths(gs[..j])| <= |RingLengths(gs)|
    ensures RingLengths(gs)[..|RingLengths(gs[..j])|] == RingLengths(gs[..j])
  {
    if j < |gs| {
      var init := gs[..|gs| - 1];
      RingLengthsPrefix(init, j);
      assert init[..j] == gs[..j];
    } else {
      assert gs[..j] == gs;
    }
  }

  /** Polygon `i` contributes one ring length per ring, from its `k`-th to its `k+1`-st ring index. */
  lemma RingLengthsAt(gs: seq<BinaryGeometry>, i: nat, k: nat)
    requires i < |gs| && k + 1 < |gs[i].primitivePolygonIndices|
    ensures |RingLengths(gs[..i])| + k < |RingLengths(gs)|
    ensures RingLengths(gs)[|RingLengths(gs[..i])| + k]
         == gs[i].primitivePolygonIndices[k + 1] - gs[i].primitivePolygonIndices[k]
  {
    RingLengthsSplit(gs, i);
    RingLengthsPrefix(gs, i + 1);
    var before := RingLengths(gs[..i]);
    var upto := RingLengths(gs[..i + 1]);
    assert RingLengths(gs)[|before| + k] == upto[|before| + k];
  }

  /** Without empty ring index lists, a prefix has as many ring lengths as its ring counts add up to. */
  lemma {:induction false} RingLengthsCount(gs: seq<BinaryGeometry>, j: nat)
    requires RingIndicesPresent(gs) && j <= |gs|
    ensures |RingLengths(gs[..j])| == PrefixSum(RingCounts(gs), j)
  {
    if j > 0 {
      RingLengthsCount(gs, j - 1);
      RingLengthsSplit(gs, j - 1);
    }
  }

  /** Running totals only depend on the entries they add up. */
  lemma {:induction false} PrefixSumSame(xs: seq<int>, ys: seq<int>, n: nat)
    requires n <= |xs| && n <= |ys| && xs[..n] == ys[..n]
    ensures PrefixSum(xs, n) == PrefixSum(ys, n)
  {
    if n > 0 {
      assert xs[..n - 1] == xs[..n][..n - 1] && ys[..n - 1] == ys[..n][..n - 1];
      assert xs[n - 1] == xs[..n][n - 1];
      assert ys[n - 1] == ys[..n][n - 1];
      PrefixSumSame(xs, ys, n - 1);
    }
  }

  lemma {:induction false} PrefixSumAppend(a: seq<int>, b: seq<int>, k: nat)
    requires k <= |b|
    ensures PrefixSum(a + b, |a| + k) == Sum(a) + PrefixSum(b, k)
  {
    if k > 0 {
      PrefixSumAppend(a, b, k - 1);
      assert (a + b)[|a| + k - 1] == b[k - 1];
    } else {
      assert (a + b)[..|a|] == a[..|a|];
      PrefixSumSame(a + b, a, |a|);
    }
  }

  /** The ring lengths of one polygon add up to the distance between its first and `r`-th ring index. */
  lemma {:induction false} PrefixSumDiffs(p: seq<int>, r: nat)
    requires r < |p|
    ensures PrefixSum(Diffs(p), r) == p[r] - p[0]
  {
    if r > 0 {
      PrefixSumDiffs(p, r - 1);
    }
  }

  /**
   * The decoder's polygon indices: the first ring starts at 0 and the last
   * index is the end of the polygon's coordinates.
   */
  predicate RingsClosed(gs: seq<BinaryGeometry>, dim: int)
    requires AllDecoded(gs, dim)
  {
    forall i :: 0 <= i < |gs| ==>
      var p := gs[i].primitivePolygonIndices;
      |p| >= 1 && p[0] == 0 && p[|p| - 1] == NumCoords(gs[i])
  }

  /** Appending one polygon's ring lengths adds the distance from its first to its last ring index. */
  lemma SumDiffsAppend(before: seq<int>, p: seq<int>)
    requires |p| >= 1
    ensures Sum(before + Diffs(p)) == Sum(before) + (p[|p| - 1] - p[0])
  {
    PrefixSumAppend(before, Diffs(p), |p| - 1);
    PrefixSumDiffs(p, |p| - 1);
  }

  /**
   * When the running totals `all` begin with `before` followed by one
   * polygon's ring lengths, the total up to its ring `r` is that of `before`
   * plus the ring's local start index, less the first.
   */
  lemma PrefixSumInPolygon(all: seq<int>, before: seq<int>, p: seq<int>, r: nat)
    requires r < |p| && |before| + |p| - 1 <= |all|
    requires all[..|before| + |p| - 1] == before + Diffs(p)
    ensures |before| + r <= |all|
    ensures PrefixSum(all, |before| + r) == Sum(before) + (p[r] - p[0])
  {
    var upto := before + Diffs(p);
    assert all[..|before| + r] == upto[..|before| + r];
    PrefixSumSame(all, upto, |before| + r);
    PrefixSumAppend(before, Diffs(p), r);
    PrefixSumDiffs(p, r);
  }

  /** With closed rings, the ring lengths of the first `j` polygons add up to their coordinates. */
  lemma {:induction false} SumRingLengths(gs: seq<BinaryGeometry>, dim: int, j: nat)
    requires AllDecoded(gs, dim) && RingsClosed(gs, dim) && j <= |gs|
    ensures Sum(RingLengths(gs[..j])) == PrefixSum(CoordCounts(gs, dim), j)
  {
    if j > 0 {
      var p := gs[j - 1].primitivePolygonIndices;
      SumRingLengths(gs, dim, j - 1);
      RingLengthsSplit(gs, j - 1);
      SumDiffsAppend(RingLengths(gs[..j - 1]), p);
      assert p[0] == 0 && p[|p| - 1] == NumCoords(gs[j - 1]);
      assert CoordCounts(gs, dim)[j - 1] == NumCoords(gs[j - 1]);
    }
  }

  /**
   * Where `repackPolygons` puts ring `r` of polygon `g`: the polygon's rings
   * start at entry `geomOffsets[g]` of the ring offsets, and the offset of its
   * ring `r` is the polygon's first coordinate plus the ring's local start
   * index.  `r` may be the last index, the end of the polygon.
   */
  lemma PolygonRingsLocate(gs: seq<BinaryGeometry>, dim: int, g: nat, r: nat)
    requires AllDecoded(gs, dim) && RingsClosed(gs, dim)
    requires g < |gs| && r < |gs[g].primitivePolygonIndices|
    ensures 0 <= Offsets(RingCounts(gs))[g] && Offsets(RingCounts(gs))[g] + r <= |RingLengths(gs)|
    ensures Offsets(RingLengths(gs))[Offsets(RingCounts(gs))[g] + r]
         == Offsets(CoordCounts(gs, dim))[g] + gs[g].primitivePolygonIndices[r]
  {
    LocatePremises(gs, dim, g);
    LocateFromPremises(gs, dim, g, r);
  }

  lemma LocateFromPremises(gs: seq<BinaryGeometry>, dim: int, g: nat, r: nat)
    requires AllDecoded(gs, dim)
    requires g < |gs| && r < |gs[g].primitivePolygonIndices|
    requires var p, all, before := gs[g].primitivePolygonIndices, RingLengths(gs), RingLengths(gs[..g]);
      && |p| >= 1 && p[0] == 0
      && PrefixSum(RingCounts(gs), g) == |before|
      && PrefixSum(CoordCounts(gs, dim), g) == Sum(before)
      && |before| + |p| - 1 <= |all| && all[..|before| + |p| - 1] == before + Diffs(p)
    ensures 0 <= Offsets(RingCounts(gs))[g] && Offsets(RingCounts(gs))[g] + r <= |RingLengths(gs)|
    ensures Offsets(RingLengths(gs))[Offsets(RingCounts(gs))[g] + r]
         == Offsets(CoordCounts(gs, dim))[g] + gs[g].primitivePolygonIndices[r]
  {
    LocateInOffsets(RingCounts(gs), CoordCounts(gs, dim), RingLengths(gs), RingLengths(gs[..g]), gs[g].primitivePolygonIndices, g, r);
  }

  /**
   * Polygon `g`'s rings follow those of the polygons before it, its ring
   * count and coordinate count start after theirs, and its first ring
   * starts at 0.
   */
  lemma LocatePremises(gs: seq<BinaryGeometry>, dim: int, g: nat)
    requires AllDecoded(gs, dim) && RingsClosed(gs, dim) && g < |gs|
    ensures var p, all, before := gs[g].primitivePolygonIndices, RingLengths(gs), RingLengths(gs[..g]);
      && |p| >= 1 && p[0] == 0
      && PrefixSum(RingCounts(gs), g) == |before|
      && PrefixSum(CoordCounts(gs, dim), g) == Sum(before)
      && |before| + |p| - 1 <= |all| && all[..|before| + |p| - 1] == before + Diffs(p)
  {
    RingLengthsCount(gs, g);
    SumRingLengths(gs, dim, g);
    RingLengthsSplit(gs, g);
    RingLengthsPrefix(gs, g + 1);
  }

  /** The arithmetic of `PolygonRingsLocate`, over the offsets alone. */
  lemma LocateInOffsets(counts: seq<int>, coords: seq<int>, all: seq<int>, before: seq<int>, p: seq<int>, g: nat, r: nat)
    requires g < |counts| && g < |coords| && r < |p| && p[0] == 0
    requires PrefixSum(counts, g) == |before|
    requires PrefixSum(coords, g) == Sum(before)
    requires |before| + |p| - 1 <= |all| && all[..|before| + |p| - 1] == before + Diffs(p)
    ensures 0 <= Offsets(counts)[g] && Offsets(counts)[g] + r <= |all|
    ensures Offsets(all)[Offsets(counts)[g] + r] == Offsets(coords)[g] + p[r]
  {
    PrefixSumInPolygon(all, before, p, r);
    OffsetsAt(counts, g);
    OffsetsAt(coords, g);
    OffsetsAt(all, |before| + r);
  }

  lemma OffsetsAt(xs: seq<int>, i: nat)
    requires i <= |xs|
    ensures Offsets(xs)[i] == PrefixSum(xs, i)
  {
  }

  /**
   * The offsets close: the last polygon offset is the number of rings and
   * the last ring offset is the number of coordinates.
   */
  lemma PolygonOffsetsEnd(gs: seq<BinaryGeometry>, dim: int)
    requires AllDecoded(gs, dim) && RingsClosed(gs, dim)
    ensures Sum(RingCounts(gs)) == |RingLengths(gs)|
    ensures Sum(RingLengths(gs)) == Sum(CoordCounts(gs, dim))
  {
    RingLengthsCount(gs, |gs|);
    SumRingLengths(gs, dim, |gs|);
    assert gs[..|gs|] == gs;
  }

  /**
   * Where `repackLineStrings` puts line string `g`: its coordinates are the
   * values from `dim` times its start offset to `dim` times its end offset.
   */
  lemma LineStringSlices(gs: seq<BinaryGeometry>, dim: int, g: nat)
    requires AllDecoded(gs, dim) && g < |gs|
    ensures 0 <= dim * Offsets(CoordCounts(gs, dim))[g] <= dim * Offsets(CoordCounts(gs, dim))[g + 1] <= |FlatCoords(gs)|
    ensures FlatCoords(gs)[dim * Offsets(CoordCounts(gs, dim))[g] .. dim * Offsets(CoordCounts(gs, dim))[g + 1]]
         == gs[g].positions.value
  {
    FlatCoordsLength(gs, dim, g);
    FlatCoordsLength(gs, dim, g + 1);
    FlatCoordsPrefix(gs, g + 1);
    assert gs[..g + 1][..g] == gs[..g];
    var before, upto := FlatCoords(gs[..g]), FlatCoords(gs[..g + 1]);
    assert upto == before + gs[g].positions.value;
    assert FlatCoords(gs)[|before|..|upto|] == upto[|before|..];
  }

  /** Each point counts one coordinate, so point `g` starts at value `g * dim`. */
  lemma {:induction false} PointsPrefixSum(gs: seq<BinaryGeometry>, dim: int, g: nat)
    requires AllPointsDecoded(gs, dim) && g <= |gs|
    ensures PrefixSum(CoordCounts(gs, dim), g) == g
  {
    if g > 0 {
      PointsPrefixSum(gs, dim, g - 1);
      assert NumCoords(gs[g - 1]) == 1;
    }
  }

  /** Where `repackPoints` puts point `g`: its `dim` values start at `g * dim`. */
  lemma PointCoordinates(gs: seq<BinaryGeometry>, dim: int, g: nat)
    requires AllPointsDecoded(gs, dim) && g < |gs|
    ensures |FlatCoords(gs)| == |gs| * dim
    ensures 0 <= g * dim && g * dim + dim <= |FlatCoords(gs)|
    ensures FlatCoords(gs)[g * dim .. g * dim + dim] == gs[g].positions.value
  {
    PointsFlatLength(gs, dim);
    LineStringSlices(gs, dim, g);
    PointsPrefixSum(gs, dim, g);
    PointsPrefixSum(gs, dim, g + 1);
    MulDistrib(dim, g, 1);
  }

  /** A WKB column: per row a validity bit and the row's byte range in `values`. */
  datatype WkbColumn = WkbColumn(length: nat, valid: seq<bool>, valueOffsets: seq<int>, values: View)

  /** Arrow's layout guarantees for a binary column. */
  predicate WellFormedColumn(c: WkbColumn)
  {
    && |c.valid| == c.length
    && |c.valueOffsets| == c.length + 1
    && c.values.elems.ByteElements?
    && (forall i :: 0 <= i <= c.length ==> 0 <= c.valueOffsets[i] <= |c.values.elems.bytes|)
    && (forall i, j :: 0 <= i <= j <= c.length ==> c.valueOffsets[i] <= c.valueOffsets[j])
  }

  /** The bytes of row `i`. */
  function RowBytes(c: WkbColumn, i: nat): seq<int>
    requires WellFormedColumn(c) && i < c.length
  {
    c.values.elems.bytes[c.valueOffsets[i]..c.valueOffsets[i + 1]]
  }

  /** `values.subarray(start, end)`: a view into the same allocation, with no copy. */
  function Subarray(v: View, start: nat, end: nat): View
    requires v.elems.ByteElements? && start <= end <= |v.elems.bytes|
  {
    View(v.backing, v.byteOffset + start, end - start, v.backingLength, ByteElements(v.elems.bytes[start..end]))
  }

  /**
   * `iterBinary`: one entry per row, nothing for a null row, otherwise a
   * view of exactly the row's bytes inside the column's own allocation.
   */
  method IterBinary(c: WkbColumn) returns (items: seq<Option<View>>)
    requires WellFormedColumn(c)
    ensures |items| == c.length
    ensures forall i :: 0 <= i < c.length ==> (items[i].None? <==> !c.valid[i])
    ensures forall i :: 0 <= i < c.length && c.valid[i] ==>
      && items[i].value.backing == c.values.backing
      && items[i].value.byteOffset == c.values.byteOffset + c.valueOffsets[i]
      && items[i].value.byteLength == c.valueOffsets[i + 1] - c.valueOffsets[i]
      && items[i].value.elems == ByteElements(RowBytes(c, i))
  {
    var values := c.values;
    var valueOffsets := c.valueOffsets;
    items := [];
    for i := 0 to c.length
      invariant |items| == i
      invariant forall j :: 0 <= j < i ==> (items[j].None? <==> !c.valid[j])
      invariant forall j :: 0 <= j < i && c.valid[j] ==>
        && items[j].value.backing == c.values.backing
        && items[j].value.byteOffset == c.values.byteOffset + c.valueOffsets[j]
        && items[j].value.byteLength == c.valueOffsets[j + 1] - c.valueOffsets[j]
        && items[j].value.elems == ByteElements(RowBytes(c, j))
    {
      if !c.valid[i] {
        items := items + [None];
      } else {
        var startOffset := valueOffsets[i];
        var endOffset := valueOffsets[i + 1];
        items := items + [Some(Subarray(values, startOffset, endOffset))];
      }
    }
  }

  /** `copyViewToArrayBuffer`: the view's bytes in a fresh allocation of exactly their length. */
  function CopyViewToArrayBuffer(view: View, id: nat): (r: View)
    ensures r.backing == id && r.elems == view.elems && r.byteLength == view.byteLength
    ensures !HardClone.IsTypedArraySliced(r)
  {
    WholeView(id, view.byteLength, view.elems)
  }

  /** What the decoder promises for the geometry kind being parsed. */
  predicate DecodedAs(g: BinaryGeometry, kind: WkbType, dim: int)
  {
    match kind
    case Point => PointDecoded(g, dim)
    case LineString => Decoded(g, dim)
    case Polygon => Decoded(g, dim)
    case _ => true
  }

  /** The decoded rows of a column without nulls. */
  function Geometries(c: WkbColumn, decode: seq<int> -> BinaryGeometry): seq<BinaryGeometry>
    requires WellFormedColumn(c)
  {
    seq(c.length, i requires 0 <= i < c.length => decode(RowBytes(c, i)))
  }

  /**
   * What `parseWkb` returns: failure on any null row, else the decoded rows
   * repacked for the requested kind; the temporary copies of the rows take
   * allocation numbers `next` onwards and the repacked buffers follow them.
   */
  function ParsedWkb(c: WkbColumn, kind: WkbType, dim: int, decode: seq<int> -> BinaryGeometry, next: nat): Result<Data, WkbError>
    requires WellFormedColumn(c)
    requires forall bytes :: DecodedAs(decode(bytes), kind, dim)
  {
    if exists i :: 0 <= i < c.length && !c.valid[i] then Err(NullEntry)
    else
      var gs := Geometries(c, decode);
      GeometriesDecoded(c, kind, dim, decode);
      match kind
      case Point => RepackedPoints(gs, dim, next + c.length)
      case LineString => RepackedLineStrings(gs, dim, next + c.length)
      case Polygon => RepackedPolygons(gs, dim, next + c.length)
      case _ => Err(NotImplemented)
  }

  /** `parseWkb`, with the WKB decoder as a parameter. */
  method ParseWkb(c: WkbColumn, kind: WkbType, dim: int, decode: seq<int> -> BinaryGeometry, next: nat)
    returns (r: Result<Data, WkbError>)
    requires WellFormedColumn(c)
    requires forall bytes :: DecodedAs(decode(bytes), kind, dim)
    ensures r == ParsedWkb(c, kind, dim, decode, next)
  {
    var parsedGeometries: seq<BinaryGeometry> := [];
    var items := IterBinary(c);
    for i := 0 to |items|
      invariant |parsedGeometries| == i
      invariant forall j :: 0 <= j < i ==> c.valid[j] && parsedGeometries[j] == decode(RowBytes(c, j))
    {
      if items[i].None? {
        return Err(NullEntry);
      }
      var arrayBuffer := CopyViewToArrayBuffer(items[i].value, next + i);
      var parsed := decode(arrayBuffer.elems.bytes);
      parsedGeometries := parsedGeometries + [parsed];
    }
    assert parsedGeometries == Geometries(c, decode);
    GeometriesDecoded(c, kind, dim, decode);

    match kind
    case Point =>
      r := RepackPoints(parsedGeometries, dim, next + c.length);
    case LineString =>
      r := RepackLineStrings(parsedGeometries, dim, next + c.length);
    case Polygon =>
      r := RepackPolygons(parsedGeometries, dim, next + c.length);
    case _ =>
      r := Err(NotImplemented);
  }

  lemma GeometriesDecoded(c: WkbColumn, kind: WkbType, dim: int, decode: seq<int> -> BinaryGeometry)
    requires WellFormedColumn(c)
    requires forall bytes :: DecodedAs(decode(bytes), kind, dim)
    ensures kind == Point ==> AllPointsDecoded(Geometries(c, decode), dim)
    ensures kind in {LineString, Polygon} ==> AllDecoded(Geometries(c, decode), dim)
  {
    var gs := Geometries(c, decode);
    forall i | 0 <= i < |gs|
      ensures DecodedAs(gs[i], kind, dim)
    {
      assert gs[i] == decode(RowBytes(c, i));
    }
  }

  /** A null row anywhere makes parsing fail, whatever the kind. */
  lemma NullRowFails(c: WkbColumn, kind: WkbType, dim: int, decode: seq<int> -> BinaryGeometry, next: nat, i: nat)
    requires WellFormedColumn(c) && forall bytes :: DecodedAs(decode(bytes), kind, dim)
    requires i < c.length && !c.valid[i]
    ensures ParsedWkb(c, kind, dim, decode, next) == Err(NullEntry)
  {
  }

  /**
   * The repacked trees have the layouts their kinds promise, and own every
   * buffer: none is a slice of a larger allocation.
   */
  lemma RepackedLayouts(gs: seq<BinaryGeometry>, dim: int, next: nat)
    requires AllDecoded(gs, dim)
    ensures RepackedPoints(gs, dim, next).Ok? ==> GeoData.IsPointData(RepackedPoints(gs, dim, next).value)
    ensures RepackedLineStrings(gs, dim, next).Ok? ==> GeoData.IsLineStringData(RepackedLineStrings(gs, dim, next).value)
    ensures RepackedPolygons(gs, dim, next).Ok? ==> GeoData.IsPolygonData(RepackedPolygons(gs, dim, next).value)
    ensures RepackedPoints(gs, dim, next).Ok? ==> !HardClone.Shared(RepackedPoints(gs, dim, next).value)
    ensures RepackedLineStrings(gs, dim, next).Ok? ==> !HardClone.Shared(RepackedLineStrings(gs, dim, next).value)
    ensures RepackedPolygons(gs, dim, next).Ok? ==> !HardClone.Shared(RepackedPolygons(gs, dim, next).value)
  {
  }

  /**
   * `parseWkb` yields point, line string and polygon data for those kinds
   * and fails for the multi-geometry kinds.
   */
  lemma ParsedLayouts(c: WkbColumn, kind: WkbType, dim: int, decode: seq<int> -> BinaryGeometry, next: nat)
    requires WellFormedColumn(c) && forall bytes :: DecodedAs(decode(bytes), kind, dim)
    ensures kind == Point && ParsedWkb(c, kind, dim, decode, next).Ok? ==> GeoData.IsPointData(ParsedWkb(c, kind, dim, decode, next).value)
    ensures kind == LineString && ParsedWkb(c, kind, dim, decode, next).Ok? ==> GeoData.IsLineStringData(ParsedWkb(c, kind, dim, decode, next).value)
    ensures kind == Polygon && ParsedWkb(c, kind, dim, decode, next).Ok? ==> GeoData.IsPolygonData(ParsedWkb(c, kind, dim, decode, next).value)
    ensures kind in {MultiPoint, MultiLineString, MultiPolygon} ==> ParsedWkb(c, kind, dim, decode, next).Err?
  {
    if forall i :: 0 <= i < c.length ==> c.valid[i] {
      var gs := Geometries(c, decode);
      if kind in {Point, LineString, Polygon} {
        GeometriesDecoded(c, kind, dim, decode);
        RepackedLayouts(gs, dim, next + c.length);
      }
    }
  }
}
