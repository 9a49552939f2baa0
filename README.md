# geoarrow-js core, modelled in Dafny

geoarrow-js stores geometries in Apache Arrow's native GeoArrow layout: one
flat buffer of interleaved coordinates (`FixedSizeList<Float64>` of size 2, 3
or 4) wrapped in zero to three `List` levels whose Int32 offsets say where
each line string, ring, polygon or multi-polygon begins. This project models,
as Dafny datatypes, classes, methods and lemmas:

- **WKB repacking** (`wkb.dfy`). This is `parseWkb` and its helpers.
  - It walks a binary column row by row and fails on a null row.
  - It copies each row out, hands it to a decoder and repacks the decoded
    records into one coordinate buffer plus offset buffers.
  - A first pass sums the capacities; a second pass fills the preallocated
    arrays, driven by running counters.
  - Offsets are proved to be prefix sums of the record widths. Every record's
    coordinates are proved to land at its offset times the dimension.
- **Layout classification** (`geo_type.dfy`, `geo_data.dfy`,
  `geo_vector.dfy`). These are the `isPoint` … `isMultiPolygon` predicates on
  types, nodes and vectors.
  - Classification is by nesting depth over a point leaf.
  - Line string and multi-point are indistinguishable, as are polygon and
    multi-line string.
- **Child accessors** (`child.dfy`). `getPointChild` … `getMultiPolygonChild`
  return child 0 itself and descend exactly one level.
- **Worker transfer helpers** (`hard_clone.dfy`, `transferable.dfy`,
  `rehydrate.dfy`).
  - Detecting buffers that are views into a larger allocation.
  - Cloning those buffers, or every buffer when forced.
  - Listing the backing allocations to transfer, and rebuilding the tree.
  - Buffers are views `(allocation id, byteOffset, byteLength, allocation
    length, elements)`, so sharing and independence can be stated.
- **Total bounds** (`total_bounds.dfy`).
  - The mutable `Bbox` accumulator.
  - The per-chunk coordinate fold.
  - The dispatch on the `ARROW:extension:name` field metadata, which
    descends 0 to 3 levels.
  - The fold and the dispatch take a `Reading`: `AsWritten` is the
    program's stride-2 coordinate read, `Intended` the list-size read (see
    "## Findings"); the bounding-box properties are proved for `Intended`,
    and the two agree on two-dimensional points.
- **Polygon index arithmetic** (`polygon.dfy`, `earcut.dfy`,
  `exterior.dfy`).
  - The geometry → ring → coordinate range computation of
    `makeMathGlPolygon`, including `subarray`'s clamping and aliasing.
  - Hole-index collection and index shifting around an uninterpreted
    triangulator, with the results concatenated into a `Uint32Array`.
  - Exterior projection to the child level: one line string per ring,
    holes included, not one per polygon.

`arrow.dfy` holds the small Arrow value model the others share: data types,
fields, views, buffers, `Data` nodes and chunked `Vector`s.

Where the design description and the code differ, the model follows the code:

- The repacker never compares a decoded record's `positions.size` with the
  requested dimension. There is no dimension-mismatch error in the code, so
  the decoder's agreement is a precondition (`Wkb.Decoded`).
- `rehydrateType` returns its argument unchanged. No type descriptor is
  flattened or rebuilt, so `Rehydrate.RehydrateType` is the identity.

## Model

| member | source | states |
|---|---|---|
| `Wkb.CoordFieldName` | src/io/wkb.ts:261-269 | succeeds exactly for dimensions 2 and 3, giving "xy" or "xyz" (the first `dim` letters of "xyz"); any other dimension is the unsupported-dimension error |
| `Wkb.IterBinary` | src/io/wkb.ts:65-77 | one item per row, in row order; an item is absent exactly when the row is null; otherwise it is a view inside the column's own allocation at byte offset `values.byteOffset + valueOffsets[i]`, of length `valueOffsets[i+1] − valueOffsets[i]`, holding exactly the row's bytes |
| `Wkb.Subarray` | src/io/wkb.ts:73 | `values.subarray(start, end)`: the view of bytes `start .. end` in the same allocation, with no copy (reference definition; no contract of its own) |
| `Wkb.CopyViewToArrayBuffer` | src/io/wkb.ts:80-84 | the copy has the view's bytes and length, lives in the new allocation and is not a slice of anything |
| `Wkb.InferLineStringCapacity` | src/io/wkb.ts:153-169 | geometry capacity is the number of records; coordinate capacity is the sum of `positions.value.length / positions.size` |
| `Wkb.InferPolygonCapacity` | src/io/wkb.ts:239-259 | fails exactly when some record has no ring indices; otherwise the capacities are the coordinate sum, the ring sum (indices − 1 per record) and the record count |
| `Wkb.CapacityIsExact` | src/io/wkb.ts:182-185 | coordinate capacity × dim is exactly the length of all positions concatenated; ring capacity is exactly the number of ring lengths |
| `Wkb.CopyInto` | src/io/wkb.ts:92 | `coords.set(values, offset)` writes the values at the offset and leaves the rest of the array as it was |
| `Wkb.CopyGeometry` | src/io/wkb.ts:195-196 | after record `i` is written at its start, the array's prefix is the positions of records `0..i` concatenated |
| `Wkb.RepackPoints` | src/io/wkb.ts:86-107 | the result equals `RepackedPoints`: failure if a buffer is not Float64 or the dimension is unsupported, else a point node over the concatenated coordinates |
| `Wkb.PointsFlatLength` | src/io/wkb.ts:86-88 | the point coordinate buffer has exactly records × dim values |
| `Wkb.PointCoordinates` | src/io/wkb.ts:86-94 | point record `g`'s values occupy exactly `[g*dim, g*dim+dim)` of the buffer |
| `Wkb.RepackLineStrings` | src/io/wkb.ts:114-151 | the result equals `RepackedLineStrings`: a list node whose offsets are the prefix sums of the vertex counts over the concatenated coordinates |
| `Wkb.FillLineStrings` | src/io/wkb.ts:122-133 | the loop succeeds exactly when every buffer is Float64; it then fills the coordinates with all positions in order and `geomOffsets` with the prefix sums of the vertex counts |
| `Wkb.FlatCoordsLength` | src/io/wkb.ts:119-129 | the positions of the first `j` records hold dim × (vertices before record `j`) values |
| `Wkb.LineStringSlices` | src/io/wkb.ts:118-133 | line string `g`'s positions are exactly the values between dim × `geomOffsets[g]` and dim × `geomOffsets[g+1]` |
| `Wkb.RepackPolygons` | src/io/wkb.ts:178-237 | the result equals `RepackedPolygons`: failure on an empty ring-index list, a non-Float64 buffer or an unsupported dimension, else a two-level list node with the ring-length and ring-count prefix sums |
| `Wkb.FillPolygons` | src/io/wkb.ts:187-212 | the loop succeeds exactly when every buffer is Float64; it then fills the coordinates with all positions in order, `ringOffsets` with the prefix sums of the ring lengths in source ring order, and `geomOffsets` with the cumulative ring counts |
| `Wkb.FillRings` | src/io/wkb.ts:198-208 | the inner loop appends one offset per consecutive pair of ring indices, each the previous offset plus that ring's length |
| `Wkb.RingLengthsAt` | src/io/wkb.ts:203-206 | ring `k` of record `i` has length `primitivePolygonIndices[k+1] − primitivePolygonIndices[k]`, placed after the rings of the earlier records |
| `Wkb.PolygonRingsLocate` | src/io/wkb.ts:191-212 | for records whose ring indices start at 0 and end at their vertex count, ring `r` of polygon `g` starts at the vertex offset of `g` plus its `r`-th ring index |
| `Wkb.PolygonOffsetsEnd` | src/io/wkb.ts:191-212 | the last geometry offset is the ring count and the last ring offset is the coordinate count |
| `Wkb.ParseWkb` | src/io/wkb.ts:32-63 | the result equals `ParsedWkb`: a null row fails, point, line string and polygon are repacked, and any other kind is not implemented |
| `Wkb.NullRowFails` | src/io/wkb.ts:39-42 | any null row makes parsing fail with the null-entry error, whatever the other rows hold |
| `Wkb.RepackedLayouts` | tests/io/wkb.test.ts:31-86 | each successful repack is classified as its own kind, and none of its buffers is a slice |
| `Wkb.ParsedLayouts` | src/io/wkb.ts:50-62 | a parsed point, line string or polygon column satisfies `isPointData`, `isLineStringData` or `isPolygonData`; every multi-kind fails |
| `GeoType.IsPoint` | src/type.ts:18-54 | the point classifier: a fixed-size list of size 2, 3 or 4 with a float child, or a struct of 2–4 fields named from x, y, z, m that pass the float check (reference definition; its properties are `PointShapes` and `DepthZero`) |
| `GeoType.IsLineString` | src/type.ts:56-68 | a list whose child type is a point (reference definition; see `DepthClassifies`) |
| `GeoType.IsPolygon` | src/type.ts:70-82 | a list whose child type is a line string (reference definition; see `DepthClassifies`) |
| `GeoType.IsMultiPoint` | src/type.ts:84-96 | a list whose child type is a point, the same rule as `IsLineString` (see `AmbiguousPairsAgree`) |
| `GeoType.IsMultiLineString` | src/type.ts:98-112 | a list whose child type is a line string, the same rule as `IsPolygon` (see `AmbiguousPairsAgree`) |
| `GeoType.IsMultiPolygon` | src/type.ts:114-126 | a list whose child type is a polygon (reference definition; see `DepthClassifies`) |
| `GeoType.PointShapes` | src/type.ts:18-54 | a point is exactly a fixed-size list of 2–4 floats, or a struct of 2–4 float fields named from x, y, z, m: both directions for both shapes; any other type, a list in particular, is not a point |
| `GeoType.DepthZero` | src/type.ts:18-54 | point depth is 0 exactly for points |
| `GeoType.DepthClassifies` | src/type.ts:56-126 | line string, polygon and multi-polygon are exactly lists at point depth 1, 2 and 3 |
| `GeoType.KindsExclusive` | src/type.ts:56-126 | no type is two of point, line string, polygon and multi-polygon |
| `GeoType.AmbiguousPairsAgree` | src/type.ts:56-112 | `isLineString` agrees with `isMultiPoint`, and `isPolygon` with `isMultiLineString`, on every type |
| `GeoData.IsPointData` | src/data.ts:31-33 | `isPoint` of the node's type |
| `GeoData.IsLineStringData` | src/data.ts:35-37 | `isLineString` of the node's type |
| `GeoData.IsPolygonData` | src/data.ts:39-41 | `isPolygon` of the node's type |
| `GeoData.IsMultiPointData` | src/data.ts:43-45 | `isMultiPoint` of the node's type |
| `GeoData.IsMultiLineStringData` | src/data.ts:47-51 | `isMultiLineString` of the node's type |
| `GeoData.IsMultiPolygonData` | src/data.ts:53-55 | `isMultiPolygon` of the node's type |
| `GeoData.DataAmbiguousPairsAgree` | src/data.ts:35-51 | the ambiguous pairs agree on every node |
| `GeoData.DataKindsExclusive` | src/data.ts:31-55 | no node is two of point, line string, polygon and multi-polygon |
| `GeoVector.IsPointVector` | src/vector.ts:24-26 | `isPoint` of the vector's type |
| `GeoVector.IsLineStringVector` | src/vector.ts:28-32 | `isLineString` of the vector's type |
| `GeoVector.IsPolygonVector` | src/vector.ts:34-36 | `isPolygon` of the vector's type |
| `GeoVector.IsMultiPointVector` | src/vector.ts:38-42 | `isMultiPoint` of the vector's type |
| `GeoVector.IsMultiLineStringVector` | src/vector.ts:44-48 | `isMultiLineString` of the vector's type |
| `GeoVector.IsMultiPolygonVector` | src/vector.ts:50-54 | `isMultiPolygon` of the vector's type |
| `GeoVector.VectorAmbiguousPairsAgree` | src/vector.ts:28-48 | the ambiguous pairs agree on every vector |
| `GeoVector.VectorKindsExclusive` | src/vector.ts:24-54 | at most one of point, line string, polygon and multi-polygon holds for a vector |
| `Child.GetPointChild` | src/child.ts:26-34 | returns child 0 itself |
| `Child.GetLineStringChild` | src/child.ts:39-47 | returns child 0 itself |
| `Child.GetPolygonChild` | src/child.ts:52-60 | returns child 0 itself |
| `Child.GetMultiPointChild` | src/child.ts:65-73 | returns child 0 itself |
| `Child.GetMultiLineStringChild` | src/child.ts:82-90 | returns child 0 itself |
| `Child.GetMultiPolygonChild` | src/child.ts:95-103 | returns child 0 itself |
| `Child.GetPointChildOfVector` | src/child.ts:29-31 | is the vector's `getChildAt(0)` |
| `Child.GetLineStringChildOfVector` | src/child.ts:42-44 | is the vector's `getChildAt(0)` |
| `Child.GetPolygonChildOfVector` | src/child.ts:55-57 | is the vector's `getChildAt(0)` |
| `Child.GetMultiPointChildOfVector` | src/child.ts:68-70 | is the vector's `getChildAt(0)` |
| `Child.GetMultiLineStringChildOfVector` | src/child.ts:85-87 | is the vector's `getChildAt(0)` |
| `Child.GetMultiPolygonChildOfVector` | src/child.ts:98-100 | is the vector's `getChildAt(0)` |
| `Child.DataChildDescends` | src/child.ts:23-103 | when a node's child matches its type, each accessor descends one level: multi-polygon to polygon, polygon or multi-line string to line string, line string or multi-point to point, fixed-size-list point to floats |
| `Child.VectorChildDescends` | src/child.ts:23-103 | the same one-level descent for vectors |
| `Child.AmbiguousAccessorsAgree` | src/child.ts:36-90 | `getLineStringChild` equals `getMultiPointChild`, and `getPolygonChild` equals `getMultiLineStringChild`, on nodes and on vectors |
| `HardClone.IsTypedArraySliced` | src/worker/hard-clone.ts:142-144 | a view is sliced exactly when its byte offset is not 0 or its length differs from its allocation's (reference definition) |
| `HardClone.Shared` | src/worker/hard-clone.ts:106-135 | a node is shared when a child or the dictionary is shared or a present slot is sliced (reference definition; characterised by `SharedIffSlicedView`, computed by `IsShared`) |
| `HardClone.SharedVector` | src/worker/hard-clone.ts:102-104 | a vector is shared when some chunk is (reference definition; computed by `IsSharedVector`) |
| `HardClone.SharedIffSlicedView` | src/worker/hard-clone.ts:98-144 | a node is shared exactly when some buffer anywhere in its tree (children, dictionaries, the four slots) is sliced, i.e. has a nonzero byte offset or a length different from its allocation's |
| `HardClone.IsShared` | src/worker/hard-clone.ts:106-135 | the early-return scan of children, dictionary and buffer slots computes `Shared` |
| `HardClone.IsSharedVector` | src/worker/hard-clone.ts:102-104 | a vector is shared exactly when some chunk is |
| `HardClone.CloneBuffer` | src/worker/hard-clone.ts:151-173 | an absent buffer stays absent; without force an unsliced buffer is returned as is; otherwise the copy has the same elements and length, in the new allocation, unsliced |
| `HardClone.HardCloneData` | src/worker/hard-clone.ts:48-92 | the clone keeps type, offset, length, null count, child count and order, and dictionary presence, with every buffer cloned by `cloneBuffer` into allocations numbered in `[next, next')` |
| `HardClone.HardCloneVector` | src/worker/hard-clone.ts:44-46 | one cloned chunk per chunk, in order |
| `HardClone.ClonedNotShared` | src/worker/hard-clone.ts:22-24 | a clone, forced or not, is never shared |
| `HardClone.ForcedCloneInRange` | src/worker/hard-clone.ts:166-172 | every buffer of a forced clone lives in an allocation the clone made |
| `HardClone.ForcedCloneIsIndependent` | src/worker/hard-clone.ts:26-28 | a forced clone shares no allocation with its input |
| `HardClone.UnforcedCloneOfOwnedIsIdentity` | src/worker/hard-clone.ts:161-164 | without force, cloning a node that is not shared returns it unchanged |
| `Transferable.TransferList` | src/worker/transferable.ts:14-41 | the children's lists, then the dictionary's, then the present slots' allocations (reference definition; characterised by `TransferListMembers` and `TransferListLength`, computed by `GetTransferables`) |
| `Transferable.VectorTransferList` | src/worker/transferable.ts:10-12 | the chunks' lists concatenated (reference definition; computed by `GetTransferablesOfVector`) |
| `Transferable.GetTransferables` | src/worker/transferable.ts:14-41 | the list is the children's lists in order, then the dictionary's, then the backing allocations of the offset, data, validity and type slots that are present |
| `Transferable.PushSlots` | src/worker/transferable.ts:28-39 | appends the backing allocation of each present slot, in slot order |
| `Transferable.GetTransferablesOfVector` | src/worker/transferable.ts:10-12 | the chunks' lists concatenated in chunk order |
| `Transferable.SlotTransfersMembers` | src/worker/transferable.ts:28-39 | an allocation is listed for a node's slots exactly when it backs one of the present slots |
| `Transferable.TransferListMembers` | src/worker/transferable.ts:14-41 | an allocation is listed exactly when it backs some buffer of the tree |
| `Transferable.ChildrenTransfersMembers` | src/worker/transferable.ts:17-19 | an allocation is listed for the children exactly when it backs some buffer of one of them |
| `Transferable.TransferListLength` | src/worker/transferable.ts:16-39 | the list has one entry per present buffer in the tree, dictionaries included, with no deduplication |
| `Transferable.ChildrenTransferLength` | src/worker/transferable.ts:17-19 | the children contribute one entry per present buffer in their trees |
| `Transferable.ForcedCloneTransfersIndependently` | src/worker/hard-clone.ts:19-28 | after a forced clone, no allocation transferred for the clone backs a buffer of the input, and the reverse |
| `Rehydrate.RehydrateType` | src/worker/rehydrate.ts:3-7 | the type is returned unchanged |
| `Rehydrate.RehydrateData` | src/worker/rehydrate.ts:9-27 | the rebuilt node equals the received one: same type, offset, length, null count and buffers, children rehydrated in order, dictionary rehydrated exactly when present |
| `Rehydrate.RehydrateVector` | src/worker/rehydrate.ts:29-33 | one rehydrated chunk per chunk, in order |
| `Rehydrate.CloneRehydratesToSameContents` | tests/worker/transfer.test.ts:13-39 | a hard clone, once rehydrated, holds the same elements as the original in every buffer of the tree |
| `TotalBounds.Lower` | src/algorithm/total-bounds.ts:31-36 | the new minimum is one of the two candidates and at most both |
| `TotalBounds.Upper` | src/algorithm/total-bounds.ts:37-42 | the new maximum is one of the two candidates and at least both |
| `TotalBounds.Bbox.constructor` | src/algorithm/total-bounds.ts:23-28 | a fresh box is empty (minima +∞, maxima −∞) |
| `TotalBounds.Bbox.UpdateBbox` | src/algorithm/total-bounds.ts:30-43 | the box becomes the union of itself and the other box |
| `TotalBounds.Bbox.UpdateCoord` | src/algorithm/total-bounds.ts:45-58 | the box becomes itself extended by the point |
| `TotalBounds.EmptyContainsNothing` | src/algorithm/total-bounds.ts:23-28 | the empty box contains no point |
| `TotalBounds.ExtendIsLeast` | src/algorithm/total-bounds.ts:45-58 | the extended box contains the point and everything the box contained; it is the least such box; extending twice by the same point changes nothing |
| `TotalBounds.UnionIsLeast` | src/algorithm/total-bounds.ts:30-43 | the union includes both boxes and is the least box that does; merging an empty box is a no-op |
| `TotalBounds.StridedBoxIsBoundingBox` | src/algorithm/total-bounds.ts:83-87 | folding the first `n` strided coordinates gives the least box containing all of them |
| `TotalBounds.CoordsBboxAsWritten` | src/algorithm/total-bounds.ts:78-90 | visits `(flat[2i], flat[2i+1])` for `i < length`, a stride of 2 whatever the dimension |
| `TotalBounds.CoordsBbox` | src/algorithm/total-bounds.ts:78-90 | visits coordinate `i` at `flat[i*listSize]`, the corrected stride |
| `TotalBounds.CoordsBoxIsBoundingBox` | src/algorithm/total-bounds.ts:78-90 | the corrected box contains every coordinate of the node and is the least box that does |
| `TotalBounds.AsWrittenMissesCoordinate` | src/algorithm/total-bounds.ts:84-85 | on a three-dimensional point node the as-written box misses the second point, which the corrected box contains |
| `TotalBounds.ChunksBoxIsBoundingBox` | src/algorithm/total-bounds.ts:92-99 | the fold over chunks contains every coordinate of every chunk and is the least box that does |
| `TotalBounds.ReadingsAgreeOnPlanarPoints` | src/algorithm/total-bounds.ts:83-99 | on vectors whose chunks are all two-dimensional, the program's chunk fold equals the intended one, so there the code computes the bounding box |
| `TotalBounds.AsWrittenBoundsMissCoordinate` | src/algorithm/total-bounds.ts:92-99 | the stride-2 miss reaches the whole computation: on a one-chunk vector of three-dimensional points the program's bounds leave out (5, 5), which the intended bounds contain |
| `TotalBounds.TotalBoundsNest0` | src/algorithm/total-bounds.ts:92-99 | folds the chunks' boxes in chunk order; with `AsWritten` each chunk's box is the program's stride-2 `coordsBbox`, so the result is exactly what the code computes; with `Intended` it is the bounding box of `ChunksBoxIsBoundingBox` |
| `TotalBounds.TotalBoundsNest1` | src/algorithm/total-bounds.ts:101-104 | descends one level through the line string child accessor and folds the point vector there, under the same reading |
| `TotalBounds.TotalBoundsNest2` | src/algorithm/total-bounds.ts:106-109 | descends one level through the polygon child accessor and continues as `TotalBoundsNest1`, under the same reading |
| `TotalBounds.TotalBoundsNest3` | src/algorithm/total-bounds.ts:111-114 | descends one level through the multi-polygon child accessor and continues as `TotalBoundsNest2`, under the same reading |
| `TotalBounds.TotalBounds` | src/algorithm/total-bounds.ts:61-76 | fails exactly for an unknown or missing extension name; point, line string or multi-point, polygon or multi-line string, and multi-polygon descend 0, 1, 2 and 3 levels; with `AsWritten` the box is the program's, with `Intended` the bounding box |
| `Polygon.Dim` | src/algorithm/utils/polygon.ts:18 | the coordinate node's `listSize`, between 2 and 4 |
| `Polygon.Ranges` | src/algorithm/utils/polygon.ts:21-25 | rings span `geomOffsets[g] .. geomOffsets[g+1]` and coordinates `ringOffsets[ringBegin] .. ringOffsets[ringEnd]` |
| `Polygon.RelativeIndex` | src/algorithm/utils/polygon.ts:27-30 | `subarray`'s index: in range it is unchanged, a negative one counts from the end, and the result is clamped to the array |
| `Polygon.FloatSubarray` | src/algorithm/utils/polygon.ts:27-30 | a view on the same allocation; in range it holds exactly the sliced values, 8 bytes each, at the same addresses; an empty range gives no values |
| `Polygon.PolygonSlice` | src/algorithm/utils/polygon.ts:27-30 | polygon `g`'s slice is a view on the input's value allocation |
| `Polygon.MakeMathGlPolygon` | src/algorithm/utils/polygon.ts:9-35 | a closed polygon whose size is the dimension, whose positions are `PolygonSlice`: a view of the input's value allocation at the polygon's coordinates |
| `Polygon.SliceIsPolygonCoordinates` | src/algorithm/utils/polygon.ts:21-30 | on well-formed offsets the slice is exactly values `[coordsBegin*dim, coordsEnd*dim)`, `(coordsEnd − coordsBegin)*dim` of them, each at the same bytes as the value it slices |
| `Polygon.PolygonVertex` | src/algorithm/utils/polygon.ts:27-30 | coordinate `k` of the slice is global coordinate `coordsBegin + k` |
| `Earcut.ToUint32` | src/algorithm/earcut.ts:31 | a `Uint32Array` element holds its value modulo 2^32, unchanged when in range |
| `Earcut.CollectHoleIndices` | src/algorithm/earcut.ts:59-63 | the loop collects `HoleIndices`: one start per ring after the first |
| `Earcut.ShiftIndices` | src/algorithm/earcut.ts:66-68 | the loop adds the polygon's first coordinate index to every returned index |
| `Earcut.EarcutSinglePolygon` | src/algorithm/earcut.ts:39-71 | the triangulator's indices, for the polygon's slice and hole starts, shifted to global coordinate indices |
| `Earcut.HolesAreRingStarts` | src/algorithm/earcut.ts:59-63 | there are no holes exactly when the polygon has at most one ring, otherwise one per later ring in ring order, each the ring's start relative to the polygon's first coordinate and inside the slice |
| `Earcut.ShiftedIndicesNameSameVertices` | src/algorithm/earcut.ts:53-68 | a shifted index names in the whole coordinate buffer the vertex the raw index named in the slice |
| `Earcut.ConcatLocate` | src/algorithm/earcut.ts:28-34 | element `k` of polygon `g`'s triangles sits at position (lengths before `g`) + `k` of the output |
| `Earcut.ConcatLength` | src/algorithm/earcut.ts:19-27 | the output length is the sum of the per-polygon lengths |
| `Earcut.TriangulateEach` | src/algorithm/earcut.ts:19-25 | collects every polygon's triangles in geometry order, and `outputSize` is their total length |
| `Earcut.CopyAll` | src/algorithm/earcut.ts:27-34 | the cursor loop writes the concatenation of the results, each value as a `Uint32Array` stores it |
| `Earcut.EarcutData` | src/algorithm/earcut.ts:19-36 | a new array holding every polygon's triangles, concatenated in geometry order |
| `Earcut.EarcutVector` | src/algorithm/earcut.ts:15-17 | one new output array per chunk, in order, each that chunk's result |
| `Exterior.PolygonExterior` | src/algorithm/exterior.ts:29 | the ring-level child unchanged: a line string node when the child matches the type, sharing the input's buffers |
| `Exterior.MultiPolygonExterior` | src/algorithm/exterior.ts:51 | the polygon-level child unchanged: a polygon node when the child matches the type, sharing the input's buffers |
| `Exterior.PolygonExteriorOfVector` | src/algorithm/exterior.ts:25-27 | one result chunk per chunk, in order |
| `Exterior.MultiPolygonExteriorOfVector` | src/algorithm/exterior.ts:45-49 | one result chunk per chunk, in order |
| `Exterior.PolygonExteriorIsChildVector` | src/algorithm/exterior.ts:22-30 | on a vector the exterior is the polygon child accessor's vector, and it shares the input's buffers |
| `Exterior.MultiPolygonExteriorIsChildVector` | src/algorithm/exterior.ts:42-52 | on a vector the exterior is the multi-polygon child accessor's vector, and it shares the input's buffers |
| `Exterior.ExteriorKeepsHoles` | src/algorithm/exterior.ts:29 | the exterior of a polygon with one hole holds both rings, not only the outer one |

## Left out

- The decoding of WKB bytes is not part of this model. This is the well-known
  binary format of OGC Simple Feature Access Part 1, section 8.2, done by
  `WKBLoader.parseSync`. The decoder is a function parameter.
- `Wkb.ParseWkb`: the decoder's agreement with the requested dimension (and,
  for points, one coordinate per record) is a precondition, because the code
  never checks it.
- `Wkb.PolygonRingsLocate`: assumes each record's ring indices start at 0
  and end at its vertex count, which the decoder provides but the code does
  not check.
- `Wkb`: record vertex counts are exact divisions (`Decoded`). A fractional
  `length / size` in JavaScript is not modelled.
- Int32 offset overflow in the repacker is not modelled: offsets are
  unbounded integers.
- Coordinates and floats are modelled as reals. NaN is not modelled, and
  ±∞ appear only as the empty box's bounds.
- `makeData`, the `Data` and `Vector` constructors, `getValid` and
  `getChildAt` belong to Apache Arrow. They are modelled as plain datatypes
  and a validity sequence.
- `TotalBounds.TotalBoundsNest0` to `TotalBounds.TotalBounds`,
  `TotalBounds.CoordsBbox`, `TotalBounds.CoordsBboxAsWritten`, `Polygon.*` and
  `Earcut.*` cover interleaved (`FixedSizeList`) coordinates only
  (`PointLayout`, `PolygonLayout`). The code accepts struct coordinates
  without failing and computes the wrong thing:
  - `getPointChild` of a struct point node is its x column, so
    `coordsBbox` walks that column with stride 2. Consecutive pairs of x
    values become points. The reads past the column's end are `undefined`
    and update nothing. The y values are never read.
  - `type.listSize` is `undefined` on a struct, so in `makeMathGlPolygon` and
    `earcutSinglePolygon` the bounds `coordsBegin * dim` are NaN, the
    `subarray` is empty, and the polygon has no positions and no triangles.

  These results are not modelled.
- `TotalBounds.TotalBounds`: requires the vector's nesting to match its
  extension name (`NestedPoints`). The code never checks this. On a
  mismatch, a missing child makes `getChildAt(0)` return null and
  `totalBoundsNest0` throws a TypeError. Otherwise it reads whatever buffers
  lie at that depth. Neither outcome is modelled.
- `Earcut.EarcutSinglePolygon`, `Polygon.Ranges`: out-of-range offsets, which
  read `undefined` in JavaScript and propagate NaN, are excluded by
  `GeometryInRange`.
- The triangulator (math.gl's `earcut`) is an uninterpreted function. Only
  the index bookkeeping around it is modelled.
- `Polygon.MakeMathGlPolygon`: math.gl's `Polygon` is a record of positions,
  size and closedness. Its methods (area, winding) are floating-point
  geometry, not part of this model.
- `structuredClone` and buffer detachment are not modelled. Independence of
  a forced clone is stated as disjoint allocation ids instead.
- The worker bundle and the build configuration are plumbing, with no
  behaviour to model.
- `reprojectData` and the coordinate helpers are stubs with empty bodies.
- Fresh allocations are numbered by a counter threaded through the methods
  (`next`). Allocation identity is not otherwise modelled.
- The float check on struct point fields (src/type.ts:46) is applied to the
  `Field` object rather than its type. It is modelled as a separate predicate
  on fields (`GeoType.FieldIsFloat`) that looks at the field's type.

## Findings

| source | as written | input that shows it | evidently intended | confidence | as-written member | corrected member |
|---|---|---|---|---|---|---|
| src/algorithm/total-bounds.ts:84-85 | `coordsBbox` reads coordinate `i` at `flat[2*i]` and `flat[2*i+1]`, a stride of 2 whatever the point's `listSize` | a `FixedSizeList(3)` point node of length 2 with values `[1, 1, 1, 5, 5, 5]`: the code visits (1, 1) and (1, 5), so its box misses the point (5, 5) | a stride of `listSize`: coordinate `i` at `flat[i*listSize]`, `flat[i*listSize+1]` | not executed | `TotalBounds.AsWrittenMissesCoordinate` | `TotalBounds.CoordsBoxIsBoundingBox` |
