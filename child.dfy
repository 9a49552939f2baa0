/**
 * Typed accessors for the single child of a geometry node: on a `Data` node
 * the first child itself, on a `Vector` the vector's `getChildAt(0)`.
 */
module Child {
  import opened Arrow
  import opened GeoData
  import opened GeoVector
  import GeoType

  function GetPointChild(d: Data): (c: Data)
    requires IsPointData(d) && |d.children| > 0
    ensures c == d.children[0]
  {
    d.children[0]
  }

  function GetLineStringChild(d: Data): (c: Data)
    requires IsLineStringData(d) && |d.children| > 0
    ensures c == d.children[0]
  {
    d.children[0]
  }

  function GetPolygonChild(d: Data): (c: Data)
    requires IsPolygonData(d) && |d.children| > 0
    ensures c == d.children[0]
  {
    d.children[0]
  }

  function GetMultiPointChild(d: Data): (c: Data)
    requires IsMultiPointData(d) && |d.children| > 0
    ensures c == d.children[0]
  {
    d.children[0]
  }

  function GetMultiLineStringChild(d: Data): (c: Data)
    requires IsMultiLineStringData(d) && |d.children| > 0
    ensures c == d.children[0]
  {
    d.children[0]
  }

  function GetMultiPolygonChild(d: Data): (c: Data)
    requires IsMultiPolygonData(d) && |d.children| > 0
    ensures c == d.children[0]
  {
    d.children[0]
  }

  function GetPointChildOfVector(v: Vector): (c: Vector)
    requires IsPointVector(v) && ChunksHaveChild(v)
    ensures GetChildAt0(v) == Some(c)
  {
    GetChildAt0(v).value
  }

  function GetLineStringChildOfVector(v: Vector): (c: Vector)
    requires IsLineStringVector(v) && ChunksHaveChild(v)
    ensures GetChildAt0(v) == Some(c)
  {
    GetChildAt0(v).value
  }

  function GetPolygonChildOfVector(v: Vector): (c: Vector)
    requires IsPolygonVector(v) && ChunksHaveChild(v)
    ensures GetChildAt0(v) == Some(c)
  {
    GetChildAt0(v).value
  }

  function GetMultiPointChildOfVector(v: Vector): (c: Vector)
    requires IsMultiPointVector(v) && ChunksHaveChild(v)
    ensures GetChildAt0(v) == Some(c)
  {
    GetChildAt0(v).value
  }

  function GetMultiLineStringChildOfVector(v: Vector): (c: Vector)
    requires IsMultiLineStringVector(v) && ChunksHaveChild(v)
    ensures GetChildAt0(v) == Some(c)
  {
    GetChildAt0(v).value
  }

  function GetMultiPolygonChildOfVector(v: Vector): (c: Vector)
    requires IsMultiPolygonVector(v) && ChunksHaveChild(v)
    ensures GetChildAt0(v) == Some(c)
  {
    GetChildAt0(v).value
  }

  /** On a well-formed node each accessor goes down exactly one nesting level. */
  lemma DataChildDescends(d: Data)
    requires ChildMatchesType(d) && |d.children| > 0
    ensures IsMultiPolygonData(d) ==> IsPolygonData(GetMultiPolygonChild(d))
    ensures IsPolygonData(d) ==> IsLineStringData(GetPolygonChild(d))
    ensures IsMultiLineStringData(d) ==> IsLineStringData(GetMultiLineStringChild(d))
    ensures IsLineStringData(d) ==> IsPointData(GetLineStringChild(d))
    ensures IsMultiPointData(d) ==> IsPointData(GetMultiPointChild(d))
    ensures IsPointData(d) && d.typ.FixedSizeList? ==> GetPointChild(d).typ == Float
  {
  }

  /** The same holds of vectors whose chunks are well-formed nodes. */
  lemma VectorChildDescends(v: Vector)
    requires ChunksHaveChild(v)
    requires forall i :: 0 <= i < |v.chunks| ==> ChildMatchesType(v.chunks[i])
    ensures IsMultiPolygonVector(v) ==> IsPolygonVector(GetMultiPolygonChildOfVector(v))
    ensures IsPolygonVector(v) ==> IsLineStringVector(GetPolygonChildOfVector(v))
    ensures IsMultiLineStringVector(v) ==> IsLineStringVector(GetMultiLineStringChildOfVector(v))
    ensures IsLineStringVector(v) ==> IsPointVector(GetLineStringChildOfVector(v))
    ensures IsMultiPointVector(v) ==> IsPointVector(GetMultiPointChildOfVector(v))
    ensures IsPointVector(v) && TypeOf(v).FixedSizeList? ==> TypeOf(GetPointChildOfVector(v)) == Float
  {
  }

  /** The accessors of the structurally ambiguous kinds are one accessor. */
  lemma AmbiguousAccessorsAgree(d: Data, v: Vector)
    ensures IsLineStringData(d) && |d.children| > 0 ==> GetLineStringChild(d) == GetMultiPointChild(d)
    ensures IsPolygonData(d) && |d.children| > 0 ==> GetPolygonChild(d) == GetMultiLineStringChild(d)
    ensures IsLineStringVector(v) && ChunksHaveChild(v) ==> GetLineStringChildOfVector(v) == GetMultiPointChildOfVector(v)
    ensures IsPolygonVector(v) && ChunksHaveChild(v) ==> GetPolygonChildOfVector(v) == GetMultiLineStringChildOfVector(v)
  {
  }
}
