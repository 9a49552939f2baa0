/**
 * The layout classifier: which GeoArrow geometry kind an Arrow type has,
 * decided by its shape alone (a coordinate type wrapped in list levels).
 */
module GeoType {
  import opened Arrow

  /** The field names a struct coordinate may use. */
  const CoordNames: set<string> := {"x", "y", "z", "m"}

  /**
   * `DataType.isFloat` as applied to a child `Field`: Arrow answers from the
   * field's type id, which is the id of the field's type.
   */
  predicate FieldIsFloat(f: Field)
  {
    f.typ.Float?
  }

  /** A coordinate: an interleaved fixed-size list or a struct of x/y/z/m floats. */
  predicate IsPoint(t: DataType)
  {
    match t
    case FixedSizeList(listSize, child) =>
      listSize in {2, 3, 4} && FieldIsFloat(child)
    case Struct(fields) =>
      && |fields| in {2, 3, 4}
      && (forall i :: 0 <= i < |fields| ==> fields[i].name in CoordNames)
      && (forall i :: 0 <= i < |fields| ==> FieldIsFloat(fields[i]))
    case _ => false
  }

  predicate IsLineString(t: DataType)
  {
    t.List? && IsPoint(t.child.typ)
  }

  predicate IsPolygon(t: DataType)
  {
    t.List? && IsLineString(t.child.typ)
  }

  predicate IsMultiPoint(t: DataType)
  {
    t.List? && IsPoint(t.child.typ)
  }

  predicate IsMultiLineString(t: DataType)
  {
    t.List? && IsLineString(t.child.typ)
  }

  predicate IsMultiPolygon(t: DataType)
  {
    t.List? && IsPolygon(t.child.typ)
  }

  /**
   * Reference definition of the layout: the number of list levels above a
   * coordinate type, or nothing when the type is not a coordinate wrapped in lists.
   */
  function PointDepth(t: DataType): Option<nat>
  {
    if IsPoint(t) then Some(0)
    else match t
      case List(f) =>
        (match PointDepth(f.typ)
         case Some(k) => Some(k + 1)
         case None => None)
      case _ => None
  }

  /**
   * A coordinate type is a fixed-size list of 2 to 4 floats, or a struct of
   * 2 to 4 float fields named from x, y, z and m; nothing else is, a list
   * in particular.
   */
  lemma PointShapes(t: DataType)
    ensures IsPoint(t) && t.FixedSizeList? ==> t.listSize in {2, 3, 4} && t.child.typ.Float?
    ensures IsPoint(t) && t.Struct? ==> 2 <= |t.fields| <= 4
    ensures IsPoint(t) && t.Struct? ==> forall i :: 0 <= i < |t.fields| ==> t.fields[i].name in CoordNames
    ensures IsPoint(t) && t.Struct? ==> forall i :: 0 <= i < |t.fields| ==> t.fields[i].typ.Float?
    ensures IsPoint(t) ==> t.FixedSizeList? || t.Struct?
    ensures t.FixedSizeList? && t.listSize in {2, 3, 4} && t.child.typ.Float? ==> IsPoint(t)
    ensures t.Struct? && 2 <= |t.fields| <= 4
            && (forall i :: 0 <= i < |t.fields| ==> t.fields[i].name in CoordNames && t.fields[i].typ.Float?)
            ==> IsPoint(t)
  {
  }

  lemma {:induction false} DepthZero(t: DataType)
    ensures PointDepth(t) == Some(0) <==> IsPoint(t)
  {
    if !IsPoint(t) && t.List? {
      match PointDepth(t.child.typ)
      case Some(k) =>
      case None =>
    }
  }

  /** Each classifier holds exactly at its own nesting depth. */
  lemma {:induction false} DepthClassifies(t: DataType)
    ensures IsPoint(t) <==> PointDepth(t) == Some(0)
    ensures IsLineString(t) <==> PointDepth(t) == Some(1)
    ensures IsPolygon(t) <==> PointDepth(t) == Some(2)
    ensures IsMultiPolygon(t) <==> PointDepth(t) == Some(3)
  {
    DepthZero(t);
    if t.List? {
      var c := t.child.typ;
      DepthZero(c);
      if c.List? {
        var g := c.child.typ;
        DepthZero(g);
        if g.List? {
          DepthZero(g.child.typ);
        }
      }
    }
  }

  /** No type is classified as two of Point, LineString, Polygon and MultiPolygon. */
  lemma KindsExclusive(t: DataType)
    ensures !(IsPoint(t) && IsLineString(t))
    ensures !(IsPoint(t) && IsPolygon(t))
    ensures !(IsPoint(t) && IsMultiPolygon(t))
    ensures !(IsLineString(t) && IsPolygon(t))
    ensures !(IsLineString(t) && IsMultiPolygon(t))
    ensures !(IsPolygon(t) && IsMultiPolygon(t))
  {
    DepthClassifies(t);
  }

  /** LineString and MultiPoint, Polygon and MultiLineString share one shape. */
  lemma AmbiguousPairsAgree(t: DataType)
    ensures IsLineString(t) == IsMultiPoint(t)
    ensures IsPolygon(t) == IsMultiLineString(t)
  {
  }
}
