/** Geometry-kind tests on an Arrow `Vector`, by the vector's type. */
module GeoVector {
  import opened Arrow
  import GeoType

  predicate IsPointVector(v: Vector) { GeoType.IsPoint(TypeOf(v)) }

  predicate IsLineStringVector(v: Vector) { GeoType.IsLineString(TypeOf(v)) }

  predicate IsPolygonVector(v: Vector) { GeoType.IsPolygon(TypeOf(v)) }

  predicate IsMultiPointVector(v: Vector) { GeoType.IsMultiPoint(TypeOf(v)) }

  predicate IsMultiLineStringVector(v: Vector) { GeoType.IsMultiLineString(TypeOf(v)) }

  predicate IsMultiPolygonVector(v: Vector) { GeoType.IsMultiPolygon(TypeOf(v)) }

  /** The structurally ambiguous kinds cannot be told apart on a vector. */
  lemma VectorAmbiguousPairsAgree(v: Vector)
    ensures IsLineStringVector(v) == IsMultiPointVector(v)
    ensures IsPolygonVector(v) == IsMultiLineStringVector(v)
  {
    GeoType.AmbiguousPairsAgree(TypeOf(v));
  }

  /** A vector is at most one of Point, LineString, Polygon and MultiPolygon. */
  lemma VectorKindsExclusive(v: Vector)
    ensures !(IsPointVector(v) && IsLineStringVector(v))
    ensures !(IsPointVector(v) && IsPolygonVector(v))
    ensures !(IsPointVector(v) && IsMultiPolygonVector(v))
    ensures !(IsLineStringVector(v) && IsPolygonVector(v))
    ensures !(IsLineStringVector(v) && IsMultiPolygonVector(v))
    ensures !(IsPolygonVector(v) && IsMultiPolygonVector(v))
  {
    GeoType.KindsExclusive(TypeOf(v));
  }
}
