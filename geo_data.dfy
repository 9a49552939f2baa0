/** Geometry-kind tests on a single Arrow `Data` node, by its type. */
module GeoData {
  import opened Arrow
  import GeoType

  predicate IsPointData(d: Data) { GeoType.IsPoint(d.typ) }

  predicate IsLineStringData(d: Data) { GeoType.IsLineString(d.typ) }

  predicate IsPolygonData(d: Data) { GeoType.IsPolygon(d.typ) }

  predicate IsMultiPointData(d: Data) { GeoType.IsMultiPoint(d.typ) }

  predicate IsMultiLineStringData(d: Data) { GeoType.IsMultiLineString(d.typ) }

  predicate IsMultiPolygonData(d: Data) { GeoType.IsMultiPolygon(d.typ) }

  /** The structurally ambiguous kinds cannot be told apart on a node. */
  lemma DataAmbiguousPairsAgree(d: Data)
    ensures IsLineStringData(d) == IsMultiPointData(d)
    ensures IsPolygonData(d) == IsMultiLineStringData(d)
  {
    GeoType.AmbiguousPairsAgree(d.typ);
  }

  /** A node is at most one of Point, LineString, Polygon and MultiPolygon. */
  lemma DataKindsExclusive(d: Data)
    ensures !(IsPointData(d) && IsLineStringData(d))
    ensures !(IsPointData(d) && IsPolygonData(d))
    ensures !(IsPointData(d) && IsMultiPolygonData(d))
    ensures !(IsLineStringData(d) && IsPolygonData(d))
    ensures !(IsLineStringData(d) && IsMultiPolygonData(d))
    ensures !(IsPolygonData(d) && IsMultiPolygonData(d))
  {
    GeoType.KindsExclusive(d.typ);
  }
}
