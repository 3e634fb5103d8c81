/**
 * Computational geometry is not modelled: a geometry is an abstract value and
 * every shapely or pyproj operation the core uses is an uninterpreted total
 * function, gathered in one record that callers pass along.
 */
module Geo {
  import opened Wrappers

  /** A shapely geometry (polygon, multipolygon, collection, possibly empty). */
  type Geometry(==, !new)

  datatype Shapely = Shapely(
    /** `g.is_valid` */
    isValid: Geometry -> bool,
    /** `g.is_empty` */
    isEmpty: Geometry -> bool,
    /** `shapely.ops.unary_union(gs)` */
    unaryUnion: seq<Geometry> -> Geometry,
    /** whether `unary_union(gs)` raises `ValueError` (a non-noded intersection) */
    unionRaises: seq<Geometry> -> bool,
    /** `g.buffer(0.001)` */
    buffered: Geometry -> Geometry,
    /** `g.boundary` */
    boundary: Geometry -> Geometry,
    /** `a.intersects(b)`, also through a prepared geometry */
    intersects: (Geometry, Geometry) -> bool,
    /** `a.intersection(b)` */
    intersection: (Geometry, Geometry) -> Geometry,
    /** `a.within(b)`: used only to state geometric laws */
    within: (Geometry, Geometry) -> bool,
    /** pyproj transform from the recorded reference system to EPSG:4326 */
    reproject: (Option<string>, Geometry) -> Geometry)
  {
    /** Python truthiness of an optional geometry: present and not empty. */
    predicate Truthy(g: Option<Geometry>) {
      g.Some? && !isEmpty(g.value)
    }
  }
}
