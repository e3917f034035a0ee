/** The geometry library (turf) as the pipeline sees it: opaque geometries and
    four operations passed in as function values.  None stands for an
    operation that throws (or, for union, returns null, which makes the
    following simplify throw). */
module Geometry {
  import opened Wrappers

  /** A GeoJSON feature or geometry; the model never looks inside one. */
  type Geom(==, !new)

  /** A site coordinate as handed to the Voronoi step: `[lng, lat]`. */
  datatype Point = Point(lng: real, lat: real)

  /** `[west, south, east, north]`. */
  datatype BBox = BBox(west: real, south: real, east: real, north: real)

  /** One feature slot of the Voronoi output: null, a feature without
      geometry, or a cell polygon. */
  datatype Slot = Missing | NoGeometry | Cell(polygon: Geom)

  /** `turf.intersect`: null (no overlap), a feature, or a thrown error. */
  datatype Intersection = Disjoint | Overlap(feature: Geom) | Threw

  datatype GeoLib = GeoLib(
    union: seq<Geom> -> Option<Geom>,
    simplify: (Geom, real) -> Option<Geom>,
    voronoi: (seq<Point>, BBox) -> Option<seq<Slot>>,
    intersect: (Geom, Geom) -> Intersection)
}
