/**
 The decoded geometry tree the viewer receives from the WKB parser.
 Decoding itself is done by the parser library and is not modelled: every
 operation here starts from an already decoded tree.
 */
module Geometries {

  /** A decoded point. The viewer reads only its x and y coordinates and
      copies them, so nothing here depends on their values. */
  datatype Point = Point(x: real, y: real)

  /** A ring as decoded from WKB: the points in file order. WKB rings are
      closed (the last point repeats the first by value), but nothing in the
      viewer relies on that or checks it. */
  type Ring = seq<Point>

  /** A polygon: one exterior ring and the interior rings (holes), in order. */
  datatype Poly = Poly(exterior: Ring, interiors: seq<Ring>)

  /** The kinds of decoded geometry the viewer distinguishes. Every kind it
      does not test for (points, line strings, multi-points, ...) is `Other`. */
  datatype Geometry =
    | Polygon(poly: Poly)
    | MultiPolygon(polygons: seq<Poly>)
    | GeometryCollection(geometries: seq<Geometry>)
    | Other
}
