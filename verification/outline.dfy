/**
 The shape builder: conversion of a decoded polygon into the outline the
 renderer consumes. A three.js `Shape` or `Path` is modelled by the sequence
 of drawing commands the viewer issues on it; a shape additionally carries
 one hole path per interior ring.
 */
module Outline {
  import opened Options
  import opened Geometries

  /** One drawing call on a path. */
  datatype Command = MoveTo(p: Point) | LineTo(p: Point)

  type Path = seq<Command>

  /** An outline with holes: the outer path and the hole paths in order. */
  datatype Shape = Shape(outer: Path, holes: seq<Path>)

  /** The path starts with a single `moveTo` and continues with `lineTo`
      calls only (the empty path qualifies). */
  predicate StartsOnce(cmds: Path)
  {
    forall i :: 0 <= i < |cmds| ==> (cmds[i].MoveTo? <==> i == 0)
  }

  /** The points a path visits, in the order they are drawn. */
  function Vertices(cmds: Path): (ps: seq<Point>)
  {
    seq(|cmds|, i requires 0 <= i < |cmds| => cmds[i].p)
  }

  /** Reads a ring back from a path; defined exactly on the paths that
      start with one `moveTo` and continue with `lineTo` calls. */
  function RingOf(cmds: Path): (ring: Option<Ring>)
    ensures ring.Some? <==> StartsOnce(cmds)
    ensures ring.Some? ==> |ring.value| == |cmds|
  {
    if StartsOnce(cmds) then Some(Vertices(cmds)) else None
  }

  /** One `lineTo` per point, in order. */
  function LinesTo(ps: seq<Point>): (cmds: Path)
    ensures |cmds| == |ps|
    ensures forall i :: 0 <= i < |ps| ==> cmds[i] == LineTo(ps[i])
  {
    if ps == [] then [] else [LineTo(ps[0])] + LinesTo(ps[1..])
  }

  /** The path the shape builder draws for one ring. The first point is
      recognised by its position in the ring (object identity with the
      ring's element 0), never by its coordinates. */
  function RingPath(ring: Ring): (cmds: Path)
    ensures StartsOnce(cmds)
    ensures Vertices(cmds) == ring
  {
    if ring == [] then [] else [MoveTo(ring[0])] + LinesTo(ring[1..])
  }

  /** Drawing a ring and reading it back gives the ring, whatever its length. */
  lemma RingPathRoundTrip(ring: Ring)
    ensures RingOf(RingPath(ring)) == Some(ring)
  {
  }

  /** Every path that reads back as a ring is the path drawn for that ring. */
  lemma RingOfInverse(cmds: Path, ring: Ring)
    requires RingOf(cmds) == Some(ring)
    ensures RingPath(ring) == cmds
  {
  }

  /** The alternative reading of the first-point test: a point counts as
      "first" when it equals the first point by value. Kept only to contrast
      with `RingPath`. */
  function ValueTrace(first: Point, ps: seq<Point>): (cmds: Path)
    ensures |cmds| == |ps|
    ensures forall i :: 0 <= i < |ps| ==> cmds[i].p == ps[i]
    ensures forall i :: 0 <= i < |ps| ==> (cmds[i].MoveTo? <==> ps[i] == first)
  {
    if ps == [] then []
    else [if ps[0] == first then MoveTo(ps[0]) else LineTo(ps[0])] + ValueTrace(first, ps[1..])
  }

  function ValueRingPath(ring: Ring): (cmds: Path)
  {
    if ring == [] then [] else ValueTrace(ring[0], ring)
  }

  /** Position and value agree exactly when the first point does not come
      back later in the ring. */
  lemma ValueAgreesIff(ring: Ring)
    ensures RingPath(ring) == ValueRingPath(ring)
            <==> forall i :: 0 < i < |ring| ==> ring[i] != ring[0]
  {
  }

  /** On a closed ring (the WKB form) the closing point is drawn with
      `lineTo`, whereas a value test would have turned it into a second
      `moveTo`. */
  lemma ClosedRingClosingPoint(ring: Ring)
    requires |ring| >= 2 && ring[|ring| - 1] == ring[0]
    ensures RingPath(ring)[|ring| - 1] == LineTo(ring[0])
    ensures ValueRingPath(ring)[|ring| - 1] == MoveTo(ring[0])
    ensures RingPath(ring) != ValueRingPath(ring)
  {
  }

  /** Draws one ring the way the viewer's loop does: a `moveTo` for the
      element at position 0 and a `lineTo` for every other element. */
  method TraceRing(ring: Ring) returns (cmds: Path)
    ensures StartsOnce(cmds)
    ensures |cmds| == |ring|
    ensures forall i :: 0 <= i < |ring| ==> cmds[i].p == ring[i]
  {
    cmds := [];
    var i := 0;
    while i < |ring|
      invariant 0 <= i <= |ring|
      invariant |cmds| == i
      invariant StartsOnce(cmds)
      invariant forall j :: 0 <= j < i ==> cmds[j].p == ring[j]
    {
      if i == 0 {
        cmds := cmds + [MoveTo(ring[i])];
      } else {
        cmds := cmds + [LineTo(ring[i])];
      }
      i := i + 1;
    }
  }

  /** One hole path per interior ring, in interior-ring order. */
  function HolePaths(rings: seq<Ring>): (holes: seq<Path>)
    ensures |holes| == |rings|
    ensures forall k :: 0 <= k < |rings| ==> RingOf(holes[k]) == Some(rings[k])
  {
    if rings == [] then []
    else
      RingPathRoundTrip(rings[0]);
      [RingPath(rings[0])] + HolePaths(rings[1..])
  }

  /** The outline of a polygon: the exterior ring as outer path and one hole
      per interior ring, with no validation of ring lengths or closure. */
  function ShapeOf(poly: Poly): (shape: Shape)
    ensures RingOf(shape.outer) == Some(poly.exterior)
    ensures |shape.holes| == |poly.interiors|
    ensures forall k :: 0 <= k < |poly.interiors| ==> RingOf(shape.holes[k]) == Some(poly.interiors[k])
  {
    RingPathRoundTrip(poly.exterior);
    Shape(RingPath(poly.exterior), HolePaths(poly.interiors))
  }

  /** All paths of the shape start with one `moveTo` and continue with
      `lineTo` calls only. */
  predicate WellFormedShape(shape: Shape)
  {
    && StartsOnce(shape.outer)
    && forall k :: 0 <= k < |shape.holes| ==> StartsOnce(shape.holes[k])
  }

  /** Reads a polygon back from an outline. */
  function PolyOf(shape: Shape): (poly: Option<Poly>)
    ensures poly.Some? <==> WellFormedShape(shape)
    ensures poly.Some? ==> |poly.value.interiors| == |shape.holes|
  {
    if WellFormedShape(shape) then
      Some(Poly(Vertices(shape.outer),
                seq(|shape.holes|, k requires 0 <= k < |shape.holes| => Vertices(shape.holes[k]))))
    else None
  }

  /** Building the outline loses nothing: the polygon can be read back. */
  lemma ShapeRoundTrip(poly: Poly)
    ensures PolyOf(ShapeOf(poly)) == Some(poly)
  {
    var shape := ShapeOf(poly);
    assert WellFormedShape(shape) by {
      forall k | 0 <= k < |shape.holes|
        ensures StartsOnce(shape.holes[k])
      {
        assert RingOf(shape.holes[k]).Some?;
      }
    }
    var back := PolyOf(shape).value;
    assert back.exterior == poly.exterior by {
      assert RingOf(shape.outer) == Some(poly.exterior);
    }
    forall k | 0 <= k < |poly.interiors|
      ensures back.interiors[k] == poly.interiors[k]
    {
      assert RingOf(shape.holes[k]) == Some(poly.interiors[k]);
    }
    assert back.interiors == poly.interiors;
  }

  /** Every well-formed outline is the outline of the polygon read back from it. */
  lemma {:induction false} PolyOfInverse(shape: Shape, poly: Poly)
    requires PolyOf(shape) == Some(poly)
    ensures ShapeOf(poly) == shape
  {
    var built := ShapeOf(poly);
    RingOfInverse(shape.outer, poly.exterior);
    RingPathRoundTrip(poly.exterior);
    assert built.outer == shape.outer;
    forall k | 0 <= k < |shape.holes|
      ensures built.holes[k] == shape.holes[k]
    {
      assert RingOf(shape.holes[k]) == Some(poly.interiors[k]);
      RingOfInverse(shape.holes[k], poly.interiors[k]);
      RingOfInverse(built.holes[k], poly.interiors[k]);
    }
  }

  /** Two polygons with the same outline are the same polygon. */
  lemma ShapeOfInjective(p: Poly, q: Poly)
    requires ShapeOf(p) == ShapeOf(q)
    ensures p == q
  {
  }

  /** Builds the outline the way the viewer's two loops do: first the
      exterior ring, then one hole path per interior ring. */
  method ShapeFromPoly(poly: Poly) returns (shape: Shape)
    ensures PolyOf(shape) == Some(poly)
  {
    var outer := TraceRing(poly.exterior);
    var holes: seq<Path> := [];
    var k := 0;
    while k < |poly.interiors|
      invariant 0 <= k <= |poly.interiors|
      invariant |holes| == k
      invariant forall j :: 0 <= j < k ==> RingOf(holes[j]) == Some(poly.interiors[j])
    {
      var hole := TraceRing(poly.interiors[k]);
      assert Vertices(hole) == poly.interiors[k];
      holes := holes + [hole];
      k := k + 1;
    }
    shape := Shape(outer, holes);
    assert Vertices(outer) == poly.exterior;
    assert WellFormedShape(shape) by {
      forall j | 0 <= j < |holes|
        ensures StartsOnce(holes[j])
      {
        assert RingOf(holes[j]).Some?;
      }
    }
    var back := PolyOf(shape).value;
    forall j | 0 <= j < |holes|
      ensures back.interiors[j] == poly.interiors[j]
    {
      assert RingOf(holes[j]) == Some(poly.interiors[j]);
    }
    assert back.interiors == poly.interiors;
  }
}
