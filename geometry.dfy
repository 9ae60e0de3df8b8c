/** Coordinates, envelopes and the planar geometry engine (JTS) that the core
    composes but never implements. Doubles are modelled as reals. A geometry is an
    abstract value; every JTS operation the core calls is a field of `Engine`, so
    every property proved holds whatever the engine does. An operation that the
    source calls inside a `try` block returns an `Attempt`, whose `Failed` case
    stands for the TopologyException or IllegalArgumentException it may raise. */
module Geometry {
  import opened Common

  /** A JTS geometry. */
  type Geom(==, !new)

  /** The coordinate reference system of a ReferencedEnvelope. */
  type Crs(==, !new)

  datatype Coordinate = Coordinate(x: real, y: real)

  /** A ReferencedEnvelope: the bounds of a rectangle and its reference system. */
  datatype Envelope = Envelope(minX: real, maxX: real, minY: real, maxY: real, crs: Crs)
  {
    function Width(): real { maxX - minX }
    function Height(): real { maxY - minY }

    /** `Envelope.covers(Coordinate)`: the border belongs to the envelope. */
    predicate Covers(c: Coordinate) {
      minX <= c.x <= maxX && minY <= c.y <= maxY
    }
  }

  /** `new ReferencedEnvelope(x1, x2, y1, y2, crs)`: like every JTS envelope, it takes
      the smaller of each pair of bounds as the minimum. */
  function SortedEnvelope(x1: real, x2: real, y1: real, y2: real, crs: Crs): (e: Envelope)
    ensures e.minX <= e.maxX && e.minY <= e.maxY && e.crs == crs
    ensures (e.minX == x1 && e.maxX == x2) || (e.minX == x2 && e.maxX == x1)
    ensures (e.minY == y1 && e.maxY == y2) || (e.minY == y2 && e.maxY == y1)
  {
    Envelope(if x1 <= x2 then x1 else x2, if x1 <= x2 then x2 else x1,
             if y1 <= y2 then y1 else y2, if y1 <= y2 then y2 else y1, crs)
  }

  /** The outcome of a geometry operation that may raise. */
  datatype Attempt<+T> = Done(value: T) | Failed

  /** The JTS operations the core uses. */
  datatype Engine = Engine(
    numPoints: Geom -> int,                          // getNumPoints
    area: Geom -> real,                              // getArea
    bounds: Geom -> Envelope,                        // getEnvelopeInternal
    boundingBox: Geom -> Geom,                       // getEnvelope
    toGeometry: Envelope -> Geom,                    // GeometryFactory.toGeometry
    intersects: (Geom, Geom) -> Attempt<bool>,
    intersection: (Geom, Geom) -> Attempt<Geom>,
    union: (Geom, Geom) -> Attempt<Geom>,
    unionAll: seq<Geom> -> Attempt<Geom>,            // buildGeometry(list).union()
    difference: (Geom, Geom) -> Attempt<Geom>,
    overlaps: (Geom, Geom) -> bool,
    covers: (Geom, Coordinate) -> bool,              // covers(createPoint(c))
    distance: (Geom, Coordinate) -> real,            // distance(createPoint(c))
    centroid: Geom -> Geom,                          // getCentroid
    coordinates: Geom -> seq<Coordinate>,            // getCoordinates
    parts: Geom -> seq<Geom>,                        // getGeometryN(0 .. getNumGeometries()-1)
    triangulate: Geom -> seq<Geom>,                  // DelaunayTriangulationBuilder triangles
    convexHull: seq<Coordinate> -> Geom              // createLineString(coords).convexHull()
  )

  /** Java's `(int) d` for a finite double: rounding toward zero. */
  function Trunc(r: real): int {
    if r >= 0.0 then r.Floor else -((-r).Floor)
  }

  /** Java's narrowing of a too-large double to `int`: it saturates. */
  function Saturate(v: int): Int32 {
    if v < MinInt32 then MinInt32 else if v > MaxInt32 then MaxInt32 else v
  }

  /** Java's `(int) (a / b)` on doubles. Dividing by zero gives an infinity, which
      casts to the extreme `int` of its sign, or NaN (for 0/0), which casts to 0. */
  function CastDiv(a: real, b: real): Int32 {
    if b == 0.0 then (if a > 0.0 then MaxInt32 else if a < 0.0 then MinInt32 else 0)
    else Saturate(Trunc(a / b))
  }

  /** A quotient of non-negative numbers that fits in an `int` casts to its floor. */
  lemma CastDivFloor(a: real, b: real)
    requires b > 0.0 && a >= 0.0 && a / b <= MaxInt32 as real
    ensures CastDiv(a, b) == (a / b).Floor
    ensures 0 <= CastDiv(a, b)
    ensures CastDiv(a, b) as real <= a / b < CastDiv(a, b) as real + 1.0
  {
  }
}
