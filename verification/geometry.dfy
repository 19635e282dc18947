/**
  Points and rings in a projected survey plane (UTM metres): the vocabulary
  the claim-boundary builder is stated in.
 */
module Geometry {

  /** A coordinate pair: easting `e` and northing `n`, in metres. */
  datatype Point = Point(e: real, n: real)

  /** A ring is closed when it is non-empty and ends where it starts. */
  predicate IsClosed(ring: seq<Point>) {
    |ring| > 0 && ring[0] == ring[|ring| - 1]
  }

  /** Closes an open vertex list by repeating its first vertex at the end. */
  function Close(vs: seq<Point>): (ring: seq<Point>)
    requires |vs| > 0
    ensures |ring| == |vs| + 1
    ensures IsClosed(ring)
    ensures ring[..|vs|] == vs
  {
    vs + [vs[0]]
  }

  /** The point halfway between `p` and `q`. */
  function Midpoint(p: Point, q: Point): Point {
    Point((p.e + q.e) / 2.0, (p.n + q.n) / 2.0)
  }

  /** `p` moved by `offset`. */
  function Shift(p: Point, offset: Point): Point {
    Point(p.e + offset.e, p.n + offset.n)
  }

  /** Every point of `ring` moved by `offset`. */
  function Translate(ring: seq<Point>, offset: Point): seq<Point> {
    seq(|ring|, i requires 0 <= i < |ring| => Shift(ring[i], offset))
  }

  /** Translating by the opposite offset undoes a translation. */
  lemma TranslateBack(ring: seq<Point>, offset: Point)
    ensures Translate(Translate(ring, offset), Point(-offset.e, -offset.n)) == ring
  {
  }

  /** The cross product of two position vectors (one shoelace term). */
  function Cross(p: Point, q: Point): real {
    p.e * q.n - q.e * p.n
  }

  /**
    Twice the signed area enclosed by a ring, by the shoelace formula over its
    consecutive edges: positive for a counter-clockwise ring (north up, east
    right), negative for a clockwise one. For a closed ring its absolute value
    halved is the area a polygon library reports.
   */
  function TwiceSignedArea(ring: seq<Point>): real
    decreases |ring|
  {
    if |ring| < 2 then 0.0 else Cross(ring[0], ring[1]) + TwiceSignedArea(ring[1..])
  }

  /**
    Moving a ring by `offset` changes its shoelace sum only by terms in the
    displacement between its last and first points.
   */
  lemma {:induction false} TranslateShoelace(ring: seq<Point>, offset: Point)
    requires |ring| > 0
    ensures TwiceSignedArea(Translate(ring, offset))
         == TwiceSignedArea(ring)
            + offset.e * (ring[|ring| - 1].n - ring[0].n)
            - offset.n * (ring[|ring| - 1].e - ring[0].e)
  {
    var moved := Translate(ring, offset);
    if |ring| >= 2 {
      var p, q := ring[0], ring[1];
      TranslateShoelace(ring[1..], offset);
      assert Translate(ring[1..], offset) == moved[1..];
      assert Cross(moved[0], moved[1])
          == Cross(p, q) + offset.e * (q.n - p.n) - offset.n * (q.e - p.e);
    }
  }

  /** The area enclosed by a closed ring does not depend on where it is placed. */
  lemma TranslateClosedArea(ring: seq<Point>, offset: Point)
    requires IsClosed(ring)
    ensures TwiceSignedArea(Translate(ring, offset)) == TwiceSignedArea(ring)
  {
    TranslateShoelace(ring, offset);
  }
}
