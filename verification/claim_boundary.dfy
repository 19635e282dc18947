/**
  The rectangular-fallback boundary of a mining claim: from one reference
  (measurement) point and a declared area in hectares, a square centred on the
  point, its corners listed Northwest, Northeast, Southeast, Southwest and
  closed back to Northwest, together with the flat table of corner
  coordinates that is exported beside it.

  The side of the square is the square root of the area in square metres.
  Dafny has no square root, so the caller supplies the side and the contract
  demands that it be that root (`IsSideFor`); `DeterminedByArea` shows that the
  result then depends on the area alone.
 */
module ClaimBoundary {
  import opened Wrappers
  import opened Geometry

  /** Square metres in one hectare. */
  const SquareMetresPerHectare: real := 10000.0

  /** `side` is the non-negative square root of `hectares` expressed in square metres. */
  predicate IsSideFor(side: real, hectares: real) {
    side >= 0.0 && side * side == hectares * SquareMetresPerHectare
  }

  /** Why no rectangle could be built. */
  datatype FallbackError =
    /** A negative area has no real square root, so there is no real side length. */
    | NoRealSide

  /** The built boundary: the closed five-point ring and the flat corner table. */
  datatype Boundary = Boundary(ring: seq<Point>, vertices: map<string, real>)

  /*
    Geometric description of the expected result, independent of how it is
    built.
   */

  /**
    `ring` is a closed five-point ring around an axis-aligned square of side
    `side` whose diagonals cross at `reference`: the first two corners share a
    northing, as do the last two; the middle two share an easting, as do the
    first and fourth; the first corner lies `side` west of the second and
    `side` north of the fourth.
   */
  predicate IsCentredSquare(ring: seq<Point>, reference: Point, side: real) {
    && |ring| == 5
    && IsClosed(ring)
    && ring[0].n == ring[1].n && ring[2].n == ring[3].n
    && ring[1].e == ring[2].e && ring[3].e == ring[0].e
    && ring[1].e - ring[0].e == side
    && ring[0].n - ring[3].n == side
    && Midpoint(ring[0], ring[2]) == reference
    && Midpoint(ring[1], ring[3]) == reference
  }

  /**
    The four corners of `ring` come in the order Northwest, Northeast,
    Southeast, Southwest: going east along the north edge, south along the east
    edge, west along the south edge (clockwise with north up).
   */
  predicate IsOrderedNwNeSeSw(ring: seq<Point>)
    requires |ring| >= 4
  {
    && ring[0].e <= ring[1].e && ring[0].n >= ring[3].n  // NW is west of NE and north of SW
    && ring[1].n >= ring[2].n                            // NE is north of SE
    && ring[2].e >= ring[3].e                            // SE is east of SW
  }

  /** The eight keys of the exported corner table. */
  const VertexKeys: set<string> :=
    {"V1_E", "V1_N", "V2_E", "V2_N", "V3_E", "V3_N", "V4_E", "V4_N"}

  /*
    The builder.
   */

  /**
    The four corners around `reference` at `half` metres along each axis, in
    the order Northwest, Northeast, Southeast, Southwest.
   */
  function Corners(reference: Point, half: real): (corners: seq<Point>)
    requires half >= 0.0
    ensures |corners| == 4
    ensures IsCentredSquare(Close(corners), reference, 2.0 * half)
    ensures IsOrderedNwNeSeSw(corners)
  {
    [ Point(reference.e - half, reference.n + half),  // Northwest
      Point(reference.e + half, reference.n + half),  // Northeast
      Point(reference.e + half, reference.n - half),  // Southeast
      Point(reference.e - half, reference.n - half) ] // Southwest
  }

  /**
    The flat corner table: corner `k` (1-based) contributes its easting under
    `Vk_E` and its northing under `Vk_N`.
   */
  function VertexDict(corners: seq<Point>): (table: map<string, real>)
    requires |corners| == 4
    ensures table.Keys == VertexKeys
    ensures ReadVertices(table) == Some(Close(corners))
  {
    var table := map[
      "V1_E" := corners[0].e, "V1_N" := corners[0].n,
      "V2_E" := corners[1].e, "V2_N" := corners[1].n,
      "V3_E" := corners[2].e, "V3_N" := corners[2].n,
      "V4_E" := corners[3].e, "V4_N" := corners[3].n
    ];
    assert [ Point(table["V1_E"], table["V1_N"]), Point(table["V2_E"], table["V2_N"]),
             Point(table["V3_E"], table["V3_N"]), Point(table["V4_E"], table["V4_N"]) ]
        == corners;
    table
  }

  /**
    Reads a corner table back into a closed ring, the way a consumer of the
    table pairs `Vk_E` with `Vk_N`; `None` when any of the eight keys is
    missing.
   */
  function ReadVertices(table: map<string, real>): Option<seq<Point>> {
    if VertexKeys <= table.Keys then
      Some(Close([ Point(table["V1_E"], table["V1_N"]),
                   Point(table["V2_E"], table["V2_N"]),
                   Point(table["V3_E"], table["V3_N"]),
                   Point(table["V4_E"], table["V4_N"]) ]))
    else
      None
  }

  /**
    The rectangular fallback boundary around the reference point
    (`east`, `north`) for a declared area of `hectares`, where `side` is the
    square root of the area in square metres. A negative area has no real side
    and yields `NoRealSide`.
   */
  function VerticesAndPolygon(east: real, north: real, hectares: real, side: real)
    : (r: Result<Boundary, FallbackError>)
    requires hectares >= 0.0 ==> IsSideFor(side, hectares)
    ensures r.Failure? <==> hectares < 0.0
    ensures r.Success? ==> IsCentredSquare(r.value.ring, Point(east, north), side)
    ensures r.Success? ==> IsOrderedNwNeSeSw(r.value.ring)
    ensures r.Success? && hectares > 0.0 ==>
              r.value.ring[0].e < r.value.ring[1].e && r.value.ring[3].n < r.value.ring[0].n
    ensures r.Success? ==> r.value.vertices.Keys == VertexKeys
    ensures r.Success? ==> ReadVertices(r.value.vertices) == Some(r.value.ring)
  {
    if hectares < 0.0 then
      Failure(NoRealSide)
    else
      var half := side / 2.0;
      var corners := Corners(Point(east, north), half);
      Success(Boundary(Close(corners), VertexDict(corners)))
  }

  /*
    Properties of the builder.
   */

  /**
    The geometric description pins the ring down completely: a ring is a
    closed square of side `side` centred on `reference` exactly when it is the
    ring the builder lists from the corners at half that side.
   */
  lemma CentredSquareIsUnique(ring: seq<Point>, reference: Point, side: real)
    requires side >= 0.0
    ensures IsCentredSquare(ring, reference, side) <==> ring == Close(Corners(reference, side / 2.0))
  {
  }

  /** A non-negative square root is unique. */
  lemma SquareRootUnique(a: real, b: real)
    requires a >= 0.0 && b >= 0.0
    requires a * a == b * b
    ensures a == b
  {
    if a < b {
      SquareStrictlyIncreasing(a, b);
    } else if b < a {
      SquareStrictlyIncreasing(b, a);
    }
  }

  /** Squaring is strictly increasing on the non-negative reals. */
  lemma SquareStrictlyIncreasing(x: real, y: real)
    requires 0.0 <= x < y
    ensures x * x < y * y
  {
    calc {
      x * x;
    <=
      x * y;
    <
      y * y;
    }
  }

  /**
    Abstracting the square root loses nothing: every side that satisfies the
    contract gives the same boundary, so the result is a function of the
    reference point and the declared area alone.
   */
  lemma DeterminedByArea(east: real, north: real, hectares: real, side1: real, side2: real)
    requires hectares >= 0.0
    requires IsSideFor(side1, hectares) && IsSideFor(side2, hectares)
    ensures VerticesAndPolygon(east, north, hectares, side1)
         == VerticesAndPolygon(east, north, hectares, side2)
  {
    SquareRootUnique(side1, side2);
  }

  /**
    The boundary encloses exactly the declared area: the bounding edges
    multiply to the area in square metres, and the shoelace formula over the
    closed ring gives the same area with a clockwise (negative) orientation.
   */
  lemma FallbackArea(east: real, north: real, hectares: real, side: real)
    requires hectares >= 0.0
    requires IsSideFor(side, hectares)
    ensures VerticesAndPolygon(east, north, hectares, side).Success?
    ensures var ring := VerticesAndPolygon(east, north, hectares, side).value.ring;
            && (ring[1].e - ring[0].e) * (ring[0].n - ring[3].n) == hectares * SquareMetresPerHectare
            && TwiceSignedArea(ring) == -2.0 * hectares * SquareMetresPerHectare
  {
    var reference := Point(east, north);
    var half := side / 2.0;
    var ring := VerticesAndPolygon(east, north, hectares, side).value.ring;
    var centred := Close(Corners(Point(0.0, 0.0), half));
    assert ring == Translate(centred, reference) by {
      CentredSquareIsUnique(ring, reference, side);
    }
    TranslateClosedArea(centred, reference);
    assert TwiceSignedArea(centred) == -2.0 * side * side by {
      var nw, ne, se, sw := centred[0], centred[1], centred[2], centred[3];
      assert centred[1..][1..][1..][1..] == [nw];
      calc {
        TwiceSignedArea(centred);
        Cross(nw, ne) + TwiceSignedArea(centred[1..]);
        Cross(nw, ne) + Cross(ne, se) + TwiceSignedArea(centred[1..][1..]);
        Cross(nw, ne) + Cross(ne, se) + Cross(se, sw) + TwiceSignedArea(centred[1..][1..][1..]);
        Cross(nw, ne) + Cross(ne, se) + Cross(se, sw) + Cross(sw, nw);
        -8.0 * half * half;
      }
    }
  }

  /**
    With zero declared area the square collapses: all five points of the ring
    are the reference point.
   */
  lemma ZeroAreaCollapses(east: real, north: real, side: real)
    requires IsSideFor(side, 0.0)
    ensures VerticesAndPolygon(east, north, 0.0, side).Success?
    ensures forall p :: p in VerticesAndPolygon(east, north, 0.0, side).value.ring ==> p == Point(east, north)
  {
  }

  /**
    Reading the table back and exporting again gives the same table: any
    table holding exactly the eight keys is the export of the corners it
    describes.
   */
  lemma VertexTableRoundTrip(table: map<string, real>)
    requires table.Keys == VertexKeys
    ensures ReadVertices(table).Some?
    ensures VertexDict(ReadVertices(table).value[..4]) == table
  {
  }

  /**
    The documented example: 100 ha is 1,000,000 square metres, a side of
    1000 m, so around (500000, 7000000) the corners lie 500 m out along each
    axis.
   */
  lemma WorkedExample()
    ensures IsSideFor(1000.0, 100.0)
    ensures VerticesAndPolygon(500000.0, 7000000.0, 100.0, 1000.0)
         == Success(Boundary(
              [ Point(499500.0, 7000500.0), Point(500500.0, 7000500.0),
                Point(500500.0, 6999500.0), Point(499500.0, 6999500.0),
                Point(499500.0, 7000500.0) ],
              map[ "V1_E" := 499500.0, "V1_N" := 7000500.0,
                   "V2_E" := 500500.0, "V2_N" := 7000500.0,
                   "V3_E" := 500500.0, "V3_N" := 6999500.0,
                   "V4_E" := 499500.0, "V4_N" := 6999500.0 ]))
  {
    var corners := Corners(Point(500000.0, 7000000.0), 500.0);
    assert corners == [ Point(499500.0, 7000500.0), Point(500500.0, 7000500.0),
                        Point(500500.0, 6999500.0), Point(499500.0, 6999500.0) ];
    assert Close(corners)
        == [ Point(499500.0, 7000500.0), Point(500500.0, 7000500.0),
             Point(500500.0, 6999500.0), Point(499500.0, 6999500.0),
             Point(499500.0, 7000500.0) ];
  }
}
