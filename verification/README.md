# Rectangular fallback boundary of a mining claim

This project models `calcular_vertices_y_poly` from the mining-registry
processor (`app.py`). Some registry notices give only a reference
(measurement) point and a declared area in hectares. For those, the function
draws the claim as a square centred on the point. The side is the square root
of the area in square metres, and the half-side is the offset along each axis.
The corners are listed Northwest (V1), Northeast (V2), Southeast (V3) and
Southwest (V4). The ring is closed by repeating V1. The eight corner
components are also returned as a flat table with keys `V1_E` … `V4_N`.

Files:

- `wrappers.dfy`: the `Option` and `Result` types.
- `geometry.dfy`: module `Geometry`. It holds points (easting, northing in
  metres), ring closure, translation, and the shoelace sum used to state
  enclosed area.
- `claim_boundary.dfy`: module `ClaimBoundary`. It holds the builder, the
  corner table and its reader, and the properties of the builder.

Dafny has no square root. The builder therefore takes the side as an extra
argument `side`. Its precondition is
`hectares >= 0 ==> IsSideFor(side, hectares)`: whenever the area is
non-negative, `side >= 0` and `side * side == hectares * 10000`, which is what
line 4 computes. For a negative area the precondition asks nothing of `side`.
`DeterminedByArea` proves that this loses nothing: any two sides meeting the
precondition give the same boundary. The polygon-library object
is modelled as the ordered five-point sequence handed to it. The returned
dictionary is modelled as a `map<string, real>`.

For a negative area the source's `** 0.5` produces a complex number, so no
real-valued square exists. The model returns `Failure(NoRealSide)` for that
case instead of ruling it out by a precondition.

## Model

| member | source | states |
|---|---|---|
| Geometry.Close | app.py:13 | the ring handed to the polygon is the corner list with its first corner repeated at the end: one point longer, first point equal to last, and the corners unchanged in front |
| Geometry.TranslateClosedArea | app.py:7-13 | shifting a closed ring by any offset leaves its shoelace area unchanged, so the enclosed area does not depend on where the reference point lies |
| ClaimBoundary.Corners | app.py:5-10 | the four corners at half-side `distancia` around the reference point form, once closed, an axis-aligned square of side `2 * distancia` whose diagonals cross at the reference point, listed NW, NE, SE, SW |
| ClaimBoundary.VertexDict | app.py:15-20 | the corner table has exactly the eight keys V1_E … V4_N, and reading it back pairs each `Vk_E` with `Vk_N` to give the closed corner ring again |
| ClaimBoundary.VerticesAndPolygon | app.py:1-21 | fails exactly when the area is negative; otherwise the ring is a closed five-point square of side `lado` centred on (`este_pm`, `norte_pm`), ordered NW, NE, SE, SW (strictly when the area is positive), and the table has the eight keys and reads back to that same ring |
| ClaimBoundary.CentredSquareIsUnique | app.py:5-13 | a ring is a closed square of the given side centred on the reference point if and only if it is the ring the builder lists, so the geometric description fixes every corner |
| ClaimBoundary.DeterminedByArea | app.py:4-5 | any two non-negative square roots of the area in square metres yield the same boundary, so the result depends only on the reference point and the declared hectares |
| ClaimBoundary.FallbackArea | app.py:2-13 | the side lengths multiply to the declared area in square metres (hectares × 10000), and the shoelace sum over the closed ring is minus twice that area: the ring encloses the declared area and runs clockwise |
| ClaimBoundary.ZeroAreaCollapses | app.py:4-13 | with zero hectares every point of the ring is the reference point |
| ClaimBoundary.VertexTableRoundTrip | app.py:15-20 | any table with exactly the eight keys is the export of the four corners read from it, so the table and the ring carry the same information |
| ClaimBoundary.WorkedExample | app.py:2-10 | 100 ha gives a 1000 m side; at (500000, 7000000) the ring is (499500, 7000500), (500500, 7000500), (500500, 6999500), (499500, 6999500), back to (499500, 7000500), and the table holds those components |

## Left out

- The Streamlit display block (app.py:23-29). It is user interface, and it refers to names (`res`, `st`) defined elsewhere.
- The polygon library object (app.py:13). Only the ordered point sequence given to it is modelled. The library's own validity checks and area routine are not; `Geometry.TwiceSignedArea` is this model's own shoelace definition.
- Floating-point arithmetic. The model computes with exact reals. Rounding in `** 0.5`, in `lado / 2` and in the corner sums is not modelled. The square root is supplied by the caller under `IsSideFor`.
- VerticesAndPolygon: the negative-area case is reported as `NoRealSide`. The model does not follow what the complex-valued result would do inside the polygon library.
- The rest of the registry pipeline is not part of this model. That covers text normalisation, document classification, field extraction, date normalisation, coordinate scanning, the vertex-table boundary path and record assembly. app.py contains only this function and the display code that calls it.
- The insertion order of the corner table. A Python dict keeps its keys in the order V1_E, V1_N, …, V4_N; `map<string, real>` has no order. The display code reads the table by key only (app.py:26-29), so nothing depends on the order.
