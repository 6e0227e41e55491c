# Interactive-EM field core in Dafny

Interactive-EM is a browser toy that draws charged objects and computes their electric field
by superposition. This project models the part of it that is more than floating-point physics:

- the planar vector algebra;
- the charged triangle:
  - constructor normalisation (hypotenuse choice, centring, alignment, the half-turn flip);
  - the cross-product point-in-triangle test;
  - point-to-edge and point-to-triangle distances;
  - the decomposition into a lattice of equal point charges;
- the field of an infinite charged plane;
- the scene's two superposition queries.

Numbers are Dafny `real`s. Everything the code takes from its environment is an explicit
`Vectors.MathEnv` parameter:

- `Math.sqrt`, `Math.atan2` and `Math.PI`;
- the in-place `rotate` that `src/vector.ts` does not show.

`Vectors.Lawful` states the laws these are required to obey:

- sqrt returns the non-negative root;
- a rotation by 0 is the identity, turns add, a turn by pi negates, and rotation is linear and
  keeps lengths.

Each law is a constructor of `Vectors.RotationLaw`, so a proof uses it only through the lemma
that names it. These laws do not fix the direction of a turn. Two separate predicates do, and
a lemma requires one only where the direction matters:

- `Vectors.Clockwise`: `rotate(v, t)` is the standard rotation matrix of -t, so turning a vector
  by its own atan2 angle lays it on the x-axis;
- `Vectors.CounterClockwise`: `rotate(v, t)` is the standard rotation matrix of t. A quarter
  turn takes (x, y) to (-y, x), and turning a vector by minus its atan2 angle lays it on the
  x-axis.

Coulomb's constant K is a parameter. So is the normal of the plane, any vector, which the
plane's constructor never assigns.

Files and form:

- `vectors.dfy`: pure vector values. `add`, `multiply` and `dot` act componentwise by
  definition. `subtract(a, b)` is `add(a, multiply(b, -1))`, as the triangle code spells it.
- `vector_objects.dfy`: the `Vector` class. Its in-place `add` and `rotate` update `x` and `y`,
  and `copy` allocates a new vector.
- `triangle_geometry.dfy`: the triangle's value-level geometry.
  - `Normalize` is the constructor as a pure function of the raw vertices.
  - It also holds `pointInside` and the distances.
- `lattice.dfy`: the functions that specify `decompose`:
  - triangular numbers and the side length;
  - the lattice rows in emission order;
  - the charge sum and the world transform.
- `triangle.dfy`: the `Triangle` class.
  - Its constructor moves the caller's vertex objects and the position object in place (the
    position object being the caller's is an assumption, see "## Left out"), and is
    proved to leave exactly the state `Normalize` describes.
  - `decompose` is a counting loop, nested emission loops and two transform loops. Each is proved
    against the lattice functions.
- `infinite_plane.dfy`: the plane's field as a function, with its algebraic properties.
- `scene.dfy`: the `Scene` class.
  - `fieldAt` adds into a fresh origin vector in place.
  - `voltageAt` adds into a number.
  - Both are proved equal to left folds, and the folds are proved to superpose over concatenation
    and to be invariant under permutation.
- `numerics.dfy` and `wrappers.dfy`: `Math.sign`, `min`, `max`, the clamp, and Option/Result.

The constructor is modelled as written (`TriangleGeometry.Normalize`, and the `Triangle` class
proved against it). Two of its steps fall short of its comments (src/charges/triangle.ts:27,
32); both are under "## Findings":

- if `rotate(v, t)` is the standard rotation matrix of t (counter-clockwise), the first turn
  does not lay the hypotenuse on the x-axis;
- whenever the starting rotation is not 0, adding the unturned centroid to the position moves
  the triangle in the world.

`TriangleGeometry.NormalizeCorrected` is the constructor with both steps corrected, and the
intended properties are proved about it. `TriangleGeometry.NormalizeBy` leaves the first turn
and the position shift open, so every property that holds for both versions is proved once,
about it.

## Model

| member | source | states |
|---|---|---|
| Vectors.Origin | src/vector.ts:39-41 | origin() satisfies isZero |
| Vectors.Subtract | src/vector.ts:23-28 | subtract(a, b), spelled add(a, multiply(b, -1)), is undone by adding b |
| Vectors.FromArray | src/vector.ts:36-38 | fromArray takes entries 0 and 1 of the array as x and y |
| Vectors.Magnitude | src/vector.ts:12-14 | magnitude is non-negative, squares to x² + y², and is zero exactly for the zero vector |
| Vectors.Distance | src/vector.ts:29-31 | distance is non-negative, squares to the squared coordinate differences, and is zero exactly between equal points |
| Vectors.Unit | src/vector.ts:16-18 | unit of a non-zero vector has squared length 1, its dot product with v is v's length, and it is parallel to v |
| Vectors.UnitIsScaledByReciprocal | src/vector.ts:16-18 | unit is v multiplied by 1 / magnitude(v) |
| Vectors.UnitHasMagnitudeOne | src/vector.ts:16-18 | the magnitude of unit(v) is exactly 1 |
| Vectors.DistanceSqProperties | src/vector.ts:29-31 | the squared distance is non-negative and zero exactly between equal points |
| Vectors.NormSqOfMultiple | src/vector.ts:26-28 | scaling by s scales the squared length by s² |
| Vectors.FromArrayComponents | src/vector.ts:36-38 | fromArray reads entries 0 and 1, and inverts reading out (x, y) |
| Vectors.AddCommutative | src/vector.ts:23-25 | add is commutative |
| Vectors.AddAssociative | src/vector.ts:23-25 | add is associative |
| Vectors.OriginIsIdentity | src/vector.ts:39-41 | origin() is a two-sided identity of add and satisfies isZero |
| Vectors.IsZeroIsOrigin | src/vector.ts:8-10 | isZero holds exactly of the vector (0, 0) |
| Vectors.MultiplyIdentities | src/vector.ts:26-28 | scaling by 1 is the identity, and by 0 gives the zero vector |
| Vectors.MultiplyCompose | src/vector.ts:26-28 | multiply(multiply(a, s), t) == multiply(a, s*t) |
| Vectors.SubtractCancelsAdd | src/vector.ts:23-28 | subtract (add of the negated multiple) undoes add, on either side |
| Vectors.DotSymmetric | src/vector.ts:32-34 | dot is symmetric |
| Vectors.DotBilinear | src/vector.ts:32-34 | dot is additive and homogeneous in each argument |
| Vectors.DotSelfIsSquaredMagnitude | src/vector.ts:32-34 | dot(a, a) is non-negative and equals magnitude(a)² |
| Vectors.DistanceProperties | src/vector.ts:29-31 | distance is symmetric, zero from a point to itself, and the magnitude of the difference |
| Vectors.RotateHalfTurn | src/charges/triangle.ts:35-37 | instance of the assumed half-turn law, which the triangle code relies on: rotating by Math.PI negates both components, in either direction |
| Vectors.RotateAligns | src/charges/triangle.ts:33-34 | instance of the assumed clockwise convention: turning v by atan2(v.y, v.x) gives y == 0 |
| Vectors.RotateQuarterTurn | src/charges/triangle.ts:33-34 | instance of the assumed counter-clockwise convention: a turn by Math.PI / 2 takes (x, y) to (-y, x) |
| Vectors.RotateBackAligns | src/charges/triangle.ts:33-34 | instance of the assumed counter-clockwise convention: turning v by -atan2(v.y, v.x) gives y == 0 |
| VectorObjects.Vector.constructor | src/vector.ts:4-7 | the new vector holds the given components |
| VectorObjects.Vector.Add | src/charges/triangle.ts:29-31 | the in-place add leaves this + b in the receiver |
| VectorObjects.Vector.Rotate | src/charges/triangle.ts:34 | the in-place rotate leaves rotate(old value, angle) in the receiver |
| VectorObjects.Vector.Copy | src/vector.ts:20-22 | copy is a freshly allocated vector with the same components |
| VectorObjects.CopyIsIndependent | src/vector.ts:20-22 | a copy is a different object; adding to it changes it and leaves the original's value unchanged |
| Numerics.Sign | src/charges/infinite_plane.ts:14 | Math.sign is 1, -1 or 0 exactly for positive, negative or zero arguments |
| Numerics.SignOfPositiveMultiple | src/charges/infinite_plane.ts:14 | scaling by a positive factor keeps the sign |
| Numerics.SignOfNegation | src/charges/infinite_plane.ts:14 | negating flips the sign |
| Numerics.Min3 | src/charges/triangle.ts:108-112 | Math.min of three values is at most each and equal to one of them |
| Numerics.Clamp01 | src/charges/triangle.ts:87 | max(0, min(1, t)) lies in [0, 1], is t inside it, and is the nearer bound outside it |
| TriangleGeometry.SelectHypotenuse | src/charges/triangle.ts:18-23 | (hypot, hypot2, tip) is a cyclic permutation of 0, 1, 2; the chosen side is at least as long as each side, and strictly longer than each side whose branch comes first (ties go to the earlier branch) |
| TriangleGeometry.CentredSumsToZero | src/charges/triangle.ts:28-31 | after subtracting the centroid, the three local vertices sum to the zero vector |
| TriangleGeometry.CentredKeepsWorld | src/charges/triangle.ts:28-31 | the new position plus each centred vertex equals the old position plus the raw vertex |
| TriangleGeometry.HalfTurnNegates | src/charges/triangle.ts:35-37 | the conditional turn by pi negates every vertex |
| TriangleGeometry.Normalize | src/charges/triangle.ts:18-39 | the constructor as written: the labelling of the result is the hypotenuse selection of the raw vertices |
| TriangleGeometry.NormalizeCorrected | src/charges/triangle.ts:18-39 | the constructor with the first turn by -atan2 and the centroid turned by the rotation before it is added: same labelling |
| TriangleGeometry.NormalizeFlip | src/charges/triangle.ts:33-38 | whatever the first turn, the normalised vertices are the turned vertices, negated exactly when the turned tip has y < 0 |
| TriangleGeometry.NormalizeTipAbove | src/charges/triangle.ts:35-40 | whatever the first turn, the tip ends with local y >= 0 |
| TriangleGeometry.NormalizeCentred | src/charges/triangle.ts:28-38 | whatever the first turn, the local vertices sum to zero |
| TriangleGeometry.TurnedHypotenuse | src/charges/triangle.ts:25-34 | after the first turn, the difference of the hypotenuse ends is hypotVec turned by the same angle |
| TriangleGeometry.NormalizeHypotenuseOffset | src/charges/triangle.ts:25-38 | after normalisation the hypotenuse ends differ in y by plus or minus the y of the turned hypotVec |
| TriangleGeometry.NormalizeHorizontalBy | src/charges/triangle.ts:25-38 | whatever the first turn, the hypotenuse ends share a local y exactly when that turn lays hypotVec on the x-axis |
| TriangleGeometry.NormalizeHorizontalIff | src/charges/triangle.ts:25-38 | the constructor as written leaves the hypotenuse horizontal exactly when turning hypotVec by its own atan2 angle gives y == 0 |
| TriangleGeometry.NormalizeHypotenuseHorizontal | src/charges/triangle.ts:33-38 | under the clockwise convention both hypotenuse ends have the same local y |
| TriangleGeometry.NormalizeKeepsDistance | src/charges/triangle.ts:18-38 | whatever the first turn, the normalised vertices are as far apart, pair by pair, as the raw ones |
| TriangleGeometry.NormalizeRelabels | src/charges/triangle.ts:18-40 | whatever the first turn, choosing the hypotenuse again from the normalised vertices gives the cached labelling (so hypot, hypot2 and tip agree with the stored points) |
| TriangleGeometry.NormalizeHalfWidth | src/charges/triangle.ts:25-26 | whatever the first turn, halfWidth is half the distance between the normalised hypotenuse ends |
| TriangleGeometry.NormalizeShape | src/charges/triangle.ts:18-40 | under the clockwise convention, together: centred, hypotenuse horizontal, tip above, halfWidth half the hypotenuse, labelling re-derivable from the vertices |
| TriangleGeometry.EighthTurnTilts | src/charges/triangle.ts:33-34 | under the counter-clockwise convention, a turn by an eighth of a full turn leaves (1, 1) off the x-axis |
| TriangleGeometry.NormalizeTiltsCounterClockwise | src/charges/triangle.ts:33-34 | under the counter-clockwise convention with atan2(1, 1) == pi / 4, a hypotenuse along (1, 1) is not horizontal after the constructor as written |
| TriangleGeometry.TiltedExampleSides | src/charges/triangle.ts:18-25 | for vertices (1,1), (0,0), (1,0) the hypotenuse runs from vertex 0 to vertex 1 and hypotVec is (1, 1) |
| TriangleGeometry.NormalizeCorrectedHorizontal | src/charges/triangle.ts:33-38 | under the counter-clockwise convention the corrected constructor leaves both hypotenuse ends at the same local y |
| TriangleGeometry.NormalizeCorrectedShape | src/charges/triangle.ts:18-40 | under the counter-clockwise convention the corrected constructor leaves the triangle centred, hypotenuse horizontal, tip above, halfWidth half the hypotenuse, labelling re-derivable from the vertices |
| TriangleGeometry.NormalizeKeepsTurn | src/charges/triangle.ts:33-39 | whatever the first turn, rotate(local, new rotation) equals rotate(centred vertex, old rotation) |
| TriangleGeometry.NormalizeKeepsWorld | src/charges/triangle.ts:28-39 | as written, every world vertex position + rotate(local, rotation) moves by centroid - rotate(centroid, rotation), so it stays put when the starting rotation is 0 |
| TriangleGeometry.NormalizeMovesUnderHalfTurn | src/charges/triangle.ts:28-39 | as written, vertices (3,0),(0,3),(0,0) with starting rotation pi move vertex 0 by (2, 2) in the world |
| TriangleGeometry.NormalizeCorrectedKeepsWorld | src/charges/triangle.ts:28-39 | the corrected constructor keeps every world vertex, whatever the starting rotation |
| TriangleGeometry.CrossSum | src/charges/triangle.ts:93-97 | s + t + d is twice the signed area of the triangle, whatever pos is |
| TriangleGeometry.SignTestRejectsOpposite | src/charges/triangle.ts:95-96 | non-zero s and t of opposite signs give false |
| TriangleGeometry.SignTestAcceptsStrict | src/charges/triangle.ts:95-98 | s, t, d all strictly positive or all strictly negative give true |
| TriangleGeometry.SignTestCharacterised | src/charges/triangle.ts:95-98 | for a non-zero area, the test as written holds iff s, t, d all share the area's sign (zeros allowed), except s == t == 0 on a positive area |
| TriangleGeometry.ClosedSignTestCharacterised | src/charges/triangle.ts:95-98 | the corrected test holds iff s, t, d all share the area's sign, zeros allowed |
| TriangleGeometry.FirstVertexCrosses | src/charges/triangle.ts:93-94 | for a non-degenerate triangle, s == t == 0 exactly at the first vertex |
| TriangleGeometry.PointInsideCharacterised | src/charges/triangle.ts:91-100 | pointInside is the closed triangle, minus the first vertex when the vertices run counter-clockwise |
| TriangleGeometry.PointInsideClosedCharacterised | src/charges/triangle.ts:91-100 | the corrected test is exactly the closed triangle |
| TriangleGeometry.PointInsideDisagreement | src/charges/triangle.ts:91-100 | the two tests differ only at the first vertex of a counter-clockwise triangle |
| TriangleGeometry.PointInsideRepeatedVertex | src/charges/triangle.ts:93-98 | with the first two vertices equal, pointInside holds exactly on the line through the repeated vertex and the third one |
| TriangleGeometry.PointInsideAcceptsInterior | src/charges/triangle.ts:93-98 | with vertices (0,0),(2,0),(0,2), (0.5,0.5) is inside |
| TriangleGeometry.PointInsideOnThirdEdge | src/charges/triangle.ts:97-98 | d == 0 with s and t positive is accepted |
| TriangleGeometry.PointInsideAcceptsHypotenuseMidpoint | src/charges/triangle.ts:93-98 | with vertices (0,0),(2,0),(0,2), (1,1) is inside |
| TriangleGeometry.PointInsideRejectsExterior | src/charges/triangle.ts:93-98 | with vertices (0,0),(2,0),(0,2), (3,3) is outside |
| TriangleGeometry.PointInsideRejectsFirstVertex | src/charges/triangle.ts:93-98 | with vertices (0,0),(2,0),(0,2), (0,0) is enclosed but pointInside is false; the corrected test accepts it |
| TriangleGeometry.SegmentParameter | src/charges/triangle.ts:85-87 | for p1 != p2, t is dot(pos - p2, p1 - p2) / len / len clamped into [0, 1] |
| TriangleGeometry.DistanceFromFiniteLine | src/charges/triangle.ts:84-89 | the distance to the segment is non-negative |
| TriangleGeometry.DistanceFromFiniteLineAtEnds | src/charges/triangle.ts:84-89 | the distance is 0 at p1 and at p2 |
| TriangleGeometry.SegmentParameterIsMinimal | src/charges/triangle.ts:84-88 | the clamped parameter's point is the least squared distance over all points of the segment |
| TriangleGeometry.DistanceFromFiniteLineIsMinimal | src/charges/triangle.ts:84-89 | distanceFromFiniteLine is at most the distance to every point p2 + u(p1 - p2), 0 <= u <= 1 |
| TriangleGeometry.DistanceFromLocal | src/charges/triangle.ts:106-112 | distanceFrom in the local frame is non-negative |
| TriangleGeometry.DistanceFromLocalProperties | src/charges/triangle.ts:106-112 | 0 when pointInside holds, and in the closed non-degenerate triangle; otherwise at most each edge distance and equal to one of them |
| TriangleGeometry.DistanceFromLocalAsWritten | src/charges/triangle.ts:106-112 | the value equals the source's formula with the as-written pointInside |
| TriangleGeometry.DistanceFromLocalAtVertex | src/charges/triangle.ts:103-112 | the distance is 0 at every vertex |
| Lattice.TriangularClosedForm | src/charges/triangle.ts:157-159 | 2·T(n) == n(n+1); the counting loop keeps triNumber == T(i-1) == i(i-1)/2 |
| Lattice.TriangularMonotone | src/charges/triangle.ts:157-159 | triangular numbers are strictly increasing |
| Lattice.SideFrom | src/charges/triangle.ts:157-161 | the counter stops at the first triangular number >= detail, at or after the start |
| Lattice.SideLength | src/charges/triangle.ts:157-161 | sideLen >= 1, T(sideLen+1) >= detail, and no smaller triangular number from T(2) = 3 on reaches detail |
| Lattice.SideLengthUnique | src/charges/triangle.ts:157-161 | any s with those two properties is SideLength(detail) |
| Lattice.SideLengthLeast | src/charges/triangle.ts:157-161 | triNumber is the least triangular number >= 3 that reaches detail |
| Lattice.Row | src/charges/triangle.ts:169-174 | the inner loop's row has the given length |
| Lattice.RowElement | src/charges/triangle.ts:169-174 | entry y of row x is a charge at points[0] + x·unit1 + y·unit2 |
| Lattice.RowsLength | src/charges/triangle.ts:168-175 | the first rows' count plus the remaining rows' triangular count is T(side+1) |
| Lattice.CloudSize | src/charges/triangle.ts:168-175 | the nested loops emit T(sideLen+1) == (s+1)(s+2)/2 charges |
| Lattice.RowsPrefix | src/charges/triangle.ts:168-175 | earlier rows are a prefix of the output |
| Lattice.CloudIndex | src/charges/triangle.ts:168-175 | lattice point (x, y), x + y <= side, is emitted at index \|rows before x\| + y |
| Lattice.CloudOnLattice | src/charges/triangle.ts:168-175 | every emitted charge sits at points[0] + x·unit1 + y·unit2 with x, y >= 0 and x + y <= side, and carries the common charge |
| Lattice.ChargeSumUniform | src/charges/triangle.ts:162 | n charges of q sum to n·q |
| Lattice.CloudConservesCharge | src/charges/triangle.ts:162-175 | with charge == density / T(side+1) the lattice sums to the density |
| Lattice.TriangleGridSteps | src/charges/triangle.ts:164-165 | unit1 and unit2 taken sideLen times give the edges v1 - v0 and v2 - v0 |
| Lattice.TriangleGridCorners | src/charges/triangle.ts:164-172 | lattice points (0,0), (side,0) and (0,side) are the three vertices |
| Lattice.TriangleGridVertices | src/charges/triangle.ts:164-175 | the output holds all three vertices, points[0] first |
| Lattice.Placed | src/charges/triangle.ts:176-177 | the world transform keeps the number of charges |
| Lattice.PlacedKeepsCharges | src/charges/triangle.ts:176-177 | the world transform keeps every charge and the total |
| TriangleCharge.AddToEach | src/charges/triangle.ts:31 | every vertex object gets d added in place |
| TriangleCharge.RotateEach | src/charges/triangle.ts:34 | every vertex object is turned in place |
| TriangleCharge.CentreInPlace | src/charges/triangle.ts:28-31 | the position gains the centroid and the vertices become the centred vertices |
| TriangleCharge.AlignInPlace | src/charges/triangle.ts:33-38 | the vertices are turned by atan2 of hypotVec, then by pi when the tip is below; the adjustment is reduced by pi in that case |
| TriangleCharge.Triangle.constructor | src/charges/triangle.ts:12-41 | chargeDensity defaults to 1; points are the caller's objects and tip aliases points[tip]; position, rotation, vertices, labelling and halfWidth equal Normalize of the old values |
| TriangleCharge.Triangle.Create | src/charges/triangle.ts:12-41 | fails with "Triangle must have 3 points in properties constructor" exactly when p1, p2 or p3 is missing; otherwise a fresh triangle with the given mass, position object and vertex objects, the defaulted density, and position, rotation, vertices, labelling and halfWidth equal to Normalize of the old values |
| TriangleCharge.CachedAgrees | src/charges/triangle.ts:18-40 | in either turn direction, a constructed triangle's cached labelling is the one chosen again from its vertices, halfWidth is half its hypotenuse, tip is the labelled vertex with y >= 0, and the vertices sum to zero |
| TriangleCharge.NormalizedShape | src/charges/triangle.ts:18-40 | under the clockwise convention, a constructed triangle is centred, its hypotenuse is horizontal, its tip is above it, halfWidth is half its length, and sides == SidesOf(Vertices()) |
| TriangleCharge.Triangle.UpdateChargeDensity | src/charges/triangle.ts:122-125 | only chargeDensity changes |
| TriangleCharge.Triangle.FieldAt | src/charges/triangle.ts:80-83 | the field stub is the zero vector everywhere |
| TriangleCharge.Triangle.LocalOf | src/charges/triangle.ts:104-105 | the local point, turned back by rotation and offset by the position, is the world point again |
| TriangleCharge.Triangle.DistanceFrom | src/charges/triangle.ts:103-113 | non-negative; 0 when the local point passes pointInside; otherwise at most each edge distance and equal to one |
| TriangleCharge.DistanceFromVertex | src/charges/triangle.ts:103-113 | distanceFrom is 0 at each world vertex position + rotate(vertex, rotation) |
| TriangleCharge.CountSide | src/charges/triangle.ts:157-161 | the loop leaves triNumber == T(sideLen+1) with sideLen == SideLength(detail) |
| TriangleCharge.FillLattice | src/charges/triangle.ts:166-175 | the nested loops emit exactly the lattice, in row order |
| TriangleCharge.ToWorld | src/charges/triangle.ts:176-177 | each charge is rotated, then offset by the position |
| TriangleCharge.Triangle.Decompose | src/charges/triangle.ts:155-179 | the output is the placed lattice; it has T(sideLen+1) >= max(3, detail) charges, each chargeDensity / count, summing to chargeDensity |
| InfinitePlaneCharge.Construct | src/charges/infinite_plane.ts:17-20 | the constructor stores chargeDensity, mass and position, and rotation defaults to 0 |
| InfinitePlaneCharge.Side | src/charges/infinite_plane.ts:14 | the sign is 1, -1 or 0 exactly when normal . (pos - position) is positive, negative or zero |
| InfinitePlaneCharge.FieldAt | src/charges/infinite_plane.ts:12-15 | the field is +2Kσ·normal on the normal's side, -2Kσ·normal on the other, zero on the plane, and zero for σ == 0 |
| InfinitePlaneCharge.FieldStrength | src/charges/infinite_plane.ts:14 | the squared strength is 4σ²K²\|normal\|² off the plane and 0 on it |
| InfinitePlaneCharge.FieldIndependentOfDistance | src/charges/infinite_plane.ts:14 | scaling the offset from the plane by any positive factor leaves the field unchanged |
| InfinitePlaneCharge.FieldMirrorAntisymmetric | src/charges/infinite_plane.ts:14 | reflecting the offset negates the field |
| InfinitePlaneCharge.FieldSlidingInvariant | src/charges/infinite_plane.ts:14 | moving pos by a vector orthogonal to the normal leaves the field unchanged |
| InfinitePlaneCharge.FieldExample | src/charges/infinite_plane.ts:12-20 | a unit-density plane through the origin with normal (0,1) gives (0, 2K) above, (0, -2K) below and zero on it |
| Scenes.SingleSource | src/scene.ts:51-65 | a one-object scene reports that object's field and potential |
| Scenes.FieldSumAppend | src/scene.ts:51-57 | field superposition: the field of A ++ B is the field of A plus the field of B |
| Scenes.VoltageSumAppend | src/scene.ts:59-65 | potential superposition over A ++ B |
| Scenes.FieldSumPermutation | src/scene.ts:51-57 | permuting the objects does not change the field |
| Scenes.VoltageSumPermutation | src/scene.ts:59-65 | permuting the objects does not change the potential |
| Scenes.Scene.constructor | src/scene.ts:23-24 | a new scene has no objects |
| Scenes.Scene.Push | src/scene.ts:16 | objects.push appends at the end |
| Scenes.Scene.FieldAt | src/scene.ts:51-57 | the fresh accumulator ends holding the componentwise sum of the objects' fields; nothing else changes |
| Scenes.Scene.VoltageAt | src/scene.ts:59-65 | the result is the sum of the objects' potentials; nothing changes |
| Scenes.EmptySceneQueries | src/scene.ts:23-65 | a new scene gives origin() for the field and 0 for the potential |

## Left out

- Triangle `voltageAt` (src/charges/triangle.ts:43-78): asinh, log and sqrt numerics with singular points. Nothing beyond the branch tests could be stated.
- src/charges/finite_line.ts as a whole. Its field is sqrt and division numerics. It needs `scalarProject` and `rotateByVector`, which src/vector.ts does not show. Its endpoints and normal are never assigned.
- Trigonometry: `Math.atan2`, `Math.PI` and `rotate` are parameters. Only the laws in `Vectors.Lawful`, and where a lemma says so one of the two direction conventions, are known about them. The only particular angle used is atan2(1, 1) == pi / 4, as a precondition of TriangleGeometry.NormalizeTiltsCounterClockwise.
- TriangleGeometry.NormalizeHypotenuseHorizontal: assumes the clockwise convention (`Vectors.Clockwise`). If `rotate(v, t)` is the standard rotation matrix of t (counter-clockwise), the constructor as written does not make the hypotenuse horizontal; see "## Findings".
- TriangleGeometry.NormalizeShape: assumes the clockwise convention for its horizontal-hypotenuse part, for the same reason. The other three parts hold in either direction.
- TriangleCharge.NormalizedShape: assumes the clockwise convention, because it rests on TriangleGeometry.NormalizeShape. Its direction-free parts are TriangleCharge.CachedAgrees. The `Triangle` class models the constructor as written, not the corrected one.
- Rendering, the viewport and the DOM: every `render`, `updateAspectRatio`, `getChargeColor`, the `DOMContentLoaded` handler that pushes the first point charge, and `window.Triangle`.
- Motion and mechanics: `physics`, `incrementPosition`, `momentOfInertia`, and the `forceBetween` stub.
- Triangle `getProperties` and `getType`: no computation.
- The `updateProperty` branches for p1/p2/p3 and for base properties. They call `clone`, `window.Object.assign` and `updateBaseProperty`, which are not part of this model.
- src/base.ts, src/constants.ts, src/charges/point_charge.ts and src/charges/conductor.ts are not part of this model.
  - A point charge is the value `Lattice.PointCharge(charge, position)`.
  - The position updates that `decompose` applies in place to each new charge are modelled on these values.
  - K is a parameter.
  - The base object is reduced to the fields `mass`, `position` and `rotation`.
  - The triangle's `position` is assumed to be the position object passed in the properties. `super(properties)` may copy it; then the caller's object would not move.
- Scene objects are abstract pairs of a field function and a potential function (`Scenes.Source`). A query cannot change an object.
- IEEE behaviour: NaN, Infinity, signed zero and rounding are not modelled. Where the source would divide by zero, a precondition excludes that input instead; see below.
- TriangleCharge.Triangle.constructor: requires the three vertex objects and the position to be distinct objects. The source accepts shared vector objects, but then its in-place forEach would move a shared vector twice.
- TriangleCharge.Triangle.Create: requires the same distinctness of the supplied objects.
- TriangleCharge.Triangle.DistanceFrom: requires pairwise distinct vertex values. With a repeated vertex, `distanceFromFiniteLine` divides by a zero length and the source returns NaN, except on the line through the repeated vertex and the third one: there pointInside holds (TriangleGeometry.PointInsideRepeatedVertex, for the first two vertices equal) and the source returns 0 before any division.
- TriangleGeometry.DistanceFromFiniteLine: requires p1 != p2, for the same reason.
- TriangleCharge.Triangle.Decompose: `detail` is an integer. The source accepts any number, and a fractional detail behaves like its ceiling.
- Vectors.Unit: requires a non-zero vector. The source divides by a zero magnitude.
- Vectors.FromArray: requires at least two entries. The source reads `undefined` otherwise.
- InfinitePlaneCharge.FieldAt: takes the normal as a parameter, because the constructor never assigns it.

## Findings

| source | as written | input that shows it | evidently intended | confidence | as-written member | corrected member |
|---|---|---|---|---|---|---|
| src/charges/triangle.ts:93-98 | `pointInside` rejects the first vertex of a counter-clockwise triangle. There s == t == 0, so the first test passes; d is positive while s + t <= 0 holds, so the final comparison fails | vertices (0,0), (2,0), (0,2) and pos (0,0) | the closed triangle. Every other vertex and every edge point is accepted (TriangleGeometry.PointInsideCharacterised) | not executed; medium. `distanceFrom` still returns 0 there, because the first edge's distance is 0 (TriangleGeometry.DistanceFromLocalAsWritten) | TriangleGeometry.PointInsideRejectsFirstVertex | TriangleGeometry.PointInsideClosedCharacterised |
| src/charges/triangle.ts:33-34 | the first turn is by +atan2(hypotVec.y, hypotVec.x). If `rotate(v, t)` is the standard rotation matrix of t (counter-clockwise), this turns hypotVec away from the x-axis, not onto it | vertices (1,1), (0,0), (1,0): hypotVec (1, 1) is turned by +45 degrees to (0, √2), so the hypotenuse ends up vertical (TriangleGeometry.NormalizeTiltsCounterClockwise with TriangleGeometry.TiltedExampleSides) | `adjustmentRotation = -Math.atan2(hypotVec.y, hypotVec.x)`, which lays the hypotenuse on the x-axis; `this.rotation -= adjustmentRotation` is then still the matching bookkeeping | not executed; medium. Correct as written under a clockwise rotate (TriangleGeometry.NormalizeHypotenuseHorizontal); `rotate` is not in src/vector.ts, so which convention holds is not settled here | TriangleGeometry.NormalizeTiltsCounterClockwise | TriangleGeometry.NormalizeCorrectedShape |
| src/charges/triangle.ts:29 | `this.position.add(COM)` adds the local centroid to the world position without turning it by `this.rotation`, so with a non-zero starting rotation every world vertex moves by centroid - rotate(centroid, rotation) | vertices (3,0), (0,3), (0,0) with starting rotation pi: vertex 0 moves by (2, 2) in the world. A non-zero starting rotation arises when updateProperty rebuilds the triangle for a changed p1, p2 or p3, if `clone` (src/base.ts, not part of this model) constructs from `getProperties`, which passes the current rotation | add `rotate(COM, rotation)`, the centroid's world offset, so the triangle stays where its vertices were | not executed; medium | TriangleGeometry.NormalizeMovesUnderHalfTurn | TriangleGeometry.NormalizeCorrectedKeepsWorld |
