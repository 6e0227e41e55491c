/**
 * The value-level geometry of a charged triangle (src/charges/triangle.ts): choosing the
 * hypotenuse, the normalisation of the constructor as a pure function of the raw vertices,
 * the cross-product point-in-triangle test, and point-to-edge distances.
 */
module TriangleGeometry {
  import opened Vectors
  import opened Numerics

  /** Vertex indices: the hypotenuse runs from `hypot` to `hypot2`; `tip` is the third vertex. */
  datatype Sides = Sides(hypot: nat, hypot2: nat, tip: nat)

  /** The length of the side that starts at vertex i: d1 is p0p1, d2 is p1p2, d3 is p2p0. */
  function LengthFrom(i: nat, d1: real, d2: real, d3: real): real {
    if i == 0 then d1 else if i == 1 then d2 else d3
  }

  /**
   * The constructor's hypotenuse choice. The result is a cyclic labelling of the three vertices
   * (so a permutation of 0, 1, 2); the chosen side is at least as long as every side, and strictly
   * longer than each side whose branch is tested before it, so ties go to the earlier branch.
   */
  function SelectHypotenuse(d1: real, d2: real, d3: real): (s: Sides)
    ensures s == Sides(0, 1, 2) || s == Sides(1, 2, 0) || s == Sides(2, 0, 1)
    ensures {s.hypot, s.hypot2, s.tip} == {0, 1, 2}
    ensures LengthFrom(s.hypot, d1, d2, d3) >= d1
    ensures LengthFrom(s.hypot, d1, d2, d3) >= d2
    ensures LengthFrom(s.hypot, d1, d2, d3) >= d3
    ensures s.hypot >= 1 ==> LengthFrom(s.hypot, d1, d2, d3) > d1
    ensures s.hypot == 2 ==> LengthFrom(s.hypot, d1, d2, d3) > d2
  {
    if d1 >= d2 && d1 >= d3 then Sides(0, 1, 2)
    else if d2 >= d1 && d2 >= d3 then Sides(1, 2, 0)
    else Sides(2, 0, 1)
  }

  /** The centre of mass of the three vertices. */
  function Centroid(p: seq<Vec>): Vec
    requires |p| == 3
  {
    Multiply(Add(Add(p[0], p[1]), p[2]), 1.0 / 3.0)
  }

  /** The vertices re-expressed relative to their centroid (each gets the negated centroid added). */
  function Centred(p: seq<Vec>): (c: seq<Vec>)
    requires |p| == 3
    ensures |c| == 3
  {
    var negCOM := Multiply(Centroid(p), -1.0);
    [Add(p[0], negCOM), Add(p[1], negCOM), Add(p[2], negCOM)]
  }

  /** Every vertex rotated in place by the same angle. */
  function RotateAll(p: seq<Vec>, angle: real, m: MathEnv): (r: seq<Vec>)
    requires |p| == 3
    ensures |r| == 3
  {
    [m.rotate(p[0], angle), m.rotate(p[1], angle), m.rotate(p[2], angle)]
  }

  /** The vector from the second hypotenuse end to the first. */
  function HypotVec(p: seq<Vec>, s: Sides): Vec
    requires |p| == 3 && s.hypot < 3 && s.hypot2 < 3
  {
    Add(p[s.hypot], Multiply(p[s.hypot2], -1.0))
  }

  /** The state the constructor derives: world position and rotation, local vertices, labelling, half-width. */
  datatype Normal = Normal(position: Vec, rotation: real, points: seq<Vec>, sides: Sides, halfWidth: real)

  /** The side labelling the constructor computes from the raw vertices. */
  function SidesOf(p: seq<Vec>, m: MathEnv): (s: Sides)
    requires |p| == 3 && IsSqrt(m.sqrt)
    ensures s.hypot < 3 && s.hypot2 < 3 && s.tip < 3
  {
    SelectHypotenuse(Distance(p[0], p[1], m), Distance(p[1], p[2], m), Distance(p[2], p[0], m))
  }

  /** The angle the constructor first turns the centred vertices by: atan2 of the hypotenuse vector. */
  function Adjustment(p: seq<Vec>, m: MathEnv): real
    requires |p| == 3 && IsSqrt(m.sqrt)
  {
    var h := HypotVec(p, SidesOf(p, m));
    m.atan2(h.y, h.x)
  }

  /** The centred vertices after a first turn by angle, before the conditional half turn. */
  function Turned(p: seq<Vec>, angle: real, m: MathEnv): (a: seq<Vec>)
    requires |p| == 3
    ensures |a| == 3
  {
    RotateAll(Centred(p), angle, m)
  }

  /**
   * The steps of the constructor with the first turn and the shift of the position left open:
   * pick the hypotenuse, cache half its length, add shift to the position, turn the centred
   * vertices by adjustment, turn them a further half turn when the tip then lies below the
   * x-axis, and take the total turn off the rotation.
   */
  function NormalizeBy(p: seq<Vec>, position: Vec, rotation: real, m: MathEnv, adjustment: real, shift: Vec): (n: Normal)
    requires |p| == 3 && IsSqrt(m.sqrt)
    ensures |n.points| == 3 && n.sides == SidesOf(p, m)
  {
    var sides := SidesOf(p, m);
    var halfWidth := Magnitude(HypotVec(p, sides), m) / 2.0;
    var aligned := Turned(p, adjustment, m);
    if aligned[sides.tip].y < 0.0 then
      Normal(Add(position, shift), rotation - (adjustment - m.pi), RotateAll(aligned, m.pi, m), sides, halfWidth)
    else
      Normal(Add(position, shift), rotation - adjustment, aligned, sides, halfWidth)
  }

  /**
   * The triangle constructor as written, as a function of the raw vertices p, the base position
   * and the base rotation: the first turn is by atan2 of the hypotenuse vector, and the centroid
   * is added to the position as it is.
   */
  function Normalize(p: seq<Vec>, position: Vec, rotation: real, m: MathEnv): (n: Normal)
    requires |p| == 3 && IsSqrt(m.sqrt)
    ensures |n.points| == 3 && n.sides == SidesOf(p, m)
  {
    NormalizeBy(p, position, rotation, m, Adjustment(p, m), Centroid(p))
  }

  /** Normalize unfolded into the steps the constructor takes on its vertex objects. */
  lemma NormalizeSteps(p: seq<Vec>, position: Vec, rotation: real, m: MathEnv)
    requires |p| == 3 && IsSqrt(m.sqrt)
    ensures var s := SidesOf(p, m);
            var h := HypotVec(p, s);
            var angle := m.atan2(h.y, h.x);
            var a := RotateAll(Centred(p), angle, m);
            var n := Normalize(p, position, rotation, m);
            && n.position == Add(position, Centroid(p))
            && n.halfWidth == Magnitude(h, m) / 2.0
            && (a[s.tip].y < 0.0 ==> n.points == RotateAll(a, m.pi, m) && n.rotation == rotation - (angle - m.pi))
            && (a[s.tip].y >= 0.0 ==> n.points == a && n.rotation == rotation - angle)
  {
  }

  /**
   * The constructor as its comments describe it (src/charges/triangle.ts:27, 32): the first turn is by minus
   * atan2 of the hypotenuse vector, and the centroid is turned by the base rotation before it is
   * added to the position, so that it is the centroid's world offset.
   */
  function NormalizeCorrected(p: seq<Vec>, position: Vec, rotation: real, m: MathEnv): (n: Normal)
    requires |p| == 3 && IsSqrt(m.sqrt)
    ensures |n.points| == 3 && n.sides == SidesOf(p, m)
  {
    NormalizeBy(p, position, rotation, m, -Adjustment(p, m), m.rotate(Centroid(p), rotation))
  }

  /** The three vertices negated: what the half turn does to them. */
  function Negated(a: seq<Vec>): (r: seq<Vec>)
    requires |a| == 3
    ensures |r| == 3
  {
    [Multiply(a[0], -1.0), Multiply(a[1], -1.0), Multiply(a[2], -1.0)]
  }

  /** After centring, the three local vertices sum to the zero vector. */
  lemma CentredSumsToZero(p: seq<Vec>)
    requires |p| == 3
    ensures Add(Add(Centred(p)[0], Centred(p)[1]), Centred(p)[2]) == Origin()
  {
  }

  /** Centring moves no vertex in the world: new position plus local vertex is old position plus raw vertex. */
  lemma CentredKeepsWorld(p: seq<Vec>, position: Vec, k: nat)
    requires |p| == 3 && k < 3
    ensures Add(Add(position, Centroid(p)), Centred(p)[k]) == Add(position, p[k])
  {
  }

  /** Centring keeps the vector between any two vertices. */
  lemma CentredDifference(p: seq<Vec>, i: nat, j: nat)
    requires |p| == 3 && i < 3 && j < 3
    ensures Subtract(Centred(p)[i], Centred(p)[j]) == Subtract(p[i], p[j])
  {
  }

  lemma RotateAllDifference(q: seq<Vec>, i: nat, j: nat, angle: real, m: MathEnv)
    requires |q| == 3 && i < 3 && j < 3 && IsRotation(m)
    ensures Subtract(RotateAll(q, angle, m)[i], RotateAll(q, angle, m)[j]) == m.rotate(Subtract(q[i], q[j]), angle)
  {
    RotateSubtract(m, q[i], q[j], angle);
  }

  lemma RotateAllSum(q: seq<Vec>, angle: real, m: MathEnv)
    requires |q| == 3 && IsRotation(m)
    ensures var r := RotateAll(q, angle, m); Add(Add(r[0], r[1]), r[2]) == m.rotate(Add(Add(q[0], q[1]), q[2]), angle)
  {
    RotateAdd(m, Add(q[0], q[1]), q[2], angle);
    RotateAdd(m, q[0], q[1], angle);
  }

  lemma HalfTurnNegates(q: seq<Vec>, m: MathEnv)
    requires |q| == 3 && IsRotation(m)
    ensures RotateAll(q, m.pi, m) == Negated(q)
  {
    RotateHalfTurn(m, q[0]);
    RotateHalfTurn(m, q[1]);
    RotateHalfTurn(m, q[2]);
  }

  /** The half turn negates every vertex; otherwise the turned vertices are kept. */
  lemma NormalizeFlip(p: seq<Vec>, position: Vec, rotation: real, m: MathEnv, adjustment: real, shift: Vec)
    requires |p| == 3 && Lawful(m)
    ensures var n := NormalizeBy(p, position, rotation, m, adjustment, shift);
            var a := Turned(p, adjustment, m);
            n.points == if a[n.sides.tip].y < 0.0 then Negated(a) else a
  {
    HalfTurnNegates(Turned(p, adjustment, m), m);
  }

  /** After normalisation, whatever the first turn, the tip has non-negative local y. */
  lemma NormalizeTipAbove(p: seq<Vec>, position: Vec, rotation: real, m: MathEnv, adjustment: real, shift: Vec)
    requires |p| == 3 && Lawful(m)
    ensures var n := NormalizeBy(p, position, rotation, m, adjustment, shift); n.points[n.sides.tip].y >= 0.0
  {
    NormalizeFlip(p, position, rotation, m, adjustment, shift);
  }

  /** Whatever the first turn, the normalised local vertices sum to zero: the centroid is the local origin. */
  lemma NormalizeCentred(p: seq<Vec>, position: Vec, rotation: real, m: MathEnv, adjustment: real, shift: Vec)
    requires |p| == 3 && Lawful(m)
    ensures var n := NormalizeBy(p, position, rotation, m, adjustment, shift);
            Add(Add(n.points[0], n.points[1]), n.points[2]) == Origin()
  {
    var n := NormalizeBy(p, position, rotation, m, adjustment, shift);
    var a := Turned(p, adjustment, m);
    CentredSumsToZero(p);
    RotateOrigin(m, adjustment);
    RotateAllSum(Centred(p), adjustment, m);
    assert Add(Add(a[0], a[1]), a[2]) == Origin();
    NormalizeFlip(p, position, rotation, m, adjustment, shift);
    if a[n.sides.tip].y < 0.0 {
      assert n.points == Negated(a);
    } else {
      assert n.points == a;
    }
  }

  /** The first turn turns the hypotenuse vector: the turned hypotenuse ends differ by the turned vector. */
  lemma TurnedHypotenuse(p: seq<Vec>, adjustment: real, m: MathEnv)
    requires |p| == 3 && Lawful(m)
    ensures var s := SidesOf(p, m); var a := Turned(p, adjustment, m);
            Subtract(a[s.hypot], a[s.hypot2]) == m.rotate(HypotVec(p, s), adjustment)
  {
    var s := SidesOf(p, m);
    CentredDifference(p, s.hypot, s.hypot2);
    RotateAllDifference(Centred(p), s.hypot, s.hypot2, adjustment, m);
  }

  /**
   * The hypotenuse ends keep their vertical offset through the conditional half turn, up to
   * sign: they share a local y after normalisation exactly when they did after the first turn.
   */
  lemma NormalizeHypotenuseOffset(p: seq<Vec>, position: Vec, rotation: real, m: MathEnv, adjustment: real, shift: Vec)
    requires |p| == 3 && Lawful(m)
    ensures var n := NormalizeBy(p, position, rotation, m, adjustment, shift);
            var d := m.rotate(HypotVec(p, n.sides), adjustment);
            n.points[n.sides.hypot].y - n.points[n.sides.hypot2].y == d.y
            || n.points[n.sides.hypot].y - n.points[n.sides.hypot2].y == -d.y
  {
    var n := NormalizeBy(p, position, rotation, m, adjustment, shift);
    var a := Turned(p, adjustment, m);
    TurnedHypotenuse(p, adjustment, m);
    NormalizeFlip(p, position, rotation, m, adjustment, shift);
    if a[n.sides.tip].y < 0.0 {
      assert n.points == Negated(a);
    } else {
      assert n.points == a;
    }
  }

  /**
   * Whatever the first turn, the normalised hypotenuse is horizontal exactly when that turn lays
   * the hypotenuse vector on the x-axis.
   */
  lemma NormalizeHorizontalBy(p: seq<Vec>, position: Vec, rotation: real, m: MathEnv, adjustment: real, shift: Vec)
    requires |p| == 3 && Lawful(m)
    ensures var n := NormalizeBy(p, position, rotation, m, adjustment, shift);
            (n.points[n.sides.hypot].y == n.points[n.sides.hypot2].y
             <==> m.rotate(HypotVec(p, SidesOf(p, m)), adjustment).y == 0.0)
  {
    NormalizeHypotenuseOffset(p, position, rotation, m, adjustment, shift);
  }

  /**
   * The constructor as written leaves the hypotenuse horizontal exactly when turning the
   * hypotenuse vector by its own atan2 angle lays it on the x-axis.
   */
  lemma NormalizeHorizontalIff(p: seq<Vec>, position: Vec, rotation: real, m: MathEnv)
    requires |p| == 3 && Lawful(m)
    ensures var n := Normalize(p, position, rotation, m);
            (n.points[n.sides.hypot].y == n.points[n.sides.hypot2].y
             <==> m.rotate(HypotVec(p, SidesOf(p, m)), Adjustment(p, m)).y == 0.0)
  {
    NormalizeHorizontalBy(p, position, rotation, m, Adjustment(p, m), Centroid(p));
  }

  /**
   * Under the clockwise convention the constructor as written lays the hypotenuse on the x-axis:
   * its two ends share the same local y.
   */
  lemma NormalizeHypotenuseHorizontal(p: seq<Vec>, position: Vec, rotation: real, m: MathEnv)
    requires |p| == 3 && Lawful(m) && Clockwise(m)
    ensures var n := Normalize(p, position, rotation, m);
            n.points[n.sides.hypot].y == n.points[n.sides.hypot2].y
  {
    RotateAligns(m, HypotVec(p, SidesOf(p, m)));
    NormalizeHorizontalBy(p, position, rotation, m, Adjustment(p, m), Centroid(p));
  }

  lemma NegatedDistance(a: seq<Vec>, i: nat, j: nat, m: MathEnv)
    requires |a| == 3 && i < 3 && j < 3 && IsSqrt(m.sqrt)
    ensures Distance(Negated(a)[i], Negated(a)[j], m) == Distance(a[i], a[j], m)
  {
    assert DistanceSq(Negated(a)[i], Negated(a)[j]) == DistanceSq(a[i], a[j]);
  }

  /** Whatever the first turn, the cached half-width is half the distance between the normalised hypotenuse ends. */
  lemma NormalizeHalfWidth(p: seq<Vec>, position: Vec, rotation: real, m: MathEnv, adjustment: real, shift: Vec)
    requires |p| == 3 && Lawful(m)
    ensures var n := NormalizeBy(p, position, rotation, m, adjustment, shift);
            2.0 * n.halfWidth == Distance(n.points[n.sides.hypot], n.points[n.sides.hypot2], m)
  {
    var n := NormalizeBy(p, position, rotation, m, adjustment, shift);
    var s := n.sides;
    var a := Turned(p, adjustment, m);
    var h := HypotVec(p, s);
    TurnedHypotenuse(p, adjustment, m);
    NormalizeFlip(p, position, rotation, m, adjustment, shift);
    NegatedDistance(a, s.hypot, s.hypot2, m);
    DistanceProperties(a[s.hypot], a[s.hypot2], m);
    RotateKeepsLength(m, h, adjustment);
  }

  /** The first turn keeps the distance between any two vertices. */
  lemma TurnedKeepsDistance(p: seq<Vec>, adjustment: real, m: MathEnv, i: nat, j: nat)
    requires |p| == 3 && Lawful(m) && i < 3 && j < 3
    ensures var a := Turned(p, adjustment, m); Distance(a[i], a[j], m) == Distance(p[i], p[j], m)
  {
    var a := Turned(p, adjustment, m);
    var d := Subtract(p[i], p[j]);
    CentredDifference(p, i, j);
    RotateAllDifference(Centred(p), i, j, adjustment, m);
    RotateKeepsLength(m, d, adjustment);
    assert DistanceSq(a[i], a[j]) == NormSq(Subtract(a[i], a[j])) == NormSq(m.rotate(d, adjustment));
    assert DistanceSq(p[i], p[j]) == NormSq(d);
  }

  /** Whatever the first turn, normalisation keeps the distance between any two vertices. */
  lemma NormalizeKeepsDistance(p: seq<Vec>, position: Vec, rotation: real, m: MathEnv, adjustment: real, shift: Vec, i: nat, j: nat)
    requires |p| == 3 && Lawful(m) && i < 3 && j < 3
    ensures var n := NormalizeBy(p, position, rotation, m, adjustment, shift);
            Distance(n.points[i], n.points[j], m) == Distance(p[i], p[j], m)
  {
    var n := NormalizeBy(p, position, rotation, m, adjustment, shift);
    var a := Turned(p, adjustment, m);
    TurnedKeepsDistance(p, adjustment, m, i, j);
    NormalizeFlip(p, position, rotation, m, adjustment, shift);
    NegatedDistance(a, i, j, m);
  }

  /**
   * Whatever the first turn, choosing the hypotenuse again from the normalised vertices gives
   * the labelling the constructor cached: the side lengths, and so the choice, are unchanged.
   */
  lemma NormalizeRelabels(p: seq<Vec>, position: Vec, rotation: real, m: MathEnv, adjustment: real, shift: Vec)
    requires |p| == 3 && Lawful(m)
    ensures var n := NormalizeBy(p, position, rotation, m, adjustment, shift); SidesOf(n.points, m) == n.sides
  {
    NormalizeKeepsDistance(p, position, rotation, m, adjustment, shift, 0, 1);
    NormalizeKeepsDistance(p, position, rotation, m, adjustment, shift, 1, 2);
    NormalizeKeepsDistance(p, position, rotation, m, adjustment, shift, 2, 0);
  }

  /**
   * The shape the constructor as written leaves under the clockwise convention, in one
   * statement: the local vertices sum to zero, the hypotenuse is horizontal, the tip is on or
   * above it, the half-width is half its length, and choosing the hypotenuse again from the
   * normalised vertices gives the cached labelling.
   */
  lemma NormalizeShape(p: seq<Vec>, position: Vec, rotation: real, m: MathEnv)
    requires |p| == 3 && Lawful(m) && Clockwise(m)
    ensures var n := Normalize(p, position, rotation, m);
            && Add(Add(n.points[0], n.points[1]), n.points[2]) == Origin()
            && n.points[n.sides.hypot].y == n.points[n.sides.hypot2].y
            && n.points[n.sides.tip].y >= 0.0
            && 2.0 * n.halfWidth == Distance(n.points[n.sides.hypot], n.points[n.sides.hypot2], m)
            && SidesOf(n.points, m) == n.sides
  {
    NormalizeCentred(p, position, rotation, m, Adjustment(p, m), Centroid(p));
    NormalizeHypotenuseHorizontal(p, position, rotation, m);
    NormalizeTipAbove(p, position, rotation, m, Adjustment(p, m), Centroid(p));
    NormalizeHalfWidth(p, position, rotation, m, Adjustment(p, m), Centroid(p));
    NormalizeRelabels(p, position, rotation, m, Adjustment(p, m), Centroid(p));
  }

  /**
   * The corrected constructor leaves the same shape under the counter-clockwise convention:
   * the local vertices sum to zero, the hypotenuse is horizontal, the tip is on or above it, the
   * half-width is half its length, and the labelling is the one chosen again from the vertices.
   */
  lemma NormalizeCorrectedShape(p: seq<Vec>, position: Vec, rotation: real, m: MathEnv)
    requires |p| == 3 && Lawful(m) && CounterClockwise(m)
    ensures var n := NormalizeCorrected(p, position, rotation, m);
            && Add(Add(n.points[0], n.points[1]), n.points[2]) == Origin()
            && n.points[n.sides.hypot].y == n.points[n.sides.hypot2].y
            && n.points[n.sides.tip].y >= 0.0
            && 2.0 * n.halfWidth == Distance(n.points[n.sides.hypot], n.points[n.sides.hypot2], m)
            && SidesOf(n.points, m) == n.sides
  {
    var n := NormalizeCorrected(p, position, rotation, m);
    var adj, shift := -Adjustment(p, m), m.rotate(Centroid(p), rotation);
    assert n == NormalizeBy(p, position, rotation, m, adj, shift);
    NormalizeCentred(p, position, rotation, m, adj, shift);
    NormalizeCorrectedHorizontal(p, position, rotation, m);
    NormalizeTipAbove(p, position, rotation, m, adj, shift);
    NormalizeHalfWidth(p, position, rotation, m, adj, shift);
    NormalizeRelabels(p, position, rotation, m, adj, shift);
  }

  /** Under the counter-clockwise convention the corrected constructor lays the hypotenuse on the x-axis. */
  lemma NormalizeCorrectedHorizontal(p: seq<Vec>, position: Vec, rotation: real, m: MathEnv)
    requires |p| == 3 && Lawful(m) && CounterClockwise(m)
    ensures var n := NormalizeCorrected(p, position, rotation, m);
            n.points[n.sides.hypot].y == n.points[n.sides.hypot2].y
  {
    RotateBackAligns(m, HypotVec(p, SidesOf(p, m)));
    NormalizeHorizontalBy(p, position, rotation, m, -Adjustment(p, m), m.rotate(Centroid(p), rotation));
  }

  /** Vertices whose longest side runs from (0, 0) to (1, 1), at 45 degrees. */
  function TiltedExample(): (p: seq<Vec>)
    ensures |p| == 3
  {
    [Vec(1.0, 1.0), Vec(0.0, 0.0), Vec(1.0, 0.0)]
  }

  lemma MulMonotone(x: real, y: real, z: real)
    requires 0.0 <= x && y <= z
    ensures x * y <= x * z
  {
    assert x * z - x * y == x * (z - y);
  }

  /** A non-negative number whose square is at least the square of another non-negative number is at least it. */
  lemma RootMonotone(a: real, b: real)
    requires 0.0 <= a && 0.0 <= b && b * b <= a * a
    ensures b <= a
  {
    if a < b {
      MulMonotone(a, a, b);
      MulMonotone(b, a, b);
      assert (b - a) * b == 0.0;
      ProductZero(b - a, b);
      assert false;
    }
  }

  /** A vector turned is the turned unit vectors combined with its components (linearity). */
  lemma RotateByBasis(m: MathEnv, v: Vec, t: real)
    requires IsRotation(m)
    ensures m.rotate(v, t) == Add(Multiply(m.rotate(Vec(1.0, 0.0), t), v.x), Multiply(m.rotate(Vec(0.0, 1.0), t), v.y))
  {
    assert v == Add(Multiply(Vec(1.0, 0.0), v.x), Multiply(Vec(0.0, 1.0), v.y));
    RotateAdd(m, Multiply(Vec(1.0, 0.0), v.x), Multiply(Vec(0.0, 1.0), v.y), t);
    RotateMultiply(m, Vec(1.0, 0.0), v.x, t);
    RotateMultiply(m, Vec(0.0, 1.0), v.y, t);
  }

  /** Under the counter-clockwise convention the turned y unit vector is the turned x unit vector a quarter turn on. */
  lemma TurnedUnitsQuarterApart(m: MathEnv, t: real)
    requires IsRotation(m) && CounterClockwise(m)
    ensures var e := m.rotate(Vec(1.0, 0.0), t); m.rotate(Vec(0.0, 1.0), t) == Vec(-e.y, e.x)
  {
    var ex := Vec(1.0, 0.0);
    var e := m.rotate(ex, t);
    RotateQuarterTurn(m, ex);
    assert m.rotate(ex, m.pi / 2.0) == Vec(0.0, 1.0);
    RotateTwice(m, ex, m.pi / 2.0, t, m.pi / 2.0 + t);
    RotateTwice(m, ex, t, m.pi / 2.0, m.pi / 2.0 + t);
    RotateQuarterTurn(m, e);
  }

  /** The arithmetic end of EighthTurnTilts: x^2 = y^2 and 2xy = 1 leave x + y non-zero. */
  lemma DiagonalTilt(x: real, y: real)
    requires x * x + (-y) * y == 0.0 && y * x + x * y == 1.0
    ensures x + y != 0.0
  {
    assert (x + y) * (x + y) == x * x + y * y + 1.0;
    assert x * x >= 0.0 by {
      if x < 0.0 { assert x * x == (-x) * (-x); }
    }
  }

  /**
   * Under the counter-clockwise convention, a turn by an eighth of a full turn (twice it is a
   * quarter turn) does not lay the diagonal (1, 1) on the x-axis.
   */
  lemma EighthTurnTilts(m: MathEnv, t: real)
    requires IsRotation(m) && CounterClockwise(m) && t + t == m.pi / 2.0
    ensures m.rotate(Vec(1.0, 1.0), t).y != 0.0
  {
    var ex := Vec(1.0, 0.0);
    var e, f := m.rotate(ex, t), m.rotate(Vec(0.0, 1.0), t);
    TurnedUnitsQuarterApart(m, t);
    // Turning e once more is a quarter turn of ex, (0, 1); by linearity it is e.x e + e.y f.
    RotateTwice(m, ex, t, t, m.pi / 2.0);
    RotateQuarterTurn(m, ex);
    RotateByBasis(m, e, t);
    var r := m.rotate(e, t);
    assert r == Vec(0.0, 1.0);
    assert r == Add(Multiply(e, e.x), Multiply(Vec(-e.y, e.x), e.y));
    assert r.x == e.x * e.x + (-e.y) * e.y;
    assert r.y == e.y * e.x + e.x * e.y;
    DiagonalTilt(e.x, e.y);
    // The diagonal turns to e + f, whose y is e.y + e.x.
    RotateByBasis(m, Vec(1.0, 1.0), t);
  }

  /**
   * Under the counter-clockwise convention, with the real Math.atan2(1, 1) = PI / 4, the
   * constructor as written does not lay a hypotenuse along (1, 1) on the x-axis: it turns that
   * vector by +45 degrees instead of -45. TiltedExample is such a triangle.
   */
  lemma NormalizeTiltsCounterClockwise(p: seq<Vec>, position: Vec, rotation: real, m: MathEnv)
    requires |p| == 3 && Lawful(m) && CounterClockwise(m) && m.atan2(1.0, 1.0) == m.pi / 4.0
    requires HypotVec(p, SidesOf(p, m)) == Vec(1.0, 1.0)
    ensures var n := Normalize(p, position, rotation, m);
            n.points[n.sides.hypot].y != n.points[n.sides.hypot2].y
  {
    EighthTurnTilts(m, m.atan2(1.0, 1.0));
    NormalizeHorizontalIff(p, position, rotation, m);
  }

  /**
   * The longest side of TiltedExample runs from vertex 0 to vertex 1, along (1, 1): the example
   * meets the conditions of NormalizeTiltsCounterClockwise.
   */
  lemma TiltedExampleSides(m: MathEnv)
    requires IsSqrt(m.sqrt)
    ensures SidesOf(TiltedExample(), m) == Sides(0, 1, 2)
    ensures HypotVec(TiltedExample(), SidesOf(TiltedExample(), m)) == Vec(1.0, 1.0)
  {
    var p := TiltedExample();
    var d1, d2, d3 := Distance(p[0], p[1], m), Distance(p[1], p[2], m), Distance(p[2], p[0], m);
    assert d1 * d1 == 2.0 && d2 * d2 == 1.0 && d3 * d3 == 1.0;
    RootMonotone(d1, d2);
    RootMonotone(d1, d3);
  }

  /**
   * Whatever the first turn and shift, normalisation turns each local vertex so that turning it
   * by the new rotation is turning the centred vertex by the old one: the total turn taken off
   * the rotation is exactly the turn applied (two half turns being the identity).
   */
  lemma NormalizeKeepsTurn(p: seq<Vec>, position: Vec, rotation: real, m: MathEnv, adjustment: real, shift: Vec, k: nat)
    requires |p| == 3 && Lawful(m) && k < 3
    ensures var n := NormalizeBy(p, position, rotation, m, adjustment, shift);
            m.rotate(n.points[k], n.rotation) == m.rotate(Centred(p)[k], rotation)
  {
    var n := NormalizeBy(p, position, rotation, m, adjustment, shift);
    var c := Centred(p)[k];
    var adj := adjustment;
    var a := Turned(p, adjustment, m);
    assert a[k] == m.rotate(c, adj);
    if a[n.sides.tip].y < 0.0 {
      var r := rotation - (adj - m.pi);
      assert n.points[k] == m.rotate(a[k], m.pi);
      assert n.rotation == r;
      RotateTwice(m, a[k], m.pi, r, m.pi + r);
      RotateTwice(m, c, adj, m.pi + r, (rotation + m.pi) + m.pi);
      RotateTwice(m, c, rotation + m.pi, m.pi, (rotation + m.pi) + m.pi);
      RotateTwice(m, c, rotation, m.pi, rotation + m.pi);
      RotateHalfTurn(m, m.rotate(c, rotation + m.pi));
      RotateHalfTurn(m, m.rotate(c, rotation));
    } else {
      RotateTwice(m, c, adj, rotation - adj, rotation);
    }
  }

  /**
   * Where a local vertex l stands at position + rotate(l, rotation) in the world, the
   * constructor as written moves each world vertex by centroid - rotate(centroid, rotation):
   * not at all when the base rotation is 0.
   */
  lemma NormalizeKeepsWorld(p: seq<Vec>, position: Vec, rotation: real, m: MathEnv, k: nat)
    requires |p| == 3 && Lawful(m) && k < 3
    ensures var n := Normalize(p, position, rotation, m); var c := Centroid(p);
            Add(n.position, m.rotate(n.points[k], n.rotation))
              == Add(Add(position, m.rotate(p[k], rotation)), Subtract(c, m.rotate(c, rotation)))
    ensures var n := Normalize(p, position, rotation, m);
            rotation == 0.0 ==> Add(n.position, m.rotate(n.points[k], n.rotation)) == Add(position, p[k])
  {
    var c := Centroid(p);
    NormalizeKeepsTurn(p, position, rotation, m, Adjustment(p, m), c, k);
    assert Centred(p)[k] == Subtract(p[k], c);
    RotateSubtract(m, p[k], c, rotation);
    if rotation == 0.0 {
      RotateByZero(m, c);
      RotateByZero(m, p[k]);
    }
  }

  /**
   * With a base rotation of a half turn the constructor as written moves the first vertex of a
   * triangle whose centroid is (1, 1) by (2, 2) in the world.
   */
  lemma NormalizeMovesUnderHalfTurn(position: Vec, m: MathEnv)
    requires Lawful(m)
    ensures var p := [Vec(3.0, 0.0), Vec(0.0, 3.0), Vec(0.0, 0.0)];
            var n := Normalize(p, position, m.pi, m);
            Add(n.position, m.rotate(n.points[0], n.rotation)) == Add(Add(position, m.rotate(p[0], m.pi)), Vec(2.0, 2.0))
  {
    var p := [Vec(3.0, 0.0), Vec(0.0, 3.0), Vec(0.0, 0.0)];
    assert Centroid(p) == Vec(1.0, 1.0);
    NormalizeKeepsWorld(p, position, m.pi, m, 0);
    RotateHalfTurn(m, Vec(1.0, 1.0));
  }

  /** The corrected constructor moves no vertex in the world, whatever the base rotation. */
  lemma NormalizeCorrectedKeepsWorld(p: seq<Vec>, position: Vec, rotation: real, m: MathEnv, k: nat)
    requires |p| == 3 && Lawful(m) && k < 3
    ensures var n := NormalizeCorrected(p, position, rotation, m);
            Add(n.position, m.rotate(n.points[k], n.rotation)) == Add(position, m.rotate(p[k], rotation))
  {
    var c := Centroid(p);
    NormalizeKeepsTurn(p, position, rotation, m, -Adjustment(p, m), m.rotate(c, rotation), k);
    assert Centred(p)[k] == Subtract(p[k], c);
    RotateSubtract(m, p[k], c, rotation);
  }

  // ---------------------------------------------------------------------------------------------
  // Point in triangle

  /** The cross product (a - o) x (p - o): positive when p lies to the left of the ray from o to a. */
  function Cross(o: Vec, a: Vec, p: Vec): real {
    (a.x - o.x) * (p.y - o.y) - (a.y - o.y) * (p.x - o.x)
  }

  /** Twice the signed area of the triangle v: positive for counter-clockwise vertices. */
  function Area2(v: seq<Vec>): real
    requires |v| == 3
  {
    Cross(v[0], v[1], v[2])
  }

  /** pointInside's sign test on the three cross products s, t and d, as written. */
  predicate SignTest(s: real, t: real, d: real) {
    if (s < 0.0) != (t < 0.0) && s != 0.0 && t != 0.0 then false
    else d == 0.0 || (d < 0.0) == (s + t <= 0.0)
  }

  /** pointInside(pos) against local vertices v, as written. */
  predicate PointInside(v: seq<Vec>, pos: Vec)
    requires |v| == 3
  {
    SignTest(Cross(v[2], v[0], pos), Cross(v[0], v[1], pos), Cross(v[1], v[2], pos))
  }

  /** The sign test with the boundary case s == t == 0 admitted, as the boundary convention intends. */
  predicate ClosedSignTest(s: real, t: real, d: real) {
    if (s < 0.0) != (t < 0.0) && s != 0.0 && t != 0.0 then false
    else d == 0.0 || (s == 0.0 && t == 0.0) || (d < 0.0) == (s + t <= 0.0)
  }

  /** pointInside with boundary points, the first vertex included, classified as inside. */
  predicate PointInsideClosed(v: seq<Vec>, pos: Vec)
    requires |v| == 3
  {
    ClosedSignTest(Cross(v[2], v[0], pos), Cross(v[0], v[1], pos), Cross(v[1], v[2], pos))
  }

  /** The closed triangle: pos is on the inner side of, or on, each of the three edge lines. */
  predicate Encloses(v: seq<Vec>, pos: Vec)
    requires |v| == 3
  {
    var s := Cross(v[2], v[0], pos);
    var t := Cross(v[0], v[1], pos);
    var d := Cross(v[1], v[2], pos);
    (Area2(v) > 0.0 && s >= 0.0 && t >= 0.0 && d >= 0.0) ||
    (Area2(v) < 0.0 && s <= 0.0 && t <= 0.0 && d <= 0.0)
  }

  /** The three cross products of a point always add up to twice the signed area. */
  lemma CrossSum(v: seq<Vec>, pos: Vec)
    requires |v| == 3
    ensures Cross(v[2], v[0], pos) + Cross(v[0], v[1], pos) + Cross(v[1], v[2], pos) == Area2(v)
  {
  }

  /** pointInside rejects a point whose s and t are non-zero with opposite signs. */
  lemma SignTestRejectsOpposite(s: real, t: real, d: real)
    requires s != 0.0 && t != 0.0 && (s < 0.0) != (t < 0.0)
    ensures !SignTest(s, t, d)
  {
  }

  /** pointInside accepts a point whose s, t and d are all strictly positive or all strictly negative. */
  lemma SignTestAcceptsStrict(s: real, t: real, d: real)
    requires (s > 0.0 && t > 0.0 && d > 0.0) || (s < 0.0 && t < 0.0 && d < 0.0)
    ensures SignTest(s, t, d)
  {
  }

  /**
   * On cross products that add up to a non-zero area, the as-written test accepts exactly the
   * closed triangle except, for a counter-clockwise triangle, the point where s and t both vanish.
   */
  lemma SignTestCharacterised(s: real, t: real, d: real, area: real)
    requires s + t + d == area && area != 0.0
    ensures SignTest(s, t, d) <==>
      ((area > 0.0 && s >= 0.0 && t >= 0.0 && d >= 0.0 && !(s == 0.0 && t == 0.0)) ||
       (area < 0.0 && s <= 0.0 && t <= 0.0 && d <= 0.0))
  {
  }

  /** The corrected test accepts exactly the closed triangle. */
  lemma ClosedSignTestCharacterised(s: real, t: real, d: real, area: real)
    requires s + t + d == area && area != 0.0
    ensures ClosedSignTest(s, t, d) <==>
      ((area > 0.0 && s >= 0.0 && t >= 0.0 && d >= 0.0) ||
       (area < 0.0 && s <= 0.0 && t <= 0.0 && d <= 0.0))
  {
  }

  /** For a non-degenerate triangle the cross products s and t both vanish exactly at the first vertex. */
  lemma FirstVertexCrosses(v: seq<Vec>, pos: Vec)
    requires |v| == 3 && Area2(v) != 0.0
    ensures Cross(v[2], v[0], pos) == 0.0 && Cross(v[0], v[1], pos) == 0.0 <==> pos == v[0]
  {
    var e1 := Subtract(v[1], v[0]);
    var e2 := Subtract(v[0], v[2]);
    var u := Subtract(pos, v[0]);
    var s := Cross(v[2], v[0], pos);
    var t := Cross(v[0], v[1], pos);
    assert s == e2.x * u.y - e2.y * u.x;
    assert t == e1.x * u.y - e1.y * u.x;
    var c := e1.x * e2.y - e1.y * e2.x;
    assert c == -Area2(v);
    assert u.x * c == e1.x * (u.x * e2.y - u.y * e2.x) - e2.x * (u.x * e1.y - u.y * e1.x);
    assert u.y * c == e1.y * (u.x * e2.y - u.y * e2.x) - e2.y * (u.x * e1.y - u.y * e1.x);
    if s == 0.0 && t == 0.0 {
      assert u.x * c == 0.0;
      assert u.y * c == 0.0;
      ProductZero(u.x, c);
      ProductZero(u.y, c);
    }
  }

  /** For a non-degenerate triangle, pointInside accepts the closed triangle without its first vertex. */
  lemma PointInsideCharacterised(v: seq<Vec>, pos: Vec)
    requires |v| == 3 && Area2(v) != 0.0
    ensures PointInside(v, pos) <==> Encloses(v, pos) && !(Area2(v) > 0.0 && pos == v[0])
  {
    CrossSum(v, pos);
    SignTestCharacterised(Cross(v[2], v[0], pos), Cross(v[0], v[1], pos), Cross(v[1], v[2], pos), Area2(v));
    FirstVertexCrosses(v, pos);
  }

  /** For a non-degenerate triangle, the corrected test accepts exactly the closed triangle. */
  lemma PointInsideClosedCharacterised(v: seq<Vec>, pos: Vec)
    requires |v| == 3 && Area2(v) != 0.0
    ensures PointInsideClosed(v, pos) <==> Encloses(v, pos)
  {
    CrossSum(v, pos);
    ClosedSignTestCharacterised(Cross(v[2], v[0], pos), Cross(v[0], v[1], pos), Cross(v[1], v[2], pos), Area2(v));
  }

  /** The two tests disagree only at the first vertex of a counter-clockwise triangle. */
  lemma PointInsideDisagreement(v: seq<Vec>, pos: Vec)
    requires |v| == 3
    ensures PointInside(v, pos) != PointInsideClosed(v, pos) ==> Area2(v) > 0.0 && pos == v[0]
  {
    CrossSum(v, pos);
    if PointInside(v, pos) != PointInsideClosed(v, pos) {
      FirstVertexCrosses(v, pos);
    }
  }

  /**
   * With the first two vertices equal, pointInside holds exactly on the line through the
   * repeated vertex and the third one: t is 0 and d is -s, so only s == 0 passes.
   */
  lemma PointInsideRepeatedVertex(v: seq<Vec>, pos: Vec)
    requires |v| == 3 && v[0] == v[1]
    ensures PointInside(v, pos) <==> Cross(v[2], v[0], pos) == 0.0
  {
    CrossSum(v, pos);
    assert Area2(v) == 0.0 && Cross(v[0], v[1], pos) == 0.0;
  }

  /** The counter-clockwise right triangle (0,0), (2,0), (0,2) of the examples below. */
  function RightTriangle(): (v: seq<Vec>)
    ensures |v| == 3
  {
    [Vec(0.0, 0.0), Vec(2.0, 0.0), Vec(0.0, 2.0)]
  }

  /** A point inside the right triangle (0,0), (2,0), (0,2). */
  lemma PointInsideAcceptsInterior()
    ensures PointInside(RightTriangle(), Vec(0.5, 0.5))
  {
    var v := RightTriangle();
    assert Cross(v[2], v[0], Vec(0.5, 0.5)) == 1.0;
    assert Cross(v[0], v[1], Vec(0.5, 0.5)) == 1.0;
    assert Cross(v[1], v[2], Vec(0.5, 0.5)) == 2.0;
    assert SignTest(1.0, 1.0, 2.0);
  }

  /**
   * pointInside accepts a point on the edge from v[1] to v[2] (d == 0) that lies strictly on
   * the inner side of the other two edges.
   */
  lemma PointInsideOnThirdEdge(v: seq<Vec>, pos: Vec)
    requires |v| == 3 && Cross(v[2], v[0], pos) > 0.0 && Cross(v[0], v[1], pos) > 0.0
    requires Cross(v[1], v[2], pos) == 0.0
    ensures PointInside(v, pos)
  {
  }

  /** The midpoint (1,1) of the hypotenuse of the right triangle (0,0), (2,0), (0,2) is accepted. */
  lemma PointInsideAcceptsHypotenuseMidpoint()
    ensures PointInside(RightTriangle(), Vec(1.0, 1.0))
  {
    MidpointCrosses();
    PointInsideOnThirdEdge(RightTriangle(), Vec(1.0, 1.0));
  }

  /** The three sign-test values of (1,1) against the right triangle. */
  lemma MidpointCrosses()
    ensures var v := RightTriangle(); var p := Vec(1.0, 1.0);
            Cross(v[2], v[0], p) == 2.0 && Cross(v[0], v[1], p) == 2.0 && Cross(v[1], v[2], p) == 0.0
  {
  }

  /** A point beyond the hypotenuse of the right triangle (0,0), (2,0), (0,2). */
  lemma PointInsideRejectsExterior()
    ensures !PointInside(RightTriangle(), Vec(3.0, 3.0))
  {
    var v := RightTriangle();
    assert Cross(v[2], v[0], Vec(3.0, 3.0)) == 6.0;
    assert Cross(v[0], v[1], Vec(3.0, 3.0)) == 6.0;
    assert Cross(v[1], v[2], Vec(3.0, 3.0)) == -8.0;
    assert !SignTest(6.0, 6.0, -8.0);
  }

  /** The first vertex of this counter-clockwise triangle lies in it but pointInside rejects it. */
  lemma PointInsideRejectsFirstVertex()
    ensures Encloses(RightTriangle(), Vec(0.0, 0.0))
    ensures !PointInside(RightTriangle(), Vec(0.0, 0.0))
    ensures PointInsideClosed(RightTriangle(), Vec(0.0, 0.0))
  {
    var v := RightTriangle();
    assert Area2(v) == 4.0;
    assert Cross(v[2], v[0], Vec(0.0, 0.0)) == 0.0;
    assert Cross(v[0], v[1], Vec(0.0, 0.0)) == 0.0;
    assert Cross(v[1], v[2], Vec(0.0, 0.0)) == 4.0;
  }

  // ---------------------------------------------------------------------------------------------
  // Distances

  /** The segment parameter of distanceFromFiniteLine: the projection of pos - p2 onto p1 - p2, clamped. */
  function SegmentParameter(pos: Vec, p1: Vec, p2: Vec, m: MathEnv): (t: real)
    requires IsSqrt(m.sqrt) && p1 != p2
    ensures 0.0 <= t <= 1.0
    ensures DistanceSq(p1, p2) > 0.0
    ensures t == Clamp01(Dot(Subtract(pos, p2), Subtract(p1, p2)) / DistanceSq(p1, p2))
  {
    var len := Distance(p1, p2, m);
    var raw := Dot(Subtract(pos, p2), Subtract(p1, p2));
    DistanceSqProperties(p1, p2);
    DivideTwice(raw, len, DistanceSq(p1, p2));
    Clamp01(raw / len / len)
  }

  lemma DivideTwice(a: real, len: real, l2: real)
    requires len != 0.0 && l2 == len * len && l2 > 0.0
    ensures a / len / len == a / l2
  {
    var q := a / len;
    var r := q / len;
    var w := a / l2;
    assert q * len == a;
    assert r * len == q;
    assert w * l2 == a;
    assert r * l2 == (r * len) * len;
    assert (r - w) * l2 == r * l2 - w * l2;
    ProductZero(r - w, l2);
  }

  /** The point of the segment at parameter u, measured from p2 towards p1. */
  function SegmentPoint(p1: Vec, p2: Vec, u: real): Vec {
    Add(p2, Multiply(Subtract(p1, p2), u))
  }

  /** distanceFromFiniteLine(pos, p1, p2): the distance from pos to the clamped nearest point. */
  function DistanceFromFiniteLine(pos: Vec, p1: Vec, p2: Vec, m: MathEnv): (r: real)
    requires IsSqrt(m.sqrt) && p1 != p2
    ensures r >= 0.0
  {
    Distance(pos, SegmentPoint(p1, p2, SegmentParameter(pos, p1, p2, m)), m)
  }

  /** The distance from either end of the segment to the segment is zero. */
  lemma DistanceFromFiniteLineAtEnds(p1: Vec, p2: Vec, m: MathEnv)
    requires IsSqrt(m.sqrt) && p1 != p2
    ensures DistanceFromFiniteLine(p1, p1, p2, m) == 0.0
    ensures DistanceFromFiniteLine(p2, p1, p2, m) == 0.0
  {
    var e := Subtract(p1, p2);
    assert Dot(e, e) == DistanceSq(p1, p2);
    DistanceSqProperties(p1, p2);
    assert SegmentParameter(p1, p1, p2, m) == 1.0;
    assert SegmentPoint(p1, p2, 1.0) == p1;
    assert Subtract(p2, p2) == Origin();
    assert SegmentParameter(p2, p1, p2, m) == 0.0;
    assert SegmentPoint(p1, p2, 0.0) == p2;
  }

  lemma MulNonNegative(a: real, b: real)
    requires (a >= 0.0 && b >= 0.0) || (a <= 0.0 && b <= 0.0)
    ensures a * b >= 0.0
  {
  }

  /**
   * The quadratic f(u) = w - 2uc + u^2 l with l > 0 takes its least value over [0, 1] at the
   * clamped vertex c / l of the parabola.
   */
  lemma ClampedVertexIsMinimal(w: real, c: real, l: real, u: real)
    requires l > 0.0 && 0.0 <= u <= 1.0
    ensures var t := Clamp01(c / l);
            w - 2.0 * t * c + t * t * l <= w - 2.0 * u * c + u * u * l
  {
    var t := Clamp01(c / l);
    var q := c / l;
    assert c == q * l;
    assert (w - 2.0 * u * c + u * u * l) - (w - 2.0 * t * c + t * t * l) == (u - t) * (l * (u + t) - 2.0 * c);
    if q < 0.0 {
      assert t == 0.0;
      assert c < 0.0;
      assert l * u >= 0.0 by { MulNonNegative(l, u); }
      MulNonNegative(u - t, l * (u + t) - 2.0 * c);
    } else if q > 1.0 {
      assert t == 1.0;
      assert c > l;
      assert l * (u + t) - 2.0 * c <= l * (u - 1.0) by {
        assert l * (u + t) == l * (u - 1.0) + 2.0 * l;
      }
      assert l * (u - 1.0) <= 0.0 by { MulNonNegative(l, 1.0 - u); }
      MulNonNegative(u - t, l * (u + t) - 2.0 * c);
    } else {
      assert t == q;
      assert l * (u + t) - 2.0 * c == l * (u - t);
      assert (u - t) * (l * (u - t)) == l * ((u - t) * (u - t));
      assert (u - t) * (u - t) >= 0.0 by { MulNonNegative(u - t, u - t); }
      MulNonNegative(l, (u - t) * (u - t));
    }
  }

  /** The squared distance from pos to the segment point at u, as a quadratic in u. */
  lemma SegmentPointDistanceSq(pos: Vec, p1: Vec, p2: Vec, u: real)
    ensures var w := Subtract(pos, p2); var e := Subtract(p1, p2);
            DistanceSq(pos, SegmentPoint(p1, p2, u)) == NormSq(w) - 2.0 * u * Dot(w, e) + u * u * NormSq(e)
  {
    var w := Subtract(pos, p2);
    var e := Subtract(p1, p2);
    var q := SegmentPoint(p1, p2, u);
    assert pos.x - q.x == w.x - u * e.x;
    assert pos.y - q.y == w.y - u * e.y;
    assert (w.x - u * e.x) * (w.x - u * e.x) == w.x * w.x - 2.0 * u * (w.x * e.x) + u * u * (e.x * e.x);
    assert (w.y - u * e.y) * (w.y - u * e.y) == w.y * w.y - 2.0 * u * (w.y * e.y) + u * u * (e.y * e.y);
  }

  lemma SquareMonotone(a: real, b: real)
    requires a >= 0.0 && b >= 0.0 && a * a <= b * b
    ensures a <= b
  {
    if a + b > 0.0 {
      assert (a - b) * (a + b) == a * a - b * b;
      NonPositiveFactor(a - b, a + b);
    }
  }

  lemma NonPositiveFactor(x: real, y: real)
    requires x * y <= 0.0 && y > 0.0
    ensures x <= 0.0
  {
    if x > 0.0 {
      MulPositive(x, y);
    }
  }

  lemma MulPositive(a: real, b: real)
    requires a > 0.0 && b > 0.0
    ensures a * b > 0.0
  {
  }

  /** The clamped segment parameter gives the least squared distance over the whole segment. */
  lemma SegmentParameterIsMinimal(pos: Vec, p1: Vec, p2: Vec, m: MathEnv, u: real)
    requires IsSqrt(m.sqrt) && p1 != p2 && 0.0 <= u <= 1.0
    ensures DistanceSq(pos, SegmentPoint(p1, p2, SegmentParameter(pos, p1, p2, m)))
         <= DistanceSq(pos, SegmentPoint(p1, p2, u))
  {
    var w := Subtract(pos, p2);
    var e := Subtract(p1, p2);
    var t := SegmentParameter(pos, p1, p2, m);
    assert NormSq(e) == DistanceSq(p1, p2);
    SegmentPointDistanceSq(pos, p1, p2, t);
    SegmentPointDistanceSq(pos, p1, p2, u);
    ClampedVertexIsMinimal(NormSq(w), Dot(w, e), NormSq(e), u);
  }

  /** distanceFromFiniteLine is the least distance from pos to any point of the segment. */
  lemma DistanceFromFiniteLineIsMinimal(pos: Vec, p1: Vec, p2: Vec, m: MathEnv, u: real)
    requires IsSqrt(m.sqrt) && p1 != p2 && 0.0 <= u <= 1.0
    ensures DistanceFromFiniteLine(pos, p1, p2, m) <= Distance(pos, SegmentPoint(p1, p2, u), m)
  {
    SegmentParameterIsMinimal(pos, p1, p2, m, u);
    var dt := Distance(pos, SegmentPoint(p1, p2, SegmentParameter(pos, p1, p2, m)), m);
    var du := Distance(pos, SegmentPoint(p1, p2, u), m);
    SquareMonotone(dt, du);
  }

  /** Three pairwise distinct vertices, so that every edge has a direction. */
  predicate DistinctVertices(v: seq<Vec>) {
    |v| == 3 && v[0] != v[1] && v[1] != v[2] && v[2] != v[0]
  }

  /** distanceFrom in the local frame: 0 inside, otherwise the least of the three edge distances. */
  function DistanceFromLocal(v: seq<Vec>, pos: Vec, m: MathEnv): (r: real)
    requires DistinctVertices(v) && IsSqrt(m.sqrt)
    ensures r >= 0.0
  {
    if PointInsideClosed(v, pos) then 0.0
    else Min3(DistanceFromFiniteLine(pos, v[0], v[1], m),
              DistanceFromFiniteLine(pos, v[1], v[2], m),
              DistanceFromFiniteLine(pos, v[2], v[0], m))
  }

  /**
   * distanceFrom is 0 inside the triangle (closed, for a non-degenerate one); outside it is at
   * most each edge distance and equal to one of them.
   */
  lemma DistanceFromLocalProperties(v: seq<Vec>, pos: Vec, m: MathEnv)
    requires DistinctVertices(v) && IsSqrt(m.sqrt)
    ensures Area2(v) != 0.0 && Encloses(v, pos) ==> DistanceFromLocal(v, pos, m) == 0.0
    ensures PointInside(v, pos) ==> DistanceFromLocal(v, pos, m) == 0.0
    ensures var r := DistanceFromLocal(v, pos, m);
            var e0 := DistanceFromFiniteLine(pos, v[0], v[1], m);
            var e1 := DistanceFromFiniteLine(pos, v[1], v[2], m);
            var e2 := DistanceFromFiniteLine(pos, v[2], v[0], m);
            r <= e0 && r <= e1 && r <= e2 && (PointInsideClosed(v, pos) || r == e0 || r == e1 || r == e2)
  {
    if Area2(v) != 0.0 {
      PointInsideClosedCharacterised(v, pos);
    }
    PointInsideDisagreement(v, pos);
  }

  /**
   * The distance computed with the as-written pointInside is the same: where the two tests
   * differ (the first vertex) the distance to the first edge is already zero.
   */
  lemma DistanceFromLocalAsWritten(v: seq<Vec>, pos: Vec, m: MathEnv)
    requires DistinctVertices(v) && IsSqrt(m.sqrt)
    ensures DistanceFromLocal(v, pos, m) ==
      if PointInside(v, pos) then 0.0
      else Min3(DistanceFromFiniteLine(pos, v[0], v[1], m),
                DistanceFromFiniteLine(pos, v[1], v[2], m),
                DistanceFromFiniteLine(pos, v[2], v[0], m))
  {
    PointInsideDisagreement(v, pos);
    if PointInside(v, pos) != PointInsideClosed(v, pos) {
      DistanceFromFiniteLineAtEnds(v[0], v[1], m);
    }
  }

  /** distanceFrom in the local frame is zero at each vertex: each vertex ends an edge. */
  lemma DistanceFromLocalAtVertex(v: seq<Vec>, k: nat, m: MathEnv)
    requires DistinctVertices(v) && IsSqrt(m.sqrt) && k < 3
    ensures DistanceFromLocal(v, v[k], m) == 0.0
  {
    DistanceFromLocalProperties(v, v[k], m);
    if k == 0 {
      DistanceFromFiniteLineAtEnds(v[0], v[1], m);
    } else if k == 1 {
      DistanceFromFiniteLineAtEnds(v[1], v[2], m);
    } else {
      DistanceFromFiniteLineAtEnds(v[2], v[0], m);
    }
  }
}
