/**
 * Planar vectors (src/vector.ts). Every static operation of the source returns a new vector built
 * from an expression, so a vector is a value here; the in-place instance mutators live in
 * VectorObjects. Numbers are reals; Math.sqrt, Math.atan2, Math.PI and the rotation the source
 * calls but does not show are taken from an explicit MathEnv whose laws are stated by Lawful.
 */
module Vectors {

  datatype Vec = Vec(x: real, y: real)

  /** What the vector code borrows from its environment: Math.sqrt, Math.atan2, Math.PI and Vector.rotate. */
  datatype MathEnv = MathEnv(sqrt: real -> real, atan2: (real, real) -> real, pi: real, rotate: (Vec, real) -> Vec)

  /** sqrt returns the non-negative square root of every non-negative argument. */
  ghost predicate IsSqrt(sqrt: real -> real) {
    forall x: real :: 0.0 <= x ==> 0.0 <= sqrt(x) && sqrt(x) * sqrt(x) == x
  }

  /** The laws a planar rotation obeys whichever way it turns, one constructor per law. */
  datatype RotationLaw = TurnByZero | TurnsAdd | HalfTurn | Additive | Homogeneous | KeepsLength

  /**
   * What each law says of m.rotate: turning by 0 is the identity, turns add, a half turn (pi)
   * negates, and the map is linear and keeps lengths.
   */
  ghost predicate Obeys(m: MathEnv, law: RotationLaw) {
    match law
    case TurnByZero => forall v: Vec :: m.rotate(v, 0.0) == v
    case TurnsAdd => forall v: Vec, a: real, b: real :: m.rotate(m.rotate(v, a), b) == m.rotate(v, a + b)
    case HalfTurn => forall v: Vec :: m.rotate(v, m.pi) == Multiply(v, -1.0)
    case Additive => forall a: Vec, b: Vec, t: real :: m.rotate(Add(a, b), t) == Add(m.rotate(a, t), m.rotate(b, t))
    case Homogeneous => forall a: Vec, s: real, t: real :: m.rotate(Multiply(a, s), t) == Multiply(m.rotate(a, t), s)
    case KeepsLength => forall v: Vec, t: real :: NormSq(m.rotate(v, t)) == NormSq(v)
  }

  /**
   * m.rotate is a planar rotation. The laws are indexed so that a proof draws on one of them
   * only through the lemmas below that name it.
   */
  ghost predicate IsRotation(m: MathEnv) {
    forall law: RotationLaw :: Obeys(m, law)
  }

  ghost predicate Lawful(m: MathEnv) {
    IsSqrt(m.sqrt) && IsRotation(m)
  }

  /**
   * The clockwise convention, rotate(v, t) = R(-t) v with R the standard rotation matrix: with
   * the real Math.atan2, turning a vector by its own atan2 angle lays it on the x-axis.
   */
  ghost predicate Clockwise(m: MathEnv) {
    forall v: Vec :: m.rotate(v, m.atan2(v.y, v.x)).y == 0.0
  }

  /**
   * The counter-clockwise convention, rotate(v, t) = R(t) v: a quarter turn takes (x, y) to
   * (-y, x), and turning a vector back by its own atan2 angle lays it on the x-axis.
   */
  ghost predicate CounterClockwise(m: MathEnv) {
    && (forall v: Vec {:trigger QuarterTurn(m, v)} :: QuarterTurn(m, v) == Vec(-v.y, v.x))
    && (forall v: Vec {:trigger TurnBack(m, v)} :: TurnBack(m, v).y == 0.0)
  }

  /** v turned by a quarter turn, Math.PI / 2. */
  function QuarterTurn(m: MathEnv, v: Vec): Vec {
    m.rotate(v, m.pi / 2.0)
  }

  /** v turned back by its own atan2 angle. */
  function TurnBack(m: MathEnv, v: Vec): Vec {
    m.rotate(v, -m.atan2(v.y, v.x))
  }

  /** Vector.origin(): the zero vector. */
  function Origin(): (o: Vec)
    ensures IsZero(o)
  {
    Vec(0.0, 0.0)
  }

  /** isZero(). */
  predicate IsZero(v: Vec) {
    v.x == 0.0 && v.y == 0.0
  }

  /** Vector.add(a, b). */
  function Add(a: Vec, b: Vec): Vec {
    Vec(a.x + b.x, a.y + b.y)
  }

  /** Vector.multiply(a, scalar). */
  function Multiply(a: Vec, scalar: real): Vec {
    Vec(a.x * scalar, a.y * scalar)
  }

  /** Vector.subtract(a, b), spelled as the triangle code spells it: add(a, multiply(b, -1)). Adding b back gives a. */
  function Subtract(a: Vec, b: Vec): (d: Vec)
    ensures Add(d, b) == a
  {
    Add(a, Multiply(b, -1.0))
  }

  /** Vector.dot(a, b). */
  function Dot(a: Vec, b: Vec): real {
    a.x * b.x + a.y * b.y
  }

  /** The radicand of magnitude(): Math.pow(x, 2) + Math.pow(y, 2). */
  function NormSq(v: Vec): real {
    v.x * v.x + v.y * v.y
  }

  /** The radicand of Vector.distance(a, b): Math.pow(a.x - b.x, 2) + Math.pow(a.y - b.y, 2). */
  function DistanceSq(a: Vec, b: Vec): real {
    (a.x - b.x) * (a.x - b.x) + (a.y - b.y) * (a.y - b.y)
  }

  /** magnitude(): the non-negative square root of x^2 + y^2, zero exactly for the zero vector. */
  function Magnitude(v: Vec, m: MathEnv): (r: real)
    requires IsSqrt(m.sqrt)
    ensures 0.0 <= r && r * r == NormSq(v)
    ensures r == 0.0 <==> IsZero(v)
  {
    var r := m.sqrt(NormSq(v));
    assert r * r == NormSq(v);
    assert r == 0.0 ==> IsZero(v) by {
      if r == 0.0 { SquaresVanish(v.x, v.y); }
    }
    assert IsZero(v) ==> r == 0.0 by {
      if IsZero(v) { ZeroSquare(r); }
    }
    r
  }

  /** Vector.distance(a, b): non-negative, squares to DistanceSq, zero exactly when a == b. */
  function Distance(a: Vec, b: Vec, m: MathEnv): (r: real)
    requires IsSqrt(m.sqrt)
    ensures 0.0 <= r && r * r == DistanceSq(a, b)
    ensures r == 0.0 <==> a == b
  {
    var r := m.sqrt(DistanceSq(a, b));
    assert r * r == DistanceSq(a, b);
    assert r == 0.0 ==> a == b by {
      if r == 0.0 { SquaresVanish(a.x - b.x, a.y - b.y); }
    }
    assert a == b ==> r == 0.0 by {
      if a == b { ZeroSquare(r); }
    }
    r
  }

  /**
   * unit(): defined for a non-zero vector; the result has length 1, points the same way as v
   * (their dot product is the length of v) and is parallel to v.
   */
  function Unit(v: Vec, m: MathEnv): (u: Vec)
    requires IsSqrt(m.sqrt) && !IsZero(v)
    ensures NormSq(u) == 1.0
    ensures Dot(u, v) == Magnitude(v, m)
    ensures u.x * v.y == u.y * v.x
  {
    var len := Magnitude(v, m);
    var u := Multiply(v, 1.0 / len);
    NormSqOfMultiple(v, 1.0 / len);
    assert (1.0 / len) * (1.0 / len) * (len * len) == 1.0;
    assert Dot(u, v) == (1.0 / len) * NormSq(v);
    u
  }

  /** Vector.fromArray(a): the first two entries, for an array of at least two numbers. */
  function FromArray(a: seq<real>): (v: Vec)
    requires |a| >= 2
    ensures [v.x, v.y] == a[..2]
  {
    Vec(a[0], a[1])
  }

  lemma ZeroSquare(r: real)
    requires r * r == 0.0
    ensures r == 0.0
  {
    if r != 0.0 {
      calc {
        0.0;
      ==
        r * r;
      >
        0.0;
      }
    }
  }

  lemma SquaresVanish(a: real, b: real)
    requires a * a + b * b == 0.0
    ensures a == 0.0 && b == 0.0
  {
    if a != 0.0 {
      calc {
        0.0;
      ==
        a * a + b * b;
      >=
        a * a;
      >
        0.0;
      }
    }
    if b != 0.0 {
      calc {
        0.0;
      ==
        a * a + b * b;
      >=
        b * b;
      >
        0.0;
      }
    }
  }

  /** The squared distance is non-negative and zero exactly between equal points. */
  lemma DistanceSqProperties(a: Vec, b: Vec)
    ensures DistanceSq(a, b) >= 0.0
    ensures DistanceSq(a, b) == 0.0 <==> a == b
  {
    var dx := a.x - b.x;
    var dy := a.y - b.y;
    assert dx * dx >= 0.0 && dy * dy >= 0.0 by {
      if dx < 0.0 { assert dx * dx == (-dx) * (-dx); }
      if dy < 0.0 { assert dy * dy == (-dy) * (-dy); }
    }
    if DistanceSq(a, b) == 0.0 {
      SquaresVanish(dx, dy);
    }
  }

  lemma NormSqOfMultiple(v: Vec, s: real)
    ensures NormSq(Multiply(v, s)) == s * s * NormSq(v)
  {
  }

  /** fromArray is a left inverse of reading out the components, and reads the first two entries. */
  lemma FromArrayComponents(v: Vec, a: seq<real>)
    requires |a| >= 2
    ensures FromArray([v.x, v.y]) == v
    ensures FromArray(a).x == a[0] && FromArray(a).y == a[1]
  {
  }

  lemma AddCommutative(a: Vec, b: Vec)
    ensures Add(a, b) == Add(b, a)
  {
  }

  lemma AddAssociative(a: Vec, b: Vec, c: Vec)
    ensures Add(Add(a, b), c) == Add(a, Add(b, c))
  {
  }

  /** origin() is a two-sided identity of add and is the zero vector. */
  lemma OriginIsIdentity(a: Vec)
    ensures Add(a, Origin()) == a && Add(Origin(), a) == a
    ensures IsZero(Origin())
  {
  }

  /** isZero() holds exactly of origin(). */
  lemma IsZeroIsOrigin(v: Vec)
    ensures IsZero(v) <==> v == Origin()
  {
  }

  lemma MultiplyIdentities(a: Vec)
    ensures Multiply(a, 1.0) == a
    ensures Multiply(a, 0.0) == Origin()
  {
  }

  lemma MultiplyCompose(a: Vec, s: real, t: real)
    ensures Multiply(Multiply(a, s), t) == Multiply(a, s * t)
  {
  }

  /** subtract undoes add. */
  lemma SubtractCancelsAdd(a: Vec, b: Vec)
    ensures Subtract(Add(a, b), b) == a
    ensures Add(Subtract(a, b), b) == a
  {
  }

  lemma DotSymmetric(a: Vec, b: Vec)
    ensures Dot(a, b) == Dot(b, a)
  {
  }

  /** dot is linear in its first argument (and so, by symmetry, in both). */
  lemma DotBilinear(a: Vec, b: Vec, c: Vec, s: real)
    ensures Dot(Add(a, b), c) == Dot(a, c) + Dot(b, c)
    ensures Dot(Multiply(a, s), c) == s * Dot(a, c)
    ensures Dot(c, Add(a, b)) == Dot(c, a) + Dot(c, b)
    ensures Dot(c, Multiply(a, s)) == s * Dot(c, a)
  {
  }

  /** dot(a, a) is non-negative and is the square of the magnitude. */
  lemma DotSelfIsSquaredMagnitude(a: Vec, m: MathEnv)
    requires IsSqrt(m.sqrt)
    ensures Dot(a, a) >= 0.0
    ensures Dot(a, a) == Magnitude(a, m) * Magnitude(a, m)
  {
  }

  /** distance is symmetric, zero from a point to itself, and the magnitude of the difference. */
  lemma DistanceProperties(a: Vec, b: Vec, m: MathEnv)
    requires IsSqrt(m.sqrt)
    ensures Distance(a, b, m) == Distance(b, a, m)
    ensures Distance(a, a, m) == 0.0
    ensures Distance(a, b, m) == Magnitude(Subtract(a, b), m)
  {
    assert DistanceSq(a, b) == DistanceSq(b, a);
    assert DistanceSq(a, b) == NormSq(Subtract(a, b));
  }

  /** unit() is the vector scaled by the reciprocal of its magnitude. */
  lemma UnitIsScaledByReciprocal(v: Vec, m: MathEnv)
    requires IsSqrt(m.sqrt) && !IsZero(v)
    ensures Unit(v, m) == Multiply(v, 1.0 / Magnitude(v, m))
  {
  }

  /** A zero product with a non-zero factor has the other factor zero. */
  lemma ProductZero(a: real, b: real)
    requires a * b == 0.0 && b != 0.0
    ensures a == 0.0
  {
  }

  /** A non-negative number that squares to 1 is 1. */
  lemma UnitRoot(r: real)
    requires r >= 0.0 && r * r == 1.0
    ensures r == 1.0
  {
    assert (r - 1.0) * (r + 1.0) == 0.0;
    ProductZero(r - 1.0, r + 1.0);
  }

  /** unit() has magnitude 1. */
  lemma UnitHasMagnitudeOne(v: Vec, m: MathEnv)
    requires IsSqrt(m.sqrt) && !IsZero(v)
    ensures Magnitude(Unit(v, m), m) == 1.0
  {
    UnitRoot(Magnitude(Unit(v, m), m));
  }

  /** The rotation laws, one instance at a time. */
  lemma RotateByZero(m: MathEnv, v: Vec)
    requires IsRotation(m)
    ensures m.rotate(v, 0.0) == v
  {
    assert Obeys(m, TurnByZero);
  }

  lemma RotateTwice(m: MathEnv, v: Vec, a: real, b: real, c: real)
    requires IsRotation(m) && a + b == c
    ensures m.rotate(m.rotate(v, a), b) == m.rotate(v, c)
  {
    assert Obeys(m, TurnsAdd);
  }

  lemma RotateHalfTurn(m: MathEnv, v: Vec)
    requires IsRotation(m)
    ensures m.rotate(v, m.pi) == Multiply(v, -1.0)
  {
    assert Obeys(m, HalfTurn);
  }

  lemma RotateAdd(m: MathEnv, a: Vec, b: Vec, t: real)
    requires IsRotation(m)
    ensures m.rotate(Add(a, b), t) == Add(m.rotate(a, t), m.rotate(b, t))
  {
    assert Obeys(m, Additive);
  }

  lemma RotateMultiply(m: MathEnv, a: Vec, s: real, t: real)
    requires IsRotation(m)
    ensures m.rotate(Multiply(a, s), t) == Multiply(m.rotate(a, t), s)
  {
    assert Obeys(m, Homogeneous);
  }

  lemma RotateKeepsLength(m: MathEnv, v: Vec, t: real)
    requires IsRotation(m)
    ensures NormSq(m.rotate(v, t)) == NormSq(v)
  {
    assert Obeys(m, KeepsLength);
  }

  lemma RotateAligns(m: MathEnv, v: Vec)
    requires Clockwise(m)
    ensures m.rotate(v, m.atan2(v.y, v.x)).y == 0.0
  {
  }

  lemma RotateQuarterTurn(m: MathEnv, v: Vec)
    requires CounterClockwise(m)
    ensures m.rotate(v, m.pi / 2.0) == Vec(-v.y, v.x)
  {
    assert QuarterTurn(m, v) == Vec(-v.y, v.x);
  }

  lemma RotateBackAligns(m: MathEnv, v: Vec)
    requires CounterClockwise(m)
    ensures m.rotate(v, -m.atan2(v.y, v.x)).y == 0.0
  {
    assert TurnBack(m, v).y == 0.0;
  }

  /** Consequences of the rotation laws used by the triangle code. */
  lemma RotateSubtract(m: MathEnv, a: Vec, b: Vec, t: real)
    requires IsRotation(m)
    ensures m.rotate(Subtract(a, b), t) == Subtract(m.rotate(a, t), m.rotate(b, t))
  {
    RotateMultiply(m, b, -1.0, t);
    RotateAdd(m, a, Multiply(b, -1.0), t);
  }

  lemma RotateOrigin(m: MathEnv, t: real)
    requires IsRotation(m)
    ensures m.rotate(Origin(), t) == Origin()
  {
    RotateMultiply(m, Origin(), 0.0, t);
    assert Multiply(Origin(), 0.0) == Origin();
  }
}
