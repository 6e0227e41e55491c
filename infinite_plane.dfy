/**
 * The infinite charged plane (src/charges/infinite_plane.ts). Its field is a single expression:
 * the normal scaled by 2 K sigma, signed by the side of the plane the query point is on, and
 * zero on the plane itself. Coulomb's constant K lives in a file outside this model and is a
 * parameter; the normal is never assigned by the constructor and is a parameter too.
 */
module InfinitePlaneCharge {
  import opened Vectors
  import opened Numerics

  /** The stored state: charge density (microcoulombs per metre) and the base-object fields. */
  datatype InfinitePlane = InfinitePlane(chargeDensity: real, mass: real, position: Vec, rotation: real)

  /** new InfinitePlane(chargeDensity, mass, position, rotation = 0). */
  function Construct(chargeDensity: real, mass: real, position: Vec, rotation: real := 0.0): (p: InfinitePlane)
    ensures p.chargeDensity == chargeDensity && p.mass == mass
    ensures p.position == position && p.rotation == rotation
  {
    InfinitePlane(chargeDensity, mass, position, rotation)
  }

  /**
   * Math.sign(normal . (pos - position)): which side of the plane pos is on, 1 on the side the
   * normal points to, -1 on the other and 0 on the plane.
   */
  function Side(plane: InfinitePlane, normal: Vec, pos: Vec): (s: int)
    ensures var d := Dot(normal, Subtract(pos, plane.position));
            && (s == 1 <==> d > 0.0) && (s == -1 <==> d < 0.0) && (s == 0 <==> d == 0.0)
  {
    Sign(Dot(normal, Subtract(pos, plane.position)))
  }

  /**
   * fieldAt(pos): normal * (sign(normal . (pos - position)) * 2 * sigma * K). The field is one
   * of +2 K sigma normal, -2 K sigma normal and zero; zero exactly on the plane (or for a zero
   * density, constant or normal), and the positive multiple on the side the normal points to.
   */
  function FieldAt(plane: InfinitePlane, normal: Vec, pos: Vec, k: real): (f: Vec)
    ensures var strength := 2.0 * plane.chargeDensity * k;
            && (Dot(normal, Subtract(pos, plane.position)) > 0.0 ==> f == Multiply(normal, strength))
            && (Dot(normal, Subtract(pos, plane.position)) < 0.0 ==> f == Multiply(normal, -strength))
            && (Dot(normal, Subtract(pos, plane.position)) == 0.0 ==> f == Origin())
    ensures plane.chargeDensity == 0.0 || k == 0.0 || IsZero(normal) ==> f == Origin()
  {
    Multiply(normal, (Side(plane, normal, pos) as real) * 2.0 * plane.chargeDensity * k)
  }

  /** The squared strength of the field: 4 sigma^2 K^2 |normal|^2 off the plane, zero on it. */
  lemma FieldStrength(plane: InfinitePlane, normal: Vec, pos: Vec, k: real)
    ensures var s := 2.0 * plane.chargeDensity * k;
            NormSq(FieldAt(plane, normal, pos, k))
              == if Dot(normal, Subtract(pos, plane.position)) == 0.0 then 0.0 else s * s * NormSq(normal)
  {
    var s := 2.0 * plane.chargeDensity * k;
    var d := Dot(normal, Subtract(pos, plane.position));
    if d > 0.0 {
      NormSqOfMultiple(normal, s);
    } else if d < 0.0 {
      NormSqOfMultiple(normal, -s);
    }
  }

  /** The offset from the plane's position scales inside the dot product. */
  lemma OffsetDot(plane: InfinitePlane, normal: Vec, d: Vec, s: real)
    ensures Dot(normal, Subtract(Add(plane.position, Multiply(d, s)), plane.position)) == s * Dot(normal, d)
  {
    assert Subtract(Add(plane.position, Multiply(d, s)), plane.position) == Multiply(d, s);
    DotBilinear(d, d, normal, s);
  }

  /**
   * The field does not depend on the distance from the plane: moving the query point along its
   * offset by any positive factor leaves the field unchanged.
   */
  lemma FieldIndependentOfDistance(plane: InfinitePlane, normal: Vec, d: Vec, s: real, k: real)
    requires s > 0.0
    ensures FieldAt(plane, normal, Add(plane.position, Multiply(d, s)), k)
            == FieldAt(plane, normal, Add(plane.position, d), k)
  {
    OffsetDot(plane, normal, d, s);
    OffsetDot(plane, normal, d, 1.0);
    MultiplyIdentities(d);
    SignOfPositiveMultiple(s, Dot(normal, d));
  }

  /** Mirror antisymmetry: reflecting the offset through the plane's position negates the field. */
  lemma FieldMirrorAntisymmetric(plane: InfinitePlane, normal: Vec, d: Vec, k: real)
    ensures FieldAt(plane, normal, Subtract(plane.position, d), k)
            == Multiply(FieldAt(plane, normal, Add(plane.position, d), k), -1.0)
  {
    OffsetDot(plane, normal, d, -1.0);
    OffsetDot(plane, normal, d, 1.0);
    MultiplyIdentities(d);
    assert Subtract(plane.position, d) == Add(plane.position, Multiply(d, -1.0));
    SignOfNegation(Dot(normal, d));
  }

  /** Sliding the query point along the plane (by a vector orthogonal to the normal) keeps the field. */
  lemma FieldSlidingInvariant(plane: InfinitePlane, normal: Vec, pos: Vec, t: Vec, k: real)
    requires Dot(normal, t) == 0.0
    ensures FieldAt(plane, normal, Add(pos, t), k) == FieldAt(plane, normal, pos, k)
  {
    var off := Subtract(pos, plane.position);
    assert Subtract(Add(pos, t), plane.position) == Add(off, t);
    DotBilinear(off, t, normal, 1.0);
  }

  /** A plane through the origin with upward normal and unit density: 2K upwards above, 2K downwards below. */
  lemma FieldExample(k: real)
    ensures var plane := Construct(1.0, 1.0, Origin());
            && plane.rotation == 0.0
            && FieldAt(plane, Vec(0.0, 1.0), Vec(3.0, 5.0), k) == Vec(0.0, 2.0 * k)
            && FieldAt(plane, Vec(0.0, 1.0), Vec(3.0, -5.0), k) == Vec(0.0, -2.0 * k)
            && FieldAt(plane, Vec(0.0, 1.0), Vec(-7.0, 0.0), k) == Origin()
  {
  }
}
