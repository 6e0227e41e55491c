/**
 * The charged triangle object (src/charges/triangle.ts). The constructor moves the caller's
 * vertex vectors in place and shifts the triangle's own position vector, so the vertices and
 * the position are VectorObjects.Vector objects; the geometry it computes is specified by
 * TriangleGeometry.Normalize, and decompose by the lattice functions of Lattice.
 */
module TriangleCharge {
  import opened Wrappers
  import opened Vectors
  import opened Numerics
  import opened TriangleGeometry
  import opened Lattice
  import VectorObjects

  type Vector = VectorObjects.Vector

  /** Pairwise distinct vector objects: no vertex vector is shared. */
  ghost predicate Distinct(vs: seq<Vector>) {
    forall i, j :: 0 <= i < j < |vs| ==> vs[i] != vs[j]
  }

  /** points.forEach(p => p.add(d)): every vector of vs has d added in place. */
  method AddToEach(vs: seq<Vector>, d: Vec)
    requires Distinct(vs)
    modifies set v | v in vs
    ensures forall k :: 0 <= k < |vs| ==> vs[k].Value() == Add(old(vs[k].Value()), d)
  {
    for i := 0 to |vs|
      invariant forall k :: 0 <= k < i ==> vs[k].Value() == Add(old(vs[k].Value()), d)
      invariant forall k :: i <= k < |vs| ==> vs[k].Value() == old(vs[k].Value())
    {
      vs[i].Add(d);
    }
  }

  /** points.forEach(p => p.rotate(angle)): every vector of vs is turned in place. */
  method RotateEach(vs: seq<Vector>, angle: real, m: MathEnv)
    requires Distinct(vs)
    modifies set v | v in vs
    ensures forall k :: 0 <= k < |vs| ==> vs[k].Value() == m.rotate(old(vs[k].Value()), angle)
  {
    for i := 0 to |vs|
      invariant forall k :: 0 <= k < i ==> vs[k].Value() == m.rotate(old(vs[k].Value()), angle)
      invariant forall k :: i <= k < |vs| ==> vs[k].Value() == old(vs[k].Value())
    {
      vs[i].Rotate(angle, m);
    }
  }

  /** The current values of three vertex objects. */
  function ValuesOf(vs: seq<Vector>): (v: seq<Vec>)
    requires |vs| == 3
    reads set u | u in vs
    ensures |v| == 3 && v[0] == vs[0].Value() && v[1] == vs[1].Value() && v[2] == vs[2].Value()
  {
    [vs[0].Value(), vs[1].Value(), vs[2].Value()]
  }

  /**
   * The centring step of the constructor: the centroid of the vertices is added to the position
   * and its negation to every vertex, so the vertices end up centred on the local origin.
   */
  method CentreInPlace(position: Vector, vs: seq<Vector>) returns (com: Vec)
    requires |vs| == 3 && Distinct(vs) && position !in vs
    modifies position, set v | v in vs
    ensures com == Centroid(old(ValuesOf(vs)))
    ensures position.Value() == Add(old(position.Value()), com)
    ensures ValuesOf(vs) == Centred(old(ValuesOf(vs)))
  {
    com := Multiply(Add(Add(vs[0].Value(), vs[1].Value()), vs[2].Value()), 1.0 / 3.0);
    position.Add(com);
    var negCOM := Multiply(com, -1.0);
    AddToEach(vs, negCOM);
  }

  /**
   * The alignment step of the constructor: every vertex is turned by the angle of the hypotenuse
   * vector, and when the tip then lies below the x-axis every vertex is turned by a further half
   * turn (pi) and the adjustment reduced by pi.
   */
  method AlignInPlace(vs: seq<Vector>, hypotVec: Vec, tipIndex: nat, m: MathEnv) returns (adjustment: real)
    requires |vs| == 3 && Distinct(vs) && tipIndex < 3
    modifies set v | v in vs
    ensures var angle := m.atan2(hypotVec.y, hypotVec.x);
            var a := RotateAll(old(ValuesOf(vs)), angle, m);
            if a[tipIndex].y < 0.0
            then ValuesOf(vs) == RotateAll(a, m.pi, m) && adjustment == angle - m.pi
            else ValuesOf(vs) == a && adjustment == angle
  {
    adjustment := m.atan2(hypotVec.y, hypotVec.x);
    RotateEach(vs, adjustment, m);
    if vs[tipIndex].y < 0.0 {
      adjustment := adjustment - m.pi;
      RotateEach(vs, m.pi, m);
    }
  }

  /** The construction properties: base-object fields, the three optional vertices and the optional density. */
  datatype Properties = Properties(
    mass: real, position: Vector, rotation: real,
    p1: Option<Vector>, p2: Option<Vector>, p3: Option<Vector>,
    chargeDensity: Option<real>)

  class Triangle {
    var mass: real
    var position: Vector
    var rotation: real
    var points: seq<Vector>
    var chargeDensity: real
    var tip: Vector
    var halfWidth: real
    /** Which vertices are the hypotenuse ends and which the tip. */
    ghost var sides: Sides

    /** Three distinct vertex objects, none of them the position, and tip one of them. */
    ghost predicate Valid()
      reads this
    {
      && |points| == 3
      && Distinct(points)
      && position !in points
      && (sides == Sides(0, 1, 2) || sides == Sides(1, 2, 0) || sides == Sides(2, 0, 1))
      && tip == points[sides.tip]
    }

    /** The local vertices' current values. */
    function Vertices(): (v: seq<Vec>)
      reads this, points
      requires |points| == 3
      ensures |v| == 3
    {
      [points[0].Value(), points[1].Value(), points[2].Value()]
    }

    /**
     * The shape the constructor leaves: the centroid at the local origin, the hypotenuse
     * horizontal and the tip on or above it.
     */
    ghost predicate Normalized()
      reads this, points
      requires Valid()
    {
      var v := Vertices();
      && Add(Add(v[0], v[1]), v[2]) == Origin()
      && v[sides.hypot].y == v[sides.hypot2].y
      && tip.y >= 0.0
    }

    /**
     * The constructor after the check for p1, p2 and p3: chargeDensity defaults to 1, and the
     * vertices and position are normalised in place as Normalize describes. The local vertex
     * objects are the caller's own.
     */
    constructor (mass: real, position: Vector, rotation: real, p1: Vector, p2: Vector, p3: Vector,
                 chargeDensity: Option<real>, m: MathEnv)
      requires IsSqrt(m.sqrt)
      requires p1 != p2 && p2 != p3 && p3 != p1
      requires position != p1 && position != p2 && position != p3
      modifies position, p1, p2, p3
      ensures Valid()
      ensures this.mass == mass && this.position == position && points == [p1, p2, p3]
      ensures this.chargeDensity == chargeDensity.GetOr(1.0)
      ensures var n := Normalize([old(p1.Value()), old(p2.Value()), old(p3.Value())], old(position.Value()), rotation, m);
              && this.position.Value() == n.position
              && this.rotation == n.rotation
              && Vertices() == n.points
              && sides == n.sides
              && halfWidth == n.halfWidth
    {
      this.mass := mass;
      this.position := position;
      this.rotation := rotation;
      this.points := [p1, p2, p3];
      this.chargeDensity := chargeDensity.GetOr(1.0);
      this.tip := p1;
      new;
      ghost var raw := Vertices();
      ghost var start := position.Value();
      var d1 := Distance(points[0].Value(), points[1].Value(), m);
      var d2 := Distance(points[1].Value(), points[2].Value(), m);
      var d3 := Distance(points[2].Value(), points[0].Value(), m);
      var hypot, hypot2, tipIndex := 2, 0, 1;
      if d1 >= d2 && d1 >= d3 {
        hypot, hypot2, tipIndex := 0, 1, 2;
      } else if d2 >= d1 && d2 >= d3 {
        hypot, hypot2, tipIndex := 1, 2, 0;
      }
      sides := Sides(hypot, hypot2, tipIndex);
      assert sides == SidesOf(raw, m);
      var hypotVec := Add(points[hypot].Value(), Multiply(points[hypot2].Value(), -1.0));
      assert hypotVec == HypotVec(raw, sides);
      halfWidth := Magnitude(hypotVec, m) / 2.0;
      var com := CentreInPlace(this.position, points);
      assert com == Centroid(raw);
      ghost var centred := ValuesOf(points);
      assert centred == Centred(raw);
      var adjustmentRotation := AlignInPlace(points, hypotVec, tipIndex, m);
      this.rotation := this.rotation - adjustmentRotation;
      tip := points[tipIndex];
      NormalizeSteps(raw, start, rotation, m);
    }

    /** new Triangle(properties): fails when p1, p2 or p3 is missing, and otherwise constructs. */
    static method Create(props: Properties, m: MathEnv) returns (r: Result<Triangle, string>)
      requires IsSqrt(m.sqrt)
      requires props.p1.Some? && props.p2.Some? && props.p3.Some? ==>
                 && props.p1.value != props.p2.value && props.p2.value != props.p3.value
                 && props.p3.value != props.p1.value
                 && props.position != props.p1.value && props.position != props.p2.value
                 && props.position != props.p3.value
      modifies if props.p1.Some? && props.p2.Some? && props.p3.Some?
               then {props.position, props.p1.value, props.p2.value, props.p3.value} else {}
      ensures r.Failure? <==> props.p1.None? || props.p2.None? || props.p3.None?
      ensures r.Failure? ==> r.error == "Triangle must have 3 points in properties constructor"
      ensures r.Success? ==> fresh(r.value) && r.value.Valid()
      ensures r.Success? ==>
                && r.value.mass == props.mass && r.value.position == props.position
                && r.value.points == [props.p1.value, props.p2.value, props.p3.value]
                && r.value.chargeDensity == props.chargeDensity.GetOr(1.0)
      ensures r.Success? ==>
                var n := Normalize([old(props.p1.value.Value()), old(props.p2.value.Value()), old(props.p3.value.Value())],
                                   old(props.position.Value()), props.rotation, m);
                && r.value.position.Value() == n.position && r.value.rotation == n.rotation
                && r.value.Vertices() == n.points && r.value.sides == n.sides && r.value.halfWidth == n.halfWidth
    {
      if props.p1.None? || props.p2.None? || props.p3.None? {
        return Failure("Triangle must have 3 points in properties constructor");
      }
      var t := new Triangle(props.mass, props.position, props.rotation,
                            props.p1.value, props.p2.value, props.p3.value, props.chargeDensity, m);
      return Success(t);
    }

    /** The charge density branch of updateProperty: only chargeDensity changes. */
    method UpdateChargeDensity(value: real)
      requires Valid()
      modifies this
      ensures Valid() && chargeDensity == value
      ensures mass == old(mass) && position == old(position) && rotation == old(rotation)
      ensures points == old(points) && tip == old(tip) && halfWidth == old(halfWidth) && sides == old(sides)
      ensures Vertices() == old(Vertices()) && position.Value() == old(position.Value())
    {
      chargeDensity := value;
    }

    /** fieldAt is a stub: the field of a charged triangle is the zero vector everywhere. */
    function FieldAt(pos: Vec): (r: Vec)
      ensures IsZero(r) && r == Origin()
    {
      Origin()
    }

    /**
     * A world point seen in the local frame: offset from the position, then turned by -rotation.
     * Turning it back by rotation and adding the position gives the world point again.
     */
    function LocalOf(pos: Vec, m: MathEnv): (local: Vec)
      reads this, position
      ensures IsRotation(m) ==> Add(position.Value(), m.rotate(local, rotation)) == pos
    {
      var d := Add(pos, Multiply(position.Value(), -1.0));
      var local := m.rotate(d, -rotation);
      assert IsRotation(m) ==> m.rotate(local, rotation) == d by {
        if IsRotation(m) {
          RotateTwice(m, d, -rotation, rotation, 0.0);
          RotateByZero(m, d);
        }
      }
      local
    }

    /**
     * distanceFrom(pos): 0 when the local point passes pointInside; otherwise at most each of the
     * three edge distances and equal to one of them.
     */
    function DistanceFrom(pos: Vec, m: MathEnv): (r: real)
      reads this, points, position
      requires Valid() && IsSqrt(m.sqrt) && DistinctVertices(Vertices())
      ensures r >= 0.0
      ensures PointInside(Vertices(), LocalOf(pos, m)) ==> r == 0.0
      ensures var v := Vertices(); var local := LocalOf(pos, m);
              PointInside(v, local) ||
              (&& r <= DistanceFromFiniteLine(local, v[0], v[1], m)
               && r <= DistanceFromFiniteLine(local, v[1], v[2], m)
               && r <= DistanceFromFiniteLine(local, v[2], v[0], m)
               && (|| r == DistanceFromFiniteLine(local, v[0], v[1], m)
                   || r == DistanceFromFiniteLine(local, v[1], v[2], m)
                   || r == DistanceFromFiniteLine(local, v[2], v[0], m)))
    {
      DistanceFromLocalProperties(Vertices(), LocalOf(pos, m), m);
      DistanceFromLocalAsWritten(Vertices(), LocalOf(pos, m), m);
      DistanceFromLocal(Vertices(), LocalOf(pos, m), m)
    }

    /**
     * decompose(detail): the counting loop finds the side length, the nested loops emit the
     * lattice charges in row order, and the last two loops move them into the world frame.
     */
    method Decompose(detail: int, m: MathEnv) returns (objs: seq<PointCharge>)
      requires Valid()
      ensures var s := SideLength(detail);
              objs == Placed(Cloud(TriangleGrid(chargeDensity / (Triangular(s + 1) as real), Vertices(), s)),
                             rotation, position.Value(), m)
      ensures |objs| == Triangular(SideLength(detail) + 1)
      ensures |objs| >= 3 && |objs| >= detail
      ensures forall k :: 0 <= k < |objs| ==> objs[k].charge == chargeDensity / (|objs| as real)
      ensures ChargeSum(objs) == chargeDensity
    {
      var sideLen, triNumber := CountSide(detail);
      var charge := chargeDensity / (triNumber as real);
      var v := Vertices();
      var unit1 := Multiply(Subtract(v[1], v[0]), 1.0 / (sideLen as real));
      var unit2 := Multiply(Subtract(v[2], v[0]), 1.0 / (sideLen as real));
      var g := Grid(charge, v[0], unit1, unit2, sideLen);
      var cloud := FillLattice(g);
      objs := ToWorld(cloud, rotation, position.Value(), m);
      CloudSize(g);
      CloudConservesCharge(g, chargeDensity);
      PlacedKeepsCharges(cloud, rotation, position.Value(), m);
      forall k | 0 <= k < |cloud| ensures cloud[k].charge == charge {
        CloudOnLattice(g, k);
      }
    }
  }

  /**
   * The counting loop of decompose: triangular numbers 3, 6, 10, ... are accumulated until one
   * reaches detail, and the side length is two less than the counter it stops at.
   */
  method CountSide(detail: int) returns (sideLen: nat, triNumber: nat)
    ensures sideLen == SideLength(detail) && triNumber == Triangular(sideLen + 1)
  {
    triNumber := 3;
    var i := 3;
    while triNumber < detail
      invariant i >= 3 && triNumber == Triangular(i - 1)
      invariant forall j :: 2 <= j < i - 1 ==> Triangular(j) < detail
      decreases detail - triNumber
    {
      triNumber := triNumber + i;
      i := i + 1;
    }
    sideLen := i - 2;
    SideLengthUnique(detail, sideLen);
  }

  /** The nested loops of decompose: row x holds side - x + 1 charges at origin + x*unit1 + y*unit2. */
  method FillLattice(g: Grid) returns (cloud: seq<PointCharge>)
    ensures cloud == Cloud(g)
  {
    cloud := [];
    var x := 0;
    while x <= g.side
      invariant 0 <= x <= g.side + 1
      invariant cloud == Rows(g, x)
    {
      var y := 0;
      while y <= g.side - x
        invariant 0 <= y <= g.side - x + 1
        invariant cloud == Rows(g, x) + Row(g, x, y)
      {
        cloud := cloud + [PointCharge(g.charge, Add(g.origin, Add(Multiply(g.unit1, x as real), Multiply(g.unit2, y as real))))];
        y := y + 1;
      }
      x := x + 1;
    }
  }

  /** The last two loops of decompose: every charge is turned by the rotation, then offset by the position. */
  method ToWorld(cloud: seq<PointCharge>, rotation: real, position: Vec, m: MathEnv) returns (objs: seq<PointCharge>)
    ensures objs == Placed(cloud, rotation, position, m)
  {
    objs := cloud;
    for k := 0 to |objs|
      invariant |objs| == |cloud|
      invariant forall j :: 0 <= j < k ==> objs[j] == PointCharge(cloud[j].charge, m.rotate(cloud[j].position, rotation))
      invariant forall j :: k <= j < |objs| ==> objs[j] == cloud[j]
    {
      objs := objs[k := objs[k].(position := m.rotate(objs[k].position, rotation))];
    }
    ghost var rotated := objs;
    for k := 0 to |objs|
      invariant |objs| == |cloud|
      invariant forall j :: 0 <= j < k ==> objs[j] == rotated[j].(position := Add(rotated[j].position, position))
      invariant forall j :: k <= j < |objs| ==> objs[j] == rotated[j]
    {
      objs := objs[k := objs[k].(position := Add(objs[k].position, position))];
    }
  }

  /**
   * In either turn direction, the cached values of a triangle holding the state Normalize
   * describes agree with its local vertices: choosing the hypotenuse again from them gives the
   * cached labelling, half-width is half the hypotenuse length, the tip is the labelled tip
   * vertex and lies on or above the x-axis, and the vertices are centred on the local origin.
   */
  lemma CachedAgrees(t: Triangle, p: seq<Vec>, position: Vec, rotation: real, m: MathEnv)
    requires |p| == 3 && Lawful(m) && t.Valid()
    requires var n := Normalize(p, position, rotation, m);
             t.Vertices() == n.points && t.sides == n.sides && t.halfWidth == n.halfWidth
    ensures t.sides == SidesOf(t.Vertices(), m)
    ensures 2.0 * t.halfWidth == Distance(t.Vertices()[t.sides.hypot], t.Vertices()[t.sides.hypot2], m)
    ensures t.tip.Value() == t.Vertices()[t.sides.tip] && t.tip.y >= 0.0
    ensures Add(Add(t.Vertices()[0], t.Vertices()[1]), t.Vertices()[2]) == Origin()
  {
    var adj, shift := Adjustment(p, m), Centroid(p);
    NormalizeRelabels(p, position, rotation, m, adj, shift);
    NormalizeHalfWidth(p, position, rotation, m, adj, shift);
    NormalizeTipAbove(p, position, rotation, m, adj, shift);
    NormalizeCentred(p, position, rotation, m, adj, shift);
  }

  /**
   * Under the clockwise convention, a triangle holding the state Normalize describes is
   * normalised: its vertices are centred on the local origin, its hypotenuse is horizontal, its
   * tip is on or above the hypotenuse, its half-width is half the hypotenuse length, and
   * choosing the hypotenuse again from its vertices gives the cached labelling.
   */
  lemma NormalizedShape(t: Triangle, p: seq<Vec>, position: Vec, rotation: real, m: MathEnv)
    requires |p| == 3 && Lawful(m) && Clockwise(m) && t.Valid()
    requires var n := Normalize(p, position, rotation, m);
             t.Vertices() == n.points && t.sides == n.sides && t.halfWidth == n.halfWidth
    ensures t.Normalized()
    ensures 2.0 * t.halfWidth == Distance(t.Vertices()[t.sides.hypot], t.Vertices()[t.sides.hypot2], m)
    ensures t.sides == SidesOf(t.Vertices(), m)
  {
    NormalizeShape(p, position, rotation, m);
    CachedAgrees(t, p, position, rotation, m);
  }

  /** distanceFrom is zero at each world vertex of a triangle. */
  lemma DistanceFromVertex(t: Triangle, k: nat, m: MathEnv)
    requires t.Valid() && Lawful(m) && DistinctVertices(t.Vertices()) && k < 3
    ensures t.DistanceFrom(Add(t.position.Value(), m.rotate(t.Vertices()[k], t.rotation)), m) == 0.0
  {
    var v := t.Vertices();
    var p := t.position.Value();
    var w := m.rotate(v[k], t.rotation);
    assert Add(Add(p, w), Multiply(p, -1.0)) == w;
    RotateTwice(m, v[k], t.rotation, -t.rotation, 0.0);
    RotateByZero(m, v[k]);
    assert t.LocalOf(Add(p, w), m) == v[k];
    DistanceFromLocalAtVertex(v, k, m);
  }
}
