/**
 * The discretisation behind Triangle.decompose (src/charges/triangle.ts): triangular numbers,
 * the side length the counting loop settles on, and the lattice of point charges the nested
 * loops emit, as functions the imperative decompose is proved against.
 */
module Lattice {
  import opened Vectors

  /** A point charge: its charge and its position (point_charge.ts is not part of this model). */
  datatype PointCharge = PointCharge(charge: real, position: Vec)

  /** The n-th triangular number 0 + 1 + ... + n. */
  function Triangular(n: nat): nat {
    if n == 0 then 0 else n + Triangular(n - 1)
  }

  lemma {:induction false} TriangularClosedForm(n: nat)
    ensures 2 * Triangular(n) == n * (n + 1)
  {
    if n > 0 {
      TriangularClosedForm(n - 1);
      assert (n - 1) * n + 2 * n == n * (n + 1);
    }
  }

  lemma {:induction false} TriangularMonotone(a: nat, b: nat)
    requires a <= b
    ensures Triangular(a) <= Triangular(b)
    ensures a < b ==> Triangular(a) < Triangular(b)
  {
    if a < b {
      TriangularMonotone(a, b - 1);
    }
  }

  /** The least k >= from with Triangular(k + 1) >= detail: the counting loop resumed at side from. */
  function SideFrom(from: nat, detail: int): (s: nat)
    ensures s >= from && Triangular(s + 1) >= detail
    ensures forall j :: from + 1 <= j <= s ==> Triangular(j) < detail
    decreases if Triangular(from + 1) < detail then detail - Triangular(from + 1) else 0
  {
    if Triangular(from + 1) >= detail then from
    else
      assert Triangular(from + 2) == from + 2 + Triangular(from + 1);
      SideFrom(from + 1, detail)
  }

  /**
   * The side length decompose settles on: at least 1, Triangular(s + 1) charges reach detail, and
   * no smaller triangular number from 3 up does.
   */
  function SideLength(detail: int): (s: nat)
    ensures s >= 1 && Triangular(s + 1) >= detail
    ensures forall j :: 2 <= j <= s ==> Triangular(j) < detail
  {
    SideFrom(1, detail)
  }

  /** The side length is the only one with those properties. */
  lemma SideLengthUnique(detail: int, s: nat)
    requires s >= 1 && Triangular(s + 1) >= detail
    requires forall j :: 2 <= j <= s ==> Triangular(j) < detail
    ensures s == SideLength(detail)
  {
    var t := SideLength(detail);
  }

  /** Triangular(SideLength(detail) + 1) is the least triangular number, from 3 up, that reaches detail. */
  lemma SideLengthLeast(detail: int, n: nat)
    requires n >= 2 && Triangular(n) >= detail
    ensures Triangular(SideLength(detail) + 1) <= Triangular(n)
  {
    var s := SideLength(detail);
    if n > s {
      TriangularMonotone(s + 1, n);
    }
  }

  /** The lattice of a decomposition: the charge each point carries, the base point, the two step vectors, the side. */
  datatype Grid = Grid(charge: real, origin: Vec, unit1: Vec, unit2: Vec, side: nat)

  /** origin + x * unit1 + y * unit2. */
  function LatticePoint(g: Grid, x: nat, y: nat): Vec {
    Add(g.origin, Add(Multiply(g.unit1, x as real), Multiply(g.unit2, y as real)))
  }

  /** The number of charges the inner loop emits in row x. */
  function RowWidth(g: Grid, x: nat): nat
    requires x <= g.side
  {
    g.side - x + 1
  }

  /** The first `count` charges of row x, in the order the inner loop emits them. */
  function Row(g: Grid, x: nat, count: nat): (r: seq<PointCharge>)
    ensures |r| == count
  {
    if count == 0 then [] else Row(g, x, count - 1) + [PointCharge(g.charge, LatticePoint(g, x, count - 1))]
  }

  /** The charges of the first `rows` rows, in the order the outer loop emits them. */
  function Rows(g: Grid, rows: nat): seq<PointCharge>
    requires rows <= g.side + 1
  {
    if rows == 0 then [] else Rows(g, rows - 1) + Row(g, rows - 1, RowWidth(g, rows - 1))
  }

  /** Everything the nested loops emit. */
  function Cloud(g: Grid): seq<PointCharge> {
    Rows(g, g.side + 1)
  }

  /** Entry y of a row is the charge at lattice point (x, y). */
  lemma {:induction false} RowElement(g: Grid, x: nat, count: nat, y: nat)
    requires y < count
    ensures Row(g, x, count)[y] == PointCharge(g.charge, LatticePoint(g, x, y))
  {
    if y < count - 1 {
      RowElement(g, x, count - 1, y);
    }
  }

  /** The first `rows` rows hold as many charges as the triangle of side g.side minus the rows still to come. */
  lemma {:induction false} RowsLength(g: Grid, rows: nat)
    requires rows <= g.side + 1
    ensures |Rows(g, rows)| + Triangular(g.side + 1 - rows) == Triangular(g.side + 1)
  {
    if rows > 0 {
      RowsLength(g, rows - 1);
    }
  }

  /** The nested loops emit exactly Triangular(side + 1) = (side + 1)(side + 2) / 2 charges. */
  lemma CloudSize(g: Grid)
    ensures |Cloud(g)| == Triangular(g.side + 1)
    ensures 2 * |Cloud(g)| == (g.side + 1) * (g.side + 2)
  {
    RowsLength(g, g.side + 1);
    TriangularClosedForm(g.side + 1);
  }

  /** Fewer rows are a prefix of more rows. */
  lemma {:induction false} RowsPrefix(g: Grid, r: nat, r2: nat)
    requires r <= r2 <= g.side + 1
    ensures Rows(g, r) <= Rows(g, r2)
  {
    if r < r2 {
      RowsPrefix(g, r, r2 - 1);
    }
  }

  /**
   * Lattice point (x, y), for x + y <= side, is emitted at position |Rows(g, x)| + y: row x starts
   * after all charges of the earlier rows.
   */
  lemma CloudIndex(g: Grid, x: nat, y: nat)
    requires x + y <= g.side
    ensures |Rows(g, x)| + y < |Cloud(g)|
    ensures Cloud(g)[|Rows(g, x)| + y] == PointCharge(g.charge, LatticePoint(g, x, y))
  {
    RowsPrefix(g, x + 1, g.side + 1);
    RowElement(g, x, RowWidth(g, x), y);
    assert Rows(g, x + 1) == Rows(g, x) + Row(g, x, RowWidth(g, x));
    assert Rows(g, x + 1)[|Rows(g, x)| + y] == Row(g, x, RowWidth(g, x))[y];
  }

  /** c is the charge of some lattice point (x, y) with x, y >= 0 and x + y <= side. */
  ghost predicate OnLattice(g: Grid, c: PointCharge) {
    exists x: nat, y: nat :: x + y <= g.side && c == PointCharge(g.charge, LatticePoint(g, x, y))
  }

  lemma {:induction false} RowsOnLattice(g: Grid, rows: nat, k: nat)
    requires rows <= g.side + 1 && k < |Rows(g, rows)|
    ensures OnLattice(g, Rows(g, rows)[k])
  {
    var prev := Rows(g, rows - 1);
    if k < |prev| {
      RowsOnLattice(g, rows - 1, k);
    } else {
      var x, y := rows - 1, k - |prev|;
      RowElement(g, x, RowWidth(g, x), y);
      assert Rows(g, rows)[k] == PointCharge(g.charge, LatticePoint(g, x, y));
    }
  }

  /** Every emitted charge sits on the lattice and carries the grid's charge. */
  lemma CloudOnLattice(g: Grid, k: nat)
    requires k < |Cloud(g)|
    ensures OnLattice(g, Cloud(g)[k])
    ensures Cloud(g)[k].charge == g.charge
  {
    RowsOnLattice(g, g.side + 1, k);
  }

  /** The total charge of a list of point charges, summed in list order. */
  function ChargeSum(s: seq<PointCharge>): real {
    if |s| == 0 then 0.0 else ChargeSum(s[..|s| - 1]) + s[|s| - 1].charge
  }

  lemma {:induction false} ChargeSumUniform(s: seq<PointCharge>, q: real)
    requires forall k :: 0 <= k < |s| ==> s[k].charge == q
    ensures ChargeSum(s) == q * (|s| as real)
  {
    if |s| > 0 {
      ChargeSumUniform(s[..|s| - 1], q);
    }
  }

  lemma {:induction false} ChargeSumPointwise(s: seq<PointCharge>, t: seq<PointCharge>)
    requires |s| == |t| && forall k :: 0 <= k < |s| ==> s[k].charge == t[k].charge
    ensures ChargeSum(s) == ChargeSum(t)
  {
    if |s| > 0 {
      ChargeSumPointwise(s[..|s| - 1], t[..|t| - 1]);
    }
  }

  /** Sharing `total` equally among all the charges of the cloud conserves it. */
  lemma CloudConservesCharge(g: Grid, total: real)
    requires g.charge == total / (Triangular(g.side + 1) as real)
    ensures ChargeSum(Cloud(g)) == total
  {
    CloudSize(g);
    forall k | 0 <= k < |Cloud(g)| ensures Cloud(g)[k].charge == g.charge {
      CloudOnLattice(g, k);
    }
    ChargeSumUniform(Cloud(g), g.charge);
  }

  /** The lattice decompose lays over triangle v with the given side: steps along v0v1 and v0v2. */
  function TriangleGrid(q: real, v: seq<Vec>, side: nat): Grid
    requires |v| == 3 && side >= 1
  {
    var sideLen := side as real;
    Grid(q, v[0], Multiply(Subtract(v[1], v[0]), 1.0 / sideLen), Multiply(Subtract(v[2], v[0]), 1.0 / sideLen), side)
  }

  lemma ScaleBack(e: Vec, s: real)
    requires s != 0.0
    ensures Multiply(Multiply(e, 1.0 / s), s) == e
  {
    assert e.x * (1.0 / s) * s == e.x;
    assert e.y * (1.0 / s) * s == e.y;
  }

  /** The two step vectors, taken side times, lead from v0 to v1 and to v2. */
  lemma TriangleGridSteps(q: real, v: seq<Vec>, side: nat)
    requires |v| == 3 && side >= 1
    ensures var g := TriangleGrid(q, v, side);
            Multiply(g.unit1, side as real) == Subtract(v[1], v[0]) &&
            Multiply(g.unit2, side as real) == Subtract(v[2], v[0])
  {
    ScaleBack(Subtract(v[1], v[0]), side as real);
    ScaleBack(Subtract(v[2], v[0]), side as real);
  }

  /** Lattice points on the two axes of a grid. */
  lemma AxisPoints(g: Grid, n: nat)
    ensures LatticePoint(g, 0, 0) == g.origin
    ensures LatticePoint(g, n, 0) == Add(g.origin, Multiply(g.unit1, n as real))
    ensures LatticePoint(g, 0, n) == Add(g.origin, Multiply(g.unit2, n as real))
  {
    assert Multiply(g.unit1, 0.0) == Origin();
    assert Multiply(g.unit2, 0.0) == Origin();
  }

  /** The lattice reaches the three vertices: v0 at (0, 0), v1 at (side, 0), v2 at (0, side). */
  lemma TriangleGridCorners(q: real, v: seq<Vec>, side: nat)
    requires |v| == 3 && side >= 1
    ensures var g := TriangleGrid(q, v, side);
            LatticePoint(g, 0, 0) == v[0] && LatticePoint(g, side, 0) == v[1] && LatticePoint(g, 0, side) == v[2]
  {
    TriangleGridSteps(q, v, side);
    AxisPoints(TriangleGrid(q, v, side), side);
    SubtractCancelsAdd(v[1], v[0]);
    SubtractCancelsAdd(v[2], v[0]);
    AddCommutative(v[0], Subtract(v[1], v[0]));
    AddCommutative(v[0], Subtract(v[2], v[0]));
  }

  /**
   * The emitted charges include the three vertices: v0 first, v1 as the first charge of the
   * last row, v2 as the last charge of the first row.
   */
  lemma TriangleGridVertices(q: real, v: seq<Vec>, side: nat)
    requires |v| == 3 && side >= 1
    ensures var g := TriangleGrid(q, v, side);
            |Rows(g, side)| < |Cloud(g)| && side < |Cloud(g)| &&
            Cloud(g)[0] == PointCharge(q, v[0]) &&
            Cloud(g)[|Rows(g, side)|] == PointCharge(q, v[1]) &&
            Cloud(g)[side] == PointCharge(q, v[2])
  {
    var g := TriangleGrid(q, v, side);
    TriangleGridCorners(q, v, side);
    CloudIndex(g, 0, 0);
    CloudIndex(g, side, 0);
    CloudIndex(g, 0, side);
    assert Rows(g, 0) == [];
  }

  /** The world transform of decompose: each position rotated by `rotation`, then offset by `position`. */
  function Placed(objs: seq<PointCharge>, rotation: real, position: Vec, m: MathEnv): (r: seq<PointCharge>)
    ensures |r| == |objs|
  {
    seq(|objs|, k requires 0 <= k < |objs| => PointCharge(objs[k].charge, Add(m.rotate(objs[k].position, rotation), position)))
  }

  /** The world transform moves charges but keeps every charge and so the total. */
  lemma PlacedKeepsCharges(objs: seq<PointCharge>, rotation: real, position: Vec, m: MathEnv)
    ensures forall k :: 0 <= k < |objs| ==> Placed(objs, rotation, position, m)[k].charge == objs[k].charge
    ensures ChargeSum(Placed(objs, rotation, position, m)) == ChargeSum(objs)
  {
    ChargeSumPointwise(Placed(objs, rotation, position, m), objs);
  }
}
