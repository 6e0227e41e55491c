/**
 * The mutable side of src/vector.ts: a Vector object whose instance methods add and rotate
 * update its own x and y in place, and copy, which allocates an independent vector.
 */
module VectorObjects {
  import Vectors

  class Vector {
    var x: real
    var y: real

    /** The value the object currently holds. */
    function Value(): Vectors.Vec
      reads this
    {
      Vectors.Vec(x, y)
    }

    constructor (x: real, y: real)
      ensures Value() == Vectors.Vec(x, y)
    {
      this.x := x;
      this.y := y;
    }

    /** In-place add: this becomes this + b. */
    method Add(b: Vectors.Vec)
      modifies this
      ensures Value() == Vectors.Add(old(Value()), b)
    {
      x := x + b.x;
      y := y + b.y;
    }

    /** In-place rotate by an angle, through the environment's rotation. */
    method Rotate(angle: real, m: Vectors.MathEnv)
      modifies this
      ensures Value() == m.rotate(old(Value()), angle)
    {
      var r := m.rotate(Value(), angle);
      x := r.x;
      y := r.y;
    }

    /** copy(): a new vector with the same components. */
    method Copy() returns (c: Vector)
      ensures fresh(c) && c.Value() == Value()
    {
      c := new Vector(x, y);
    }
  }

  /**
   * Mutating a copy leaves the original untouched: the copy is a distinct object and the
   * in-place add changes only its receiver.
   */
  method CopyIsIndependent(v: Vector, d: Vectors.Vec) returns (c: Vector)
    ensures fresh(c) && c != v
    ensures c.Value() == Vectors.Add(v.Value(), d)
    ensures v.Value() == old(v.Value())
  {
    c := v.Copy();
    c.Add(d);
  }
}
