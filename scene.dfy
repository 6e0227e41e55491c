/**
 * The scene (src/scene.ts): a list of objects, and the two queries that superpose them. Each
 * object is seen only through its field and its potential at a point; fieldAt accumulates the
 * fields into a vector updated in place, voltageAt accumulates the potentials into a number.
 */
module Scenes {
  import opened Vectors
  import VectorObjects

  /** An object of the scene as the queries see it: its field and its potential at every point. */
  datatype Source = Source(fieldAt: Vec -> Vec, voltageAt: Vec -> real)

  /** The fields of the objects added up in list order, starting from the zero vector. */
  function FieldSum(objects: seq<Source>, pos: Vec): Vec {
    if |objects| == 0 then Origin()
    else Add(FieldSum(objects[..|objects| - 1], pos), objects[|objects| - 1].fieldAt(pos))
  }

  /** The potentials of the objects added up in list order, starting from zero. */
  function VoltageSum(objects: seq<Source>, pos: Vec): real {
    if |objects| == 0 then 0.0
    else VoltageSum(objects[..|objects| - 1], pos) + objects[|objects| - 1].voltageAt(pos)
  }

  /** A one-object scene reports exactly that object's field and potential. */
  lemma SingleSource(o: Source, pos: Vec)
    ensures FieldSum([o], pos) == o.fieldAt(pos)
    ensures VoltageSum([o], pos) == o.voltageAt(pos)
  {
    assert [o][..0] == [];
    OriginIsIdentity(o.fieldAt(pos));
  }

  /** Superposition of fields: the field of a concatenated scene is the sum of the two parts' fields. */
  lemma {:induction false} FieldSumAppend(a: seq<Source>, b: seq<Source>, pos: Vec)
    ensures FieldSum(a + b, pos) == Add(FieldSum(a, pos), FieldSum(b, pos))
    decreases |b|
  {
    if |b| == 0 {
      assert a + b == a;
      OriginIsIdentity(FieldSum(a, pos));
    } else {
      var last := b[|b| - 1];
      assert (a + b)[..|a + b| - 1] == a + b[..|b| - 1];
      FieldSumAppend(a, b[..|b| - 1], pos);
      AddAssociative(FieldSum(a, pos), FieldSum(b[..|b| - 1], pos), last.fieldAt(pos));
    }
  }

  /** Superposition of potentials: the potential of a concatenated scene is the sum of the parts'. */
  lemma {:induction false} VoltageSumAppend(a: seq<Source>, b: seq<Source>, pos: Vec)
    ensures VoltageSum(a + b, pos) == VoltageSum(a, pos) + VoltageSum(b, pos)
    decreases |b|
  {
    if |b| == 0 {
      assert a + b == a;
    } else {
      assert (a + b)[..|a + b| - 1] == a + b[..|b| - 1];
      VoltageSumAppend(a, b[..|b| - 1], pos);
    }
  }

  /**
   * Matching the last object of a against b[j]: when a and b hold the same objects, what
   * is left of each once that object is removed still holds the same objects.
   */
  lemma RemoveMatched(a: seq<Source>, b: seq<Source>, j: nat)
    requires multiset(a) == multiset(b) && |a| > 0 && j < |b| && b[j] == a[|a| - 1]
    ensures multiset(a[..|a| - 1]) == multiset(b[..j] + b[j + 1..])
  {
    var x := b[j];
    assert a == a[..|a| - 1] + [x];
    assert b == b[..j] + [x] + b[j + 1..];
    assert multiset(b) == multiset(b[..j]) + multiset{x} + multiset(b[j + 1..]);
    assert multiset(b[..j] + b[j + 1..]) == multiset(b[..j]) + multiset(b[j + 1..]);
    assert multiset(a) == multiset(a[..|a| - 1]) + multiset{x};
    assert multiset(a[..|a| - 1]) == multiset(a) - multiset{x};
    assert multiset(b[..j] + b[j + 1..]) == multiset(b) - multiset{x};
  }

  /** The order of the objects does not matter to the field: any permutation gives the same sum. */
  lemma {:induction false} FieldSumPermutation(a: seq<Source>, b: seq<Source>, pos: Vec)
    requires multiset(a) == multiset(b)
    ensures FieldSum(a, pos) == FieldSum(b, pos)
    decreases |a|
  {
    if |a| == 0 {
      assert |multiset(b)| == 0;
    } else {
      var init, x := a[..|a| - 1], a[|a| - 1];
      assert a == init + [x];
      assert x in multiset(b);
      var j :| 0 <= j < |b| && b[j] == x;
      var left, right := b[..j], b[j + 1..];
      RemoveMatched(a, b, j);
      assert b == left + [x] + right;
      FieldSumPermutation(init, left + right, pos);
      FieldSumAppend(left, right, pos);
      FieldSumAppend(left + [x], right, pos);
      SingleSource(x, pos);
      FieldSumAppend(left, [x], pos);
      var l, r, f := FieldSum(left, pos), FieldSum(right, pos), x.fieldAt(pos);
      calc {
        FieldSum(b, pos);
        Add(Add(l, f), r);
        { AddAssociative(l, f, r); }
        Add(l, Add(f, r));
        { AddCommutative(f, r); }
        Add(l, Add(r, f));
        { AddAssociative(l, r, f); }
        Add(Add(l, r), f);
        FieldSum(a, pos);
      }
    }
  }

  /** The order of the objects does not matter to the potential either. */
  lemma {:induction false} VoltageSumPermutation(a: seq<Source>, b: seq<Source>, pos: Vec)
    requires multiset(a) == multiset(b)
    ensures VoltageSum(a, pos) == VoltageSum(b, pos)
    decreases |a|
  {
    if |a| == 0 {
      assert |multiset(b)| == 0;
    } else {
      var init, x := a[..|a| - 1], a[|a| - 1];
      assert a == init + [x];
      assert x in multiset(b);
      var j :| 0 <= j < |b| && b[j] == x;
      var left, right := b[..j], b[j + 1..];
      RemoveMatched(a, b, j);
      assert b == left + [x] + right;
      VoltageSumPermutation(init, left + right, pos);
      VoltageSumAppend(left, right, pos);
      VoltageSumAppend(left + [x], right, pos);
      SingleSource(x, pos);
      VoltageSumAppend(left, [x], pos);
    }
  }

  class Scene {
    /** The objects of the scene, in insertion order. */
    var objects: seq<Source>

    /** A new scene holds no objects. */
    constructor ()
      ensures objects == []
    {
      objects := [];
    }

    /** objects.push(o): the object goes to the end of the list. */
    method Push(o: Source)
      modifies this
      ensures objects == old(objects) + [o]
    {
      objects := objects + [o];
    }

    /**
     * fieldAt(pos): a fresh origin vector gets each object's field added in place, in list
     * order; the result is that vector, which holds the superposed field. Nothing else changes.
     */
    method FieldAt(pos: Vec) returns (out: VectorObjects.Vector)
      ensures fresh(out)
      ensures out.Value() == FieldSum(objects, pos)
    {
      out := new VectorObjects.Vector(0.0, 0.0);
      for i := 0 to |objects|
        invariant out.Value() == FieldSum(objects[..i], pos)
      {
        assert objects[..i + 1][..i] == objects[..i];
        out.Add(objects[i].fieldAt(pos));
      }
      assert objects[..|objects|] == objects;
    }

    /** voltageAt(pos): the potentials of the objects added up in list order. */
    method VoltageAt(pos: Vec) returns (potential: real)
      ensures potential == VoltageSum(objects, pos)
    {
      potential := 0.0;
      for i := 0 to |objects|
        invariant potential == VoltageSum(objects[..i], pos)
      {
        assert objects[..i + 1][..i] == objects[..i];
        potential := potential + objects[i].voltageAt(pos);
      }
      assert objects[..|objects|] == objects;
    }
  }

  /** A new scene reports the zero field and zero potential everywhere. */
  method EmptySceneQueries(pos: Vec) returns (field: Vec, potential: real)
    ensures field == Origin() && potential == 0.0
  {
    var scene := new Scene();
    var out := scene.FieldAt(pos);
    field := out.Value();
    potential := scene.VoltageAt(pos);
  }
}
