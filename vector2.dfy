/** Two-dimensional vectors (src/vector2.rs), with real components. */
module Vectors {

  /** `Vector2::new(x, y)` is the datatype constructor: it stores exactly `x` and `y`. */
  datatype Vector2 = Vector2(x: real, y: real) {

    /** `&self + &rhs`: component-wise addition. */
    function Add(rhs: Vector2): (r: Vector2)
      ensures r.x - x == rhs.x && r.y - y == rhs.y
    {
      Vector2(x + rhs.x, y + rhs.y)
    }
  }

  /** `Vector2::zero()`. */
  function Zero(): (z: Vector2)
    ensures z.x == 0.0 && z.y == 0.0
  {
    Vector2(0.0, 0.0)
  }

  /** The zero vector is a two-sided identity of `Add`. */
  lemma AddZero(v: Vector2)
    ensures v.Add(Zero()) == v && Zero().Add(v) == v
  {
  }

  /**
   * `a += &b` (AddAssign): the new value of `a` is `&a + &b`. The in-place
   * update of a field is the reassignment `a := AddAssign(a, b)`.
   */
  method AddAssign(a: Vector2, b: Vector2) returns (r: Vector2)
    ensures r == a.Add(b)
  {
    r := a;
    r := r.(x := r.x + b.x);
    r := r.(y := r.y + b.y);
  }
}
