/** Axis-aligned bounding boxes (src/bound.rs). */
module Bounds {
  import opened Vectors

  /** `y` grows downward: `top <= bottom` and `left <= right` for a well-formed box. */
  datatype BoundingBox = BoundingBox(top: real, right: real, bottom: real, left: real) {

    predicate WellFormed() {
      left <= right && top <= bottom
    }

    /**
     * `intersects`: false as soon as one box lies at or beyond the other's
     * opposite edge on either axis, so boxes that only touch do not intersect.
     */
    predicate Intersects(other: BoundingBox) {
      !(left >= other.right || other.left >= right || bottom <= other.top || other.bottom <= top)
    }

    /** `contains`: tests the horizontal extent only, strictly, and ignores `point.y`. */
    predicate Contains(point: Vector2) {
      point.x < right && point.x > left
    }

    /** A point strictly inside the box on both axes (the reference notion for `Intersects`). */
    predicate Interior(p: Vector2) {
      left < p.x < right && top < p.y < bottom
    }

    /** `self + &v`: the box shifted by `v`. */
    function Translate(v: Vector2): (r: BoundingBox)
      ensures r.left == left + v.x && r.right == right + v.x
      ensures r.top == top + v.y && r.bottom == bottom + v.y
      ensures r.right - r.left == right - left && r.bottom - r.top == bottom - top
    {
      BoundingBox(top + v.y, right + v.x, bottom + v.y, left + v.x)
    }
  }

  /** `intersects` does not depend on the order of its arguments. */
  lemma IntersectsSymmetric(a: BoundingBox, b: BoundingBox)
    ensures a.Intersects(b) <==> b.Intersects(a)
  {
  }

  /** Boxes that share only an edge do not intersect (the half-open convention). */
  lemma TouchingDoNotIntersect(a: BoundingBox, b: BoundingBox)
    requires a.right == b.left || a.bottom == b.top
    ensures !a.Intersects(b) && !b.Intersects(a)
  {
  }

  /**
   * Two boxes of positive width and height intersect exactly when their
   * interiors have a point in common. (A box of zero width can still
   * "intersect" a box that straddles it.)
   */
  lemma IntersectsIffInteriorsMeet(a: BoundingBox, b: BoundingBox)
    requires a.left < a.right && a.top < a.bottom
    requires b.left < b.right && b.top < b.bottom
    ensures a.Intersects(b) <==> exists p: Vector2 :: a.Interior(p) && b.Interior(p)
  {
    if a.Intersects(b) {
      var l := if a.left < b.left then b.left else a.left;
      var r := if a.right < b.right then a.right else b.right;
      var t := if a.top < b.top then b.top else a.top;
      var u := if a.bottom < b.bottom then a.bottom else b.bottom;
      var p := Vector2((l + r) / 2.0, (t + u) / 2.0);
      assert a.Interior(p) && b.Interior(p);
    }
  }

  /** `contains` gives the same answer for every `y`. */
  lemma ContainsIgnoresY(b: BoundingBox, x: real, y1: real, y2: real)
    ensures b.Contains(Vector2(x, y1)) == b.Contains(Vector2(x, y2))
  {
  }

  /** Translating by the zero vector gives back an equal box. */
  lemma TranslateZero(b: BoundingBox)
    ensures b.Translate(Zero()) == b
  {
  }

  /** Translating twice is translating once by the sum of the vectors. */
  lemma TranslateTwice(b: BoundingBox, u: Vector2, v: Vector2)
    ensures b.Translate(u).Translate(v) == b.Translate(u.Add(v))
  {
  }
}
