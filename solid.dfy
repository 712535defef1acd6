/** Static collision geometry (src/solid.rs). */
module Solids {
  import opened Vectors
  import opened Bounds

  /**
   * The box of a `width` x `height` rectangle centred on `position`; this is
   * the `get_bound` of both `Solid` and `Actor`.
   */
  function Centred(position: Vector2, width: real, height: real): (b: BoundingBox)
    ensures b.right - b.left == width && b.bottom - b.top == height
    ensures (b.left + b.right) / 2.0 == position.x && (b.top + b.bottom) / 2.0 == position.y
    ensures 0.0 <= width && 0.0 <= height ==> b.WellFormed()
  {
    BoundingBox(position.y - height / 2.0, position.x + width / 2.0,
                position.y + height / 2.0, position.x - width / 2.0)
  }

  /** Moving the centre by `v` moves the box by `v`. */
  lemma CentredTranslate(position: Vector2, width: real, height: real, v: Vector2)
    ensures Centred(position.Add(v), width, height) == Centred(position, width, height).Translate(v)
  {
  }

  datatype Solid = Solid(position: Vector2, width: real, height: real) {
    function Bound(): (b: BoundingBox)
      ensures b.right - b.left == width && b.bottom - b.top == height
      ensures (b.left + b.right) / 2.0 == position.x && (b.top + b.bottom) / 2.0 == position.y
      ensures 0.0 <= width && 0.0 <= height ==> b.WellFormed()
      ensures b == Centred(position, width, height)
    {
      Centred(position, width, height)
    }
  }
}
