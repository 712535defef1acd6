/** One cell of the tile grid (src/tile.rs). */
module Tiles {

  /**
   * `Tile::new(grid_x, grid_y, tile_size_x, tile_size_y)` is the datatype
   * constructor: it stores its four arguments unchanged. The cell covers
   * `[grid_x * tile_size_x, (grid_x + 1) * tile_size_x)` horizontally and
   * the same with `y` vertically.
   */
  datatype Tile = Tile(gridX: nat, gridY: nat, tileSizeX: nat, tileSizeY: nat) {

    /** The cell's left edge, `grid_x * tile_size_x`. */
    function Left(): real {
      (gridX * tileSizeX) as real
    }

    /** The cell's upper edge, `grid_y * tile_size_y`. */
    function Upper(): real {
      (gridY * tileSizeY) as real
    }

    /**
     * `top`: the upper edge of the cell above, `(grid_y - 1) * tile_size_y`.
     * The `usize` subtraction fails for `grid_y == 0`.
     */
    function Top(): (t: real)
      requires 1 <= gridY
      ensures t + tileSizeY as real == Upper()
      ensures t <= Upper()
    {
      ((gridY - 1) * tileSizeY) as real
    }

    /** `contains`: the half-open cell holds the point. */
    predicate Contains(px: real, py: real) {
      && Left() <= px && px < Left() + tileSizeX as real
      && Upper() <= py && py < Upper() + tileSizeY as real
    }
  }

  /** A multiple `d * s` of a positive `s` that stays below `s` has `d < 1`. */
  lemma BelowOneMultiple(d: int, s: nat)
    requires 0 < s && d * s < s
    ensures d < 1
  {
  }

  /** Two naturals whose multiples of `s` lie within `s` of each other are equal. */
  lemma SameCell(a: nat, b: nat, s: nat)
    requires 0 < s
    requires a * s < b * s + s && b * s < a * s + s
    ensures a == b
  {
    assert (a - b) * s == a * s - b * s;
    assert (b - a) * s == b * s - a * s;
    BelowOneMultiple(a - b, s);
    BelowOneMultiple(b - a, s);
  }

  /** Distinct cells of the same size never both hold a point: the grid's cells are disjoint. */
  lemma CellsDisjoint(a: Tile, b: Tile, px: real, py: real)
    requires a.tileSizeX == b.tileSizeX && a.tileSizeY == b.tileSizeY
    requires 0 < a.tileSizeX && 0 < a.tileSizeY
    requires a.Contains(px, py) && b.Contains(px, py)
    ensures a.gridX == b.gridX && a.gridY == b.gridY
  {
    SameCell(a.gridX, b.gridX, a.tileSizeX);
    SameCell(a.gridY, b.gridY, a.tileSizeY);
  }
}
