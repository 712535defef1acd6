/** The tile grid of a level (src/tilemap.rs). */
module TileMaps {
  import opened Numeric
  import opened Vectors
  import opened Tiles

  type Byte = b: int | 0 <= b < 256

  datatype TileMap = TileMap(tiles: seq<Tile>, height: real, width: real) {

    /**
     * `lock_viewport_to_tilemap`: keeps a viewport of the given dimensions,
     * centred on `position`, inside the map horizontally and above its
     * bottom edge. `f32::clamp` fails on an empty range, so the viewport
     * must be no wider than the map.
     */
    function LockViewportToTilemap(position: Vector2, viewport: Vector2): (r: Vector2)
      requires viewport.x <= width
      requires -100000000.0 <= height - viewport.y / 2.0
      ensures viewport.x / 2.0 <= r.x <= width - viewport.x / 2.0
      ensures -100000000.0 <= r.y <= height - viewport.y / 2.0
      ensures viewport.x / 2.0 <= position.x <= width - viewport.x / 2.0 ==> r.x == position.x
      ensures -100000000.0 <= position.y <= height - viewport.y / 2.0 ==> r.y == position.y
      ensures position.x < viewport.x / 2.0 ==> r.x == viewport.x / 2.0
      ensures width - viewport.x / 2.0 < position.x ==> r.x == width - viewport.x / 2.0
      ensures position.y < -100000000.0 ==> r.y == -100000000.0
      ensures height - viewport.y / 2.0 < position.y ==> r.y == height - viewport.y / 2.0
    {
      var minX := viewport.x / 2.0;
      var maxX := width - viewport.x / 2.0;
      var minY := -100000000.0;
      var maxY := height - viewport.y / 2.0;
      Vector2(Clamp(position.x, minX, maxX), Clamp(position.y, minY, maxY))
    }
  }

  /** The tiles of the first `n` cells of row `j`, in column order. */
  function RowTiles(row: seq<Byte>, j: nat, sx: nat, sy: nat, n: nat): seq<Tile>
    requires n <= |row|
  {
    if n == 0 then []
    else RowTiles(row, j, sx, sy, n - 1) + (if row[n - 1] == 1 then [Tile(n - 1, j, sx, sy)] else [])
  }

  /** The tiles of the first `n` rows of `data`, row after row. */
  function GridTiles(data: seq<seq<Byte>>, sx: nat, sy: nat, n: nat): seq<Tile>
    requires n <= |data|
  {
    if n == 0 then []
    else GridTiles(data, sx, sy, n - 1) + RowTiles(data[n - 1], n - 1, sx, sy, |data[n - 1]|)
  }

  /** `a` comes strictly before `b` in row-major order: an earlier row, or the same row and an earlier column. */
  predicate Before(a: Tile, b: Tile) {
    a.gridY < b.gridY || (a.gridY == b.gridY && a.gridX < b.gridX)
  }

  predicate RowMajor(tiles: seq<Tile>) {
    forall p, q :: 0 <= p < q < |tiles| ==> Before(tiles[p], tiles[q])
  }

  /**
   * `TileMap::new`: one tile per cell holding 1, scanning rows top to
   * bottom and each row left to right. The width is taken from the first
   * row, so the grid must have one.
   */
  method NewTileMap(data: seq<seq<Byte>>, tileSizeX: nat, tileSizeY: nat) returns (m: TileMap)
    requires 0 < |data|
    ensures m.tiles == GridTiles(data, tileSizeX, tileSizeY, |data|)
    ensures m.width == (|data[0]| * tileSizeX) as real
    ensures m.height == (|data| * tileSizeY) as real
    ensures RowMajor(m.tiles)
    ensures forall t :: t in m.tiles <==>
              && t.gridY < |data| && t.gridX < |data[t.gridY]| && data[t.gridY][t.gridX] == 1
              && t.tileSizeX == tileSizeX && t.tileSizeY == tileSizeY
  {
    var tiles: seq<Tile> := [];
    var width := (|data[0]| * tileSizeX) as real;
    var height := (|data| * tileSizeY) as real;
    for j := 0 to |data|
      invariant tiles == GridTiles(data, tileSizeX, tileSizeY, j)
    {
      for i := 0 to |data[j]|
        invariant tiles == GridTiles(data, tileSizeX, tileSizeY, j) + RowTiles(data[j], j, tileSizeX, tileSizeY, i)
      {
        if data[j][i] == 1 {
          tiles := tiles + [Tile(i, j, tileSizeX, tileSizeY)];
        }
      }
    }
    m := TileMap(tiles, height, width);
    GridTilesOrdered(data, tileSizeX, tileSizeY, |data|);
    forall t {
      GridTilesMembers(data, tileSizeX, tileSizeY, |data|, t);
    }
  }

  /** A tile is among the first `n` cells of row `j` exactly when its cell is one of them and holds 1. */
  lemma {:induction false} RowTilesMembers(row: seq<Byte>, j: nat, sx: nat, sy: nat, n: nat, t: Tile)
    requires n <= |row|
    ensures t in RowTiles(row, j, sx, sy, n) <==>
              t.gridY == j && t.gridX < n && row[t.gridX] == 1 && t.tileSizeX == sx && t.tileSizeY == sy
  {
    if n > 0 {
      RowTilesMembers(row, j, sx, sy, n - 1, t);
    }
  }

  /** Exactly the filled cells of the first `n` rows have a tile, carrying the cell's coordinates and the tile size. */
  lemma {:induction false} GridTilesMembers(data: seq<seq<Byte>>, sx: nat, sy: nat, n: nat, t: Tile)
    requires n <= |data|
    ensures t in GridTiles(data, sx, sy, n) <==>
              && t.gridY < n && t.gridX < |data[t.gridY]| && data[t.gridY][t.gridX] == 1
              && t.tileSizeX == sx && t.tileSizeY == sy
  {
    if n > 0 {
      GridTilesMembers(data, sx, sy, n - 1, t);
      RowTilesMembers(data[n - 1], n - 1, sx, sy, |data[n - 1]|, t);
    }
  }

  /** Row `j`'s tiles are in strictly increasing column order. */
  lemma {:induction false} RowTilesOrdered(row: seq<Byte>, j: nat, sx: nat, sy: nat, n: nat)
    requires n <= |row|
    ensures RowMajor(RowTiles(row, j, sx, sy, n))
    ensures forall t :: t in RowTiles(row, j, sx, sy, n) ==> t.gridY == j && t.gridX < n
  {
    if n > 0 {
      RowTilesOrdered(row, j, sx, sy, n - 1);
      forall t | t in RowTiles(row, j, sx, sy, n)
        ensures t.gridY == j && t.gridX < n
      {
        RowTilesMembers(row, j, sx, sy, n, t);
      }
    }
  }

  /** The grid's tiles are emitted in strictly increasing row-major order, so no cell appears twice. */
  lemma {:induction false} GridTilesOrdered(data: seq<seq<Byte>>, sx: nat, sy: nat, n: nat)
    requires n <= |data|
    ensures RowMajor(GridTiles(data, sx, sy, n))
    ensures forall t :: t in GridTiles(data, sx, sy, n) ==> t.gridY < n
  {
    if n > 0 {
      GridTilesOrdered(data, sx, sy, n - 1);
      RowTilesOrdered(data[n - 1], n - 1, sx, sy, |data[n - 1]|);
      var front := GridTiles(data, sx, sy, n - 1);
      var back := RowTiles(data[n - 1], n - 1, sx, sy, |data[n - 1]|);
      ConcatRowMajor(front, back, n - 1);
    }
  }

  /** Appending a row-major run of row `j` to a row-major prefix of earlier rows keeps the order. */
  lemma ConcatRowMajor(front: seq<Tile>, back: seq<Tile>, j: nat)
    requires RowMajor(front) && RowMajor(back)
    requires forall t :: t in front ==> t.gridY < j
    requires forall t :: t in back ==> t.gridY == j
    ensures RowMajor(front + back)
    ensures forall t :: t in front + back ==> t.gridY <= j
  {
    var s := front + back;
    forall p, q | 0 <= p < q < |s|
      ensures Before(s[p], s[q])
    {
      if q < |front| {
        assert s[p] == front[p] && s[q] == front[q];
      } else if p < |front| {
        assert s[p] == front[p] && s[q] == back[q - |front|];
        assert s[p] in front && s[q] in back;
      } else {
        assert s[p] == back[p - |front|] && s[q] == back[q - |front|];
      }
    }
  }
}
