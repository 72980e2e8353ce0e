/** The level of the arena (runner.cpp, lines 230-277): a grid of
    characters, one per 40 x 40 cell, expanded once at start-up into the list
    of solid tile rectangles that players and boomerangs collide with.

    `TilesOf` is the expansion as a function, built row by row and cell by
    cell in the order of the two loops; `ExpandTiles` is the loops
    themselves.  The lemmas say what the list holds: exactly one tile per
    solid cell, at the cell's place, in row-major order. */
module Tilemap {
  import opened Geometry

  const TileSize: real := 40.0

  /** The layout, row by row; `#` and `G` are solid (plain and grass), `.`
      is empty.  The sixth row is one character longer than the others. */
  const Level: seq<string> := [
    "....................",
    "....................",
    "..G.................",
    "..#..........GG..G..",
    "..#.................",
    ".....GGG.......#.....",
    ".......#G...........",
    "..G.........#.......",
    "....................",
    ".....GGGG......G....",
    "....................",
    "GG................GG",
    "##GGGGGGGGGG..GGGG##",
    "############..######"
  ]

  predicate Solid(c: char) {
    c == '#' || c == 'G'
  }

  /** The tile of the cell in column `x` of row `y`. */
  function TileAt(x: int, y: int): (r: Rect)
    ensures r.width == TileSize && r.height == TileSize
    ensures r.left == x as real * TileSize && r.top == y as real * TileSize
  {
    Rect(x as real * TileSize, y as real * TileSize, TileSize, TileSize)
  }

  /** The tiles of the first `n` cells of row `y`. */
  function RowTiles(row: string, y: int, n: nat): seq<Rect>
    requires n <= |row|
  {
    if n == 0 then []
    else RowTiles(row, y, n - 1) + (if Solid(row[n - 1]) then [TileAt(n - 1, y)] else [])
  }

  /** The tiles of the first `k` rows. */
  function MapTiles(level: seq<string>, k: nat): seq<Rect>
    requires k <= |level|
  {
    if k == 0 then []
    else MapTiles(level, k - 1) + RowTiles(level[k - 1], k - 1, |level[k - 1]|)
  }

  function TilesOf(level: seq<string>): seq<Rect> {
    MapTiles(level, |level|)
  }

  /** The number of solid cells among the first `n` of a row. */
  function CountRow(row: string, n: nat): nat
    requires n <= |row|
  {
    if n == 0 then 0 else CountRow(row, n - 1) + (if Solid(row[n - 1]) then 1 else 0)
  }

  /** The number of solid cells in the first `k` rows. */
  function CountRows(level: seq<string>, k: nat): nat
    requires k <= |level|
  {
    if k == 0 then 0 else CountRows(level, k - 1) + CountRow(level[k - 1], |level[k - 1]|)
  }

  /** The tile loops: for each row, for each cell, a solid cell appends its
      tile. */
  method ExpandTiles(level: seq<string>) returns (tiles: seq<Rect>)
    ensures tiles == TilesOf(level)
  {
    tiles := [];
    var y := 0;
    while y < |level|
      invariant 0 <= y <= |level|
      invariant tiles == MapTiles(level, y)
    {
      var x := 0;
      while x < |level[y]|
        invariant 0 <= x <= |level[y]|
        invariant tiles == MapTiles(level, y) + RowTiles(level[y], y, x)
      {
        if level[y][x] == '#' || level[y][x] == 'G' {
          tiles := tiles + [TileAt(x, y)];
        }
        x := x + 1;
      }
      y := y + 1;
    }
  }

  // ---------------------------------------------------------------------
  // What the expansion holds
  // ---------------------------------------------------------------------

  /** One tile per solid cell of the row prefix. */
  lemma {:induction false} RowTilesCount(row: string, y: int, n: nat)
    requires n <= |row|
    ensures |RowTiles(row, y, n)| == CountRow(row, n)
  {
    if n > 0 {
      RowTilesCount(row, y, n - 1);
    }
  }

  /** One tile per solid cell of the level. */
  lemma {:induction false} MapTilesCount(level: seq<string>, k: nat)
    requires k <= |level|
    ensures |MapTiles(level, k)| == CountRows(level, k)
  {
    if k > 0 {
      MapTilesCount(level, k - 1);
      RowTilesCount(level[k - 1], k - 1, |level[k - 1]|);
    }
  }

  /** The solid cell in column `x` sits at position `CountRow(row, x)` of
      its row's tiles: after the tiles of the solid cells to its left. */
  lemma {:induction false} RowTilesAt(row: string, y: int, n: nat, x: nat)
    requires x < n <= |row| && Solid(row[x])
    ensures CountRow(row, x) < |RowTiles(row, y, n)|
    ensures RowTiles(row, y, n)[CountRow(row, x)] == TileAt(x, y)
  {
    RowTilesCount(row, y, n - 1);
    if x < n - 1 {
      RowTilesAt(row, y, n - 1, x);
    } else {
      RowTilesCount(row, y, x);
    }
  }

  /** Row-major order: the tile of solid cell (`x`, `y`) comes after the
      tiles of every solid cell of the rows above and of the cells to its
      left, and before all others. */
  lemma {:induction false} MapTilesAt(level: seq<string>, k: nat, y: nat, x: nat)
    requires y < k <= |level| && x < |level[y]| && Solid(level[y][x])
    ensures CountRows(level, y) + CountRow(level[y], x) < |MapTiles(level, k)|
    ensures MapTiles(level, k)[CountRows(level, y) + CountRow(level[y], x)] == TileAt(x, y)
  {
    MapTilesCount(level, k - 1);
    RowTilesCount(level[k - 1], k - 1, |level[k - 1]|);
    if y < k - 1 {
      MapTilesAt(level, k - 1, y, x);
    } else {
      RowTilesAt(level[y], y, |level[y]|, x);
    }
  }

  /** Every tile of a row prefix comes from a solid cell of it. */
  lemma {:induction false} RowTilesFrom(row: string, y: int, n: nat, t: Rect)
    requires n <= |row| && t in RowTiles(row, y, n)
    ensures exists x :: 0 <= x < n && Solid(row[x]) && t == TileAt(x, y)
  {
    if t !in RowTiles(row, y, n - 1) {
      assert Solid(row[n - 1]) && t == TileAt(n - 1, y);
    } else {
      RowTilesFrom(row, y, n - 1, t);
    }
  }

  /** Every tile of the first `k` rows comes from a solid cell of them. */
  lemma {:induction false} MapTilesFrom(level: seq<string>, k: nat, t: Rect)
    requires k <= |level| && t in MapTiles(level, k)
    ensures exists y, x :: 0 <= y < k && 0 <= x < |level[y]| && Solid(level[y][x]) && t == TileAt(x, y)
  {
    if t in MapTiles(level, k - 1) {
      MapTilesFrom(level, k - 1, t);
    } else {
      RowTilesFrom(level[k - 1], k - 1, |level[k - 1]|, t);
    }
  }

  /** A rectangle is a tile of the level iff it is the 40 x 40 square of a
      `#` or `G` cell. */
  lemma TileMembership(level: seq<string>, t: Rect)
    ensures t in TilesOf(level) <==>
      exists y, x :: 0 <= y < |level| && 0 <= x < |level[y]| && Solid(level[y][x]) && t == TileAt(x, y)
  {
    if t in TilesOf(level) {
      MapTilesFrom(level, |level|, t);
    }
    if exists y, x :: 0 <= y < |level| && 0 <= x < |level[y]| && Solid(level[y][x]) && t == TileAt(x, y) {
      var y, x :| 0 <= y < |level| && 0 <= x < |level[y]| && Solid(level[y][x]) && t == TileAt(x, y);
      MapTilesAt(level, |level|, y, x);
    }
  }

  /** The number of tiles is the number of solid cells. */
  lemma TileCount(level: seq<string>)
    ensures |TilesOf(level)| == CountRows(level, |level|)
  {
    MapTilesCount(level, |level|);
  }

  /** The shape of the layout: 14 rows of 20 cells, except the sixth row,
      whose extra 21st cell is empty. */
  lemma LevelShape()
    ensures |Level| == 14
    ensures forall y :: 0 <= y < |Level| ==> |Level[y]| == if y == 5 then 21 else 20
    ensures !Solid(Level[5][20])
  {
  }

  /** A level whose solid cells all lie in its first `cols` columns has
      every tile inside the `40 * cols` by `40 * rows` rectangle at the
      origin. */
  lemma TilesInGrid(level: seq<string>, cols: nat, t: Rect)
    requires t in TilesOf(level)
    requires forall y, x :: 0 <= y < |level| && 0 <= x < |level[y]| && Solid(level[y][x]) ==> x < cols
    ensures 0.0 <= t.left && t.Right() <= cols as real * TileSize
    ensures 0.0 <= t.top && t.Bottom() <= |level| as real * TileSize
  {
    TileMembership(level, t);
    var y, x :| 0 <= y < |level| && 0 <= x < |level[y]| && Solid(level[y][x]) && t == TileAt(x, y);
    assert x + 1 <= cols && y + 1 <= |level|;
  }

  /** Every tile of the level lies inside the 800 x 560 arena. */
  lemma LevelTilesInArena(t: Rect)
    requires t in TilesOf(Level)
    ensures 0.0 <= t.left && t.Right() <= 800.0
    ensures 0.0 <= t.top && t.Bottom() <= 560.0
  {
    LevelColumns();
    TilesInGrid(Level, 20, t);
  }

  /** The solid cells of the level all lie in its first 20 columns. */
  lemma LevelColumns()
    ensures forall y, x :: 0 <= y < |Level| && 0 <= x < |Level[y]| && Solid(Level[y][x]) ==> x < 20
  {
    LevelShape();
  }
}
