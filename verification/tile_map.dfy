/**
 * The static tile map: a height x width grid of cells, each walkable or a
 * wall, laid over the world at CellSize world units per cell, and the
 * bounding-box collision test every moving entity uses.
 */
module TileMap {
  import opened Wrappers
  import opened Geometry

  /** World units per grid cell. */
  const CellSize: real := 64.0
  /** A tile id above this value makes its cell a wall. */
  const WallThreshold: int := 100

  /** walkable[row][col] says whether the cell in that row and column can be
      entered.  Rows run along y, columns along x. */
  datatype Grid = Grid(height: nat, width: nat, walkable: seq<seq<bool>>) {
    predicate Valid() {
      |walkable| == height && forall row | 0 <= row < height :: |walkable[row]| == width
    }
  }

  /** Conversion of a real to an integer by truncation toward zero, as the
      game's int() does. */
  function Trunc(r: real): (n: int)
    ensures 0.0 <= r ==> 0 <= n && n as real <= r < n as real + 1.0
    ensures r < 0.0 ==> n <= 0 && n as real - 1.0 < r <= n as real
  {
    if r >= 0.0 then r.Floor else -((-r).Floor)
  }

  /** The footprint (centre pos, size w x h) sticks out of the world. */
  predicate OutOfWorld(g: Grid, pos: Point, w: real, h: real) {
    pos.x - w / 2.0 < 0.0 || pos.x + w / 2.0 > CellSize * g.width as real ||
    pos.y - h / 2.0 < 0.0 || pos.y + h / 2.0 > CellSize * g.height as real
  }

  /** First and last cell index the collision scan visits along one axis for
      an extent of the given size centred on c. */
  function FirstCell(c: real, extent: real): int { Trunc((c - extent / 2.0) / CellSize) }
  function LastCell(c: real, extent: real): int { Trunc((c + extent / 2.0) / CellSize) }

  /** The cell exists in the grid. */
  predicate InGrid(g: Grid, col: int, row: int) {
    0 <= row < |g.walkable| && 0 <= col < |g.walkable[row]|
  }

  /** The cell cannot be entered: a wall, or no cell of the grid at all. */
  predicate Blocked(g: Grid, col: int, row: int) {
    !InGrid(g, col, row) || !g.walkable[row][col]
  }

  /** Collision of a footprint with the map: it leaves the world, or one of
      the cells in the scanned index ranges is blocked.  A cell index that
      falls outside the grid counts as blocked (see `CollideAsWritten` for
      what the game itself does there). */
  predicate Collide(g: Grid, pos: Point, w: real, h: real)
    // Leaving the world always collides.
    ensures OutOfWorld(g, pos, w, h) ==> Collide(g, pos, w, h)
  {
    OutOfWorld(g, pos, w, h) ||
    exists col, row ::
      FirstCell(pos.x, w) <= col <= LastCell(pos.x, w) &&
      FirstCell(pos.y, h) <= row <= LastCell(pos.y, h) &&
      Blocked(g, col, row)
  }

  // ---------------------------------------------------------------------
  // The scan as the game performs it: columns outer, rows inner, stopping
  // at the first wall.  An index past the end of the grid raises an
  // IndexError in the game; here that is the result None.

  function ScanColumn(g: Grid, col: nat, row: nat, lastRow: int): Option<bool>
    decreases lastRow + 1 - row
  {
    if row > lastRow then Some(false)
    else if !InGrid(g, col, row) then None
    else if !g.walkable[row][col] then Some(true)
    else ScanColumn(g, col, row + 1, lastRow)
  }

  function ScanCells(g: Grid, col: nat, lastCol: int, firstRow: nat, lastRow: int): Option<bool>
    decreases lastCol + 1 - col
  {
    if col > lastCol then Some(false)
    else
      var r := ScanColumn(g, col, firstRow, lastRow);
      if r == Some(false) then ScanCells(g, col + 1, lastCol, firstRow, lastRow) else r
  }

  /** The collision test exactly as written: Some(answer), or None where the
      game raises because the scan indexes one cell past the grid. */
  function CollideAsWritten(g: Grid, pos: Point, w: real, h: real): (r: Option<bool>)
    ensures OutOfWorld(g, pos, w, h) ==> r == Some(true)
  {
    if OutOfWorld(g, pos, w, h) then Some(true)
    else ScanCells(g, FirstCell(pos.x, w), LastCell(pos.x, w), FirstCell(pos.y, h), LastCell(pos.y, h))
  }

  lemma {:induction false} ScanColumnMeaning(g: Grid, col: nat, row: nat, lastRow: int)
    ensures ScanColumn(g, col, row, lastRow) == Some(false) <==>
      forall r | row <= r <= lastRow :: !Blocked(g, col, r)
    ensures ScanColumn(g, col, row, lastRow) == Some(true) ==>
      exists r | row <= r <= lastRow :: Blocked(g, col, r)
    ensures ScanColumn(g, col, row, lastRow) == None ==>
      exists r | row <= r <= lastRow :: !InGrid(g, col, r)
    decreases lastRow + 1 - row
  {
    if row <= lastRow {
      if !InGrid(g, col, row) || !g.walkable[row][col] {
        assert Blocked(g, col, row);
      } else {
        ScanColumnMeaning(g, col, row + 1, lastRow);
      }
    }
  }

  lemma {:induction false} ScanCellsMeaning(g: Grid, col: nat, lastCol: int, firstRow: nat, lastRow: int)
    ensures ScanCells(g, col, lastCol, firstRow, lastRow) == Some(false) <==>
      forall c, r | col <= c <= lastCol && firstRow <= r <= lastRow :: !Blocked(g, c, r)
    ensures ScanCells(g, col, lastCol, firstRow, lastRow) == Some(true) ==>
      exists c, r | col <= c <= lastCol && firstRow <= r <= lastRow :: Blocked(g, c, r)
    ensures ScanCells(g, col, lastCol, firstRow, lastRow) == None ==>
      exists c, r | col <= c <= lastCol && firstRow <= r <= lastRow :: !InGrid(g, c, r)
    decreases lastCol + 1 - col
  {
    if col <= lastCol {
      ScanColumnMeaning(g, col, firstRow, lastRow);
      if ScanColumn(g, col, firstRow, lastRow) == Some(false) {
        ScanCellsMeaning(g, col + 1, lastCol, firstRow, lastRow);
      }
    }
  }

  /** Wherever the game's scan answers, `Collide` gives the same answer; and
      the scan fails only for a footprint lying inside the world whose far
      edge sits exactly on the world's far boundary. */
  lemma CollideAgreesWithScan(g: Grid, pos: Point, w: real, h: real)
    requires g.Valid() && 0.0 <= w && 0.0 <= h
    ensures CollideAsWritten(g, pos, w, h) == Some(true) ==> Collide(g, pos, w, h)
    ensures CollideAsWritten(g, pos, w, h) == Some(false) ==> !Collide(g, pos, w, h)
    ensures CollideAsWritten(g, pos, w, h) == None ==>
      !OutOfWorld(g, pos, w, h) &&
      (pos.x + w / 2.0 == CellSize * g.width as real || pos.y + h / 2.0 == CellSize * g.height as real)
  {
    if !OutOfWorld(g, pos, w, h) {
      var c0, c1 := FirstCell(pos.x, w), LastCell(pos.x, w);
      var r0, r1 := FirstCell(pos.y, h), LastCell(pos.y, h);
      ScanCellsMeaning(g, c0, c1, r0, r1);
      if CollideAsWritten(g, pos, w, h) == None {
        var c, r :| c0 <= c <= c1 && r0 <= r <= r1 && !InGrid(g, c, r);
        if c >= g.width {
          assert (pos.x + w / 2.0) / CellSize >= g.width as real;
        } else {
          assert r >= g.height;
          assert (pos.y + h / 2.0) / CellSize >= g.height as real;
        }
      }
    }
  }

  /** The game's scan raises on a footprint touching the far edge of the
      world: on a one-cell map, an 8 x 8 box centred at (60, 32) ends
      exactly at x = 64, so the scan reads column 1 of a one-column grid. */
  lemma FarEdgeRaises()
    ensures CollideAsWritten(Grid(1, 1, [[true]]), Point(60.0, 32.0), 8.0, 8.0) == None
    ensures Collide(Grid(1, 1, [[true]]), Point(60.0, 32.0), 8.0, 8.0)
  {
    var g := Grid(1, 1, [[true]]);
    var p := Point(60.0, 32.0);
    assert FirstCell(p.x, 8.0) == 0 && LastCell(p.x, 8.0) == 1;
    assert FirstCell(p.y, 8.0) == 0 && LastCell(p.y, 8.0) == 0;
    assert ScanColumn(g, 0, 0, 0) == Some(false);
    assert ScanColumn(g, 1, 0, 0) == None;
    assert Blocked(g, 1, 0);
  }

  /** The centre of a cell, the point the game's random walkable coordinate
      returns for that cell. */
  function CellCentre(col: int, row: int): Point {
    Point(col as real * CellSize + CellSize / 2.0, row as real * CellSize + CellSize / 2.0)
  }

  /** A point the game may spawn an entity at: the centre of a walkable cell. */
  predicate SpawnPoint(g: Grid, p: Point) {
    exists row, col | 0 <= row < |g.walkable| && 0 <= col < |g.walkable[row]| ::
      g.walkable[row][col] && p == CellCentre(col, row)
  }

  /** A footprint smaller than a cell, centred on a spawn point, collides
      with nothing: the scan visits that one walkable cell only. */
  lemma SpawnPointIsClear(g: Grid, p: Point, w: real, h: real)
    requires g.Valid() && SpawnPoint(g, p)
    requires 0.0 <= w < CellSize && 0.0 <= h < CellSize
    ensures !Collide(g, p, w, h)
  {
    var row, col :| 0 <= row < |g.walkable| && 0 <= col < |g.walkable[row]| &&
      g.walkable[row][col] && p == CellCentre(col, row);
    CellOfCentre(col, p.x, w);
    CellOfCentre(row, p.y, h);
    forall c, r | FirstCell(p.x, w) <= c <= LastCell(p.x, w) && FirstCell(p.y, h) <= r <= LastCell(p.y, h)
      ensures !Blocked(g, c, r)
    {
      assert c == col && r == row;
    }
  }

  /** Along one axis, an extent smaller than a cell centred on the centre
      of cell k is scanned as cell k alone. */
  lemma CellOfCentre(k: int, c: real, e: real)
    requires 0 <= k && c == k as real * CellSize + CellSize / 2.0 && 0.0 <= e < CellSize
    ensures FirstCell(c, e) == k && LastCell(c, e) == k
  {
    var lo := (c - e / 2.0) / CellSize;
    var hi := (c + e / 2.0) / CellSize;
    assert lo * CellSize == c - e / 2.0;
    assert hi * CellSize == c + e / 2.0;
    assert k as real <= lo < k as real + 1.0;
    assert k as real <= hi < k as real + 1.0;
  }

  // ---------------------------------------------------------------------
  // Loading the walkability layer.

  lemma CellIndexInLayer(height: nat, width: nat, row: nat, col: nat)
    requires row < height && col < width
    ensures row * width + col < height * width
  {
    var d := height - (row + 1);
    assert height * width == (row + 1) * width + d * width;
    assert d * width >= 0;
    assert (row + 1) * width == row * width + width;
  }

  /** The tile id of a cell in a row-major tile layer. */
  function TileAt(layer: seq<int>, height: nat, width: nat, row: nat, col: nat): int
    requires |layer| >= height * width && row < height && col < width
  {
    CellIndexInLayer(height, width, row, col);
    layer[row * width + col]
  }

  /** Builds the walkability grid from a row-major tile layer: a cell is
      walkable exactly when its tile id is at most WallThreshold. */
  method LoadLayer(height: nat, width: nat, layer: seq<int>) returns (g: Grid)
    requires |layer| >= height * width
    ensures g.Valid() && g.height == height && g.width == width
    ensures forall row, col | 0 <= row < height && 0 <= col < width ::
      g.walkable[row][col] <==> TileAt(layer, height, width, row, col) <= WallThreshold
  {
    var rows: seq<seq<bool>> := [];
    for i := 0 to height
      invariant |rows| == i
      invariant forall r | 0 <= r < i :: |rows[r]| == width
      invariant forall r, c | 0 <= r < i && 0 <= c < width ::
        rows[r][c] <==> TileAt(layer, height, width, r, c) <= WallThreshold
    {
      var cells: seq<bool> := [];
      for j := 0 to width
        invariant |cells| == j
        invariant forall c | 0 <= c < j :: cells[c] <==> TileAt(layer, height, width, i, c) <= WallThreshold
      {
        var tileId := TileAt(layer, height, width, i, j);
        if tileId > WallThreshold {
          cells := cells + [false];
        } else {
          cells := cells + [true];
        }
      }
      rows := rows + [cells];
    }
    g := Grid(height, width, rows);
  }
}
