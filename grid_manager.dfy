/** GridManager: the table of buildable cells and the conversion between cells and world positions. */
module Grid {
  import opened Common

  /** The cell lies inside a grid of `size` cells (x and y both counted from 0). */
  predicate InBounds(p: Vec2Int, size: Vec2Int)
  {
    0 <= p.x < size.x && 0 <= p.y < size.y
  }

  /** Mathf.FloorToInt(a / b). */
  function FloorDiv(a: real, b: real): int
    requires b != 0.0
  {
    (a / b).Floor
  }

  /** With a positive divisor the dividend lies between the floored quotient's multiple and the next one. */
  lemma FloorDivBounds(a: real, c: real)
    requires c != 0.0
    ensures c > 0.0 ==> FloorDiv(a, c) as real * c <= a < (FloorDiv(a, c) + 1) as real * c
  {
    if c > 0.0 {
      var q := a / c;
      var f := FloorDiv(a, c) as real;
      var hi := (FloorDiv(a, c) + 1) as real;
      assert q * c == a;
      assert f <= q < hi;
      assert (q - f) * c >= 0.0;
      assert a - f * c == (q - f) * c;
      assert (hi - q) * c > 0.0;
      assert hi * c - a == (hi - q) * c;
      assert a < hi * c;
      assert a < (FloorDiv(a, c) + 1) as real * c;
    }
  }

  /** Dividing the centre offset of cell `i` by the cell size lands half-way into cell `i`. */
  lemma CentreOffsetFloor(i: int, c: real, a: real)
    requires c > 0.0
    requires a == i as real * c + c * 0.5
    ensures FloorDiv(a, c) == i
  {
    DivOfProduct(a, i as real + 0.5, c);
    FloorUnique(a / c, i);
  }

  lemma FloorUnique(x: real, n: int)
    requires n as real <= x < (n + 1) as real
    ensures x.Floor == n
  {
  }

  lemma DivOfProduct(a: real, x: real, c: real)
    requires c > 0.0 && a == x * c
    ensures a / c == x
  {
    var q := a / c;
    assert q * c == a;
    assert (q - x) * c == 0.0;
  }

  lemma DivMonotone(a: real, b: real, c: real)
    requires c > 0.0 && a <= b
    ensures a / c <= b / c
  {
    assert b / c - a / c == (b - a) / c;
  }

  lemma DivStrictMonotone(a: real, b: real, c: real)
    requires c > 0.0 && a < b
    ensures a / c < b / c
  {
    assert b / c - a / c == (b - a) / c;
  }

  /** Any offset inside cell `i` (from its lower edge up to, not including, the next edge) floors to `i`. */
  lemma InsideCellFloor(i: int, c: real, a: real)
    requires c > 0.0
    requires i as real * c <= a < (i + 1) as real * c
    ensures FloorDiv(a, c) == i
  {
    DivMonotone(i as real * c, a, c);
    DivStrictMonotone(a, (i + 1) as real * c, c);
    DivOfProduct(i as real * c, i as real, c);
    DivOfProduct((i + 1) as real * c, (i + 1) as real, c);
    FloorUnique(a / c, i);
  }

  /** Whether `p` reads as buildable from table `grid` of a grid of `size` cells. */
  predicate Buildable(grid: map<Vec2Int, bool>, size: Vec2Int, p: Vec2Int)
  {
    InBounds(p, size) && p in grid && grid[p]
  }

  /** The table after SetCellBuildable(p, b): only an existing key is updated. */
  function SetCell(grid: map<Vec2Int, bool>, p: Vec2Int, b: bool): map<Vec2Int, bool>
  {
    if p in grid then grid[p := b] else grid
  }

  /** The table InitializeGrid builds makes exactly the in-bounds cells buildable. */
  lemma InitialBuildable(grid: map<Vec2Int, bool>, size: Vec2Int, p: Vec2Int)
    requires forall q :: q in grid <==> InBounds(q, size)
    requires forall q :: q in grid ==> grid[q]
    ensures Buildable(grid, size, p) <==> InBounds(p, size)
  {
  }

  /** Setting a key reads back as set (when in bounds) and leaves every other cell reading as before;
      setting a missing key changes no reading; the key set never changes. */
  lemma SetThenRead(grid: map<Vec2Int, bool>, size: Vec2Int, p: Vec2Int, b: bool, other: Vec2Int)
    ensures SetCell(grid, p, b).Keys == grid.Keys
    ensures p in grid ==> (Buildable(SetCell(grid, p, b), size, p) <==> InBounds(p, size) && b)
    ensures p !in grid ==> Buildable(SetCell(grid, p, b), size, other) == Buildable(grid, size, other)
    ensures other != p ==> Buildable(SetCell(grid, p, b), size, other) == Buildable(grid, size, other)
  {
  }

  class GridManager {
    /** Serialized defaults: 20 x 20 cells of size 1 at the world origin. */
    var gridSize: Vec2Int
    var cellSize: real
    var originPosition: Vec3
    var buildableGrid: map<Vec2Int, bool>

    /** Keys are exactly the in-bounds cells: the shape InitializeGrid gives and SetCellBuildable keeps. */
    ghost predicate Valid()
      reads this
    {
      forall p :: p in buildableGrid <==> InBounds(p, gridSize)
    }

    /** Awake: the first instance initialises its grid. */
    constructor (gridSize: Vec2Int, cellSize: real, originPosition: Vec3)
      ensures this.gridSize == gridSize && this.cellSize == cellSize && this.originPosition == originPosition
      ensures Valid()
      ensures forall p :: p in buildableGrid ==> buildableGrid[p]
    {
      this.gridSize := gridSize;
      this.cellSize := cellSize;
      this.originPosition := originPosition;
      buildableGrid := map[];
      new;
      InitializeGrid();
    }

    /** Rebuilds the table: every cell 0 <= x < gridSize.x, 0 <= y < gridSize.y is a key, mapped to true,
        and nothing else is a key. */
    method InitializeGrid()
      modifies this
      ensures gridSize == old(gridSize) && cellSize == old(cellSize) && originPosition == old(originPosition)
      ensures forall p :: p in buildableGrid <==> InBounds(p, gridSize)
      ensures forall p :: p in buildableGrid ==> buildableGrid[p]
    {
      buildableGrid := map[];
      var x := 0;
      while x < gridSize.x
        invariant 0 <= x || gridSize.x <= 0
        invariant x <= gridSize.x || x == 0
        invariant forall p :: p in buildableGrid <==> 0 <= p.x < x && 0 <= p.y < gridSize.y
        invariant forall p :: p in buildableGrid ==> buildableGrid[p]
        invariant gridSize == old(gridSize) && cellSize == old(cellSize) && originPosition == old(originPosition)
      {
        var y := 0;
        while y < gridSize.y
          invariant 0 <= y || gridSize.y <= 0
          invariant y <= gridSize.y || y == 0
          invariant forall p :: p in buildableGrid <==>
            (0 <= p.x < x && 0 <= p.y < gridSize.y) || (p.x == x && 0 <= p.y < y)
          invariant forall p :: p in buildableGrid ==> buildableGrid[p]
          invariant gridSize == old(gridSize) && cellSize == old(cellSize) && originPosition == old(originPosition)
        {
          buildableGrid := buildableGrid[Vec2Int(x, y) := true];
          y := y + 1;
        }
        x := x + 1;
      }
    }

    /** The world position of the centre of cell `gridPos`, on the grid's plane. */
    function GridToWorld(gridPos: Vec2Int): (w: Vec3)
      reads this
      ensures w.y == originPosition.y
      ensures w.x - originPosition.x == gridPos.x as real * cellSize + cellSize * 0.5
      ensures w.z - originPosition.z == gridPos.y as real * cellSize + cellSize * 0.5
    {
      Vec3(originPosition.x + (gridPos.x as real * cellSize + cellSize * 0.5),
           originPosition.y + 0.0,
           originPosition.z + (gridPos.y as real * cellSize + cellSize * 0.5))
    }

    /** The cell containing a world position (floor of the offset from the origin, in cells): with a
        positive cell size, the offset lies inside the square of the returned cell. */
    function WorldToGrid(worldPos: Vec3): (g: Vec2Int)
      reads this
      requires cellSize != 0.0
      ensures cellSize > 0.0 ==>
        g.x as real * cellSize <= worldPos.x - originPosition.x < (g.x + 1) as real * cellSize &&
        g.y as real * cellSize <= worldPos.z - originPosition.z < (g.y + 1) as real * cellSize
    {
      var dx, dz := worldPos.x - originPosition.x, worldPos.z - originPosition.z;
      FloorDivBounds(dx, cellSize);
      FloorDivBounds(dz, cellSize);
      Vec2Int(FloorDiv(dx, cellSize), FloorDiv(dz, cellSize))
    }

    /** Cell centres convert back to their cell, for every cell (in bounds or not). */
    lemma WorldToGridOfGridToWorld(g: Vec2Int)
      requires cellSize > 0.0
      ensures WorldToGrid(GridToWorld(g)) == g
    {
      var w := GridToWorld(g);
      CentreOffsetFloor(g.x, cellSize, w.x - originPosition.x);
      CentreOffsetFloor(g.y, cellSize, w.z - originPosition.z);
    }

    /** Every world position inside the square of cell `g` converts to `g`. */
    lemma WorldToGridInsideCell(g: Vec2Int, w: Vec3)
      requires cellSize > 0.0
      requires g.x as real * cellSize <= w.x - originPosition.x < (g.x + 1) as real * cellSize
      requires g.y as real * cellSize <= w.z - originPosition.z < (g.y + 1) as real * cellSize
      ensures WorldToGrid(w) == g
    {
      InsideCellFloor(g.x, cellSize, w.x - originPosition.x);
      InsideCellFloor(g.y, cellSize, w.z - originPosition.z);
    }

    /** Out-of-bounds cells are never buildable, whatever the table holds; in bounds, the stored flag,
        and false for a missing key. */
    predicate IsCellBuildable(gridPos: Vec2Int)
      reads this
      ensures !InBounds(gridPos, gridSize) ==> !IsCellBuildable(gridPos)
      ensures InBounds(gridPos, gridSize) ==>
        (IsCellBuildable(gridPos) <==> gridPos in buildableGrid && buildableGrid[gridPos])
      ensures IsCellBuildable(gridPos) == Buildable(buildableGrid, gridSize, gridPos)
    {
      if gridPos.x < 0 || gridPos.x >= gridSize.x || gridPos.y < 0 || gridPos.y >= gridSize.y then
        false
      else
        gridPos in buildableGrid && buildableGrid[gridPos]
    }

    /** Updates an existing key; a cell that is not a key (the warning path) changes nothing, so the key
        set never grows. */
    method SetCellBuildable(gridPos: Vec2Int, isBuildable: bool)
      modifies this
      ensures gridSize == old(gridSize) && cellSize == old(cellSize) && originPosition == old(originPosition)
      ensures buildableGrid == SetCell(old(buildableGrid), gridPos, isBuildable)
    {
      if gridPos in buildableGrid {
        buildableGrid := buildableGrid[gridPos := isBuildable];
      }
    }
  }
}
