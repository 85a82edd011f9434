/** The territory grid of app/lib/grid.ts: a map of cells, each owned by one side.
    Rows are indexed first, so `grid[row][col]`; `SetCell`/`GetCell` take the
    column first, as the source does. */
module Grids {
  import opened Wrappers
  import opened Sides

  /** `Grid.cellSize`, the default cell size in pixels. */
  const DefaultCellSize: nat := 16

  /** `GridOptions` without the game reference (used only for drawing).
      Canvas dimensions are whole pixels. */
  datatype GridOptions = GridOptions(width: nat, height: nat, cellSize: Option<nat>)

  /** `Math.ceil(a / b)` on whole numbers: the fewest cells of size `b` covering `a` pixels. */
  function CeilDiv(a: nat, b: nat): nat
    requires b > 0
  {
    (a + b - 1) / b
  }

  /** `CeilDiv` is the ceiling of the quotient: enough cells, and one fewer would not be. */
  lemma CeilDivIsCeiling(a: nat, b: nat)
    requires b > 0
    ensures CeilDiv(a, b) * b >= a
    ensures CeilDiv(a, b) == 0 || (CeilDiv(a, b) - 1) * b < a
  {
  }

  /** The cell size the constructor keeps: any given value (`!== undefined`), else 16. */
  function ConstructedCellSize(o: Option<nat>): nat {
    if o.Some? then o.value else DefaultCellSize
  }

  /** The cell size `reset` restores: `options.cellSize || 16`, so 0 also falls back to 16. */
  function ResetCellSize(o: Option<nat>): (c: nat)
    ensures c > 0
  {
    if o.Some? && o.value != 0 then o.value else DefaultCellSize
  }

  /** Every row has the same length as row 0. */
  ghost predicate Rectangular(g: seq<seq<Side>>) {
    forall r :: 0 <= r < |g| ==> |g[r]| == |g[0]|
  }

  /** A grid of `rows` rows of `cols` cells each. */
  ghost predicate HasShape(g: seq<seq<Side>>, rows: nat, cols: nat) {
    |g| == rows && forall r :: 0 <= r < |g| ==> |g[r]| == cols
  }

  /** A grid with a shape is rectangular. */
  lemma ShapedIsRectangular(g: seq<seq<Side>>, rows: nat, cols: nat)
    requires HasShape(g, rows, cols)
    ensures Rectangular(g)
  {
  }

  /** The layout `initGrid` builds: the left `floor(cols / 2)` columns dark and the rest light,
      the same in every row. */
  function InitialLayout(rows: nat, cols: nat): (g: seq<seq<Side>>)
    ensures HasShape(g, rows, cols)
    ensures forall r, c :: 0 <= r < rows && 0 <= c < cols ==> (g[r][c] == Dark <==> c < cols / 2)
  {
    seq(rows, _ => seq(cols, c => if c < cols / 2 then Dark else Light))
  }

  /** The grid with the cell in column `x`, row `y` replaced by `v` (`grid[y][x] = value`). */
  function WithCell(g: seq<seq<Side>>, x: nat, y: nat, v: Side): (h: seq<seq<Side>>)
    requires y < |g| && x < |g[y]|
    ensures |h| == |g|
    ensures forall r :: 0 <= r < |g| ==> |h[r]| == |g[r]|
    ensures h[y][x] == v
    ensures forall r, c :: 0 <= r < |g| && 0 <= c < |g[r]| && (r, c) != (y, x) ==> h[r][c] == g[r][c]
  {
    g[y := g[y][x := v]]
  }

  lemma WithCellKeepsShape(g: seq<seq<Side>>, x: nat, y: nat, v: Side, rows: nat, cols: nat)
    requires HasShape(g, rows, cols) && y < rows && x < cols
    ensures HasShape(WithCell(g, x, y, v), rows, cols)
  {
  }

  /** On the 512 x 512 canvas with 16-pixel cells the grid is 32 x 32 with 16 dark columns. */
  lemma DefaultCanvasLayout()
    ensures CeilDiv(512, DefaultCellSize) == 32
    ensures var g := InitialLayout(32, 32);
      forall r, c :: 0 <= r < 32 && 0 <= c < 32 ==> (g[r][c] == Dark <==> c < 16)
  {
  }

  class Grid {
    const options: GridOptions
    var width: nat
    var height: nat
    var cellSize: nat
    var grid: seq<seq<Side>>
    var showDebugGrid: bool

    /** Number of rows of the current dimensions. */
    function Rows(): nat
      reads this
      requires cellSize > 0
    {
      CeilDiv(height, cellSize)
    }

    /** Number of columns of the current dimensions. */
    function Cols(): nat
      reads this
      requires cellSize > 0
    {
      CeilDiv(width, cellSize)
    }

    /** The dimensions are the stored options and the cells have the shape they imply. */
    ghost predicate Valid()
      reads this
    {
      && width == options.width
      && height == options.height
      && cellSize == ResetCellSize(options.cellSize)
      && HasShape(grid, Rows(), Cols())
    }

    /** `new Grid(options)`. A cell size of 0 makes the source's `new Array` throw
        (the row count is `Infinity` or `NaN`), so it is excluded. */
    constructor (options: GridOptions)
      requires options.cellSize != Some(0)
      ensures Valid() && this.options == options
      ensures cellSize == ConstructedCellSize(options.cellSize)
      ensures grid == InitialLayout(Rows(), Cols())
      ensures !showDebugGrid
    {
      this.options := options;
      width := options.width;
      height := options.height;
      cellSize := ConstructedCellSize(options.cellSize);
      grid := [];
      showDebugGrid := false;
      new;
      InitGrid();
    }

    /** `reset`: dimensions back to the options (cell size via `||`) and the initial layout,
        discarding every captured cell. */
    method Reset()
      modifies this
      ensures Valid()
      ensures width == options.width && height == options.height
      ensures cellSize == ResetCellSize(options.cellSize)
      ensures grid == InitialLayout(Rows(), Cols())
      ensures showDebugGrid == old(showDebugGrid)
    {
      width := options.width;
      height := options.height;
      cellSize := ResetCellSize(options.cellSize);
      InitGrid();
    }

    /** `initGrid`: all cells light, then the left half of the columns dark, row by row. */
    method InitGrid()
      requires cellSize > 0
      modifies this`grid
      ensures grid == InitialLayout(Rows(), Cols())
    {
      var rows := CeilDiv(height, cellSize);
      var cols := CeilDiv(width, cellSize);
      grid := seq(rows, _ => seq(cols, _ => Light));
      var mid := cols / 2;
      for row := 0 to rows
        invariant HasShape(grid, rows, cols)
        invariant forall r, c :: 0 <= r < rows && 0 <= c < cols ==>
                    grid[r][c] == (if r < row && c < mid then Dark else Light)
      {
        for col := 0 to mid
          invariant HasShape(grid, rows, cols)
          invariant forall r, c :: 0 <= r < rows && 0 <= c < cols ==>
                      grid[r][c] == (if (r < row && c < mid) || (r == row && c < col) then Dark else Light)
        {
          grid := WithCell(grid, col, row, Dark);
        }
      }
      ghost var want := InitialLayout(rows, cols);
      assert forall r :: 0 <= r < rows ==> grid[r] == want[r];
    }

    /** `getRowLength`: the number of rows. */
    function GetRowLength(): (n: nat)
      reads this
      requires Valid()
      ensures n == Rows() == CeilDiv(options.height, ResetCellSize(options.cellSize))
    {
      |grid|
    }

    /** `getColLength`: the length of row 0; the source fails on a grid without rows. */
    function GetColLength(): (n: nat)
      reads this
      requires Valid() && |grid| > 0
      ensures n == Cols() == CeilDiv(options.width, ResetCellSize(options.cellSize))
    {
      |grid[0]|
    }

    /** `getCell(x, y)`: the owner of column `x`, row `y`. */
    function GetCell(x: nat, y: nat): (owner: Side)
      reads this
      requires y < |grid| && x < |grid[y]|
      ensures owner == grid[y][x]
    {
      grid[y][x]
    }

    /** `toggleDebugGrid`: flips the overlay flag and nothing else. */
    method ToggleDebugGrid()
      modifies this`showDebugGrid
      ensures showDebugGrid == !old(showDebugGrid)
    {
      showDebugGrid := !showDebugGrid;
    }

    /** `setCell(x, y, value)`: column `x`, row `y` becomes `value`; every other cell keeps
        its owner. The source writes past the end of a row without complaint; callers only
        pass in-range cells, and the model requires it. */
    method SetCell(x: nat, y: nat, value: Side)
      requires y < |grid| && x < |grid[y]|
      modifies this`grid
      ensures grid == WithCell(old(grid), x, y, value)
      ensures GetCell(x, y) == value
    {
      grid := grid[y := grid[y][x := value]];
    }
  }
}
