/**
 * Laws of the grid mapping: how the overloads and aliases relate, how the
 * point moves from cell to cell, which members of the grid metrics it reads,
 * and a cell-by-cell reference definition the closed formula agrees with.
 */
module GridLaws {
  import opened Primitives
  import opened Rasterizer

  // ---------------------------------------------------------------------
  // The formula and the aliases
  // ---------------------------------------------------------------------

  /** The top-left corner is the page origin plus whole cells in each direction. */
  lemma MapTopLeftCoordinates(gm: GridMetrics, line: LineOffset, column: ColumnOffset)
    ensures MapTopLeft(gm, line, column).x == gm.pageMargin.left + column as int * gm.cellSize.width
    ensures MapTopLeft(gm, line, column).y == gm.pageMargin.top + line as int * gm.cellSize.height
  {
  }

  /** `map` is `mapTopLeft`, on every input. */
  lemma MapIsMapTopLeft(gm: GridMetrics, line: LineOffset, column: ColumnOffset)
    ensures Map(gm, line, column) == MapTopLeft(gm, line, column)
  {
  }

  /** Each overload taking a cell location agrees with the one taking its line and column. */
  lemma CellOverloadsAgree(gm: GridMetrics, pos: CellLocation)
    ensures MapCell(gm, pos) == Map(gm, pos.line, pos.column)
    ensures MapCell(gm, pos) == MapTopLeft(gm, pos.line, pos.column)
    ensures MapTopLeftCell(gm, pos) == MapTopLeft(gm, pos.line, pos.column)
    ensures MapBottomLeftCell(gm, pos) == MapBottomLeft(gm, pos.line, pos.column)
  {
  }

  /** The bottom of a cell is the top of the cell below it: rows have no gaps. */
  lemma MapBottomLeftIsNextTopLeft(gm: GridMetrics, line: LineOffset, column: ColumnOffset)
    ensures MapBottomLeft(gm, line, column) == MapTopLeft(gm, line + 1, column)
    ensures MapBottomLeftCell(gm, CellLocation(line, column)) == MapTopLeftCell(gm, CellLocation(line + 1, column))
  {
  }

  // ---------------------------------------------------------------------
  // Moving between cells
  // ---------------------------------------------------------------------

  /** One column to the right moves the point one cell width right and not at all down. */
  lemma ColumnStep(gm: GridMetrics, line: LineOffset, column: ColumnOffset)
    ensures MapTopLeft(gm, line, column + 1).x == MapTopLeft(gm, line, column).x + gm.cellSize.width
    ensures MapTopLeft(gm, line, column + 1).y == MapTopLeft(gm, line, column).y
  {
  }

  /** One line down moves the point one cell height down and not at all right. */
  lemma LineStep(gm: GridMetrics, line: LineOffset, column: ColumnOffset)
    ensures MapTopLeft(gm, line + 1, column).y == MapTopLeft(gm, line, column).y + gm.cellSize.height
    ensures MapTopLeft(gm, line + 1, column).x == MapTopLeft(gm, line, column).x
  {
  }

  /** Any number of columns or lines apart: the distance is that many cells. */
  lemma CellDistance(gm: GridMetrics, line1: LineOffset, column1: ColumnOffset, line2: LineOffset, column2: ColumnOffset)
    ensures MapTopLeft(gm, line2, column2).x - MapTopLeft(gm, line1, column1).x
         == (column2 - column1) as int * gm.cellSize.width
    ensures MapTopLeft(gm, line2, column2).y - MapTopLeft(gm, line1, column1).y
         == (line2 - line1) as int * gm.cellSize.height
  {
  }

  /** Columns grow rightward and lines grow downward. */
  lemma MapTopLeftMonotone(gm: GridMetrics, line1: LineOffset, column1: ColumnOffset, line2: LineOffset, column2: ColumnOffset)
    ensures column1 <= column2 ==> MapTopLeft(gm, line1, column1).x <= MapTopLeft(gm, line2, column2).x
    ensures line1 <= line2 ==> MapTopLeft(gm, line1, column1).y <= MapTopLeft(gm, line2, column2).y
  {
    CellDistance(gm, line1, column1, line2, column2);
  }

  /**
   * Two columns share their left edge exactly when they are the same column
   * or cells have no width; the same for lines, top edges and height.
   */
  lemma SameEdgeIff(gm: GridMetrics, line1: LineOffset, column1: ColumnOffset, line2: LineOffset, column2: ColumnOffset)
    ensures MapTopLeft(gm, line1, column1).x == MapTopLeft(gm, line2, column2).x
        <==> column1 == column2 || gm.cellSize.width == 0
    ensures MapTopLeft(gm, line1, column1).y == MapTopLeft(gm, line2, column2).y
        <==> line1 == line2 || gm.cellSize.height == 0
  {
    CellDistance(gm, line1, column1, line2, column2);
  }

  /** With cells of non-zero size, distinct cells have distinct top-left corners. */
  lemma MapTopLeftInjective(gm: GridMetrics, line1: LineOffset, column1: ColumnOffset, line2: LineOffset, column2: ColumnOffset)
    requires gm.cellSize.width > 0 && gm.cellSize.height > 0
    ensures MapTopLeft(gm, line1, column1) == MapTopLeft(gm, line2, column2)
        <==> line1 == line2 && column1 == column2
  {
    SameEdgeIff(gm, line1, column1, line2, column2);
  }

  // ---------------------------------------------------------------------
  // What the mapping reads
  // ---------------------------------------------------------------------

  /**
   * The mapped points depend on the page margin's left and top and on the
   * cell size, and on nothing else: not the page size, the baseline, the
   * underline, the cell margin or the bottom page margin.
   */
  lemma MappingReadsOnlyOriginAndCellSize(gm1: GridMetrics, gm2: GridMetrics, line: LineOffset, column: ColumnOffset)
    requires gm1.pageMargin.left == gm2.pageMargin.left && gm1.pageMargin.top == gm2.pageMargin.top
    requires gm1.cellSize == gm2.cellSize
    ensures MapTopLeft(gm1, line, column) == MapTopLeft(gm2, line, column)
    ensures Map(gm1, line, column) == Map(gm2, line, column)
    ensures MapBottomLeft(gm1, line, column) == MapBottomLeft(gm2, line, column)
    ensures MapCell(gm1, CellLocation(line, column)) == MapCell(gm2, CellLocation(line, column))
    ensures MapTopLeftCell(gm1, CellLocation(line, column)) == MapTopLeftCell(gm2, CellLocation(line, column))
    ensures MapBottomLeftCell(gm1, CellLocation(line, column)) == MapBottomLeftCell(gm2, CellLocation(line, column))
  {
  }

  /**
   * Conversely, the mapping of three cells pins the page origin and the cell
   * size down: grid metrics that map alike differ at most in members the
   * mapping does not read.
   */
  lemma MappingDeterminesOriginAndCellSize(gm1: GridMetrics, gm2: GridMetrics)
    requires MapTopLeft(gm1, 0, 0) == MapTopLeft(gm2, 0, 0)
    requires MapTopLeft(gm1, 1, 0) == MapTopLeft(gm2, 1, 0)
    requires MapTopLeft(gm1, 0, 1) == MapTopLeft(gm2, 0, 1)
    ensures gm1.pageMargin.left == gm2.pageMargin.left && gm1.pageMargin.top == gm2.pageMargin.top
    ensures gm1.cellSize == gm2.cellSize
  {
    LineStep(gm1, 0, 0);
    LineStep(gm2, 0, 0);
    ColumnStep(gm1, 0, 0);
    ColumnStep(gm2, 0, 0);
  }

  /** Moving the page margin moves every mapped point by the same amount. */
  lemma PageMarginShift(gm: GridMetrics, dx: int, dy: int, line: LineOffset, column: ColumnOffset)
    ensures var moved := gm.(pageMargin := gm.pageMargin.(left := gm.pageMargin.left + dx, top := gm.pageMargin.top + dy));
      MapTopLeft(moved, line, column)
        == Point(MapTopLeft(gm, line, column).x + dx, MapTopLeft(gm, line, column).y + dy)
  {
  }

  // ---------------------------------------------------------------------
  // A reference definition: walking the grid one cell at a time
  // ---------------------------------------------------------------------

  function Distance(n: int): (d: nat)
  {
    if n < 0 then -n else n
  }

  /** The top-left corner of cell (0, 0): the page margin's left and top. */
  function PageOrigin(gm: GridMetrics): (p: Point)
  {
    Point(gm.pageMargin.left, gm.pageMargin.top)
  }

  /**
   * The top-left corner of the cell at (line, column), found without any
   * multiplication: start at the page origin, step one cell width at a time
   * along the first line to the column, then one cell height at a time up or
   * down to the line.
   */
  function Walk(gm: GridMetrics, line: LineOffset, column: ColumnOffset): (p: Point)
    decreases Distance(line as int), Distance(column as int)
  {
    var w, h := gm.cellSize.width, gm.cellSize.height;
    if line > 0 then
      var q := Walk(gm, line - 1, column); Point(q.x, q.y + h)
    else if line < 0 then
      var q := Walk(gm, line + 1, column); Point(q.x, q.y - h)
    else if column > 0 then
      var q := Walk(gm, 0, column - 1); Point(q.x + w, q.y)
    else if column < 0 then
      var q := Walk(gm, 0, column + 1); Point(q.x - w, q.y)
    else
      PageOrigin(gm)
  }

  /** The closed formula and the cell-by-cell walk agree on every cell. */
  lemma {:induction false} MapTopLeftIsWalk(gm: GridMetrics, line: LineOffset, column: ColumnOffset)
    ensures MapTopLeft(gm, line, column) == Walk(gm, line, column)
    decreases Distance(line as int), Distance(column as int)
  {
    if line > 0 {
      MapTopLeftIsWalk(gm, line - 1, column);
      LineStep(gm, line - 1, column);
    } else if line < 0 {
      MapTopLeftIsWalk(gm, line + 1, column);
      LineStep(gm, line, column);
    } else if column > 0 {
      MapTopLeftIsWalk(gm, 0, column - 1);
      ColumnStep(gm, 0, column - 1);
    } else if column < 0 {
      MapTopLeftIsWalk(gm, 0, column + 1);
      ColumnStep(gm, 0, column);
    }
  }

  // ---------------------------------------------------------------------
  // Defaults and a worked example
  // ---------------------------------------------------------------------

  /**
   * With the default margins the page origin is the surface origin: every
   * cell's top-left corner is whole cells away from (0, 0), and the first
   * cell's bottom-left corner is one cell height below it.
   */
  lemma DefaultsMapFromSurfaceOrigin(pageSize: PageSize, cellSize: ImageSize, baseline: int, line: LineOffset, column: ColumnOffset)
    ensures Map(NewGridMetrics(pageSize, cellSize, baseline), line, column)
         == Point(column as int * cellSize.width, line as int * cellSize.height)
    ensures MapBottomLeft(NewGridMetrics(pageSize, cellSize, baseline), 0, 0) == Point(0, cellSize.height)
  {
  }

  /**
   * Cells of 10 by 20 pixels with a page margin of 4 left and 2 top: the
   * cell at line 2, column 3 has its top-left corner at (34, 42) and its
   * bottom-left corner at (34, 62).
   */
  lemma WorkedExample(pageSize: PageSize, baseline: int, underline: UnderlineMetrics, cellMargin: CellMargin)
    ensures var gm := GridMetrics(pageSize, ImageSize(10, 20), baseline, underline, cellMargin, PageMargin(4, 2, 0));
      MapTopLeft(gm, 2, 3) == Point(34, 42) && MapBottomLeft(gm, 2, 3) == Point(34, 62)
  {
  }
}
