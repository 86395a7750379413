/**
 * The grid metrics of the terminal rasterizer: the page and cell geometry
 * every renderer (glyphs, cursor, decorations, selection) uses to turn a grid
 * coordinate into the pixel point it draws at.
 *
 * The record is a plain value; the mapping functions are total and read only
 * the page margin's left and top and the cell size. Line and column offsets
 * are documented to lie inside the page, but nothing checks it: any offset,
 * negative or beyond the page, is mapped by the same formula.
 */
module Rasterizer {
  import opened Primitives

  /**
   * Uniform margin of every grid cell, in pixels; usually zero or positive
   * but may be negative. Stored, not yet applied by any mapping.
   */
  datatype CellMargin = CellMargin(top: int, left: int, bottom: int, right: int)

  /** Margin of the whole render view, in pixels; there is no right margin. */
  datatype PageMargin = PageMargin(left: int, top: int, bottom: int)

  /**
   * Underline geometry: the position of the underline's centre measured
   * upward from the cell bottom, and its thickness, both in pixels.
   */
  datatype UnderlineMetrics = UnderlineMetrics(position: int, thickness: int)

  /** Everything needed to calculate positions on the grid. */
  datatype GridMetrics = GridMetrics(
    pageSize: PageSize,           // page size in lines and columns
    cellSize: ImageSize,          // grid cell size in pixels
    baseline: int,                // glyph baseline relative to the cell bottom
    underline: UnderlineMetrics,
    cellMargin: CellMargin,       // not yet respected by the mapping
    pageMargin: PageMargin)

  /** The default cell margin: every side 0. */
  const DefaultCellMargin := CellMargin(0, 0, 0, 0)

  /** The default underline: position 1 above the cell bottom, thickness 1. */
  const DefaultUnderline := UnderlineMetrics(1, 1)

  /** The page margin's default: value-initialised, so every side 0. */
  const DefaultPageMargin := PageMargin(0, 0, 0)

  /**
   * Grid metrics built from the three members that have no default; the
   * underline, the cell margin and the page margin take their defaults, so
   * the first cell of the grid sits at the surface origin.
   */
  function NewGridMetrics(pageSize: PageSize, cellSize: ImageSize, baseline: int): (gm: GridMetrics)
    ensures gm.pageSize == pageSize && gm.cellSize == cellSize && gm.baseline == baseline
    ensures gm.underline.position == 1 && gm.underline.thickness == 1
    ensures gm.cellMargin.top == 0 && gm.cellMargin.left == 0
    ensures gm.cellMargin.bottom == 0 && gm.cellMargin.right == 0
    ensures gm.pageMargin.left == 0 && gm.pageMargin.top == 0 && gm.pageMargin.bottom == 0
    ensures MapTopLeft(gm, 0, 0) == Point(0, 0)
  {
    GridMetrics(pageSize, cellSize, baseline, DefaultUnderline, DefaultCellMargin, DefaultPageMargin)
  }

  /** Alias of MapTopLeft: the anchor point of a cell is its top-left corner. */
  function Map(gm: GridMetrics, line: LineOffset, column: ColumnOffset): (p: Point)
    ensures p == MapTopLeft(gm, line, column)
  {
    MapTopLeft(gm, line, column)
  }

  /** Map, taking the cell's location as one value: the cell's top-left corner. */
  function MapCell(gm: GridMetrics, pos: CellLocation): (p: Point)
    ensures p == MapTopLeft(gm, pos.line, pos.column)
  {
    Map(gm, pos.line, pos.column)
  }

  /** MapTopLeft, taking the cell's location as one value. */
  function MapTopLeftCell(gm: GridMetrics, pos: CellLocation): (p: Point)
    ensures p == MapTopLeft(gm, pos.line, pos.column)
  {
    MapTopLeft(gm, pos.line, pos.column)
  }

  /**
   * The top-left corner of the cell at (line, column), in the coordinates of
   * the drawing surface: the page margin's left and top, moved right by one
   * cell width per column and down by one cell height per line.
   */
  function MapTopLeft(gm: GridMetrics, line: LineOffset, column: ColumnOffset): (p: Point)
    ensures column == 0 ==> p.x == gm.pageMargin.left
    ensures line == 0 ==> p.y == gm.pageMargin.top
    ensures column >= 0 ==> p.x >= gm.pageMargin.left
    ensures line >= 0 ==> p.y >= gm.pageMargin.top
  {
    var x := gm.pageMargin.left + column as int * AsInt(gm.cellSize.width);
    var y := gm.pageMargin.top + line as int * AsInt(gm.cellSize.height);
    Point(x, y)
  }

  /**
   * MapBottomLeft, taking the cell's location as one value: the top-left
   * corner of the cell one line below.
   */
  function MapBottomLeftCell(gm: GridMetrics, pos: CellLocation): (p: Point)
    ensures p == MapTopLeft(gm, pos.line + 1, pos.column)
  {
    MapBottomLeft(gm, pos.line, pos.column)
  }

  /**
   * The bottom-left corner of the cell at (line, column), taken to be the
   * top-left corner of the cell one line below: straight under the top-left
   * corner, exactly one cell height further down.
   */
  function MapBottomLeft(gm: GridMetrics, line: LineOffset, column: ColumnOffset): (p: Point)
    ensures p.x == MapTopLeft(gm, line, column).x
    ensures p.y == MapTopLeft(gm, line, column).y + gm.cellSize.height
  {
    MapTopLeft(gm, line + 1, column)
  }
}
