/**
 * The value types the grid metrics are built from. The terminal defines them
 * as boxed integers and small records elsewhere (terminal primitives and the
 * crispy geometry helpers); only what the mapping uses is kept here.
 */
module Primitives {

  /** Zero-based line index into the grid, growing downward (a boxed `int`). */
  newtype LineOffset = int

  /** Zero-based column index into the grid, growing rightward (a boxed `int`). */
  newtype ColumnOffset = int

  /** A grid coordinate: the line and the column of one cell. */
  datatype CellLocation = CellLocation(line: LineOffset, column: ColumnOffset)

  /** Grid dimensions in lines and columns (logical units, not pixels). */
  datatype PageSize = PageSize(lines: int, columns: int)

  /** Pixel dimensions; width and height are unsigned, hence `nat`. */
  datatype ImageSize = ImageSize(width: nat, height: nat)

  /** A point in the pixel space of the drawing surface, (0, 0) at its top left. */
  datatype Point = Point(x: int, y: int)

  /** The conversion `.as<int>()` of an unsigned pixel dimension. */
  function AsInt(n: nat): int
  {
    n
  }
}
