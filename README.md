# Grid metrics of the contour terminal rasterizer

A Dafny model of `GridMetrics`, the value type the contour terminal's
rasterizer uses to turn a grid coordinate (line offset, column offset) into
the pixel point on the drawing surface at which glyphs, the cursor,
decorations and selections are drawn.

The record holds the page size in lines and columns, the cell size in pixels,
the glyph baseline, the underline position and thickness, a cell margin
(stored but not yet applied) and a page margin. Three families of mappings
read it: `mapTopLeft` (the formula), `mapBottomLeft` (the top left of the
next line) and `map` (an alias of `mapTopLeft`), each with a
`(line, column)` and a `CellLocation` overload.

Files:

- `primitives.dfy` (module `Primitives`): the terminal's boxed offsets
  `LineOffset` and `ColumnOffset` as `int` newtypes, `CellLocation`,
  `PageSize`, `ImageSize` (unsigned width and height as `nat`), `Point`, and
  the `.as<int>()` conversion.
- `grid_metrics.dfy` (module `Rasterizer`): `CellMargin`, `PageMargin`,
  the underline group (`UnderlineMetrics`), `GridMetrics`, the defaults, and
  the six mapping functions. C++ overloads become distinct names: the
  `CellLocation` overloads are `MapCell`, `MapTopLeftCell` and
  `MapBottomLeftCell`.
- `grid_laws.dfy` (module `GridLaws`): the laws relating the mappings, and
  `Walk`, a reference definition that reaches each cell by adding one cell
  width or height at a time from the page origin, proved equal to the
  closed formula for every cell.

Every mapping is total: no `requires` restricts the line or the column.
The source documents offsets as lying within the page, but it never checks
this, so out-of-range and negative offsets follow the same formula.

Arithmetic is over unbounded integers.

## Model

| member | source | states |
|---|---|---|
| Rasterizer.NewGridMetrics | src/vtrasterizer/GridMetrics.h:31-64 | the members without defaults are as given; the underline is position 1, thickness 1; every cell margin and page margin side is 0; so cell (0, 0) maps to the surface origin |
| Rasterizer.MapTopLeft | src/vtrasterizer/GridMetrics.h:84-90 | column 0 maps to x = left page margin and line 0 to y = top page margin; non-negative offsets never map left of or above the page origin |
| Rasterizer.MapBottomLeft | src/vtrasterizer/GridMetrics.h:96-99 | the bottom-left corner is straight below the top-left corner (same x), exactly one cell height lower |
| Rasterizer.Map | src/vtrasterizer/GridMetrics.h:72-75 | `map(line, column)` is the top-left corner of the cell at (line, column) |
| Rasterizer.MapTopLeftCell | src/vtrasterizer/GridMetrics.h:79-82 | `mapTopLeft(pos)` is the top-left corner of the cell at (pos.line, pos.column) |
| Rasterizer.MapCell | src/vtrasterizer/GridMetrics.h:72-77 | `map(pos)` is the top-left corner of the cell at (pos.line, pos.column) |
| Rasterizer.MapBottomLeftCell | src/vtrasterizer/GridMetrics.h:92-99 | `mapBottomLeft(pos)` is the top-left corner of the cell at (pos.line + 1, pos.column) |
| GridLaws.MapTopLeftCoordinates | src/vtrasterizer/GridMetrics.h:84-90 | x is pageMargin.left + column times cell width and y is pageMargin.top + line times cell height, for every line and column |
| GridLaws.MapIsMapTopLeft | src/vtrasterizer/GridMetrics.h:72-75 | `map` equals `mapTopLeft` on every input |
| GridLaws.CellOverloadsAgree | src/vtrasterizer/GridMetrics.h:77-95 | each `CellLocation` overload of map, mapTopLeft and mapBottomLeft gives what its (pos.line, pos.column) overload gives |
| GridLaws.MapBottomLeftIsNextTopLeft | src/vtrasterizer/GridMetrics.h:92-99 | bottom-left of (line, column) equals top-left of (line + 1, column), in both overloads |
| GridLaws.ColumnStep | src/vtrasterizer/GridMetrics.h:86-87 | one column more adds exactly the cell width to x and leaves y unchanged |
| GridLaws.LineStep | src/vtrasterizer/GridMetrics.h:86-87 | one line more adds exactly the cell height to y and leaves x unchanged |
| GridLaws.CellDistance | src/vtrasterizer/GridMetrics.h:86-87 | the pixel distance between any two cells is their column difference times the width and their line difference times the height |
| GridLaws.MapTopLeftMonotone | src/vtrasterizer/GridMetrics.h:66-90 | a larger column never maps further left, a larger line never maps higher |
| GridLaws.SameEdgeIff | src/vtrasterizer/GridMetrics.h:84-90 | two cells share x exactly when their columns are equal or the width is 0, and share y exactly when their lines are equal or the height is 0 |
| GridLaws.MapTopLeftInjective | src/vtrasterizer/GridMetrics.h:84-90 | with non-zero cell width and height, two cells map to the same point if and only if they are the same cell |
| GridLaws.MappingReadsOnlyOriginAndCellSize | src/vtrasterizer/GridMetrics.h:63-99 | metrics that agree on pageMargin.left, pageMargin.top and cellSize map every cell alike, in all six overloads, whatever their page size, baseline, underline, cell margin and bottom margin |
| GridLaws.MappingDeterminesOriginAndCellSize | src/vtrasterizer/GridMetrics.h:84-90 | metrics that map cells (0, 0), (1, 0) and (0, 1) alike agree on pageMargin.left, pageMargin.top and cellSize |
| GridLaws.PageMarginShift | src/vtrasterizer/GridMetrics.h:84-90 | adding dx to the left margin and dy to the top margin moves every mapped point by (dx, dy), negative amounts included |
| GridLaws.MapTopLeftIsWalk | src/vtrasterizer/GridMetrics.h:84-90 | the closed formula equals the point reached by stepping from the page origin one cell width per column and one cell height per line, for every cell |
| GridLaws.DefaultsMapFromSurfaceOrigin | src/vtrasterizer/GridMetrics.h:64-99 | with the default page margin, `map(line, column)` is (column times width, line times height) for every cell, and `mapBottomLeft(0, 0)` is (0, cell height) |
| GridLaws.WorkedExample | src/vtrasterizer/GridMetrics.h:84-99 | 10 by 20 pixel cells, margin left 4 and top 2: cell (2, 3) has top-left (34, 42) and bottom-left (34, 62) |

## Left out

- The `fmt::formatter<GridMetrics>` specialisation (debug text for logs): it only formats fields through an external library.
- The internals of `PageSize`, `ImageSize`, `LineOffset`, `ColumnOffset`, `CellLocation` and `crispy::Point`: they live in headers that are not part of this model and appear here as plain integer records.
- Fixed-width `int` overflow of the C++ multiplication and of the unsigned-to-`int` conversion `.as<int>()`: the source does not address it, and the model computes over unbounded integers.
- The cell margin in the mapping: the source stores it but does not apply it, so neither does the model.
- Default values of `pageSize`, `cellSize` and `baseline`: this file gives them no initialiser, so `NewGridMetrics` takes them as parameters.
- Resizing or otherwise updating the record: the owning renderer does that outside this file; the model treats the record as a value.
