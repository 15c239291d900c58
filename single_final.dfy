/** The original single-sheet 8x2 script: sixteen 56 mm square tiles with a
    5 mm margin, the sheet size derived from the tiles. It either places
    rasterised page images, or overlays scaled source pages onto a sheet that
    carries grid lines and page labels. */
module SingleFinal {
  import opened Records

  const TileSize: real := 56.0 * Mm
  const Margin: real := 5.0 * Mm
  const Columns: int := 8
  const Rows: int := 2
  const MaxTiles: int := 16
  const SheetWidth: real := Columns as real * TileSize + (Columns + 1) as real * Margin
  const SheetHeight: real := Rows as real * TileSize + (Rows + 1) as real * Margin
  /** Source pages are shrunk to this fraction of the tile. */
  const FitFactor: real := 0.95

  /** Left edge of column `col`. */
  function CellX(col: int): real { Margin + col as real * (TileSize + Margin) }

  /** Lower edge of row `row`; rows have no gap between them. */
  function CellY(row: int): real { SheetHeight - Margin - (row + 1) as real * TileSize }

  /** Where image `i` is drawn. */
  function FinalCell(i: nat): Placement
  {
    Placement(i, 0, i % Columns, i / Columns, CellX(i % Columns), CellY(i / Columns), TileSize, TileSize)
  }

  /** The sheet drawn from `n` page images. */
  function ImageSheet(n: nat): Sheet
  {
    Sheet(PageSize(SheetWidth, SheetHeight), [], [],
          seq(Min(n, MaxTiles), i requires 0 <= i => FinalCell(i)))
  }

  /** Image layout (pdf_impose_single_final.py:63-102): no images is an
      error; otherwise the first sixteen are placed row by row. */
  method LayoutWithImages(n: nat) returns (r: Result<Sheet>)
    ensures n == 0 ==> r == Err(NoImages)
    ensures n > 0 ==> r == Ok(ImageSheet(n))
  {
    if n == 0 {
      return Err(NoImages);
    }
    var pageSize := 56.0 * Mm;
    var margin := 5.0 * Mm;
    var sheetWidth := 8.0 * pageSize + 9.0 * margin;
    var sheetHeight := 2.0 * pageSize + 3.0 * margin;
    var images := [];
    for i := 0 to Min(n, 16)
      invariant images == seq(i, j requires 0 <= j => FinalCell(j))
    {
      var col := i % 8;
      var row := i / 8;
      var x := margin + col as real * (pageSize + margin);
      var y := sheetHeight - margin - (row + 1) as real * pageSize;
      images := images + [Placement(i, 0, col, row, x, y, pageSize, pageSize)];
    }
    r := Ok(Sheet(PageSize(sheetWidth, sheetHeight), [], [], images));
  }

  /** The reference label "P`pageNumber`" drawn at (`x`, `y`). */
  datatype Label = Label(pageNumber: nat, x: real, y: real)

  /** Source page `page`, scaled by `scale` and moved to (`x`, `y`). */
  datatype Overlay = Overlay(page: nat, scale: real, x: real, y: real)

  /** The composed sheet: its size, grid lines, labels and overlaid pages. */
  datatype Composite = Composite(size: PageSize, vlines: seq<real>, hlines: seq<real>,
                                 labels: seq<Label>, overlays: seq<Overlay>)

  /** Grid line `k`, vertical (k <= 8) or horizontal (k <= 2). */
  function GridLine(k: int): real { Margin + k as real * (TileSize + Margin) }

  function LabelAt(i: nat): Label
  {
    var col := i % Columns;
    var row := i / Columns;
    Label(i + 1, Margin + col as real * (TileSize + Margin) + 2.0,
          SheetHeight - Margin - row as real * (TileSize + Margin) - 8.0)
  }

  /** Scale a `source` page to 95% of the tile, keeping its aspect, and
      centre it in cell `i`. */
  function AspectFit(i: nat, source: PageSize): Overlay
    requires source.width != 0.0 && source.height != 0.0
  {
    var scale := MinReal(TileSize / source.width, TileSize / source.height) * FitFactor;
    Overlay(i, scale,
            CellX(i % Columns) + (TileSize - source.width * scale) / 2.0,
            CellY(i / Columns) + (TileSize - source.height * scale) / 2.0)
  }

  /** A page among the first sixteen with zero width or height makes the
      script fail with a division by zero. */
  predicate HasZeroSizePage(pages: seq<PageSize>)
  {
    exists i | 0 <= i < Min(MaxTiles, |pages|) :: pages[i].width == 0.0 || pages[i].height == 0.0
  }

  function CompositeOf(pages: seq<PageSize>): Result<Composite>
  {
    if HasZeroSizePage(pages) then Err(ZeroSizePage)
    else
      var count := Min(MaxTiles, |pages|);
      Ok(Composite(PageSize(SheetWidth, SheetHeight),
                   seq(Columns + 1, c => GridLine(c)), seq(Rows + 1, r => GridLine(r)),
                   seq(count, i requires 0 <= i => LabelAt(i)),
                   seq(count, i requires 0 <= i < count => AspectFit(i, pages[i]))))
  }

  /** Page overlay (pdf_impose_single_final.py:132-239): grid lines, a label
      per page, then each of the first sixteen source pages scaled and
      centred in its cell, all on one sheet. */
  method SingleSheetFromPages(pages: seq<PageSize>) returns (r: Result<Composite>)
    ensures r == CompositeOf(pages)
  {
    var pageSize := 56.0 * Mm;
    var margin := 5.0 * Mm;
    var sheetWidth := 8.0 * pageSize + 9.0 * margin;
    var sheetHeight := 2.0 * pageSize + 3.0 * margin;
    var vlines := [];
    for col := 0 to 9
      invariant vlines == seq(col, c => GridLine(c))
    {
      vlines := vlines + [margin + col as real * (pageSize + margin)];
    }
    var hlines := [];
    for row := 0 to 3
      invariant hlines == seq(row, r => GridLine(r))
    {
      hlines := hlines + [margin + row as real * (pageSize + margin)];
    }
    var count := Min(16, |pages|);
    var labels := [];
    for i := 0 to count
      invariant labels == seq(i, j requires 0 <= j => LabelAt(j))
    {
      var col := i % 8;
      var row := i / 8;
      var x := margin + col as real * (pageSize + margin) + 2.0;
      var y := sheetHeight - margin - row as real * (pageSize + margin) - 8.0;
      labels := labels + [Label(i + 1, x, y)];
    }
    var overlays := [];
    for i := 0 to count
      invariant forall j | 0 <= j < i :: pages[j].width != 0.0 && pages[j].height != 0.0
      invariant overlays == seq(i, j requires 0 <= j < i => AspectFit(j, pages[j]))
    {
      var col := i % 8;
      var row := i / 8;
      var x := margin + col as real * (pageSize + margin);
      var y := sheetHeight - margin - (row + 1) as real * pageSize;
      var sourceWidth := pages[i].width;
      var sourceHeight := pages[i].height;
      if sourceWidth == 0.0 || sourceHeight == 0.0 {
        return Err(ZeroSizePage);
      }
      var scale := MinReal(pageSize / sourceWidth, pageSize / sourceHeight) * 0.95;
      var scaledWidth := sourceWidth * scale;
      var scaledHeight := sourceHeight * scale;
      var centerX := x + (pageSize - scaledWidth) / 2.0;
      var centerY := y + (pageSize - scaledHeight) / 2.0;
      assert AspectFit(i, pages[i]) == Overlay(i, scale, centerX, centerY);
      overlays := overlays + [Overlay(i, scale, centerX, centerY)];
    }
    r := Ok(Composite(PageSize(sheetWidth, sheetHeight), vlines, hlines, labels, overlays));
  }

  /** Columns run from the left margin to the right margin, the vertical grid
      lines sit on the column edges with the last one on the sheet's right
      edge, and since rows have no gap the bottom row's lower edge is at twice
      the margin. */
  lemma FinalGridGeometry()
    ensures CellX(0) == Margin && CellX(Columns - 1) + TileSize == SheetWidth - Margin
    ensures forall c | 0 <= c < Columns :: GridLine(c) == CellX(c)
    ensures GridLine(Columns) == SheetWidth && GridLine(Rows) == SheetHeight
    ensures CellY(0) + TileSize == SheetHeight - Margin && CellY(Rows - 1) == 2.0 * Margin
  {
  }

  /** Every placed image lies inside the sheet. */
  lemma FinalCellInside(i: nat)
    requires i < MaxTiles
    ensures var c := FinalCell(i);
      c.col < Columns && c.row < Rows
      && Margin <= c.x && c.x + c.w <= SheetWidth - Margin
      && 2.0 * Margin <= c.y && c.y + c.h <= SheetHeight - Margin
  {
    var c := FinalCell(i);
    assert 0 <= c.col < 8 && 0 <= c.row < 2;
  }

  /** For a page of positive size, the scaled page keeps its aspect, fills
      95% of the tile in its longer direction and at most that in the other,
      and its centred position lies inside the cell. */
  lemma AspectFitInsideCell(i: nat, source: PageSize)
    requires source.width > 0.0 && source.height > 0.0
    ensures var o := AspectFit(i, source);
      var w, h := source.width * o.scale, source.height * o.scale;
      w <= FitFactor * TileSize && h <= FitFactor * TileSize
      && (w == FitFactor * TileSize || h == FitFactor * TileSize)
      && w * source.height == h * source.width
      && CellX(i % Columns) < o.x && o.x + w < CellX(i % Columns) + TileSize
      && CellY(i / Columns) < o.y && o.y + h < CellY(i / Columns) + TileSize
  {
    var sw, sh := source.width, source.height;
    var o := AspectFit(i, source);
    if TileSize / sw <= TileSize / sh {
      assert o.scale == TileSize / sw * FitFactor;
      assert sw * o.scale == FitFactor * TileSize;
      assert sh * o.scale <= sh * (TileSize / sh) * FitFactor;
    } else {
      assert o.scale == TileSize / sh * FitFactor;
      assert sh * o.scale == FitFactor * TileSize;
      assert sw * o.scale <= sw * (TileSize / sw) * FitFactor;
    }
  }

  /** Each label sits inside its page's cell, 2 points from the left edge;
      because the label formula assumes a gap between rows that the cells do
      not have, a label is 8 points below its cell's top in the first row but
      8 points plus one margin in the second. */
  lemma LabelInsideCell(i: nat)
    requires i < MaxTiles
    ensures var l, c := LabelAt(i), FinalCell(i);
      l.pageNumber == i + 1 && l.x == c.x + 2.0
      && c.y < l.y < c.y + c.h
      && (c.y + c.h) - l.y == 8.0 + c.row as real * Margin
  {
    var c := FinalCell(i);
    assert 0 <= c.row < 2;
  }
}
