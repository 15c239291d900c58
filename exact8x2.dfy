/** The exact 8x2 layout: one 460 x 124 mm sheet of sixteen 53 mm square
    tiles, whose horizontal spacing is solved backward from the sheet width
    so that an 8 mm strip is reserved beside the grid on the left (barcode)
    and on the right (text). */
module Exact8x2 {
  import opened Records

  const SheetWidth: real := 460.0 * Mm
  const SheetHeight: real := 124.0 * Mm
  const Columns: int := 8
  const Rows: int := 2
  const TileSize: real := 53.0 * Mm
  const BarcodeSpace: real := 8.0 * Mm
  const TextSpace: real := 8.0 * Mm

  /** Width left for the seven gaps between columns and the two outer margins. */
  const RemainingForGaps: real := SheetWidth - Columns as real * TileSize - BarcodeSpace - TextSpace
  /** One spacing unit: seven internal gaps plus the left and right margins. */
  const HSpacing: real := RemainingForGaps / ((Columns - 1) + 2) as real
  const LeftMargin: real := HSpacing + BarcodeSpace
  const RightMargin: real := HSpacing + TextSpace
  /** Top margin, gap between the rows and bottom margin, all equal. */
  const VSpacing: real := (SheetHeight - Rows as real * TileSize) / (Rows + 1) as real

  /** Where input image `i` (i < 16) is drawn. */
  function ExactCell(i: nat): Placement
  {
    var col := i % Columns;
    var row := i / Columns;
    Placement(i, 0, col, row,
              LeftMargin + col as real * (TileSize + HSpacing),
              SheetHeight - VSpacing - (row + 1) as real * TileSize - row as real * VSpacing,
              TileSize, TileSize)
  }

  /** The single sheet the exact routine draws for `n` input images. */
  function ExactSheet(n: nat): Sheet
  {
    Sheet(PageSize(SheetWidth, SheetHeight), [], [],
          seq(Min(n, Columns * Rows), i requires 0 <= i => ExactCell(i)))
  }

  /** The exact routine (src/core/imposer.py:357-442): the first sixteen
      images, row by row; the caller's margin is not used. */
  method ImposeExact(n: nat, margin: real) returns (sheet: Sheet)
    ensures sheet == ExactSheet(n)
  {
    var sheetWidth := 460.0 * Mm;
    var sheetHeight := 124.0 * Mm;
    var pageSize := 53.0 * Mm;
    var remainingWidth := sheetWidth - 8.0 * pageSize;
    var remainingHeight := sheetHeight - 2.0 * pageSize;
    var remainingForGaps := remainingWidth - 8.0 * Mm - 8.0 * Mm;
    var hSpacing := remainingForGaps / 9.0;
    var leftMargin := hSpacing + 8.0 * Mm;
    var vSpacing := remainingHeight / 3.0;
    assert pageSize == TileSize && sheetHeight == SheetHeight;
    assert leftMargin == LeftMargin && hSpacing == HSpacing && vSpacing == VSpacing;
    var images := [];
    var count := Min(n, 16);
    for i := 0 to count
      invariant images == seq(i, j requires 0 <= j => ExactCell(j))
    {
      var col := i % 8;
      var row := i / 8;
      var x := leftMargin + col as real * (pageSize + hSpacing);
      var y := sheetHeight - vSpacing - (row + 1) as real * pageSize - row as real * vSpacing;
      assert ExactCell(i) == Placement(i, 0, col, row, x, y, pageSize, pageSize);
      images := images + [Placement(i, 0, col, row, x, y, pageSize, pageSize)];
    }
    sheet := Sheet(PageSize(sheetWidth, sheetHeight), [], [], images);
  }

  /** The fixed footprint is met exactly: the horizontal parts add up to the
      sheet width, the reserved strips make the outer margins 8 mm wider than
      the gaps, and the vertical parts add up to the sheet height. */
  lemma ExactFootprint()
    ensures LeftMargin + Columns as real * TileSize + (Columns - 1) as real * HSpacing + RightMargin
            == SheetWidth
    ensures LeftMargin == RightMargin == HSpacing + 8.0 * Mm
    ensures (Rows + 1) as real * VSpacing + Rows as real * TileSize == SheetHeight
    ensures HSpacing == 20.0 / 9.0 * Mm > 0.0 && VSpacing == 6.0 * Mm
  {
  }

  /** Every drawn tile lies inside the sheet, clear of the reserved strips and
      of the vertical margins; column 8 ends exactly at the right margin and
      the bottom row starts exactly at the bottom margin. */
  lemma ExactCellInside(i: nat)
    requires i < Columns * Rows
    ensures var c := ExactCell(i);
      c.col < Columns && c.row < Rows
      && LeftMargin <= c.x && c.x + c.w <= SheetWidth - RightMargin
      && VSpacing <= c.y && c.y + c.h <= SheetHeight - VSpacing
      && (c.col == Columns - 1 ==> c.x + c.w == SheetWidth - RightMargin)
      && (c.row == Rows - 1 ==> c.y == VSpacing)
  {
    ExactFootprint();
    var c := ExactCell(i);
    assert c.col == i % 8 && c.row == i / 8 && 0 <= c.col < 8 && 0 <= c.row < 2;
    assert c.x == LeftMargin + c.col as real * (TileSize + HSpacing);
  }

  /** Unlike the general and duplicate layouts, the exact layout leaves a gap
      of VSpacing between its two rows. */
  lemma ExactRowGap(i: nat)
    requires i < Columns
    ensures ExactCell(i).y - (ExactCell(i + Columns).y + TileSize) == VSpacing
  {
    assert i / 8 == 0 && (i + 8) / 8 == 1 && (i + 8) % 8 == i % 8;
  }

  /** Only the first sixteen images are drawn, each once, in order. */
  lemma ExactDropsExtra(n: nat)
    ensures |ExactSheet(n).images| == Min(n, 16)
    ensures forall j | 0 <= j < |ExactSheet(n).images| :: ExactSheet(n).images[j].tile == j
  {
  }
}
