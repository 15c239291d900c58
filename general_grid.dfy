/** The general paginated grid: tiles fill a `cols` x `rows` grid of equal
    cells, sheet after sheet, with one uniform margin around the sheet and
    between columns. Both imposer copies run this same routine. */
module GeneralGrid {
  import opened Records

  /** Number of sheets for `n` tiles at `pps` tiles per sheet (ceiling division). */
  function SheetCount(n: nat, pps: int): (c: nat)
    requires pps > 0
    ensures c * pps >= n
    ensures c == 0 || (c - 1) * pps < n
  {
    var c := (n + pps - 1) / pps;
    assert c * pps + (n + pps - 1) % pps == n + pps - 1;
    c
  }

  function CellWidth(g: Grid, page: PageSize, margin: real): real
    requires g.Valid()
  {
    (page.width - (g.cols + 1) as real * margin) / g.cols as real
  }

  function CellHeight(g: Grid, page: PageSize, margin: real): real
    requires g.Valid()
  {
    (page.height - (g.rows + 1) as real * margin) / g.rows as real
  }

  /** Left edge of column `col`. */
  function CellX(g: Grid, page: PageSize, margin: real, col: int): real
    requires g.Valid()
  {
    margin + col as real * (CellWidth(g, page, margin) + margin)
  }

  /** Lower edge of row `row`: rows are stacked down from the top margin with
      no gap between them. */
  function CellY(g: Grid, page: PageSize, margin: real, row: int): real
    requires g.Valid()
  {
    page.height - margin - (row + 1) as real * CellHeight(g, page, margin)
  }

  /** Where tile `k` of the flat input is drawn. */
  function Cell(k: nat, g: Grid, page: PageSize, margin: real): Placement
    requires g.Valid()
  {
    PositiveCapacity(g);
    var pps := g.Capacity();
    var i := k % pps;
    var col := i % g.cols;
    var row := i / g.cols;
    Placement(k, k / pps, col, row, CellX(g, page, margin, col), CellY(g, page, margin, row),
              CellWidth(g, page, margin), CellHeight(g, page, margin))
  }

  /** The x of each vertical grid line, for col in 0..cols. */
  function VLines(g: Grid, page: PageSize, margin: real): seq<real>
    requires g.Valid()
  {
    seq(g.cols + 1, c => margin + c as real * (CellWidth(g, page, margin) + margin))
  }

  /** The y of each horizontal grid line, for row in 0..rows. */
  function HLines(g: Grid, page: PageSize, margin: real): seq<real>
    requires g.Valid()
  {
    seq(g.rows + 1, r => margin + r as real * (CellHeight(g, page, margin) + margin))
  }

  /** Sheet `s` of a job of `n` tiles: the grid lines and the tiles
      s*pps .. min((s+1)*pps, n) - 1 in order. */
  function SheetAt(n: nat, s: nat, g: Grid, page: PageSize, margin: real): Sheet
    requires g.Valid()
    requires s * g.Capacity() < n
  {
    var pps := g.Capacity();
    Sheet(page, VLines(g, page, margin), HLines(g, page, margin),
          seq(Min(pps, n - s * pps), i requires 0 <= i => Cell(s * pps + i, g, page, margin)))
  }

  /** Everything the general routine draws for `n` tiles. */
  function GeneralSheets(n: nat, g: Grid, page: PageSize, margin: real): seq<Sheet>
    requires g.Valid()
  {
    PositiveCapacity(g);
    var c := SheetCount(n, g.Capacity());
    seq(c, s requires 0 <= s < c => (BeforeLastSheet(n, g.Capacity(), c, s); SheetAt(n, s, g, page, margin)))
  }

  lemma PositiveCapacity(g: Grid)
    requires g.Valid()
    ensures g.Capacity() > 0
  {
  }

  lemma BeforeLastSheet(n: nat, pps: int, c: nat, s: nat)
    requires pps > 0 && c == SheetCount(n, pps) && s < c
    ensures s * pps < n
  {
    assert s * pps <= (c - 1) * pps;
  }

  /** Tile `s*pps + i` of a sheet sits in its sheet `s` at local index `i`. */
  lemma LocalIndex(s: nat, pps: int, i: int)
    requires pps > 0 && 0 <= i < pps
    ensures (s * pps + i) / pps == s && (s * pps + i) % pps == i
  {
    var k := s * pps + i;
    var q, r := k / pps, k % pps;
    assert q * pps + r == s * pps + i;
    assert (q - s) * pps == i - r;
    SmallMultipleIsZero(q - s, pps);
  }

  /** The tiles of the first `t` sheets are tiles 0 .. min(t*pps, n) - 1 in order. */
  lemma {:induction false} CoveragePrefix(n: nat, g: Grid, page: PageSize, margin: real, t: nat)
    requires g.Valid() && t <= |GeneralSheets(n, g, page, margin)|
    ensures g.Capacity() > 0
    ensures Tiles(GeneralSheets(n, g, page, margin)[..t])
         == seq(Min(t * g.Capacity(), n), k requires 0 <= k => Cell(k, g, page, margin))
  {
    PositiveCapacity(g);
    var S := GeneralSheets(n, g, page, margin);
    var pps := g.Capacity();
    if t > 0 {
      CoveragePrefix(n, g, page, margin, t - 1);
      TilesSnoc(S, t);
      var start := SheetImagesAt(n, g, page, margin, t - 1);
      AppendCells(start, Min(pps, n - start), g, page, margin);
    }
  }

  lemma TilesSnoc(S: seq<Sheet>, t: nat)
    requires 0 < t <= |S|
    ensures Tiles(S[..t]) == Tiles(S[..t - 1]) + S[t - 1].images
  {
    assert S[..t][..t - 1] == S[..t - 1];
  }

  /** Sheet `s` holds the tiles from `start` = s*pps on, up to pps of them. */
  lemma SheetImagesAt(n: nat, g: Grid, page: PageSize, margin: real, s: nat) returns (start: nat)
    requires g.Valid() && s < |GeneralSheets(n, g, page, margin)|
    ensures g.Capacity() > 0 && start == s * g.Capacity() < n
    ensures Min(s * g.Capacity(), n) == start
    ensures Min((s + 1) * g.Capacity(), n) == start + Min(g.Capacity(), n - start)
    ensures GeneralSheets(n, g, page, margin)[s].images
         == seq(Min(g.Capacity(), n - start), i requires 0 <= i => Cell(start + i, g, page, margin))
  {
    PositiveCapacity(g);
    var pps := g.Capacity();
    BeforeLastSheet(n, pps, |GeneralSheets(n, g, page, margin)|, s);
    start := s * pps;
    assert (s + 1) * pps == start + pps;
  }

  lemma AppendCells(start: nat, m: nat, g: Grid, page: PageSize, margin: real)
    requires g.Valid()
    ensures seq(start, k requires 0 <= k => Cell(k, g, page, margin))
          + seq(m, i requires 0 <= i => Cell(start + i, g, page, margin))
         == seq(start + m, k requires 0 <= k => Cell(k, g, page, margin))
  {
  }

  /** Every tile 0 .. n-1 is drawn exactly once, in input order, and nothing
      else is drawn. */
  lemma Coverage(n: nat, g: Grid, page: PageSize, margin: real)
    requires g.Valid()
    ensures Tiles(GeneralSheets(n, g, page, margin))
         == seq(n, k requires 0 <= k => Cell(k, g, page, margin))
    ensures forall j | 0 <= j < n :: Tiles(GeneralSheets(n, g, page, margin))[j].tile == j
  {
    var S := GeneralSheets(n, g, page, margin);
    CoveragePrefix(n, g, page, margin, |S|);
    assert S[..|S|] == S;
  }

  /** Only the last sheet may be partly filled, and no sheet is empty. */
  lemma OnlyLastSheetPartial(n: nat, g: Grid, page: PageSize, margin: real, s: nat)
    requires g.Valid() && s < |GeneralSheets(n, g, page, margin)|
    ensures |GeneralSheets(n, g, page, margin)[s].images| > 0
    ensures s + 1 < |GeneralSheets(n, g, page, margin)|
        ==> |GeneralSheets(n, g, page, margin)[s].images| == g.Capacity()
  {
    PositiveCapacity(g);
    var S := GeneralSheets(n, g, page, margin);
    var pps := g.Capacity();
    BeforeLastSheet(n, pps, |S|, s);
    if s + 1 < |S| {
      BeforeLastSheet(n, pps, |S|, s + 1);
      assert (s + 1) * pps == s * pps + pps;
    }
  }

  /** The sheet, row and column of tile `k` decode back to `k`, and the cell
      is inside the grid. */
  lemma CellDecodes(k: nat, g: Grid, page: PageSize, margin: real)
    requires g.Valid()
    ensures var c := Cell(k, g, page, margin);
      c.tile == k && c.col < g.cols && c.row < g.rows
      && c.sheet * g.Capacity() + c.row * g.cols + c.col == k
  {
    PositiveCapacity(g);
    var pps := g.Capacity();
    var i := k % pps;
    assert k == (k / pps) * pps + i;
    assert i == (i / g.cols) * g.cols + i % g.cols;
    RowInGrid(i, g.cols, g.rows);
  }

  lemma RowInGrid(i: int, cols: int, rows: int)
    requires cols > 0 && 0 <= i < cols * rows
    ensures i / cols < rows
  {
    var q := i / cols;
    assert q * cols <= i;
  }

  /** The cells exactly span the sheet width: cols cells and cols+1 margins. */
  lemma CellsFillWidth(g: Grid, page: PageSize, margin: real)
    requires g.Valid()
    ensures g.cols as real * CellWidth(g, page, margin) + (g.cols + 1) as real * margin == page.width
    ensures g.rows as real * CellHeight(g, page, margin) + (g.rows + 1) as real * margin == page.height
    ensures CellX(g, page, margin, g.cols - 1) + CellWidth(g, page, margin) == page.width - margin
  {
    var cw := CellWidth(g, page, margin);
    assert (g.cols - 1) as real * (cw + margin) + cw == g.cols as real * cw + (g.cols - 1) as real * margin;
  }

  /** Rows have no gap: each row sits directly on the one below, so the
      bottom row's lower edge is at rows*margin, not at margin. */
  lemma NoRowGap(g: Grid, page: PageSize, margin: real, row: int)
    requires g.Valid()
    ensures CellY(g, page, margin, row) == CellY(g, page, margin, row + 1) + CellHeight(g, page, margin)
    ensures CellY(g, page, margin, g.rows - 1) == g.rows as real * margin
  {
    var ch := CellHeight(g, page, margin);
    assert (row + 2) as real * ch == (row + 1) as real * ch + ch;
    assert g.rows as real * ch == page.height - (g.rows + 1) as real * margin;
  }

  /** The grid lines span the sheet: the vertical ones sit on the left edge
      of each column, the last on the sheet's right edge; the horizontal ones
      run from one margin above the bottom up to the sheet's top edge. */
  lemma GridLinesSpanSheet(g: Grid, page: PageSize, margin: real)
    requires g.Valid()
    ensures forall c | 0 <= c < g.cols :: VLines(g, page, margin)[c] == CellX(g, page, margin, c)
    ensures VLines(g, page, margin)[0] == margin && VLines(g, page, margin)[g.cols] == page.width
    ensures HLines(g, page, margin)[0] == margin && HLines(g, page, margin)[g.rows] == page.height
  {
    var cw := CellWidth(g, page, margin);
    var ch := CellHeight(g, page, margin);
    assert g.cols as real * (cw + margin) == g.cols as real * cw + g.cols as real * margin;
    assert g.rows as real * (ch + margin) == g.rows as real * ch + g.rows as real * margin;
    CellsFillWidth(g, page, margin);
  }

  /** The horizontal lines, spaced as if rows had margins between them, do
      not frame the rows, which have none: the lowest line is (rows-1)
      margins below the bottom row and the highest is one margin above the
      top row. */
  lemma HorizontalLinesMissRows(g: Grid, page: PageSize, margin: real)
    requires g.Valid()
    ensures CellY(g, page, margin, g.rows - 1) - HLines(g, page, margin)[0] == (g.rows - 1) as real * margin
    ensures HLines(g, page, margin)[g.rows]
            - (CellY(g, page, margin, 0) + CellHeight(g, page, margin)) == margin
  {
    NoRowGap(g, page, margin, 0);
    GridLinesSpanSheet(g, page, margin);
  }

  /** When the margin is not negative and the cells have positive size, every
      cell lies inside the sheet: at least `margin` from the left, right and
      top edges and at least rows*margin from the bottom. */
  lemma CellInsideSheet(k: nat, g: Grid, page: PageSize, margin: real)
    requires g.Valid() && margin >= 0.0
    requires CellWidth(g, page, margin) > 0.0 && CellHeight(g, page, margin) > 0.0
    ensures var c := Cell(k, g, page, margin);
      margin <= c.x && c.x + c.w <= page.width - margin
      && g.rows as real * margin <= c.y && c.y + c.h <= page.height - margin
  {
    CellDecodes(k, g, page, margin);
    var c := Cell(k, g, page, margin);
    ColumnInside(g, page, margin, c.col);
    RowInside(g, page, margin, c.row);
  }

  /** Column `col` lies between the left and the right margin. */
  lemma ColumnInside(g: Grid, page: PageSize, margin: real, col: int)
    requires g.Valid() && margin >= 0.0 && CellWidth(g, page, margin) > 0.0 && 0 <= col < g.cols
    ensures margin <= CellX(g, page, margin, col)
    ensures CellX(g, page, margin, col) + CellWidth(g, page, margin) <= page.width - margin
  {
    var cw := CellWidth(g, page, margin);
    CellsFillWidth(g, page, margin);
    NonNegativeProduct(col as real, cw + margin);
    NonNegativeProduct((g.cols - 1 - col) as real, cw + margin);
    assert CellX(g, page, margin, g.cols - 1) - CellX(g, page, margin, col)
        == (g.cols - 1 - col) as real * (cw + margin);
  }

  /** Row `row` lies between rows*margin from the bottom and the top margin. */
  lemma RowInside(g: Grid, page: PageSize, margin: real, row: int)
    requires g.Valid() && margin >= 0.0 && CellHeight(g, page, margin) > 0.0 && 0 <= row < g.rows
    ensures g.rows as real * margin <= CellY(g, page, margin, row)
    ensures CellY(g, page, margin, row) + CellHeight(g, page, margin) <= page.height - margin
  {
    var ch := CellHeight(g, page, margin);
    NoRowGap(g, page, margin, row);
    NonNegativeProduct(row as real, ch);
    NonNegativeProduct((g.rows - 1 - row) as real, ch);
    assert CellY(g, page, margin, row) - CellY(g, page, margin, g.rows - 1)
        == (g.rows - 1 - row) as real * ch;
  }

  /** Two different tiles on one sheet do not overlap: they are in different
      columns, left one ending before the right one starts, or in different
      rows, upper one starting where the lower one ends or above. */
  lemma CellsDisjoint(k1: nat, k2: nat, g: Grid, page: PageSize, margin: real)
    requires g.Valid() && margin >= 0.0
    requires CellWidth(g, page, margin) > 0.0 && CellHeight(g, page, margin) > 0.0
    requires k1 != k2 && Cell(k1, g, page, margin).sheet == Cell(k2, g, page, margin).sheet
    ensures var c1, c2 := Cell(k1, g, page, margin), Cell(k2, g, page, margin);
      (c1.col < c2.col ==> c1.x + c1.w <= c2.x)
      && (c1.row < c2.row ==> c2.y + c2.h <= c1.y)
      && (c1.col != c2.col || c1.row != c2.row)
  {
    CellDecodes(k1, g, page, margin);
    CellDecodes(k2, g, page, margin);
    var c1, c2 := Cell(k1, g, page, margin), Cell(k2, g, page, margin);
    if c1.col < c2.col {
      ColumnsApart(g, page, margin, c1.col, c2.col);
    }
    if c1.row < c2.row {
      RowsApart(g, page, margin, c1.row, c2.row);
    }
  }

  /** A column left of another ends at least one margin before it starts. */
  lemma ColumnsApart(g: Grid, page: PageSize, margin: real, a: int, b: int)
    requires g.Valid() && margin >= 0.0 && CellWidth(g, page, margin) > 0.0 && a < b
    ensures CellX(g, page, margin, a) + CellWidth(g, page, margin) + margin <= CellX(g, page, margin, b)
  {
    var cw := CellWidth(g, page, margin);
    NonNegativeProduct((b - a - 1) as real, cw + margin);
    assert CellX(g, page, margin, b) - CellX(g, page, margin, a) == (b - a) as real * (cw + margin);
  }

  /** A row above another starts where the lower one ends, or higher. */
  lemma RowsApart(g: Grid, page: PageSize, margin: real, a: int, b: int)
    requires g.Valid() && CellHeight(g, page, margin) > 0.0 && a < b
    ensures CellY(g, page, margin, b) + CellHeight(g, page, margin) <= CellY(g, page, margin, a)
  {
    var ch := CellHeight(g, page, margin);
    NonNegativeProduct((b - a - 1) as real, ch);
    assert CellY(g, page, margin, a) - CellY(g, page, margin, b) == (b - a) as real * ch;
  }

  /** The vertical grid lines of one sheet: one per column boundary. */
  method DrawVerticalLines(g: Grid, page: PageSize, margin: real, cellWidth: real) returns (xs: seq<real>)
    requires g.Valid() && cellWidth == CellWidth(g, page, margin)
    ensures xs == VLines(g, page, margin)
  {
    xs := [];
    for col := 0 to g.cols + 1
      invariant xs == VLines(g, page, margin)[..col]
    {
      assert VLines(g, page, margin)[col] == margin + col as real * (cellWidth + margin);
      assert VLines(g, page, margin)[..col + 1] == VLines(g, page, margin)[..col] + [VLines(g, page, margin)[col]];
      xs := xs + [margin + col as real * (cellWidth + margin)];
    }
  }

  /** The horizontal grid lines of one sheet: one per row boundary. */
  method DrawHorizontalLines(g: Grid, page: PageSize, margin: real, cellHeight: real) returns (ys: seq<real>)
    requires g.Valid() && cellHeight == CellHeight(g, page, margin)
    ensures ys == HLines(g, page, margin)
  {
    ys := [];
    for row := 0 to g.rows + 1
      invariant ys == HLines(g, page, margin)[..row]
    {
      assert HLines(g, page, margin)[row] == margin + row as real * (cellHeight + margin);
      assert HLines(g, page, margin)[..row + 1] == HLines(g, page, margin)[..row] + [HLines(g, page, margin)[row]];
      ys := ys + [margin + row as real * (cellHeight + margin)];
    }
  }

  /** The images of sheet `sheetNum`: cells in order until the sheet is full
      or the input runs out. */
  method PlaceSheetImages(n: nat, sheetNum: nat, g: Grid, page: PageSize, margin: real,
                          cellWidth: real, cellHeight: real) returns (images: seq<Placement>)
    requires g.Valid() && sheetNum * g.Capacity() < n
    requires cellWidth == CellWidth(g, page, margin) && cellHeight == CellHeight(g, page, margin)
    ensures images == SheetAt(n, sheetNum, g, page, margin).images
  {
    var pps := g.cols * g.rows;
    var sheetStart := sheetNum * pps;
    images := [];
    var i := 0;
    while i < pps
      invariant 0 <= i <= pps && sheetStart + i <= n
      invariant images == seq(i, j requires 0 <= j => Cell(sheetStart + j, g, page, margin))
    {
      var imageIndex := sheetStart + i;
      if imageIndex >= n {
        break;
      }
      var col := i % g.cols;
      var row := i / g.cols;
      var x := margin + col as real * (cellWidth + margin);
      var y := page.height - margin - (row + 1) as real * cellHeight;
      LocalIndex(sheetNum, pps, i);
      assert Cell(imageIndex, g, page, margin) == Placement(imageIndex, sheetNum, col, row, x, y, cellWidth, cellHeight);
      images := images + [Placement(imageIndex, sheetNum, col, row, x, y, cellWidth, cellHeight)];
      i := i + 1;
    }
    assert i == Min(pps, n - sheetStart);
  }

  /** The general routine (src/core/imposer.py:510-578 and the identical
      company_pdf_imposer.py:175-252): for each sheet, the grid lines, then up
      to cols*rows tiles, stopping at the end of the input. */
  method ImposeGeneral(n: nat, g: Grid, page: PageSize, margin: real) returns (sheets: seq<Sheet>)
    requires g.Valid()
    ensures sheets == GeneralSheets(n, g, page, margin)
  {
    PositiveCapacity(g);
    var pps := g.cols * g.rows;
    var cellWidth := (page.width - (g.cols + 1) as real * margin) / g.cols as real;
    var cellHeight := (page.height - (g.rows + 1) as real * margin) / g.rows as real;
    var totalSheets := (n + pps - 1) / pps;
    sheets := [];
    for sheetNum := 0 to totalSheets
      invariant |sheets| == sheetNum
      invariant forall t | 0 <= t < sheetNum :: sheets[t] == GeneralSheets(n, g, page, margin)[t]
    {
      BeforeLastSheet(n, pps, totalSheets, sheetNum);
      var vlines := DrawVerticalLines(g, page, margin, cellWidth);
      var hlines := DrawHorizontalLines(g, page, margin, cellHeight);
      var images := PlaceSheetImages(n, sheetNum, g, page, margin, cellWidth, cellHeight);
      sheets := sheets + [Sheet(page, vlines, hlines, images)];
    }
  }
}
