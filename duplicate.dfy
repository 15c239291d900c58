/** The 4-up duplicate layout: a pool of four images, taken from the front
    of the input and cycled when there are fewer than four, each shown twice
    on a 4 x 2 grid of square tiles (top row and bottom row alike). */
module Duplicate {
  import opened Records

  /** The sheet size of the sample sheet this layout reproduces, in points. */
  const SheetWidth: real := 1326.614
  const SheetHeight: real := 805.039
  const Columns: int := 4
  const Rows: int := 2
  const PoolSize: int := 4
  /** The margin is fixed; the caller's margin is not used. */
  const Margin: real := 5.0 * Mm
  const PageWidth: real := (SheetWidth - (Columns + 1) as real * Margin) / Columns as real
  const PageHeight: real := (SheetHeight - (Rows + 1) as real * Margin) / Rows as real
  /** Tiles are square, as large as both cell dimensions allow. */
  const TileSide: real := MinReal(PageWidth, PageHeight)

  /** One round of the fill loop: append as many images from the front of
      the input as still fit in the pool. */
  function FillStep<T>(pool: seq<T>, images: seq<T>): seq<T>
    requires |pool| <= PoolSize
  {
    pool + images[..Min(PoolSize - |pool|, |images|)]
  }

  /** A round of the fill loop makes progress on a non-empty input and never
      overfills the pool; on an empty input it changes nothing, so the source's
      loop would never end there (its caller rejects empty input first). */
  lemma FillStepProgress<T>(pool: seq<T>, images: seq<T>)
    requires |pool| < PoolSize
    ensures |images| > 0 ==> |pool| < |FillStep(pool, images)| <= PoolSize
    ensures images == [] ==> FillStep(pool, images) == pool
  {
  }

  /** A round of the fill loop keeps "position k holds image k mod n" and
      leaves the pool either full or a whole number of input copies long. */
  lemma FillStepKeepsCycle<T>(pool: seq<T>, images: seq<T>)
    requires |images| > 0 && |pool| < PoolSize && |pool| % |images| == 0
    requires forall k | 0 <= k < |pool| :: pool[k] == images[k % |images|]
    ensures var next := FillStep(pool, images);
      |next| <= PoolSize && (|next| < PoolSize ==> |next| % |images| == 0)
      && forall k | 0 <= k < |next| :: next[k] == images[k % |images|]
  {
    var next := FillStep(pool, images);
    var len, n := |pool|, |images|;
    forall k | len <= k < |next|
      ensures next[k] == images[k % n]
    {
      ShiftedMod(len, k - len, n);
    }
    if |next| < PoolSize {
      assert |next| == len + n;
      ShiftedMod(len, 0, n);
      assert (len + n) % n == 0 by {
        var q := len / n;
        assert len + n == (q + 1) * n;
      }
    }
  }

  /** The first take, up to four images from the front of the input, already
      has the cyclic shape; when it is short, it holds the whole input. */
  lemma FirstTakeCycles<T>(images: seq<T>)
    requires |images| > 0
    ensures var pool := images[..Min(PoolSize, |images|)];
      |pool| <= PoolSize && (|pool| < PoolSize ==> |pool| % |images| == 0)
      && forall k | 0 <= k < |pool| :: pool[k] == images[k % |images|]
  {
    var pool := images[..Min(PoolSize, |images|)];
    forall k | 0 <= k < |pool|
      ensures pool[k] == images[k % |images|]
    {
      ShiftedMod(0, k, |images|);
    }
    if |pool| < PoolSize {
      assert |pool| == |images| == 1 * |images|;
    }
  }

  /** The pool fill (src/core/imposer.py:477-481): position k of the pool
      holds image k mod |images|. */
  method FillPool<T>(images: seq<T>) returns (pool: seq<T>)
    requires |images| > 0
    ensures |pool| == PoolSize
    ensures forall k | 0 <= k < PoolSize :: pool[k] == images[k % |images|]
  {
    pool := images[..Min(4, |images|)];
    FirstTakeCycles(images);
    if |pool| < 4 {
      while |pool| < 4
        invariant |pool| <= 4
        invariant |pool| < 4 ==> |pool| % |images| == 0
        invariant forall k | 0 <= k < |pool| :: pool[k] == images[k % |images|]
        decreases 4 - |pool|
      {
        FillStepKeepsCycle(pool, images);
        pool := FillStep(pool, images);
      }
    }
  }

  lemma ShiftedMod(base: nat, j: nat, n: nat)
    requires n > 0 && base % n == 0 && j < n
    ensures (base + j) % n == j
  {
    var q := base / n;
    assert base == q * n;
    var q', r := (base + j) / n, (base + j) % n;
    assert q' * n + r == q * n + j;
    assert (q' - q) * n == j - r;
    SmallMultipleIsZero(q' - q, n);
  }

  /** Cell `i` (of eight) shows pool entry i mod 4, that is input image
      (i mod 4) mod n. */
  function DupCell(i: nat, n: nat): Placement
    requires n > 0
  {
    var col := i % Columns;
    var row := i / Columns;
    Placement((i % PoolSize) % n, 0, col, row,
              Margin + col as real * (TileSide + Margin),
              SheetHeight - Margin - (row + 1) as real * TileSide,
              TileSide, TileSide)
  }

  /** The single sheet the duplicate routine draws for `n` input images. */
  function DuplicateSheet(n: nat): Sheet
    requires n > 0
  {
    Sheet(PageSize(SheetWidth, SheetHeight), [], [],
          seq(Columns * Rows, i requires 0 <= i => DupCell(i, n)))
  }

  /** The duplicate routine (src/core/imposer.py:444-508) on `n` input images;
      the caller's margin is not used. */
  method ImposeDuplicate(n: nat, margin: real) returns (sheet: Sheet)
    requires n > 0
    ensures sheet == DuplicateSheet(n)
  {
    var sheetWidth := 1326.614;
    var sheetHeight := 805.039;
    var fixedMargin := 5.0 * Mm;
    var pageWidth := (sheetWidth - 5.0 * fixedMargin) / 4.0;
    var pageHeight := (sheetHeight - 3.0 * fixedMargin) / 2.0;
    var pageSize := MinReal(pageWidth, pageHeight);
    var sourcePages := FillPool(seq(n, k => k));
    var images := [];
    for i := 0 to 8
      invariant images == seq(i, j requires 0 <= j => DupCell(j, n))
    {
      var col := i % 4;
      var row := i / 4;
      var sourceIndex := i % 4;
      if sourceIndex < |sourcePages| {
        var x := fixedMargin + col as real * (pageSize + fixedMargin);
        var y := sheetHeight - fixedMargin - (row + 1) as real * pageSize;
        images := images + [Placement(sourcePages[sourceIndex], 0, col, row, x, y, pageSize, pageSize)];
      }
    }
    sheet := Sheet(PageSize(sheetWidth, sheetHeight), [], [], images);
  }

  /** The cell width is the binding dimension, so tiles are as wide as the
      cells and the four columns span the sheet from margin to margin. */
  lemma TileSideIsCellWidth()
    ensures TileSide == PageWidth < PageHeight && TileSide > 0.0
    ensures Margin + (Columns - 1) as real * (TileSide + Margin) + TileSide == SheetWidth - Margin
  {
  }

  /** Cells i and i+4 show the same image; with at least four images, pool
      image t (t < 4) is shown in exactly cells t and t+4, and no image past
      the fourth is shown. */
  lemma EachPoolImageTwice(n: nat)
    requires n > 0
    ensures forall i | 0 <= i < Columns :: DupCell(i, n).tile == DupCell(i + Columns, n).tile
    ensures forall i | 0 <= i < Columns * Rows :: DupCell(i, n).tile < Min(n, PoolSize)
  {
  }

  /** With at least four images, pool image t is shown in exactly two cells,
      t and t+4. */
  lemma PoolImageCells(n: nat, t: nat)
    requires n >= PoolSize && t < PoolSize
    ensures (set i | 0 <= i < Columns * Rows && DupCell(i, n).tile == t) == {t, t + Columns}
  {
    var cells := set i | 0 <= i < Columns * Rows && DupCell(i, n).tile == t;
    forall i | 0 <= i < 8
      ensures i in cells <==> i == t || i == t + 4
    {
      assert i % 4 == (if i < 4 then i else i - 4);
    }
  }

  /** Every cell lies inside the sheet, at least one margin from each edge;
      the rows have no gap between them, as in the general layout. */
  lemma DupCellInside(i: nat, n: nat)
    requires n > 0 && i < Columns * Rows
    ensures var c := DupCell(i, n);
      Margin <= c.x && c.x + c.w <= SheetWidth - Margin
      && Margin < c.y && c.y + c.h == SheetHeight - Margin - c.row as real * TileSide
  {
    TileSideIsCellWidth();
    var c := DupCell(i, n);
    assert 0 <= c.col < 4 && 0 <= c.row < 2;
  }
}
