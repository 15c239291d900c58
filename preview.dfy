/** The preview: the first pages of the input, at most one sheet's worth and
    never more than sixteen, pasted as thumbnails into an integer pixel grid
    (one pixel per point, origin at the top left). */
module Preview {
  import opened Records

  /** Upper bound on the number of pages a preview shows. */
  const PreviewCap: int := 16

  /** What the image library makes of one extracted page: the file is gone,
      it cannot be opened or shrunk, or it became a thumbnail of `w` x `h`
      pixels for the box it was asked to fit. */
  datatype Thumb = Missing | Unreadable | Thumbnail(w: int, h: int)

  /** One paint operation on the preview bitmap. `Pasted` puts the thumbnail
      of page `index` with its top-left corner at (`x`, `y`); `Placeholder`
      draws the outlined box (left, top, right, bottom) and the label
      "Page `pageNumber`" at (`textX`, `textY`). */
  datatype PreviewMark =
    | Pasted(index: nat, x: int, y: int, w: int, h: int)
    | Placeholder(index: nat, left: int, top: int, right: int, bottom: int,
                  textX: int, textY: int, pageNumber: nat)

  /** The preview bitmap: its size, the x of each vertical and the y of each
      horizontal grid line, and the paint operations in order. */
  datatype PreviewImage = PreviewImage(width: int, height: int, vlines: seq<int>,
                                       hlines: seq<int>, marks: seq<PreviewMark>)

  /** The first `max` pages of the per-file page lists, in file order. */
  function FirstPages<T>(files: seq<seq<T>>, max: nat): seq<T>
  {
    var all := Flatten(files);
    all[..Min(max, |all|)]
  }

  /** How many pages a preview may show for a grid. */
  function MaxPreviewPages(g: Grid): (m: int)
    ensures m <= PreviewCap && m <= g.Capacity()
    ensures m == PreviewCap || m == g.Capacity()
  {
    Min(g.Capacity(), PreviewCap)
  }

  /** The collection loop of the preview (src/core/imposer.py:236-243): stop
      once `maxPages` pages are held, otherwise take from the next file as many
      pages as still fit. */
  method CollectPreviewPages<T>(files: seq<seq<T>>, maxPages: nat) returns (pages: seq<T>)
    ensures pages == FirstPages(files, maxPages)
    ensures |pages| <= maxPages
  {
    pages := [];
    var f := 0;
    while f < |files|
      invariant 0 <= f <= |files|
      invariant pages == FirstPages(files[..f], maxPages)
    {
      if |pages| >= maxPages {
        break;
      }
      var images := files[f];
      TakeMore(files[..f], images, maxPages);
      pages := pages + images[..Min(maxPages - |pages|, |images|)];
      assert files[..f + 1] == files[..f] + [images];
      f := f + 1;
    }
    assert files == files[..f] + files[f..];
    FirstPagesStable(files[..f], files[f..], maxPages);
  }

  /** Adding one more file's pages to a collection that is not yet full. */
  lemma TakeMore<T>(front: seq<seq<T>>, file: seq<T>, max: nat)
    requires |FirstPages(front, max)| < max
    ensures FirstPages(front + [file], max)
         == FirstPages(front, max) + file[..Min(max - |FirstPages(front, max)|, |file|)]
  {
    FlattenAppend(front, [file]);
    assert Flatten([file]) == file by {
      assert [file][..0] == [];
    }
  }

  /** Once the collection is full (or the files are used up), later files do
      not change it. */
  lemma FirstPagesStable<T>(front: seq<seq<T>>, back: seq<seq<T>>, max: nat)
    requires |FirstPages(front, max)| >= max || back == []
    ensures FirstPages(front + back, max) == FirstPages(front, max)
  {
    FlattenAppend(front, back);
    if back == [] {
      assert front + back == front;
    }
  }

  /** Width of a preview cell: floor division of what the margins leave. */
  function PixelCell(size: int, marginPx: int, count: int): (cell: int)
    requires count > 0
    ensures count * cell + (count + 1) * marginPx <= size
    ensures size < count * (cell + 1) + (count + 1) * marginPx
  {
    (size - (count + 1) * marginPx) / count
  }

  /** Left edge of preview column `col` or top edge of preview row `row`
      (rows here have a gap between them). */
  function PixelOffset(marginPx: int, cell: int, k: int): int
  {
    marginPx + k * (cell + marginPx)
  }

  /** Where the thumbnail of `thumb` for page `i` ends up, or nothing if the
      page's file is missing. */
  function CellMark(i: nat, thumb: Thumb, cols: int, cellW: int, cellH: int, marginPx: int): Option<PreviewMark>
    requires cols > 0
  {
    var x := PixelOffset(marginPx, cellW, i % cols);
    var y := PixelOffset(marginPx, cellH, i / cols);
    match thumb
    case Missing => None
    case Unreadable => Some(Placeholder(i, x + 2, y + 2, x + cellW - 2, y + cellH - 2, x + 10, y + 10, i + 1))
    case Thumbnail(w, h) => Some(Pasted(i, x + (cellW - w) / 2, y + (cellH - h) / 2, w, h))
  }

  /** The paint operations for the first `k` pages. */
  function MarksUpTo(thumbs: seq<Thumb>, k: nat, cols: int, cellW: int, cellH: int, marginPx: int): seq<PreviewMark>
    requires cols > 0 && k <= |thumbs|
  {
    if k == 0 then []
    else
      MarksUpTo(thumbs, k - 1, cols, cellW, cellH, marginPx)
      + match CellMark(k - 1, thumbs[k - 1], cols, cellW, cellH, marginPx)
        case None => []
        case Some(m) => [m]
  }

  /** The preview bitmap for a sheet of `previewW` x `previewH` pixels. */
  function PreviewOf(thumbs: seq<Thumb>, g: Grid, previewW: int, previewH: int, marginPx: int): PreviewImage
    requires g.Valid()
  {
    var cellW := PixelCell(previewW, marginPx, g.cols);
    var cellH := PixelCell(previewH, marginPx, g.rows);
    PreviewImage(previewW, previewH,
                 seq(g.cols + 1, c => PixelOffset(marginPx, cellW, c)),
                 seq(g.rows + 1, r => PixelOffset(marginPx, cellH, r)),
                 MarksUpTo(thumbs, Min(|thumbs|, g.Capacity()), g.cols, cellW, cellH, marginPx))
  }

  /** The preview composition (src/core/imposer.py:260-328): grid lines, then
      one paint operation per page of the first cols*rows, skipping pages whose
      file is gone. */
  method ComposePreview(thumbs: seq<Thumb>, g: Grid, previewW: int, previewH: int, marginPx: int)
    returns (image: PreviewImage)
    requires g.Valid()
    ensures image == PreviewOf(thumbs, g, previewW, previewH, marginPx)
  {
    var availableWidth := previewW - (g.cols + 1) * marginPx;
    var availableHeight := previewH - (g.rows + 1) * marginPx;
    var cellW := availableWidth / g.cols;
    var cellH := availableHeight / g.rows;
    var vlines := [];
    for col := 0 to g.cols + 1
      invariant vlines == seq(col, c => PixelOffset(marginPx, cellW, c))
    {
      vlines := vlines + [marginPx + col * (cellW + marginPx)];
    }
    var hlines := [];
    for row := 0 to g.rows + 1
      invariant hlines == seq(row, r => PixelOffset(marginPx, cellH, r))
    {
      hlines := hlines + [marginPx + row * (cellH + marginPx)];
    }
    var marks := [];
    var count := Min(|thumbs|, g.cols * g.rows);
    for i := 0 to count
      invariant marks == MarksUpTo(thumbs, i, g.cols, cellW, cellH, marginPx)
    {
      var col := i % g.cols;
      var row := i / g.cols;
      var x := marginPx + col * (cellW + marginPx);
      var y := marginPx + row * (cellH + marginPx);
      match thumbs[i]
      case Missing =>
      case Unreadable =>
        marks := marks + [Placeholder(i, x + 2, y + 2, x + cellW - 2, y + cellH - 2, x + 10, y + 10, i + 1)];
      case Thumbnail(w, h) =>
        marks := marks + [Pasted(i, x + (cellW - w) / 2, y + (cellH - h) / 2, w, h)];
    }
    image := PreviewImage(previewW, previewH, vlines, hlines, marks);
  }

  /** At most one paint operation per page shown, at most cols*rows in all,
      each for a distinct page in page order. */
  lemma {:induction false} MarksBounded(thumbs: seq<Thumb>, k: nat, cols: int, cellW: int, cellH: int, marginPx: int)
    requires cols > 0 && k <= |thumbs|
    ensures |MarksUpTo(thumbs, k, cols, cellW, cellH, marginPx)| <= k
    ensures forall j | 0 <= j < |MarksUpTo(thumbs, k, cols, cellW, cellH, marginPx)| ::
              MarksUpTo(thumbs, k, cols, cellW, cellH, marginPx)[j].index < k
    ensures forall j1, j2 | 0 <= j1 < j2 < |MarksUpTo(thumbs, k, cols, cellW, cellH, marginPx)| ::
              MarksUpTo(thumbs, k, cols, cellW, cellH, marginPx)[j1].index
              < MarksUpTo(thumbs, k, cols, cellW, cellH, marginPx)[j2].index
  {
    if k > 0 {
      MarksBounded(thumbs, k - 1, cols, cellW, cellH, marginPx);
    }
  }

  /** A thumbnail that fits the box it was shrunk to (cell minus 4 pixels each
      way) is centred with at least 2 pixels of cell around it. */
  lemma CentredThumbnailInsideCell(i: nat, w: int, h: int, cols: int, cellW: int, cellH: int, marginPx: int)
    requires cols > 0 && 0 <= w <= cellW - 4 && 0 <= h <= cellH - 4
    ensures var x := PixelOffset(marginPx, cellW, i % cols);
      var y := PixelOffset(marginPx, cellH, i / cols);
      match CellMark(i, Thumbnail(w, h), cols, cellW, cellH, marginPx)
      case Some(Pasted(_, px, py, _, _)) =>
        x + 2 <= px && px + w <= x + cellW - 2 && y + 2 <= py && py + h <= y + cellH - 2
      case _ => false
  {
  }

  /** When the margins fit, every preview cell of the grid lies inside the
      bitmap. */
  lemma PreviewCellsInside(g: Grid, previewW: int, previewH: int, marginPx: int, col: int, row: int)
    requires g.Valid() && marginPx >= 0 && 0 <= col < g.cols && 0 <= row < g.rows
    requires previewW >= (g.cols + 1) * marginPx && previewH >= (g.rows + 1) * marginPx
    ensures var cellW := PixelCell(previewW, marginPx, g.cols);
      var cellH := PixelCell(previewH, marginPx, g.rows);
      0 <= PixelOffset(marginPx, cellW, col) && PixelOffset(marginPx, cellW, col) + cellW <= previewW
      && 0 <= PixelOffset(marginPx, cellH, row) && PixelOffset(marginPx, cellH, row) + cellH <= previewH
  {
    OffsetInside(previewW, marginPx, g.cols, col);
    OffsetInside(previewH, marginPx, g.rows, row);
  }

  /** One dimension of PreviewCellsInside. */
  lemma OffsetInside(size: int, marginPx: int, count: int, k: int)
    requires count > 0 && marginPx >= 0 && 0 <= k < count && size >= (count + 1) * marginPx
    ensures var cell := PixelCell(size, marginPx, count);
      cell >= 0 && 0 <= PixelOffset(marginPx, cell, k) && PixelOffset(marginPx, cell, k) + cell <= size
  {
    var cell := PixelCell(size, marginPx, count);
    PositiveFactor(count, cell + 1);
    NonNegativeIntProduct(k, cell + marginPx);
    NonNegativeIntProduct(count - 1 - k, cell + marginPx);
    assert PixelOffset(marginPx, cell, k) + cell
        == count * cell + (count + 1) * marginPx - marginPx - (count - 1 - k) * (cell + marginPx);
  }

}
