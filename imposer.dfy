/** The job level of the main imposer (src/core/imposer.py): resolving the
    layout and the paper, gathering the pages, choosing one of the three
    imposition routines, and the preview job. */
module Imposer {
  import opened Records
  import opened Extraction
  import GeneralGrid
  import Exact8x2
  import Duplicate
  import Preview

  /** This copy's layout table: the five shared grids, the duplicate layout,
      and a placeholder entry for a custom grid. */
  const Layouts: map<string, Grid> := NamedLayouts["4up_dup" := Grid(4, 2)]["custom" := Grid(0, 0)]

  /** This copy's paper table: the seven shared papers and a placeholder
      entry for a custom size. */
  const PaperSizes: map<string, PageSize> := StandardPapers["Custom" := PageSize(0.0, 0.0)]

  /** The layout step of an imposition job (src/core/imposer.py:136-151). */
  function ResolveLayout(layout: string, customCols: int, customRows: int): (r: Result<Grid>)
    ensures r.Ok? ==> r.value.Valid()
    ensures r == Err(UnknownLayout) <==> layout !in Layouts
    ensures r == Err(InvalidCustomLayout) <==> layout == "custom" && (customCols <= 0 || customRows <= 0)
    ensures r.Ok? && layout == "custom" ==> r.value == Grid(customCols, customRows)
    ensures r.Ok? && layout != "custom" ==> r.value == Layouts[layout]
  {
    if layout !in Layouts then Err(UnknownLayout)
    else if layout == "custom" then
      if customCols <= 0 || customRows <= 0 then Err(InvalidCustomLayout)
      else Ok(Grid(customCols, customRows))
    else if layout == "4up_dup" then Ok(Grid(4, 2))
    else Ok(Layouts[layout])
  }

  /** The layout step of a preview job (src/core/imposer.py:211-220), which
      tests for a custom grid before looking the name up. */
  function PreviewLayout(layout: string, customCols: int, customRows: int): Result<Grid>
  {
    if layout == "custom" then
      if customCols <= 0 || customRows <= 0 then Err(InvalidCustomLayout)
      else Ok(Grid(customCols, customRows))
    else if layout !in Layouts then Err(UnknownLayout)
    else Ok(Layouts[layout])
  }

  /** The two layout steps agree on every input, despite testing in a
      different order and the imposition step special-casing "4up_dup". */
  lemma PreviewLayoutAgrees(layout: string, customCols: int, customRows: int)
    ensures PreviewLayout(layout, customCols, customRows) == ResolveLayout(layout, customCols, customRows)
  {
  }

  /** The paper step (src/core/imposer.py:153-166, repeated at 222-233): a
      custom size in millimetres or a table entry, turned on its side for
      landscape. */
  function ResolvePaper(paper: string, widthMm: real, heightMm: real, landscape: bool): (r: Result<PageSize>)
    ensures r.Ok? ==> r.value.width > 0.0 && r.value.height > 0.0
    ensures r == Err(InvalidCustomPaper) <==> paper == "Custom" && (widthMm <= 0.0 || heightMm <= 0.0)
    ensures r == Err(UnknownPaper) <==> paper !in PaperSizes
    ensures r.Ok? && paper != "Custom"
        ==> r.value == if landscape then PaperSizes[paper].Swapped() else PaperSizes[paper]
    ensures r.Ok? && paper == "Custom"
        ==> r.value == if landscape then PageSize(heightMm * Mm, widthMm * Mm) else PageSize(widthMm * Mm, heightMm * Mm)
  {
    var portrait: Result<PageSize> :=
      if paper == "Custom" then
        if widthMm <= 0.0 || heightMm <= 0.0 then Err(InvalidCustomPaper)
        else Ok(PageSize(widthMm * Mm, heightMm * Mm))
      else if paper !in PaperSizes then Err(UnknownPaper)
      else (StandardPapersPositive(paper); Ok(PaperSizes[paper]));
    if portrait.Ok? && landscape then Ok(portrait.value.Swapped()) else portrait
  }

  /** Landscape is portrait with width and height exchanged, and a custom
      size is taken in millimetres. */
  lemma LandscapeSwaps(paper: string, widthMm: real, heightMm: real)
    ensures ResolvePaper(paper, widthMm, heightMm, true)
         == match ResolvePaper(paper, widthMm, heightMm, false)
            case Ok(size) => Ok(PageSize(size.height, size.width))
            case Err(e) => Err(e)
    ensures paper == "Custom" && widthMm > 0.0 && heightMm > 0.0
        ==> ResolvePaper(paper, widthMm, heightMm, true) == Ok(PageSize(heightMm * Mm, widthMm * Mm))
  {
  }

  /** Layout and paper together; a layout error is reported before a paper
      error. */
  function ResolveJob(layout: string, customCols: int, customRows: int, paper: string,
                      widthMm: real, heightMm: real, landscape: bool): (r: Result<Job>)
    ensures r.Ok? ==> r.value.grid.Valid() && r.value.page.width > 0.0 && r.value.page.height > 0.0
    ensures r.Ok? <==> ResolveLayout(layout, customCols, customRows).Ok?
                       && ResolvePaper(paper, widthMm, heightMm, landscape).Ok?
    ensures r.Ok? ==> r.value == Job(ResolveLayout(layout, customCols, customRows).value,
                                     ResolvePaper(paper, widthMm, heightMm, landscape).value)
    ensures ResolveLayout(layout, customCols, customRows).Err?
        ==> r == Err(ResolveLayout(layout, customCols, customRows).error)
    ensures ResolveLayout(layout, customCols, customRows).Ok?
            && ResolvePaper(paper, widthMm, heightMm, landscape).Err?
        ==> r == Err(ResolvePaper(paper, widthMm, heightMm, landscape).error)
  {
    match ResolveLayout(layout, customCols, customRows)
    case Err(e) => Err(e)
    case Ok(g) =>
      match ResolvePaper(paper, widthMm, heightMm, landscape)
      case Err(e) => Err(e)
      case Ok(page) => Ok(Job(g, page))
  }

  /** The three imposition routines. */
  datatype Routine = ExactRoutine | DuplicateRoutine | GeneralRoutine

  /** The routine chosen for a grid and layout name (src/core/imposer.py:349-355). */
  function Route(g: Grid, layout: string): Routine
  {
    if g.cols == 8 && g.rows == 2 && layout == "8x2" then ExactRoutine
    else if layout == "4up_dup" then DuplicateRoutine
    else GeneralRoutine
  }

  /** Only the names pick the special routines: an 8 x 2 grid asked for as a
      custom layout goes to the general routine, and so does "8up" although
      it has the duplicate layout's 4 x 2 grid. */
  lemma RouteByName(layout: string, customCols: int, customRows: int)
    requires ResolveLayout(layout, customCols, customRows).Ok?
    ensures var g := ResolveLayout(layout, customCols, customRows).value;
      (Route(g, layout) == ExactRoutine <==> layout == "8x2")
      && (Route(g, layout) == DuplicateRoutine <==> layout == "4up_dup")
  {
  }

  /** What the chosen routine draws for `n` tiles. */
  function ImposedSheets(n: nat, g: Grid, page: PageSize, margin: real, layout: string): seq<Sheet>
    requires g.Valid() && (Route(g, layout) == DuplicateRoutine ==> n > 0)
  {
    match Route(g, layout)
    case ExactRoutine => [Exact8x2.ExactSheet(n)]
    case DuplicateRoutine => [Duplicate.DuplicateSheet(n)]
    case GeneralRoutine => GeneralGrid.GeneralSheets(n, g, page, margin)
  }

  /** The dispatch (src/core/imposer.py:340-355). */
  method ImposeSheets(n: nat, g: Grid, page: PageSize, margin: real, layout: string) returns (sheets: seq<Sheet>)
    requires g.Valid() && (Route(g, layout) == DuplicateRoutine ==> n > 0)
    ensures sheets == ImposedSheets(n, g, page, margin, layout)
  {
    if g.cols == 8 && g.rows == 2 && layout == "8x2" {
      var sheet := Exact8x2.ImposeExact(n, margin);
      sheets := [sheet];
    } else if layout == "4up_dup" {
      var sheet := Duplicate.ImposeDuplicate(n, margin);
      sheets := [sheet];
    } else {
      sheets := GeneralGrid.ImposeGeneral(n, g, page, margin);
    }
  }

  /** The outcome of an imposition job on the given per-file page lists. */
  function ImpositionOf<T>(files: seq<seq<T>>, layout: string, paper: string, marginMm: real,
                           landscape: bool, customCols: int, customRows: int,
                           widthMm: real, heightMm: real): Result<seq<Sheet>>
  {
    match ResolveJob(layout, customCols, customRows, paper, widthMm, heightMm, landscape)
    case Err(e) => Err(e)
    case Ok(job) =>
      if SomeFileEmpty(files) then Err(ExtractionFailed)
      else if Flatten(files) == [] then Err(NoImages)
      else Ok(ImposedSheets(|Flatten(files)|, job.grid, job.page, marginMm * Mm, layout))
  }

  /** An imposition job (src/core/imposer.py:103-195): resolve the layout and
      the paper, gather the pages of every file, refuse an empty result, then
      run the chosen routine with the margin converted from millimetres. */
  method CreateImposition<T>(files: seq<seq<T>>, layout: string, paper: string, marginMm: real,
                             landscape: bool, customCols: int, customRows: int,
                             widthMm: real, heightMm: real) returns (r: Result<seq<Sheet>>)
    ensures r == ImpositionOf(files, layout, paper, marginMm, landscape, customCols, customRows, widthMm, heightMm)
  {
    var job := ResolveJob(layout, customCols, customRows, paper, widthMm, heightMm, landscape);
    if job.Err? {
      return Err(job.error);
    }
    var collected := CollectAllImages(files);
    if collected.Err? {
      return Err(collected.error);
    }
    var allImages := collected.value;
    if allImages == [] {
      return Err(NoImages);
    }
    var sheets := ImposeSheets(|allImages|, job.value.grid, job.value.page, marginMm * Mm, layout);
    r := Ok(sheets);
  }

  /** A job succeeds exactly when the layout and the paper resolve, every
      file yields pages and there is at least one file; "no images" is only
      reported for an empty file list. */
  lemma ImpositionSucceeds<T>(files: seq<seq<T>>, layout: string, paper: string, marginMm: real,
                              landscape: bool, customCols: int, customRows: int,
                              widthMm: real, heightMm: real)
    ensures var r := ImpositionOf(files, layout, paper, marginMm, landscape, customCols, customRows, widthMm, heightMm);
      (r.Ok? <==> ResolveJob(layout, customCols, customRows, paper, widthMm, heightMm, landscape).Ok?
                  && !SomeFileEmpty(files) && files != [])
      && (r == Err(NoImages) <==> ResolveJob(layout, customCols, customRows, paper, widthMm, heightMm, landscape).Ok?
                                  && files == [])
  {
    if !SomeFileEmpty(files) {
      NoImagesOnlyWithoutFiles(files);
    } else {
      var f :| 0 <= f < |files| && files[f] == [];
      assert files != [];
    }
  }

  /** Outside the two special names, every gathered page is drawn exactly
      once, in order, sheet after sheet. */
  lemma GeneralJobDrawsEveryPage<T>(files: seq<seq<T>>, layout: string, paper: string, marginMm: real,
                                    landscape: bool, customCols: int, customRows: int,
                                    widthMm: real, heightMm: real)
    requires layout != "8x2" && layout != "4up_dup"
    requires ImpositionOf(files, layout, paper, marginMm, landscape, customCols, customRows, widthMm, heightMm).Ok?
    ensures var sheets := ImpositionOf(files, layout, paper, marginMm, landscape, customCols, customRows, widthMm, heightMm).value;
      |Tiles(sheets)| == |Flatten(files)|
      && forall j | 0 <= j < |Flatten(files)| :: Tiles(sheets)[j].tile == j
  {
    var job := ResolveJob(layout, customCols, customRows, paper, widthMm, heightMm, landscape).value;
    GeneralGrid.Coverage(|Flatten(files)|, job.grid, job.page, marginMm * Mm);
  }

  /** The named 8x2 layout with eighteen pages draws one exact sheet holding
      pages 0 to 15; pages 16 and 17 are not drawn at all. */
  lemma Named8x2DropsPages<T>(files: seq<seq<T>>, paper: string, landscape: bool)
    requires !SomeFileEmpty(files) && |Flatten(files)| == 18
    requires paper in StandardPapers
    ensures var r := ImpositionOf(files, "8x2", paper, 5.0, landscape, 0, 0, 0.0, 0.0);
      r == Ok([Exact8x2.ExactSheet(18)])
      && |Tiles(r.value)| == 16
      && forall j | 0 <= j < 16 :: Tiles(r.value)[j].tile == j
  {
    Exact8x2.ExactDropsExtra(18);
    var sheets := [Exact8x2.ExactSheet(18)];
    assert Tiles(sheets) == Tiles(sheets[..0]) + sheets[0].images;
  }

  /** The outcome of a preview job for the given per-file thumbnails. */
  function PreviewJobOf(files: seq<seq<Preview.Thumb>>, layout: string, paper: string,
                        customCols: int, customRows: int, widthMm: real, heightMm: real,
                        landscape: bool): Option<Preview.PreviewImage>
  {
    match PreviewLayout(layout, customCols, customRows)
    case Err(_) => None
    case Ok(g) =>
      match ResolvePaper(paper, widthMm, heightMm, landscape)
      case Err(_) => None
      case Ok(page) =>
        (PreviewLayoutAgrees(layout, customCols, customRows);
         var pages := Preview.FirstPages(files, Preview.MaxPreviewPages(g));
         if pages == [] then None
         else Some(Preview.PreviewOf(pages, g, page.width.Floor, page.height.Floor, (5.0 * Mm).Floor)))
  }

  /** A preview job (src/core/imposer.py:197-258): resolve the layout and
      paper, collect at most one sheet's worth of pages (never more than
      sixteen), refuse an empty collection, then draw the preview with a
      5 mm margin at one pixel per point. */
  method GeneratePreview(files: seq<seq<Preview.Thumb>>, layout: string, paper: string,
                         customCols: int, customRows: int, widthMm: real, heightMm: real,
                         landscape: bool) returns (r: Option<Preview.PreviewImage>)
    ensures r == PreviewJobOf(files, layout, paper, customCols, customRows, widthMm, heightMm, landscape)
  {
    var layoutResult := PreviewLayout(layout, customCols, customRows);
    if layoutResult.Err? {
      return None;
    }
    PreviewLayoutAgrees(layout, customCols, customRows);
    var g := layoutResult.value;
    var paperResult := ResolvePaper(paper, widthMm, heightMm, landscape);
    if paperResult.Err? {
      return None;
    }
    var page := paperResult.value;
    var maxPreviewPages := Min(g.cols * g.rows, 16);
    var pages := Preview.CollectPreviewPages(files, maxPreviewPages);
    if pages == [] {
      return None;
    }
    var marginPx := (5.0 * Mm).Floor;
    var image := Preview.ComposePreview(pages, g, page.width.Floor, page.height.Floor, marginPx);
    r := Some(image);
  }

  /** A preview is produced exactly when the layout and paper resolve and
      some file yields a page; it then paints at most one mark per page for
      at most min(cols*rows, 16) pages, in page order. */
  lemma PreviewOutcome(files: seq<seq<Preview.Thumb>>, layout: string, paper: string,
                       customCols: int, customRows: int, widthMm: real, heightMm: real,
                       landscape: bool)
    ensures var r := PreviewJobOf(files, layout, paper, customCols, customRows, widthMm, heightMm, landscape);
      (r.Some? <==> ResolveLayout(layout, customCols, customRows).Ok?
                    && ResolvePaper(paper, widthMm, heightMm, landscape).Ok?
                    && !(forall f | 0 <= f < |files| :: files[f] == []))
      && (r.Some? ==>
            var g := ResolveLayout(layout, customCols, customRows).value;
            |r.value.marks| <= Preview.MaxPreviewPages(g)
            && (forall j | 0 <= j < |r.value.marks| :: r.value.marks[j].index < Preview.MaxPreviewPages(g))
            && (forall j1, j2 | 0 <= j1 < j2 < |r.value.marks| :: r.value.marks[j1].index < r.value.marks[j2].index))
  {
    PreviewLayoutAgrees(layout, customCols, customRows);
    FlattenLength(files);
    var r := PreviewJobOf(files, layout, paper, customCols, customRows, widthMm, heightMm, landscape);
    if r.Some? {
      var g := ResolveLayout(layout, customCols, customRows).value;
      var page := ResolvePaper(paper, widthMm, heightMm, landscape).value;
      var pages := Preview.FirstPages(files, Preview.MaxPreviewPages(g));
      var cellW := Preview.PixelCell(page.width.Floor, (5.0 * Mm).Floor, g.cols);
      var cellH := Preview.PixelCell(page.height.Floor, (5.0 * Mm).Floor, g.rows);
      Preview.MarksBounded(pages, Min(|pages|, g.Capacity()), g.cols, cellW, cellH, (5.0 * Mm).Floor);
    }
  }
}
