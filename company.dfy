/** The company imposer (company_pdf_imposer.py): the five named grids and
    seven named papers only, and every layout drawn by the general routine. */
module Company {
  import opened Records
  import opened Extraction
  import GeneralGrid

  const Layouts: map<string, Grid> := NamedLayouts
  const PaperSizes: map<string, PageSize> := StandardPapers

  /** Layout and paper (company_pdf_imposer.py:128-144): table lookups, the
      layout first, landscape turning the paper on its side. */
  function ResolveJob(layout: string, paper: string, landscape: bool): (r: Result<Job>)
    ensures r == Err(UnknownLayout) <==> layout !in Layouts
    ensures r == Err(UnknownPaper) <==> layout in Layouts && paper !in PaperSizes
    ensures r.Ok? ==> r.value.grid.Valid() && r.value.page.width > 0.0 && r.value.page.height > 0.0
    ensures r.Ok? ==> r.value.grid == Layouts[layout]
    ensures r.Ok? ==> r.value.page == if landscape then PaperSizes[paper].Swapped() else PaperSizes[paper]
  {
    if layout !in Layouts then Err(UnknownLayout)
    else if paper !in PaperSizes then Err(UnknownPaper)
    else
      StandardPapersPositive(paper);
      var page := PaperSizes[paper];
      Ok(Job(Layouts[layout], if landscape then page.Swapped() else page))
  }

  /** This copy has no custom grid, no duplicate layout and no custom paper. */
  lemma NoCustomOrDuplicate(paper: string, landscape: bool)
    ensures ResolveJob("custom", paper, landscape) == Err(UnknownLayout)
    ensures ResolveJob("4up_dup", paper, landscape) == Err(UnknownLayout)
    ensures ResolveJob("2up", "Custom", landscape) == Err(UnknownPaper)
  {
  }

  /** The outcome of an imposition job on the given per-file page lists. */
  function ImpositionOf<T>(files: seq<seq<T>>, layout: string, paper: string, marginMm: real,
                           landscape: bool): Result<seq<Sheet>>
  {
    match ResolveJob(layout, paper, landscape)
    case Err(e) => Err(e)
    case Ok(job) =>
      if SomeFileEmpty(files) then Err(ExtractionFailed)
      else if Flatten(files) == [] then Err(NoImages)
      else Ok(GeneralGrid.GeneralSheets(|Flatten(files)|, job.grid, job.page, marginMm * Mm))
  }

  /** An imposition job (company_pdf_imposer.py:100-173): resolve, gather the
      pages of every file, refuse an empty result, then run the general
      routine with the margin converted from millimetres. */
  method CreateImposition<T>(files: seq<seq<T>>, layout: string, paper: string, marginMm: real,
                             landscape: bool) returns (r: Result<seq<Sheet>>)
    ensures r == ImpositionOf(files, layout, paper, marginMm, landscape)
  {
    var job := ResolveJob(layout, paper, landscape);
    if job.Err? {
      return Err(job.error);
    }
    var collected := CollectAllImages(files);
    if collected.Err? {
      return Err(collected.error);
    }
    var allImages := collected.value;
    if allImages == [] {
      return Err(NoImages);
    }
    var sheets := GeneralGrid.ImposeGeneral(|allImages|, job.value.grid, job.value.page, marginMm * Mm);
    r := Ok(sheets);
  }

  /** Whatever the layout, a successful job draws every gathered page exactly
      once, in order, on ceil(n / (cols*rows)) sheets. */
  lemma EveryPageDrawnOnce<T>(files: seq<seq<T>>, layout: string, paper: string, marginMm: real,
                              landscape: bool)
    requires ImpositionOf(files, layout, paper, marginMm, landscape).Ok?
    ensures var sheets := ImpositionOf(files, layout, paper, marginMm, landscape).value;
      var n := |Flatten(files)|;
      n > 0 && |sheets| == GeneralGrid.SheetCount(n, Layouts[layout].Capacity())
      && |Tiles(sheets)| == n
      && forall j | 0 <= j < n :: Tiles(sheets)[j].tile == j
  {
    var job := ResolveJob(layout, paper, landscape).value;
    GeneralGrid.Coverage(|Flatten(files)|, job.grid, job.page, marginMm * Mm);
  }

  /** Eighteen pages on "8x2", A4 landscape, 5 mm margin: two A4-landscape
      sheets, the first full with pages 0 to 15 in order, the second holding
      pages 16 and 17 in the first two cells of its top row. */
  lemma EighteenPagesOnTwoSheets<T>(files: seq<seq<T>>)
    requires !SomeFileEmpty(files) && |Flatten(files)| == 18
    ensures var r := ImpositionOf(files, "8x2", "A4", 5.0, true);
      r.Ok? && |r.value| == 2
      && r.value[0].size == r.value[1].size == PageSize(297.0 * Mm, 210.0 * Mm)
      && |r.value[0].images| == 16
      && (forall j | 0 <= j < 16 :: r.value[0].images[j].tile == j)
      && |r.value[1].images| == 2
      && r.value[1].images[0].tile == 16 && r.value[1].images[0].col == 0 && r.value[1].images[0].row == 0
      && r.value[1].images[1].tile == 17 && r.value[1].images[1].col == 1 && r.value[1].images[1].row == 0
  {
    NoImagesOnlyWithoutFiles(files);
    var g, page, margin := Grid(8, 2), PageSize(297.0 * Mm, 210.0 * Mm), 5.0 * Mm;
    assert ResolveJob("8x2", "A4", true) == Ok(Job(g, page));
    assert GeneralGrid.SheetCount(18, 16) == 2;
    var sheets := GeneralGrid.GeneralSheets(18, g, page, margin);
    assert ImpositionOf(files, "8x2", "A4", 5.0, true) == Ok(sheets);
    assert sheets[0] == GeneralGrid.SheetAt(18, 0, g, page, margin);
    assert sheets[1] == GeneralGrid.SheetAt(18, 1, g, page, margin);
    forall j | 0 <= j < 16
      ensures sheets[0].images[j].tile == j
    {
      assert sheets[0].images[j] == GeneralGrid.Cell(j, g, page, margin);
    }
    assert sheets[1].images[0] == GeneralGrid.Cell(16, g, page, margin);
    assert sheets[1].images[1] == GeneralGrid.Cell(17, g, page, margin);
    assert 16 % 16 == 0 && 17 % 16 == 1;
  }
}
