/** How the two imposer copies relate: on the layouts and papers they share,
    they produce the same sheets, except for "8x2", where only the main
    imposer uses the exact single-sheet routine. */
module Copies {
  import opened Records
  import opened Extraction
  import GeneralGrid
  import Exact8x2
  import Imposer
  import Company

  /** On a shared layout other than "8x2" and a shared paper, the main imposer
      (whatever its custom arguments) gives the company imposer's outcome. */
  lemma SharedLayoutsAgree<T>(files: seq<seq<T>>, layout: string, paper: string, marginMm: real,
                              landscape: bool, customCols: int, customRows: int,
                              widthMm: real, heightMm: real)
    requires layout in NamedLayouts && layout != "8x2" && paper in StandardPapers
    ensures Imposer.ImpositionOf(files, layout, paper, marginMm, landscape, customCols, customRows, widthMm, heightMm)
         == Company.ImpositionOf(files, layout, paper, marginMm, landscape)
  {
    var job := Imposer.ResolveJob(layout, customCols, customRows, paper, widthMm, heightMm, landscape);
    assert job == Company.ResolveJob(layout, paper, landscape);
    assert Imposer.Route(job.value.grid, layout) == Imposer.GeneralRoutine;
  }

  /** On "8x2" with more than sixteen pages the copies differ: the company
      imposer draws every page over several sheets, the main imposer one
      sheet of sixteen. */
  lemma EightByTwoDiffers<T>(files: seq<seq<T>>, paper: string, landscape: bool)
    requires !SomeFileEmpty(files) && |Flatten(files)| > 16 && paper in StandardPapers
    ensures var main := Imposer.ImpositionOf(files, "8x2", paper, 5.0, landscape, 0, 0, 0.0, 0.0);
      var company := Company.ImpositionOf(files, "8x2", paper, 5.0, landscape);
      main.Ok? && company.Ok?
      && |Tiles(main.value)| == 16 && |Tiles(company.value)| == |Flatten(files)|
      && |main.value| == 1 && |company.value| >= 2
  {
    var main := Imposer.ImpositionOf(files, "8x2", paper, 5.0, landscape, 0, 0, 0.0, 0.0);
    var n := |Flatten(files)|;
    Exact8x2.ExactDropsExtra(n);
    assert Tiles(main.value) == Tiles(main.value[..0]) + main.value[0].images;
    Company.EveryPageDrawnOnce(files, "8x2", paper, 5.0, landscape);
  }
}
