# PDF imposer: imposition geometry in Dafny

This project models the geometric core of a PDF imposition tool. The tool
rasterises the pages of one or more PDF files into tiles and lays the tiles out
on output sheets in a grid, ready for printing and cutting. The model covers
the three places where the repository does this:

- the main imposer, `src/core/imposer.py`;
- the older company copy, `company_pdf_imposer.py`;
- the original single-sheet script, `pdf_impose_single_final.py`.

For each, the model decides which tile goes on which sheet, in which grid
cell and at which coordinate. It also resolves the layout and paper, and
computes the integer pixel grid of the preview.

Every drawing call on a canvas is represented by a record:

- `Records.Placement(tile, sheet, col, row, x, y, w, h)` stands for one
  `drawImage` call.
- `Records.Sheet` holds a page's size, its grid-line coordinates and its
  placements, in drawing order.
- The preview's paint operations are `Preview.PreviewMark` values.

Lengths are exact reals in PostScript points. A millimetre is 72/25.4 points
and an inch is 72 points, as in reportlab. The named paper sizes are
reportlab's:

- A4 210 x 297 mm, A3 297 x 420 mm, A2 420 x 594 mm, A1 594 x 841 mm;
- Letter 8.5 x 11 in, Legal 8.5 x 14 in, Tabloid 11 x 17 in.

The input is given as each file's list of rasterised pages, one `seq` per
file; rasterisation itself is an input, not modelled. A file that yields no
pages is an empty `seq`. The preview takes, for each page, what the image
library made of it (`Preview.Thumb`): the file is missing, it is unreadable,
or it is a thumbnail of given size.

Modules, one per routine of the source:

- `Records`: units, tables, errors and records.
- `Extraction`: the page-gathering loop both copies share.
- `GeneralGrid`: the paginated uniform grid. It is the same routine in both
  copies.
- `Exact8x2`: the fixed 460 x 124 mm footprint.
- `Duplicate`: the 4-up duplicate layout.
- `Preview`: preview collection and pixel grid.
- `Imposer`: jobs of the main imposer.
- `Company`: jobs of the company copy.
- `SingleFinal`: the original script.
- `Copies`: how the two imposer copies relate.

Each looping routine is a method proved equal to a specification function of
its inputs. The properties are lemmas about those functions.

Facts about the source that the model keeps as they are:

- **Cell size is never checked.** Neither imposer copy checks that the cells
  have positive size or that the margin fits the sheet
  (src/core/imposer.py:519-522, company_pdf_imposer.py:188-191), so a job
  never fails for it. The bounds lemmas (`GeneralGrid.CellInsideSheet`,
  `GeneralGrid.CellsDisjoint`) therefore take positive cell sizes as a
  hypothesis.
- **"8x2" differs between the copies.** With 18 pages on the named 8x2 layout,
  the main imposer draws one sheet of 16 and leaves out pages 16 and 17
  (src/core/imposer.py:350-351, 424; `Imposer.Named8x2DropsPages`). The company
  copy draws two sheets, the second holding pages 16 and 17
  (company_pdf_imposer.py:204-238; `Company.EighteenPagesOnTwoSheets`,
  `Copies.EightByTwoDiffers`).
- **Only the exact routine leaves a gap between rows.** Compare
  src/core/imposer.py:430 with 496 and 564: the general and duplicate
  layouts stack rows directly (`GeneralGrid.NoRowGap`,
  `Duplicate.DupCellInside`, `Exact8x2.ExactRowGap`). The general grid's
  horizontal lines are still spaced as if there were a gap
  (`GeneralGrid.HorizontalLinesMissRows`).
- **The duplicate fill loop never ends on empty input**
  (src/core/imposer.py:480-481). Only the "no images" check at line 177 keeps
  empty input from reaching it.

## Model

| member | source | states |
|---|---|---|
| Records.StandardPapersPositive | src/core/imposer.py:49-58 | every named paper has positive width and height |
| Extraction.CollectAllImages | src/core/imposer.py:169-175 | the job fails with an extraction error exactly when some file yields no pages; otherwise the result is all pages joined in file order |
| Extraction.NoImagesOnlyWithoutFiles | src/core/imposer.py:177-179 | once every file yielded pages, the "no images" check fires only for an empty file list |
| GeneralGrid.SheetCount | src/core/imposer.py:530 | the sheet count is the ceiling of tiles over cells per sheet: enough sheets for all tiles, and one fewer would not be |
| GeneralGrid.Coverage | src/core/imposer.py:532-561 | the drawn tiles, sheet after sheet, are exactly tiles 0..n-1 in input order, each once, and no index n or beyond |
| GeneralGrid.OnlyLastSheetPartial | src/core/imposer.py:530-557 | no sheet is empty, and every sheet but the last holds cols*rows tiles |
| GeneralGrid.CellDecodes | src/core/imposer.py:554-561 | tile k's sheet, row and column decode back to k, and the cell is inside the grid |
| GeneralGrid.CellsFillWidth | src/core/imposer.py:519-522 | cols cells and cols+1 margins add up to the sheet width (and likewise for height); the last column ends one margin from the right edge |
| GeneralGrid.NoRowGap | src/core/imposer.py:564 | each row sits directly on the one below, so the bottom row's lower edge is rows*margin above the sheet bottom, not one margin |
| GeneralGrid.GridLinesSpanSheet | src/core/imposer.py:543-551 | each vertical line is on a column's left edge; the first line is at the margin, and the last is on the sheet's right edge (horizontal: top edge) |
| GeneralGrid.HorizontalLinesMissRows | src/core/imposer.py:549-564 | the horizontal lines assume a gap between rows that the cells lack: the lowest is (rows-1) margins below the bottom row, the highest one margin above the top row |
| GeneralGrid.CellInsideSheet | src/core/imposer.py:563-569 | with a non-negative margin and positive cells, every cell lies within the sheet's margins |
| GeneralGrid.CellsDisjoint | src/core/imposer.py:560-564 | two tiles on one sheet occupy different cells that do not overlap |
| GeneralGrid.DrawVerticalLines | src/core/imposer.py:544-546 | the vertical-line loop draws the cols+1 column boundaries |
| GeneralGrid.DrawHorizontalLines | src/core/imposer.py:549-551 | the horizontal-line loop draws the rows+1 row boundaries |
| GeneralGrid.PlaceSheetImages | src/core/imposer.py:553-574 | the placement loop of one sheet draws that sheet's tiles, stopping at the end of the input |
| GeneralGrid.ImposeGeneral | src/core/imposer.py:510-578 | the general routine draws the sheets the paginated-grid specification describes |
| Exact8x2.ImposeExact | src/core/imposer.py:357-442 | the exact routine draws the first sixteen tiles, row by row, on one 460 x 124 mm sheet, whatever margin it is given |
| Exact8x2.ExactFootprint | src/core/imposer.py:363-410 | margins, tiles and gaps add up exactly to 460 mm across and 124 mm down; each outer margin is the gap plus the 8 mm reserved strip |
| Exact8x2.ExactCellInside | src/core/imposer.py:424-430 | every tile is clear of the reserved strips and vertical margins; the last column and bottom row meet them exactly |
| Exact8x2.ExactRowGap | src/core/imposer.py:430 | the two rows are separated by one vertical spacing, unlike the general grid |
| Exact8x2.ExactDropsExtra | src/core/imposer.py:424 | at most sixteen tiles are drawn, tile j in position j |
| Duplicate.FillStepProgress | src/core/imposer.py:480-481 | a fill round grows the pool on non-empty input without overfilling it, and changes nothing on empty input |
| Duplicate.FillStepKeepsCycle | src/core/imposer.py:480-481 | a fill round keeps "pool position k holds image k mod n" |
| Duplicate.FirstTakeCycles | src/core/imposer.py:477-478 | the first take of up to four images already has that cyclic shape |
| Duplicate.FillPool | src/core/imposer.py:477-481 | on non-empty input the pool ends with exactly four entries, entry k being image k mod n |
| Duplicate.ImposeDuplicate | src/core/imposer.py:444-508 | the duplicate routine draws all eight cells of the 4 x 2 grid from the pool, with the fixed 5 mm margin |
| Duplicate.TileSideIsCellWidth | src/core/imposer.py:458-463 | the square tile takes the cell width, the smaller dimension, and the four columns span the sheet from margin to margin |
| Duplicate.EachPoolImageTwice | src/core/imposer.py:484-493 | cells i and i+4 show the same image, and only the first min(n, 4) images appear |
| Duplicate.PoolImageCells | src/core/imposer.py:484-496 | with at least four images, image t is shown in exactly cells t and t+4 |
| Duplicate.DupCellInside | src/core/imposer.py:495-500 | every cell is inside the sheet's margins; rows are stacked with no gap |
| Preview.MaxPreviewPages | src/core/imposer.py:237 | the preview cap is one sheet's worth of cells, never more than sixteen |
| Preview.CollectPreviewPages | src/core/imposer.py:239-243 | the collected pages are the first min(total, cap) pages of all files in file order, never more than the cap |
| Preview.PixelCell | src/core/imposer.py:277-281 | the floor-divided cell size is the largest one for which the cells and margins fit the bitmap |
| Preview.ComposePreview | src/core/imposer.py:260-328 | the preview draws the grid lines, then one paste or placeholder per shown page, skipping missing files |
| Preview.MarksBounded | src/core/imposer.py:294-318 | there is at most one paint operation per page shown, for distinct pages in page order |
| Preview.CentredThumbnailInsideCell | src/core/imposer.py:303-311 | a thumbnail shrunk to fit cell-minus-4 is pasted with at least 2 pixels of cell on every side |
| Preview.PreviewCellsInside | src/core/imposer.py:277-302 | when the margins fit, every preview cell lies inside the bitmap |
| Imposer.ResolveLayout | src/core/imposer.py:136-151 | errors exactly for an unknown name, or a custom grid with a non-positive side; otherwise a valid grid, the custom one or the table's |
| Imposer.PreviewLayoutAgrees | src/core/imposer.py:211-220 | the preview's layout step, testing custom first, agrees with the job's on every input |
| Imposer.ResolvePaper | src/core/imposer.py:153-166 | errors exactly for an unknown paper, or a custom size with a non-positive side; otherwise the table entry or the custom size in mm, swapped for landscape, always positive |
| Imposer.LandscapeSwaps | src/core/imposer.py:165-166 | landscape exchanges the portrait width and height, and a custom size is in millimetres |
| Imposer.ResolveJob | src/core/imposer.py:136-166 | succeeds exactly when layout and paper both resolve, giving the resolved grid and page; a layout error is reported first, then the paper error |
| Imposer.RouteByName | src/core/imposer.py:350-355 | the exact and duplicate routines are chosen by name alone; a custom 8 x 2 grid goes to the general routine |
| Imposer.ImposeSheets | src/core/imposer.py:349-355 | the dispatch runs the routine the route selects |
| Imposer.CreateImposition | src/core/imposer.py:103-195 | a job resolves, gathers, refuses empty input and imposes, with the margin converted from mm |
| Imposer.ImpositionSucceeds | src/core/imposer.py:136-179 | a job succeeds exactly when layout and paper resolve, every file yields pages and there is a file; "no images" means no files |
| Imposer.GeneralJobDrawsEveryPage | src/core/imposer.py:184-186 | outside "8x2" and "4up_dup", a successful job draws every gathered page exactly once, in order |
| Imposer.Named8x2DropsPages | src/core/imposer.py:350-351 | eighteen pages on the named 8x2 layout give one sheet with pages 0-15; pages 16 and 17 are not drawn |
| Imposer.GeneratePreview | src/core/imposer.py:197-258 | a preview job resolves, collects the capped pages, refuses none, and draws the bitmap with a 5 mm margin at one pixel per point |
| Imposer.PreviewOutcome | src/core/imposer.py:235-252 | a preview exists exactly when layout and paper resolve and some file has a page; it paints at most min(cols*rows, 16) pages, each once, in page order |
| Company.ResolveJob | company_pdf_imposer.py:129-144 | errors exactly for a layout or paper not in the tables (layout first); otherwise the table's grid and the table paper, swapped for landscape |
| Company.NoCustomOrDuplicate | company_pdf_imposer.py:40-56 | this copy rejects the custom grid, the duplicate layout and custom paper |
| Company.CreateImposition | company_pdf_imposer.py:100-173 | a job resolves, gathers, refuses empty input, and always runs the general routine |
| Company.EveryPageDrawnOnce | company_pdf_imposer.py:204-231 | a successful job draws every page exactly once, in order, on ceil(n / cells) sheets, whatever the layout |
| Company.EighteenPagesOnTwoSheets | company_pdf_imposer.py:129-238 | a job of eighteen pages on 8x2, A4 landscape, 5 mm gives two A4-landscape sheets: pages 0-15 in order on the first, pages 16 and 17 in cells (0,0) and (1,0) of the second |
| Copies.SharedLayoutsAgree | company_pdf_imposer.py:162-164 | on shared layouts other than 8x2 and shared papers, both copies give the same outcome |
| Copies.EightByTwoDiffers | src/core/imposer.py:350-351 | on 8x2 with more than sixteen pages, the main imposer draws one sheet of 16, while the company copy draws every page on two or more sheets |
| SingleFinal.LayoutWithImages | pdf_impose_single_final.py:63-102 | no images is an error; otherwise the first sixteen images are drawn row by row on the tile-derived sheet |
| SingleFinal.FinalGridGeometry | pdf_impose_single_final.py:78-94 | columns span margin to margin, grid lines sit on column edges with the last on the sheet edge, and the bottom row ends at twice the margin |
| SingleFinal.FinalCellInside | pdf_impose_single_final.py:89-94 | every placed image lies inside the sheet's margins |
| SingleFinal.SingleSheetFromPages | pdf_impose_single_final.py:132-239 | the overlay sheet has grid lines, a label per page and the first sixteen pages scaled and centred; a zero-size page makes it fail |
| SingleFinal.AspectFitInsideCell | pdf_impose_single_final.py:211-221 | a scaled page keeps its aspect, fills 95% of the tile in its longer direction, and lies strictly inside its cell |
| SingleFinal.LabelInsideCell | pdf_impose_single_final.py:173-180 | label i+1 is inside its cell 2 points from the left; it is 8 points below the top in row 0, and 8 points plus a margin in row 1 |

## Left out

- Rasterisation and files are not modelled: `pdftoppm`, `qpdf`, glob, temporary directories, the file-existence and `.pdf` checks. Each file's pages are an input sequence.
- Drawing libraries are not modelled: reportlab canvas calls, PyPDF2 page scaling and merging, and PIL loading, thumbnailing and saving. A placement record stands for the call. In the two imposer copies a failed draw is logged and skipped, so the record is emitted either way.
- `preserveAspectRatio`/`anchor` rendering inside a general cell is not modelled: the record holds the cell box the image is fitted to.
- Floating point is not modelled: lengths are exact reals, including the sample-sheet constants 1326.614 and 805.039. `int()` of a positive length is its floor.
- Exceptions raised by the libraries, caught by the job functions and turned into a failure, are not modelled. A zero-size source page in the single-sheet script is the one such failure modelled (`ZeroSizePage`).
- Logging, printing, `list_layouts`, `list_paper_sizes`, `batch_process`, `create_sample_config`, the command-line front ends, the GUIs and the installer are not part of this model: they are configuration, user interface and installation.
- The script's `create_single_sheet_qpdf_method` and its fallback dispatch are not part of this model: they only call external tools.
- SingleFinal.LayoutWithImages: a failed draw there is not caught (pdf_impose_single_final.py:97), so it aborts the script through `main()` without output; the model always returns the sheet for a non-empty input and does not model that failure.
- Duplicate.FillPool: requires a non-empty input, because the source's fill loop never ends on empty input; `Duplicate.FillStepProgress` shows the loop makes no progress there.
- Preview.CentredThumbnailInsideCell: takes the thumbnail's fit within the requested box as a hypothesis, because the shrinking is the image library's.
- GeneralGrid.CellInsideSheet: holds only for a non-negative margin and positive cell sizes, because the source validates neither.
