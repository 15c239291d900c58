/** Shared vocabulary of the imposition engine: length units, paper and grid
    tables, the error kinds the job functions report, and the records that
    stand in for the drawing calls a canvas would receive. */
module Records {

  /** reportlab's millimetre, in points (1 point = 1/72 inch). */
  const Mm: real := 72.0 / 25.4
  /** reportlab's inch, in points. */
  const Inch: real := 72.0

  /** Why a job is refused; the source logs the reason and returns False/None. */
  datatype Error =
    | UnknownLayout
    | InvalidCustomLayout
    | UnknownPaper
    | InvalidCustomPaper
    | ExtractionFailed
    | NoImages
    | ZeroSizePage

  datatype Result<T> = Ok(value: T) | Err(error: Error)

  datatype Option<T> = None | Some(value: T)

  /** A grid of `cols` columns and `rows` rows. */
  datatype Grid = Grid(cols: int, rows: int) {
    predicate Valid() { cols > 0 && rows > 0 }
    function Capacity(): int { cols * rows }
  }

  /** A sheet or paper size in points. */
  datatype PageSize = PageSize(width: real, height: real) {
    function Swapped(): PageSize { PageSize(height, width) }
  }

  /** One drawImage call: tile `tile` of the flat input, drawn on sheet
      `sheet` in grid cell (`col`, `row`) with lower-left corner (`x`, `y`)
      and size `w` x `h` (PDF origin at the bottom left). */
  datatype Placement = Placement(tile: nat, sheet: nat, col: nat, row: nat,
                                 x: real, y: real, w: real, h: real)

  /** One output page: its size, the x of each full-height grid line, the y of
      each full-width grid line, and the images drawn on it, in drawing order. */
  datatype Sheet = Sheet(size: PageSize, vlines: seq<real>, hlines: seq<real>,
                         images: seq<Placement>)

  /** The five named grids both imposer copies know. */
  const NamedLayouts: map<string, Grid> :=
    map["2up" := Grid(2, 1), "4up" := Grid(2, 2), "8up" := Grid(4, 2),
        "8x2" := Grid(8, 2), "16up" := Grid(4, 4)]

  /** The seven named papers both imposer copies know (portrait). */
  const StandardPapers: map<string, PageSize> :=
    map["A4" := PageSize(210.0 * Mm, 297.0 * Mm),
        "A3" := PageSize(297.0 * Mm, 420.0 * Mm),
        "A2" := PageSize(420.0 * Mm, 594.0 * Mm),
        "A1" := PageSize(594.0 * Mm, 841.0 * Mm),
        "Letter" := PageSize(8.5 * Inch, 11.0 * Inch),
        "Legal" := PageSize(8.5 * Inch, 14.0 * Inch),
        "Tabloid" := PageSize(11.0 * Inch, 17.0 * Inch)]

  function Min(a: int, b: int): int { if a <= b then a else b }

  function MinReal(a: real, b: real): real { if a <= b then a else b }

  /** The per-file page lists joined in file order (Python's repeated `extend`). */
  function Flatten<T>(files: seq<seq<T>>): seq<T>
  {
    if files == [] then [] else Flatten(files[..|files| - 1]) + files[|files| - 1]
  }

  /** Every image drawn, sheet after sheet. */
  function Tiles(sheets: seq<Sheet>): seq<Placement>
  {
    if sheets == [] then [] else Tiles(sheets[..|sheets| - 1]) + sheets[|sheets| - 1].images
  }

  lemma {:induction false} FlattenAppend<T>(a: seq<seq<T>>, b: seq<seq<T>>)
    ensures Flatten(a + b) == Flatten(a) + Flatten(b)
    decreases |b|
  {
    if b == [] {
      assert a + b == a;
    } else {
      var b' := b[..|b| - 1];
      assert (a + b)[..|a + b| - 1] == a + b';
      FlattenAppend(a, b');
    }
  }

  lemma {:induction false} FlattenLength<T>(files: seq<seq<T>>)
    ensures |Flatten(files)| == 0 <==> forall f | 0 <= f < |files| :: files[f] == []
    decreases |files|
  {
    if files != [] {
      var front := files[..|files| - 1];
      FlattenLength(front);
      assert forall f | 0 <= f < |front| :: front[f] == files[f];
    }
  }

  /** Every named paper has a positive width and height. */
  lemma StandardPapersPositive(name: string)
    requires name in StandardPapers
    ensures StandardPapers[name].width > 0.0 && StandardPapers[name].height > 0.0
  {
  }

  /** Arithmetic steps the solver does not take by itself. */
  lemma SmallMultipleIsZero(d: int, p: int)
    requires p > 0 && -p < d * p < p
    ensures d == 0
  {
  }

  lemma PositiveFactor(a: int, b: int)
    requires a > 0 && a * b > 0
    ensures b > 0
  {
  }

  lemma NonNegativeIntProduct(a: int, b: int)
    requires a >= 0 && b >= 0
    ensures a * b >= 0
  {
  }

  lemma NonNegativeProduct(a: real, b: real)
    requires a >= 0.0 && b >= 0.0
    ensures a * b >= 0.0
  {
  }
}
