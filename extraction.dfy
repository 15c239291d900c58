/** Gathering the rasterised pages of every input file into one flat list,
    as both imposer copies do before imposing. Rasterising itself is outside
    the model: each file's page list is given. */
module Extraction {
  import opened Records

  /** A resolved job: the grid and the (oriented) sheet size. */
  datatype Job = Job(grid: Grid, page: PageSize)

  /** Some file produced no pages. */
  predicate SomeFileEmpty<T>(files: seq<seq<T>>)
  {
    exists f | 0 <= f < |files| :: files[f] == []
  }

  /** The extraction loop (src/core/imposer.py:168-175, identical in
      company_pdf_imposer.py:146-153): a file that yields no pages fails the
      job; otherwise the pages are joined in file order. */
  method CollectAllImages<T>(files: seq<seq<T>>) returns (r: Result<seq<T>>)
    ensures SomeFileEmpty(files) <==> r == Err(ExtractionFailed)
    ensures !SomeFileEmpty(files) ==> r == Ok(Flatten(files))
  {
    var allImages := [];
    for f := 0 to |files|
      invariant !SomeFileEmpty(files[..f])
      invariant allImages == Flatten(files[..f])
    {
      var images := files[f];
      if images == [] {
        return Err(ExtractionFailed);
      }
      assert files[..f + 1][..f] == files[..f];
      assert forall g | 0 <= g < f + 1 :: files[..f + 1][g] == files[g];
      allImages := allImages + images;
    }
    assert files[..|files|] == files;
    r := Ok(allImages);
  }

  /** With no empty file, the joined list is empty exactly when there are no
      files at all: the "no images" check only catches an empty file list. */
  lemma NoImagesOnlyWithoutFiles<T>(files: seq<seq<T>>)
    requires !SomeFileEmpty(files)
    ensures Flatten(files) == [] <==> files == []
  {
    FlattenLength(files);
    if files != [] {
      assert files[0] != [];
    }
  }
}
