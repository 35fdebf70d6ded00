/**
 * `extract_images_from_pdf`: every embedded image of every page is written,
 * in page order and then image-list order, to `image_<N>.png` in the output
 * folder, where N counts images across the whole document from 1.
 *
 * The PDF library is abstracted: the opened document is the list of each
 * page's image references (`None` where opening raised), and `extract(xref)`
 * gives the bytes of one image object. The file system is the log of effects
 * the run performs.
 */
module ImagesFromPdf {
  import opened Results
  import opened Sequences
  import opened Strings
  import OsPath

  newtype byte = x: int | 0 <= x < 256

  type Bytes = seq<byte>

  /** A PDF object number: `img[0]` of an entry of `page.get_images(full=True)`. */
  type Xref = nat

  /** What the run does to the file system, in order. */
  datatype Effect = MakeDirs(folder: string) | WriteFile(path: string, data: Bytes)

  /** How the run ends: the final `image_count`, or the exception from opening the PDF. */
  datatype Outcome = Completed(imageCount: nat) | OpenFailed

  /** `f"image_{n}.png"`. */
  function ImageName(n: int): string
  {
    "image_" + IntToString(n) + ".png"
  }

  /** The number of image references on all the given pages. */
  function TotalImages(pages: seq<seq<Xref>>): nat
    decreases |pages|
  {
    if pages == [] then 0 else TotalImages(pages[..|pages| - 1]) + |pages[|pages| - 1]|
  }

  /** All image references of the document, page after page. */
  function Flatten(pages: seq<seq<Xref>>): (r: seq<Xref>)
    ensures |r| == TotalImages(pages)
    decreases |pages|
  {
    if pages == [] then [] else Flatten(pages[..|pages| - 1]) + pages[|pages| - 1]
  }

  /** Adding a page appends its references. */
  lemma FlattenStep(pages: seq<seq<Xref>>, p: nat)
    requires p < |pages|
    ensures Flatten(pages[..p + 1]) == Flatten(pages[..p]) + pages[p]
  {
    assert pages[..p + 1][..p] == pages[..p];
  }

  /** The write that the `n`-th image (1-based), with reference `xref`, produces. */
  function NthWrite(outputFolder: string, extract: Xref -> Bytes, n: nat, xref: Xref): Effect
  {
    WriteFile(OsPath.Join(outputFolder, ImageName(n)), extract(xref))
  }

  /** The `i`-th image of page `p` is image number `TotalImages(pages[..p]) + i + 1` of the document. */
  lemma {:induction false} FlattenAt(pages: seq<seq<Xref>>, p: nat, i: nat)
    requires p < |pages| && i < |pages[p]|
    ensures TotalImages(pages[..p]) + i < |Flatten(pages)|
    ensures Flatten(pages)[TotalImages(pages[..p]) + i] == pages[p][i]
    decreases |pages|
  {
    var init := pages[..|pages| - 1];
    assert Flatten(pages) == Flatten(init) + pages[|pages| - 1];
    if p == |pages| - 1 {
      assert init == pages[..p];
    } else {
      assert init[..p] == pages[..p];
      FlattenAt(init, p, i);
    }
  }

  /** `image_j.png` and `image_k.png` are the same name only for `j == k`. */
  lemma ImageNameInjective(j: int, k: int)
    requires ImageName(j) == ImageName(k)
    ensures j == k
  {
    var a, b := IntToString(j), IntToString(k);
    assert |a| == |b|;
    assert a == ImageName(j)[6..6 + |a|];
    assert b == ImageName(k)[6..6 + |b|];
    IntToStringInjective(j, k);
  }

  /** Files written by one run never share a path. */
  lemma WritePathsDistinct(outputFolder: string, extract: Xref -> Bytes, j: nat, k: nat, xj: Xref, xk: Xref)
    requires j != k
    ensures NthWrite(outputFolder, extract, j, xj).path != NthWrite(outputFolder, extract, k, xk).path
  {
    if NthWrite(outputFolder, extract, j, xj).path == NthWrite(outputFolder, extract, k, xk).path {
      OsPath.JoinInjective(outputFolder, ImageName(j), ImageName(k));
      ImageNameInjective(j, k);
    }
  }

  /** The k-th effect of the log writes the k-th reference to `image_k.png`. */
  ghost predicate IsNthWrite(effects: seq<Effect>, outputFolder: string, extract: Xref -> Bytes, refs: seq<Xref>, k: nat)
  {
    1 <= k < |effects| && k <= |refs| && effects[k] == NthWrite(outputFolder, extract, k, refs[k - 1])
  }

  /** `effects` creates the folder and then writes the references `refs`, the k-th to `image_k.png`. */
  ghost predicate WritesInOrder(effects: seq<Effect>, outputFolder: string, extract: Xref -> Bytes, refs: seq<Xref>)
  {
    && |effects| == |refs| + 1
    && effects[0] == MakeDirs(outputFolder)
    && forall k :: 1 <= k < |effects| ==> IsNthWrite(effects, outputFolder, extract, refs, k)
  }

  /** One more write, numbered after the ones before it, extends the log. */
  lemma WritesInOrderAppend(effects: seq<Effect>, outputFolder: string, extract: Xref -> Bytes, refs: seq<Xref>, xref: Xref)
    requires WritesInOrder(effects, outputFolder, extract, refs)
    ensures WritesInOrder(effects + [NthWrite(outputFolder, extract, |refs| + 1, xref)], outputFolder, extract, refs + [xref])
  {
    var next := effects + [NthWrite(outputFolder, extract, |refs| + 1, xref)];
    forall k | 1 <= k < |next|
      ensures IsNthWrite(next, outputFolder, extract, refs + [xref], k)
    {
      if k < |effects| {
        assert IsNthWrite(effects, outputFolder, extract, refs, k);
      }
    }
  }

  /** The log of more references extends the log of fewer: earlier writes are never redone or changed. */
  lemma WritesInOrderPrefix(effects: seq<Effect>, effects': seq<Effect>, outputFolder: string,
                            extract: Xref -> Bytes, refs: seq<Xref>, more: seq<Xref>)
    requires WritesInOrder(effects, outputFolder, extract, refs)
    requires WritesInOrder(effects', outputFolder, extract, refs + more)
    ensures |effects'| == |effects| + |more| && effects'[..|effects|] == effects
  {
    forall k | 1 <= k < |effects|
      ensures effects'[k] == effects[k]
    {
      assert IsNthWrite(effects, outputFolder, extract, refs, k);
      assert IsNthWrite(effects', outputFolder, extract, refs + more, k);
    }
    assert effects'[..|effects|] == effects;
  }

  /** In a log of numbered writes, every effect after the first is a write, and no two writes share a path. */
  lemma WritesInOrderDistinct(effects: seq<Effect>, outputFolder: string, extract: Xref -> Bytes, refs: seq<Xref>)
    requires WritesInOrder(effects, outputFolder, extract, refs)
    ensures forall j :: 1 <= j < |effects| ==> effects[j].WriteFile?
    ensures forall j, k :: 1 <= j < k < |effects| ==> effects[j].path != effects[k].path
  {
    forall j | 1 <= j < |effects|
      ensures effects[j].WriteFile?
    {
      assert IsNthWrite(effects, outputFolder, extract, refs, j);
    }
    forall j, k | 1 <= j < k < |effects|
      ensures effects[j].path != effects[k].path
    {
      assert IsNthWrite(effects, outputFolder, extract, refs, j);
      assert IsNthWrite(effects, outputFolder, extract, refs, k);
      WritePathsDistinct(outputFolder, extract, j, k, refs[j - 1], refs[k - 1]);
    }
  }

  /** Image `i` of page `p` is written as image number `TotalImages(pages[..p]) + i + 1`. */
  ghost predicate IsPageImageWrite(effects: seq<Effect>, outputFolder: string, extract: Xref -> Bytes,
                                   pages: seq<seq<Xref>>, p: nat, i: nat)
    requires p < |pages| && i < |pages[p]|
  {
    var n := TotalImages(pages[..p]) + i + 1;
    n < |effects| && effects[n] == NthWrite(outputFolder, extract, n, pages[p][i])
  }

  /** Writing the flattened document writes the `i`-th image of page `p` as number `TotalImages(pages[..p]) + i + 1`. */
  lemma WritesInOrderPageMajor(effects: seq<Effect>, outputFolder: string, extract: Xref -> Bytes, pages: seq<seq<Xref>>)
    requires WritesInOrder(effects, outputFolder, extract, Flatten(pages))
    ensures forall p, i :: 0 <= p < |pages| && 0 <= i < |pages[p]| ==> IsPageImageWrite(effects, outputFolder, extract, pages, p, i)
  {
    forall p, i | 0 <= p < |pages| && 0 <= i < |pages[p]|
      ensures IsPageImageWrite(effects, outputFolder, extract, pages, p, i)
    {
      FlattenAt(pages, p, i);
      var n := TotalImages(pages[..p]) + i + 1;
      assert IsNthWrite(effects, outputFolder, extract, Flatten(pages), n);
    }
  }

  /**
   * The inner loop of `extract_images_from_pdf`, over one page's image list:
   * the counter continues from where the previous pages left it, and each
   * reference of the list is written, in list order, under the next number.
   */
  method SavePageImages(effects: seq<Effect>, imageCount: nat, imageList: seq<Xref>,
                        extract: Xref -> Bytes, outputFolder: string, ghost done: seq<Xref>)
    returns (effects': seq<Effect>, imageCount': nat)
    requires imageCount == |done| && WritesInOrder(effects, outputFolder, extract, done)
    ensures imageCount' == imageCount + |imageList|
    ensures |effects'| == |effects| + |imageList| && effects'[..|effects|] == effects
    ensures WritesInOrder(effects', outputFolder, extract, done + imageList)
  {
    effects', imageCount' := effects, imageCount;
    ghost var written := done;  // the references written so far
    for imgIndex := 0 to |imageList|
      invariant written == done + imageList[..imgIndex] && imageCount' == |written|
      invariant WritesInOrder(effects', outputFolder, extract, written)
    {
      var xref := imageList[imgIndex];
      var imageBytes := extract(xref);
      var imageFilename := OsPath.Join(outputFolder, ImageName(imageCount' + 1));
      WritesInOrderAppend(effects', outputFolder, extract, written, xref);
      AppendTakeNext(done, imageList, imgIndex);
      effects' := effects' + [WriteFile(imageFilename, imageBytes)];
      imageCount' := imageCount' + 1;
      written := written + [xref];
    }
    assert imageList[..|imageList|] == imageList;
    WritesInOrderPrefix(effects, effects', outputFolder, extract, done, imageList);
  }

  /**
   * `extract_images_from_pdf`: the output folder is created first; then, for
   * the k-th image reference of the document in page-major order, the bytes
   * of that reference are written to `image_k.png` in the folder. The counter
   * is never reset, no reference is skipped or merged, and no two writes
   * share a path.
   */
  method ExtractImagesFromPdf(pdf: Option<seq<seq<Xref>>>, extract: Xref -> Bytes, outputFolder: string)
    returns (effects: seq<Effect>, outcome: Outcome)
    ensures |effects| >= 1 && effects[0] == MakeDirs(outputFolder)
    ensures pdf.None? ==> effects == [MakeDirs(outputFolder)] && outcome == OpenFailed
    ensures pdf.Some? ==> && outcome == Completed(TotalImages(pdf.value))
                          && WritesInOrder(effects, outputFolder, extract, Flatten(pdf.value))
    ensures pdf.Some? ==> forall p, i :: 0 <= p < |pdf.value| && 0 <= i < |pdf.value[p]| ==>
      IsPageImageWrite(effects, outputFolder, extract, pdf.value, p, i)
    ensures forall j :: 1 <= j < |effects| ==> effects[j].WriteFile?
    ensures forall j, k :: 1 <= j < k < |effects| ==> effects[j].path != effects[k].path
  {
    effects := [MakeDirs(outputFolder)];
    if pdf.None? {
      return effects, OpenFailed;
    }
    var pages := pdf.value;
    var imageCount := 0;
    for pageNum := 0 to |pages|
      invariant imageCount == |Flatten(pages[..pageNum])|
      invariant WritesInOrder(effects, outputFolder, extract, Flatten(pages[..pageNum]))
    {
      var imageList := pages[pageNum];
      effects, imageCount := SavePageImages(effects, imageCount, imageList, extract, outputFolder,
                                            Flatten(pages[..pageNum]));
      FlattenStep(pages, pageNum);
    }
    assert pages[..|pages|] == pages;
    WritesInOrderPageMajor(effects, outputFolder, extract, pages);
    WritesInOrderDistinct(effects, outputFolder, extract, Flatten(pages));
    outcome := Completed(imageCount);
  }

  /** Three pages holding two, zero and two images give four images, in page order. */
  lemma ExampleDocument(a: Xref, b: Xref, c: Xref, d: Xref)
    ensures TotalImages([[a, b], [], [c, d]]) == 4
    ensures Flatten([[a, b], [], [c, d]]) == [a, b, c, d]
  {
    var pages := [[a, b], [], [c, d]];
    assert pages[..2] == [[a, b], []];
    assert pages[..2][..1] == [[a, b]];
    assert pages[..2][..1][..0] == pages[..0];
    assert Flatten(pages[..2][..1]) == [a, b];
    assert Flatten(pages[..2]) == [a, b];
  }
}
