/**
 Page offsets: `_assemble` (serving/app/services/parser.py), its second implementation
 `_parsed_ocr_pages` (serving/app/services/ocr_fallback.py), and `_resolve_page`
 (serving/app/services/chunking.py), which reads the offsets back.
 */
module Pages {
  import opened Sorting
  import opened Sums
  import opened Text

  const PAGE_SEPARATOR := "\n\n"
  const MIN_CHARS_PER_PAGE_FOR_TEXT_LAYER := 20

  datatype Page = Page(number: nat, text: string, start: nat, end: nat)

  datatype Document = Document(text: string, pages: seq<Page>, needsOcr: bool)

  /** Where page `k` starts. */
  function Start(texts: seq<string>, k: nat): nat
    requires k <= |texts|
  {
    if k == 0 then 0 else Start(texts, k - 1) + |texts[k - 1]| + |PAGE_SEPARATOR|
  }

  function PageAt(texts: seq<string>, k: nat): Page
    requires k < |texts|
  {
    Page(k + 1, texts[k], Start(texts, k), Start(texts, k) + |texts[k]|)
  }

  function Laid(texts: seq<string>): (pages: seq<Page>)
    ensures |pages| == |texts|
    ensures forall k :: 0 <= k < |texts| ==> pages[k] == PageAt(texts, k)
  {
    seq(|texts|, k requires 0 <= k < |texts| => PageAt(texts, k))
  }

  function Lengths(texts: seq<string>): seq<int> {
    Map((t: string) => |t|, texts)
  }

  /** Too little text for the number of pages. */
  predicate Thin(texts: seq<string>) {
    Sum(Lengths(texts)) < MIN_CHARS_PER_PAGE_FOR_TEXT_LAYER * (if texts == [] then 1 else |texts|)
  }

  method TotalLength(texts: seq<string>) returns (total: int)
    ensures total == Sum(Lengths(texts))
  {
    total := 0;
    for i := 0 to |texts|
      invariant total == Sum(Lengths(texts)[..i])
    {
      SumLast(Lengths(texts)[..i + 1]);
      assert Lengths(texts)[..i + 1][..i] == Lengths(texts)[..i];
      total := total + |texts[i]|;
    }
    assert Lengths(texts)[..|texts|] == Lengths(texts);
  }

  method Assemble(texts: seq<string>) returns (d: Document)
    ensures d == Document(Join(PAGE_SEPARATOR, texts), Laid(texts), Thin(texts))
    ensures d.needsOcr <==> Sum(Lengths(texts)) < 20 * (if texts == [] then 1 else |texts|)
  {
    var pages: seq<Page> := [];
    var cursor := 0;
    for index := 0 to |texts|
      invariant pages == Laid(texts)[..index]
      invariant cursor == Start(texts, index)
    {
      var start := cursor;
      var end := start + |texts[index]|;
      pages := pages + [Page(index + 1, texts[index], start, end)];
      cursor := end + |PAGE_SEPARATOR|;
    }
    var total := TotalLength(texts);
    d := Document(Join(PAGE_SEPARATOR, texts), pages,
                  total < MIN_CHARS_PER_PAGE_FOR_TEXT_LAYER * (if texts == [] then 1 else |texts|));
  }

  /** Rebuilding a document from recognized page texts; `ok` is what recognition reported. */
  method ParsedOcrPages(texts: seq<string>, ok: bool) returns (d: Document)
    ensures d == Document(Join(PAGE_SEPARATOR, texts), Laid(texts), !ok)
  {
    var offset := 0;
    var pages: seq<Page> := [];
    for number := 0 to |texts|
      invariant pages == Laid(texts)[..number]
      invariant offset == Start(texts, number)
    {
      var end := offset + |texts[number]|;
      pages := pages + [Page(number + 1, texts[number], offset, end)];
      offset := end + |PAGE_SEPARATOR|;
    }
    d := Document(Join(PAGE_SEPARATOR, texts), pages, !ok);
  }

  // ---- slices ----

  /** The text ahead of page `k`. */
  function Ahead(texts: seq<string>, k: nat): (s: string)
    requires k <= |texts|
    ensures |s| == Start(texts, k)
  {
    if k == 0 then "" else Ahead(texts, k - 1) + texts[k - 1] + PAGE_SEPARATOR
  }

  lemma {:induction false} JoinSplits(texts: seq<string>, k: nat)
    requires k < |texts|
    ensures Join(PAGE_SEPARATOR, texts) == Ahead(texts, k) + Join(PAGE_SEPARATOR, texts[k..])
  {
    if k > 0 {
      JoinSplits(texts, k - 1);
      var here := texts[k - 1..];
      assert here[1..] == texts[k..];
      assert Join(PAGE_SEPARATOR, here) == here[0] + PAGE_SEPARATOR + Join(PAGE_SEPARATOR, texts[k..]);
    }
  }

  lemma SliceMiddle(text: string, a: string, b: string, c: string)
    requires text == a + b + c
    ensures |a| + |b| <= |text| && text[|a|..|a| + |b|] == b
  {
  }

  predicate Sliced(text: string, p: Page) {
    p.start <= p.end <= |text| && text[p.start..p.end] == p.text
  }

  predicate SeparatedBy(text: string, p: Page, next: Page) {
    next.start == p.end + |PAGE_SEPARATOR| <= |text| && text[p.end..next.start] == PAGE_SEPARATOR
  }

  /**
   Every page, empty ones included, is read back at its offsets; consecutive pages are
   separated by exactly the separator; and the pages reach from one end of the text to the other.
   */
  lemma PagesSliceBack(texts: seq<string>, k: nat)
    requires k < |texts|
    ensures var text, pages := Join(PAGE_SEPARATOR, texts), Laid(texts);
            && Sliced(text, pages[k])
            && (k + 1 < |texts| ==> SeparatedBy(text, pages[k], pages[k + 1]))
            && (k == 0 ==> pages[k].start == 0)
            && (k + 1 == |texts| ==> pages[k].end == |text|)
  {
    var text, ahead := Join(PAGE_SEPARATOR, texts), Ahead(texts, k);
    JoinSplits(texts, k);
    if k + 1 == |texts| {
      assert texts[k..] == [texts[k]];
      SliceMiddle(text, ahead, texts[k], "");
    } else {
      JoinSplits(texts, k + 1);
      var rest := Join(PAGE_SEPARATOR, texts[k + 1..]);
      assert text == ahead + texts[k] + (PAGE_SEPARATOR + rest);
      SliceMiddle(text, ahead, texts[k], PAGE_SEPARATOR + rest);
      SliceMiddle(text, ahead + texts[k], PAGE_SEPARATOR, rest);
    }
  }

  lemma {:induction false} StartsIncrease(texts: seq<string>, j: nat, k: nat)
    requires j < k < |texts|
    ensures Laid(texts)[j].end + |PAGE_SEPARATOR| <= Laid(texts)[k].start
  {
    if j + 1 < k {
      StartsIncrease(texts, j, k - 1);
    }
  }

  // ---- resolving an offset ----

  /** The last page that starts at or before the offset, or 0. */
  function ResolvePage(offset: int, pages: seq<Page>): nat {
    if pages == [] then 0
    else
      var last := |pages| - 1;
      if offset >= pages[last].start then pages[last].number else ResolvePage(offset, pages[..last])
  }

  method ResolvePageLoop(offset: int, pages: seq<Page>) returns (number: nat)
    ensures number == ResolvePage(offset, pages)
  {
    var i := |pages|;
    assert pages[..i] == pages;
    while i > 0
      invariant 0 <= i <= |pages|
      invariant ResolvePage(offset, pages) == ResolvePage(offset, pages[..i])
    {
      i := i - 1;
      assert pages[..i + 1][..i] == pages[..i];
      if offset >= pages[i].start {
        return pages[i].number;
      }
    }
    return 0;
  }

  lemma {:induction false} ResolvesTo(offset: int, pages: seq<Page>, k: nat)
    requires k < |pages| && pages[k].start <= offset
    requires forall j :: k < j < |pages| ==> offset < pages[j].start
    ensures ResolvePage(offset, pages) == pages[k].number
  {
    if k < |pages| - 1 {
      ResolvesTo(offset, pages[..|pages| - 1], k);
    }
  }

  /** An offset inside page `k`, or in the separator after it, resolves to page `k` and no other. */
  lemma OffsetResolvesToItsPage(texts: seq<string>, k: nat, offset: int)
    requires k < |texts| && 0 <= offset
    ensures var pages := Laid(texts);
            ResolvePage(offset, pages) == k + 1 <==>
              pages[k].start <= offset && (k + 1 < |texts| ==> offset < pages[k + 1].start)
  {
    var pages := Laid(texts);
    forall i, j | 0 <= i < j < |texts| ensures pages[i].start < pages[j].start {
      StartsIncrease(texts, i, j);
    }
    var l := HomeOf(texts, offset);
    ResolvesTo(offset, pages, l);
  }

  /** The page whose stretch of the text, separator included, holds the offset. */
  lemma HomeOf(texts: seq<string>, offset: int) returns (l: nat)
    requires texts != [] && 0 <= offset
    requires forall i, j :: 0 <= i < j < |texts| ==> Laid(texts)[i].start < Laid(texts)[j].start
    ensures l < |texts| && Laid(texts)[l].start <= offset
    ensures forall j :: l < j < |texts| ==> offset < Laid(texts)[j].start
  {
    l := |texts| - 1;
    PagesSliceBack(texts, 0);
    while Laid(texts)[l].start > offset
      invariant 0 <= l < |texts|
      invariant forall j :: l < j < |texts| ==> offset < Laid(texts)[j].start
    {
      l := l - 1;
    }
  }

  /** Every character of page `k` is attributed to page `k`. */
  lemma EveryCharacterIsOnItsPage(texts: seq<string>, k: nat, i: nat)
    requires k < |texts| && i < |texts[k]|
    ensures var page := Laid(texts)[k];
            && page.start + i < |Join(PAGE_SEPARATOR, texts)|
            && Join(PAGE_SEPARATOR, texts)[page.start + i] == texts[k][i]
            && ResolvePage(page.start + i, Laid(texts)) == k + 1
  {
    PagesSliceBack(texts, k);
    OffsetResolvesToItsPage(texts, k, Laid(texts)[k].start + i);
    assert Join(PAGE_SEPARATOR, texts)[Laid(texts)[k].start..Laid(texts)[k].end][i] == texts[k][i];
  }
}
