/**
 The page range of a chunk (serving/app/services/chunking.py): the pages that its first offset and
 its end offset resolve to. A parent in one piece hands its range to its only child, which has
 the same span.
 */
module ChunkPages {
  import opened Wrappers
  import opened Sections
  import opened Pages
  import opened Chunking

  function PageFrom(c: Chunk, pages: seq<Page>): nat {
    ResolvePage(c.start, pages)
  }

  function PageTo(c: Chunk, pages: seq<Page>): nat {
    ResolvePage(c.end, pages)
  }

  predicate Paged(pages: seq<Page>) {
    forall i :: 0 <= i < |pages| ==> pages[i].number == i + 1
  }

  lemma {:induction false} ResolvesInside(offset: int, pages: seq<Page>)
    requires Paged(pages)
    ensures ResolvePage(offset, pages) <= |pages|
    ensures pages != [] && pages[0].start <= offset ==> ResolvePage(offset, pages) >= 1
  {
    if pages != [] {
      ResolvesInside(offset, pages[..|pages| - 1]);
    }
  }

  /** A later offset never resolves to an earlier page. */
  lemma {:induction false} LaterOffsetLaterPage(a: int, b: int, pages: seq<Page>)
    requires Paged(pages) && a <= b
    ensures ResolvePage(a, pages) <= ResolvePage(b, pages)
  {
    if pages != [] {
      ResolvesInside(a, pages);
      if b < pages[|pages| - 1].start {
        LaterOffsetLaterPage(a, b, pages[..|pages| - 1]);
      }
    }
  }

  /** Existing pages, in order, and inside the pages of the parent. */
  predicate PagesNest(chunks: seq<Chunk>, pages: seq<Page>, i: nat)
    requires i < |chunks|
  {
    && (pages != [] ==> 1 <= PageFrom(chunks[i], pages))
    && PageFrom(chunks[i], pages) <= PageTo(chunks[i], pages) <= |pages|
    && (chunks[i].parent.Some? ==>
          && chunks[i].parent.value < |chunks|
          && PageFrom(chunks[chunks[i].parent.value], pages) <= PageFrom(chunks[i], pages)
          && PageTo(chunks[i], pages) <= PageTo(chunks[chunks[i].parent.value], pages))
  }

  /** The page ranges of a document's chunks follow its pages and nest as the chunks do. */
  lemma ChunkPagesNest(text: string, detect: Detector, parentWords: int, childWords: int, texts: seq<string>, i: nat)
    requires i < |Chunks(text, detect, parentWords, childWords)|
    ensures PagesNest(Chunks(text, detect, parentWords, childWords), Laid(texts), i)
  {
    var chunks, pages := Chunks(text, detect, parentWords, childWords), Laid(texts);
    ChunkingConservesWords(text, detect, parentWords, childWords);
    SoundPagesNest(chunks, pages, childWords, |text|, i);
  }

  lemma SoundPagesNest(chunks: seq<Chunk>, pages: seq<Page>, childWords: int, limit: nat, i: nat)
    requires Sound(chunks, 0, childWords) && InDocument(chunks, limit) && i < |chunks|
    requires Paged(pages) && (pages != [] ==> pages[0].start == 0)
    ensures PagesNest(chunks, pages, i)
  {
    var c := chunks[i];
    ResolvesInside(c.start, pages);
    ResolvesInside(c.end, pages);
    LaterOffsetLaterPage(c.start, c.end, pages);
    assert ChildPlaced(chunks, 0, i, childWords) && ParentCovered(chunks, 0, i);
    if c.parent.Some? {
      var p := chunks[c.parent.value];
      LaterOffsetLaterPage(p.start, c.start, pages);
      LaterOffsetLaterPage(c.end, p.end, pages);
    }
  }
}
