/**
 The parent and child chunks of a document (serving/app/services/chunking.py, `chunk_document`).

 A chunk's identifier is its index: the source draws fresh random names, of which only
 distinctness matters.
 */
module Chunking {
  import opened Wrappers
  import opened Sorting
  import opened Text
  import opened WordChunks
  import opened Sections

  datatype Chunk = Chunk(
    id: nat, parent: Option<nat>, index: nat, content: string, section: string, start: nat, end: nat, isParent: bool)

  function ChunkOf(span: Span, section: string, parent: Option<nat>, index: nat): Chunk {
    Chunk(index, parent, index, span.content, section, span.start, span.end, parent.None?)
  }

  function Leaves(spans: seq<Span>, section: string, parentId: nat, index: nat): seq<Chunk>
    decreases |spans|
  {
    if spans == [] then []
    else [ChunkOf(spans[0], section, Some(parentId), index)] + Leaves(spans[1..], section, parentId, index + 1)
  }

  /** What a parent is cut into; a parent in one piece is its own child. */
  function ChildSpans(parent: Span, childWords: int): seq<Span> {
    var pieces := Pieces(parent.content, childWords, parent.start);
    if |pieces| <= 1 then [parent] else pieces
  }

  /** A parent and what it is cut into, before they are numbered. */
  datatype Parent = Parent(span: Span, section: string, children: seq<Span>)

  function Family(p: Parent, index: nat): seq<Chunk> {
    [ChunkOf(p.span, p.section, None, index)] + Leaves(p.children, p.section, index, index + 1)
  }

  /** Families one after another, each numbered from where the previous one ended. */
  function Forest(parents: seq<Parent>, index: nat): seq<Chunk>
    decreases |parents|
  {
    if parents == [] then []
    else
      var family := Family(parents[0], index);
      family + Forest(parents[1..], index + |family|)
  }

  function Cut(span: Span, section: string, childWords: int): Parent {
    Parent(span, section, ChildSpans(span, childWords))
  }

  ghost predicate IsCut(p: Parent, span: Span, section: string, childWords: int) {
    p == Cut(span, section, childWords)
  }

  function CutAll(spans: seq<Span>, section: string, childWords: int): seq<Parent> {
    Map((span: Span) => Cut(span, section, childWords), spans)
  }

  function SectionParents(s: Section, parentWords: int, childWords: int): seq<Parent> {
    CutAll(Pieces(s.text, parentWords, s.start), s.heading, childWords)
  }

  function Parents(sections: seq<Section>, parentWords: int, childWords: int): seq<Parent> {
    Flatten(Map((s: Section) => SectionParents(s, parentWords, childWords), sections))
  }

  function Chunks(text: string, detect: Detector, parentWords: int, childWords: int): seq<Chunk> {
    if Strip(text) == "" then [] else Forest(Parents(Segment(text, detect), parentWords, childWords), 0)
  }

  // ---- the nested loops ----

  lemma {:induction false} ForestConcat(a: seq<Parent>, b: seq<Parent>, index: nat)
    ensures var first := Forest(a, index);
            Forest(a + b, index) == first + Forest(b, index + |first|)
    decreases |a|
  {
    if a == [] {
      assert a + b == b;
    } else {
      var family := Family(a[0], index);
      assert (a + b)[0] == a[0] && (a + b)[1..] == a[1..] + b;
      ForestConcat(a[1..], b, index + |family|);
      ThreeParts(family, Forest(a[1..], index + |family|), Forest(b, index + |Forest(a, index)|));
    }
  }

  lemma OneMoreFamily(parents: seq<Parent>, i: nat, index: nat, before: seq<Chunk>, family: seq<Chunk>)
    requires i < |parents| && before == Forest(parents[..i], index) && family == Family(parents[i], index + |before|)
    ensures Forest(parents[..i + 1], index) == before + family
  {
    assert parents[..i + 1] == parents[..i] + [parents[i]];
    ForestConcat(parents[..i], [parents[i]], index);
    assert family + [] == family;
  }

  method AddLeaves(spans: seq<Span>, section: string, parentId: nat, index: nat) returns (leaves: seq<Chunk>)
    ensures leaves == Leaves(spans, section, parentId, index)
  {
    leaves := [];
    var next: nat := index;
    assert spans[0..] == spans;
    for i := 0 to |spans|
      invariant Leaves(spans, section, parentId, index) == leaves + Leaves(spans[i..], section, parentId, next)
    {
      assert spans[i..][1..] == spans[i + 1..];
      leaves := leaves + [ChunkOf(spans[i], section, Some(parentId), next)];
      next := next + 1;
    }
  }

  method AddFamily(span: Span, section: string, index: nat, childWords: int, ghost p: Parent) returns (family: seq<Chunk>)
    requires IsCut(p, span, section, childWords)
    ensures family == Family(p, index)
  {
    var pieces := SplitIntoWordChunks(span.content, childWords, span.start);
    var children: seq<Chunk>;
    if |pieces| <= 1 {
      children := AddLeaves([span], section, index, index + 1);
    } else {
      children := AddLeaves(pieces, section, index, index + 1);
    }
    family := [ChunkOf(span, section, None, index)] + children;
  }

  method AddParents(spans: seq<Span>, section: string, index: nat, childWords: int, ghost parents: seq<Parent>)
    returns (chunks: seq<Chunk>)
    requires |parents| == |spans|
    requires forall i :: 0 <= i < |spans| ==> IsCut(parents[i], spans[i], section, childWords)
    ensures chunks == Forest(parents, index)
  {
    chunks := [];
    for i := 0 to |spans|
      invariant chunks == Forest(parents[..i], index)
    {
      var family := AddFamily(spans[i], section, index + |chunks|, childWords, parents[i]);
      OneMoreFamily(parents, i, index, chunks, family);
      chunks := chunks + family;
    }
    assert parents[..|spans|] == parents;
  }

  lemma {:induction false} FlattenAppend<T>(parts: seq<seq<T>>, part: seq<T>)
    ensures Flatten(parts + [part]) == Flatten(parts) + part
  {
    if parts == [] {
      assert parts + [part] == [part];
      assert Flatten([part]) == part + [];
    } else {
      assert (parts + [part])[0] == parts[0] && (parts + [part])[1..] == parts[1..] + [part];
      FlattenAppend(parts[1..], part);
      ThreeParts(parts[0], Flatten(parts[1..]), part);
    }
  }

  lemma OneMoreSection(groups: seq<seq<Parent>>, i: nat, before: seq<Chunk>, added: seq<Chunk>)
    requires i < |groups| && before == Forest(Flatten(groups[..i]), 0) && added == Forest(groups[i], |before|)
    ensures Forest(Flatten(groups[..i + 1]), 0) == before + added
  {
    var flat := Flatten(groups[..i]);
    assert Flatten(groups[..i + 1]) == flat + groups[i] by {
      assert groups[..i + 1] == groups[..i] + [groups[i]];
      FlattenAppend(groups[..i], groups[i]);
    }
    ForestConcat(flat, groups[i], 0);
  }

  method AddSections(sections: seq<Section>, parentWords: int, childWords: int) returns (chunks: seq<Chunk>)
    ensures chunks == Forest(Parents(sections, parentWords, childWords), 0)
  {
    ghost var groups := Map((s: Section) => SectionParents(s, parentWords, childWords), sections);
    chunks := [];
    for i := 0 to |sections|
      invariant chunks == Forest(Flatten(groups[..i]), 0)
    {
      var s := sections[i];
      var spans := SplitIntoWordChunks(s.text, parentWords, s.start);
      var added := AddParents(spans, s.heading, |chunks|, childWords, groups[i]);
      OneMoreSection(groups, i, chunks, added);
      chunks := chunks + added;
    }
    assert groups[..|sections|] == groups;
  }

  method ChunkDocument(text: string, detect: Detector, parentWords: int, childWords: int) returns (chunks: seq<Chunk>)
    ensures chunks == Chunks(text, detect, parentWords, childWords)
  {
    if Strip(text) == "" {
      return [];
    }
    var sections := SegmentIntoSections(text, detect);
    chunks := AddSections(sections, parentWords, childWords);
  }

  // ---- what the tree keeps ----

  /** The words of the chunks that belong to a parent, in order. */
  function ChildWords(chunks: seq<Chunk>, parentId: nat): seq<string> {
    if chunks == [] then []
    else if chunks[0].parent == Some(parentId) then Words(chunks[0].content) + ChildWords(chunks[1..], parentId)
    else ChildWords(chunks[1..], parentId)
  }

  /** The words of all parents, or of all children, in order. */
  function WordsOf(chunks: seq<Chunk>, parents: bool): seq<string> {
    if chunks == [] then []
    else if chunks[0].isParent == parents then Words(chunks[0].content) + WordsOf(chunks[1..], parents)
    else WordsOf(chunks[1..], parents)
  }

  /** Indices count up from the base. */
  predicate Numbered(chunks: seq<Chunk>, base: nat) {
    forall i :: 0 <= i < |chunks| ==> chunks[i].id == chunks[i].index == base + i
  }

  predicate Within(inner: Chunk, outer: Chunk) {
    outer.start <= inner.start <= inner.end <= outer.end && inner.section == outer.section
  }

  /** A chunk is within the target, or it is one sentence of what it was cut from. */
  predicate Fits(content: string, whole: string, target: int) {
    FitsOrSentence(Words(content), target, Sentences(whole))
  }

  /** A child comes after its parent, lies inside its span and section, and is of the target size. */
  predicate ChildPlaced(chunks: seq<Chunk>, base: nat, i: nat, childWords: int)
    requires i < |chunks|
  {
    chunks[i].isParent
    || (chunks[i].parent.Some?
        && base <= chunks[i].parent.value < base + i
        && chunks[chunks[i].parent.value - base].isParent
        && Within(chunks[i], chunks[chunks[i].parent.value - base])
        && Fits(chunks[i].content, chunks[chunks[i].parent.value - base].content, childWords))
  }

  /** A parent is followed by a child of its own, and its children hold exactly its words. */
  predicate ParentCovered(chunks: seq<Chunk>, base: nat, i: nat)
    requires i < |chunks|
  {
    !chunks[i].isParent
    || (chunks[i].parent.None?
        && i + 1 < |chunks| && chunks[i + 1].parent == Some(base + i)
        && ChildWords(chunks, base + i) == Words(chunks[i].content))
  }

  predicate Sound(chunks: seq<Chunk>, base: nat, childWords: int) {
    && Numbered(chunks, base)
    && forall i :: 0 <= i < |chunks| ==> ChildPlaced(chunks, base, i, childWords) && ParentCovered(chunks, base, i)
  }

  lemma {:induction false} ChildWordsConcat(a: seq<Chunk>, b: seq<Chunk>, id: nat)
    ensures ChildWords(a + b, id) == ChildWords(a, id) + ChildWords(b, id)
  {
    if a == [] {
      assert a + b == b;
    } else {
      assert (a + b)[0] == a[0] && (a + b)[1..] == a[1..] + b;
      ChildWordsConcat(a[1..], b, id);
    }
  }

  lemma {:induction false} NoChildren(chunks: seq<Chunk>, id: nat)
    requires forall i :: 0 <= i < |chunks| ==> chunks[i].parent != Some(id)
    ensures ChildWords(chunks, id) == []
  {
    if chunks != [] {
      NoChildren(chunks[1..], id);
    }
  }

  lemma {:induction false} WordsOfConcat(a: seq<Chunk>, b: seq<Chunk>, parents: bool)
    ensures WordsOf(a + b, parents) == WordsOf(a, parents) + WordsOf(b, parents)
  {
    if a == [] {
      assert a + b == b;
    } else {
      assert (a + b)[0] == a[0] && (a + b)[1..] == a[1..] + b;
      WordsOfConcat(a[1..], b, parents);
    }
  }

  lemma SoundLeft(a: seq<Chunk>, b: seq<Chunk>, base: nat, childWords: int, i: nat)
    requires Sound(a, base, childWords) && Sound(b, base + |a|, childWords) && i < |a|
    ensures ChildPlaced(a + b, base, i, childWords) && ParentCovered(a + b, base, i)
  {
    assert ChildPlaced(a, base, i, childWords) && ParentCovered(a, base, i);
    forall j | 0 <= j < |b| ensures b[j].parent != Some(base + i) {
      assert ChildPlaced(b, base + |a|, j, childWords) && ParentCovered(b, base + |a|, j);
    }
    ChildWordsConcat(a, b, base + i);
    NoChildren(b, base + i);
  }

  lemma SoundRight(a: seq<Chunk>, b: seq<Chunk>, base: nat, childWords: int, j: nat)
    requires Sound(a, base, childWords) && Sound(b, base + |a|, childWords) && j < |b|
    ensures ChildPlaced(a + b, base, |a| + j, childWords) && ParentCovered(a + b, base, |a| + j)
  {
    var id := base + |a| + j;
    assert ChildPlaced(b, base + |a|, j, childWords) && ParentCovered(b, base + |a|, j);
    forall k | 0 <= k < |a| ensures a[k].parent != Some(id) {
      assert ChildPlaced(a, base, k, childWords) && ParentCovered(a, base, k);
    }
    ChildWordsConcat(a, b, id);
    NoChildren(a, id);
  }

  lemma SoundConcat(a: seq<Chunk>, b: seq<Chunk>, base: nat, childWords: int)
    requires Sound(a, base, childWords) && Sound(b, base + |a|, childWords)
    ensures Sound(a + b, base, childWords)
  {
    forall i | 0 <= i < |a + b| ensures ChildPlaced(a + b, base, i, childWords) && ParentCovered(a + b, base, i) {
      if i < |a| {
        SoundLeft(a, b, base, childWords, i);
      } else {
        SoundRight(a, b, base, childWords, i - |a|);
      }
    }
  }

  predicate InDocument(chunks: seq<Chunk>, limit: nat) {
    forall i :: 0 <= i < |chunks| ==> chunks[i].start <= chunks[i].end <= limit
  }

  /** Chunks that hold the same words as parents and as children, in a sound arrangement. */
  predicate Holds(chunks: seq<Chunk>, base: nat, limit: nat, childWords: int, ws: seq<string>) {
    && Sound(chunks, base, childWords) && InDocument(chunks, limit)
    && WordsOf(chunks, true) == ws && WordsOf(chunks, false) == ws
  }

  // ---- a family ----

  lemma {:induction false} LeavesAre(spans: seq<Span>, section: string, parentId: nat, index: nat)
    ensures var leaves := Leaves(spans, section, parentId, index);
            && |leaves| == |spans|
            && (forall i :: 0 <= i < |leaves| ==> leaves[i] == ChunkOf(spans[i], section, Some(parentId), index + i))
            && ChildWords(leaves, parentId) == FlatWords(Contents(spans))
            && WordsOf(leaves, true) == [] && WordsOf(leaves, false) == FlatWords(Contents(spans))
    decreases |spans|
  {
    if spans != [] {
      LeavesAre(spans[1..], section, parentId, index + 1);
      assert Contents(spans) == [spans[0].content] + Contents(spans[1..]);
    }
  }

  predicate GoodSpan(s: Span) {
    s.end == s.start + |s.content| && Trimmed(s.content)
  }

  lemma ChildSpansCover(parent: Span, childWords: int)
    requires GoodSpan(parent)
    ensures var spans := ChildSpans(parent, childWords);
            && spans != [] && FlatWords(Contents(spans)) == Words(parent.content)
            && forall i :: 0 <= i < |spans| ==> SpanInside(spans[i], parent.start, parent.end)
  {
    PiecesKeepWords(parent.content, childWords, parent.start);
    PiecesStayInside(parent.content, childWords, parent.start);
    StripOfTrimmed(parent.content);
    assert Contents([parent]) == [parent.content];
    assert FlatWords([parent.content]) == Words(parent.content) + [];
  }

  lemma ChildSpanFits(parent: Span, childWords: int, i: nat)
    requires Words(parent.content) != [] && i < |ChildSpans(parent, childWords)|
    ensures Fits(ChildSpans(parent, childWords)[i].content, parent.content, childWords)
  {
    var pieces := Pieces(parent.content, childWords, parent.start);
    PiecesKeepWords(parent.content, childWords, parent.start);
    PiecesFit(parent.content, childWords, parent.start, i);
    if |pieces| == 1 {
      assert Contents(pieces) == [pieces[0].content];
      assert FlatWords([pieces[0].content]) == Words(pieces[0].content) + [];
    }
  }

  /** What a cut parent keeps: its children lie inside it, hold its words and are of the target size. */
  predicate GoodParent(p: Parent, childWords: int) {
    && GoodSpan(p.span) && p.children != [] && FlatWords(Contents(p.children)) == Words(p.span.content)
    && (forall i :: 0 <= i < |p.children| ==> SpanInside(p.children[i], p.span.start, p.span.end))
    && forall i :: 0 <= i < |p.children| ==> Fits(p.children[i].content, p.span.content, childWords)
  }

  lemma ChildIsPlaced(p: Parent, index: nat, childWords: int, i: nat)
    requires GoodParent(p, childWords) && 0 < i < |Family(p, index)|
    ensures var family := Family(p, index);
            && ChildPlaced(family, index, i, childWords)
            && !family[i].isParent && family[i].id == family[i].index == index + i
            && p.span.start <= family[i].start <= family[i].end <= p.span.end
  {
    LeavesAre(p.children, p.section, index, index + 1);
    assert SpanInside(p.children[i - 1], p.span.start, p.span.end);
    assert Fits(p.children[i - 1].content, p.span.content, childWords);
  }

  lemma FamilyIsSound(p: Parent, index: nat, childWords: int)
    requires GoodParent(p, childWords)
    ensures Sound(Family(p, index), index, childWords) && InDocument(Family(p, index), p.span.end)
  {
    var family := Family(p, index);
    LeavesAre(p.children, p.section, index, index + 1);
    assert family[1..] == Leaves(p.children, p.section, index, index + 1);
    assert ParentCovered(family, index, 0);
    forall i | 0 < i < |family|
      ensures ChildPlaced(family, index, i, childWords) && !family[i].isParent
      ensures family[i].id == family[i].index == index + i && family[i].start <= family[i].end <= p.span.end
    {
      ChildIsPlaced(p, index, childWords, i);
    }
  }

  lemma FamilyHolds(p: Parent, index: nat, limit: nat, childWords: int)
    requires GoodParent(p, childWords) && p.span.end <= limit
    ensures Holds(Family(p, index), index, limit, childWords, Words(p.span.content))
  {
    FamilyIsSound(p, index, childWords);
    LeavesAre(p.children, p.section, index, index + 1);
    assert Family(p, index)[1..] == Leaves(p.children, p.section, index, index + 1);
    assert Words(p.span.content) + [] == Words(p.span.content);
  }

  // ---- the whole document ----

  function ParentWords(parents: seq<Parent>): seq<string> {
    if parents == [] then [] else Words(parents[0].span.content) + ParentWords(parents[1..])
  }

  predicate GoodParents(parents: seq<Parent>, limit: nat, childWords: int) {
    forall i :: 0 <= i < |parents| ==> GoodParent(parents[i], childWords) && parents[i].span.end <= limit
  }

  lemma SoundInDocumentConcat(a: seq<Chunk>, b: seq<Chunk>, base: nat, limit: nat, childWords: int)
    requires Sound(a, base, childWords) && InDocument(a, limit)
    requires Sound(b, base + |a|, childWords) && InDocument(b, limit)
    ensures Sound(a + b, base, childWords) && InDocument(a + b, limit)
  {
    SoundConcat(a, b, base, childWords);
  }

  lemma {:induction false} ForestIsSound(parents: seq<Parent>, index: nat, limit: nat, childWords: int)
    requires GoodParents(parents, limit, childWords)
    ensures Sound(Forest(parents, index), index, childWords) && InDocument(Forest(parents, index), limit)
    decreases |parents|
  {
    if parents != [] {
      var family := Family(parents[0], index);
      FamilyHolds(parents[0], index, limit, childWords);
      ForestIsSound(parents[1..], index + |family|, limit, childWords);
      SoundInDocumentConcat(family, Forest(parents[1..], index + |family|), index, limit, childWords);
    }
  }

  /** The words of a forest, when those of its families are known. */
  lemma {:induction false} ForestWords(parents: seq<Parent>, words: seq<seq<string>>, index: nat, ofParents: bool)
    requires |words| == |parents|
    requires forall i, at: nat :: 0 <= i < |parents| ==> WordsOf(Family(parents[i], at), ofParents) == words[i]
    ensures WordsOf(Forest(parents, index), ofParents) == Flatten(words)
    decreases |parents|
  {
    if parents != [] {
      var family, rest := Family(parents[0], index), parents[1..];
      var next := index + |family|;
      ForestWords(rest, words[1..], next, ofParents);
      WordsOfConcat(family, Forest(rest, next), ofParents);
    }
  }

  function WordLists(parents: seq<Parent>): (r: seq<seq<string>>)
    ensures |r| == |parents|
    ensures forall i :: 0 <= i < |parents| ==> r[i] == Words(parents[i].span.content)
  {
    if parents == [] then [] else [Words(parents[0].span.content)] + WordLists(parents[1..])
  }

  lemma {:induction false} WordListsFlatten(parents: seq<Parent>)
    ensures Flatten(WordLists(parents)) == ParentWords(parents)
  {
    if parents != [] {
      WordListsFlatten(parents[1..]);
      assert WordLists(parents)[1..] == WordLists(parents[1..]);
    }
  }

  lemma ForestKeepsWords(parents: seq<Parent>, index: nat, limit: nat, childWords: int, ofParents: bool)
    requires GoodParents(parents, limit, childWords)
    ensures WordsOf(Forest(parents, index), ofParents) == ParentWords(parents)
  {
    var words := WordLists(parents);
    forall i, at: nat | 0 <= i < |parents| ensures WordsOf(Family(parents[i], at), ofParents) == words[i] {
      FamilyHolds(parents[i], at, limit, childWords);
    }
    ForestWords(parents, words, index, ofParents);
    WordListsFlatten(parents);
  }

  lemma ForestHolds(parents: seq<Parent>, index: nat, limit: nat, childWords: int)
    requires GoodParents(parents, limit, childWords)
    ensures Holds(Forest(parents, index), index, limit, childWords, ParentWords(parents))
  {
    ForestIsSound(parents, index, limit, childWords);
    ForestKeepsWords(parents, index, limit, childWords, true);
    ForestKeepsWords(parents, index, limit, childWords, false);
  }

  lemma PiecesAreGoodSpans(text: string, target: int, base: nat)
    ensures var pieces := Pieces(text, target, base);
            forall i :: 0 <= i < |pieces| ==> GoodSpan(pieces[i]) && pieces[i].end <= base + |text|
  {
    var pieces := Pieces(text, target, base);
    PiecesStayInside(text, target, base);
    StripKeepsWords(text);
    forall i | 0 <= i < |pieces| ensures GoodSpan(pieces[i]) && pieces[i].end <= base + |text| {
      assert SpanInside(pieces[i], base, base + |Strip(text)|);
      PieceIsTrimmed(text, target, base, i);
    }
  }

  lemma PieceIsTrimmed(text: string, target: int, base: nat, i: nat)
    requires i < |Pieces(text, target, base)|
    ensures Trimmed(Pieces(text, target, base)[i].content)
  {
    StripKeepsWords(text);
    if |Words(text)| > target {
      var groups := PackedGroups(text, target);
      SpacedContents(groups, base);
      JoinedWords(groups[i]);
    }
  }

  lemma {:induction false} CutKeepsWords(spans: seq<Span>, section: string, childWords: int)
    ensures ParentWords(CutAll(spans, section, childWords)) == FlatWords(Contents(spans))
  {
    if spans != [] {
      CutKeepsWords(spans[1..], section, childWords);
      assert Contents(spans)[1..] == Contents(spans[1..]);
      assert CutAll(spans, section, childWords)[1..] == CutAll(spans[1..], section, childWords);
    }
  }

  lemma SectionParentsAreGood(s: Section, parentWords: int, childWords: int)
    ensures var parents := SectionParents(s, parentWords, childWords);
            GoodParents(parents, s.start + |s.text|, childWords) && ParentWords(parents) == Words(s.text)
  {
    var spans := Pieces(s.text, parentWords, s.start);
    PiecesAreGoodSpans(s.text, parentWords, s.start);
    PiecesKeepWords(s.text, parentWords, s.start);
    forall i | 0 <= i < |spans| ensures GoodParent(Cut(spans[i], s.heading, childWords), childWords) {
      ChildSpansCover(spans[i], childWords);
      forall k | 0 <= k < |ChildSpans(spans[i], childWords)|
        ensures Fits(ChildSpans(spans[i], childWords)[k].content, spans[i].content, childWords)
      {
        ChildSpanFits(spans[i], childWords, k);
      }
    }
    CutKeepsWords(spans, s.heading, childWords);
  }

  lemma GoodParentsConcat(a: seq<Parent>, b: seq<Parent>, limit: nat, childWords: int)
    requires GoodParents(a, limit, childWords) && GoodParents(b, limit, childWords)
    ensures GoodParents(a + b, limit, childWords)
    ensures ParentWords(a + b) == ParentWords(a) + ParentWords(b)
  {
    ParentWordsConcat(a, b);
  }

  lemma {:induction false} ParentWordsConcat(a: seq<Parent>, b: seq<Parent>)
    ensures ParentWords(a + b) == ParentWords(a) + ParentWords(b)
  {
    if a == [] {
      assert a + b == b;
    } else {
      assert (a + b)[0] == a[0] && (a + b)[1..] == a[1..] + b;
      ParentWordsConcat(a[1..], b);
    }
  }

  lemma {:induction false} ParentsAreGood(sections: seq<Section>, groups: seq<seq<Parent>>, limit: nat, childWords: int)
    requires |groups| == |sections|
    requires forall i :: 0 <= i < |groups| ==>
               GoodParents(groups[i], limit, childWords) && ParentWords(groups[i]) == Words(sections[i].text)
    ensures GoodParents(Flatten(groups), limit, childWords)
    ensures ParentWords(Flatten(groups)) == FlatWords(Texts(sections))
  {
    if groups != [] {
      ParentsAreGood(sections[1..], groups[1..], limit, childWords);
      GoodParentsConcat(groups[0], Flatten(groups[1..]), limit, childWords);
      assert Texts(sections) == [sections[0].text] + Texts(sections[1..]);
    }
  }

  lemma SectionsAreHeld(sections: seq<Section>, parentWords: int, childWords: int, limit: nat)
    requires Orderly(sections, limit)
    ensures Holds(Forest(Parents(sections, parentWords, childWords), 0), 0, limit, childWords, FlatWords(Texts(sections)))
  {
    forall i | 0 <= i < |sections|
      ensures var parents := SectionParents(sections[i], parentWords, childWords);
              GoodParents(parents, limit, childWords) && ParentWords(parents) == Words(sections[i].text)
    {
      SectionParentsAreGood(sections[i], parentWords, childWords);
    }
    ParentsAreGood(sections, Map((s: Section) => SectionParents(s, parentWords, childWords), sections), limit, childWords);
    ForestHolds(Parents(sections, parentWords, childWords), 0, limit, childWords);
  }

  lemma TextIsHeld(text: string, detect: Detector, parentWords: int, childWords: int, ws: seq<string>)
    requires Strip(text) != "" && ws == FlatWords(Texts(Segment(text, detect)))
    ensures Holds(Chunks(text, detect, parentWords, childWords), 0, |text|, childWords, ws)
  {
    SectionsStayInside(text, detect);
    SectionsAreHeld(Segment(text, detect), parentWords, childWords, |text|);
  }

  /**
   Indices are 0 to n - 1; every span lies inside the document; every child follows its parent
   and lies inside it, and is within the target or one sentence of it; every parent has a child
   and its children hold exactly its words. The parents, and again the children, hold exactly
   the words of the document.
   */
  lemma ChunkingConservesWords(text: string, detect: Detector, parentWords: int, childWords: int)
    ensures Holds(Chunks(text, detect, parentWords, childWords), 0, |text|, childWords, DocumentWords(text, detect))
  {
    StripKeepsWords(text);
    if Words(text) == [] {
      BlankDocument(text, detect);
    } else {
      SectionsKeepWords(text, detect);
      TextIsHeld(text, detect, parentWords, childWords, DocumentWords(text, detect));
    }
  }
}
