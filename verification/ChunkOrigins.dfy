/**
 Where the chunks of a document come from (serving/app/services/chunking.py, `chunk_document`):
 parents are the pieces of the sections at the parents' target size, children the pieces of
 their parent at the children's, and each carries the heading of its section.
 */
module ChunkOrigins {
  import opened Wrappers
  import opened Sorting
  import opened Text
  import opened WordChunks
  import opened Sections
  import opened Chunking

  predicate HasSpan(c: Chunk, span: Span) {
    c.content == span.content && c.start == span.start && c.end == span.end
  }

  /** The chunk is piece `k` of section `j`, under its heading. */
  predicate PieceOfSection(c: Chunk, sections: seq<Section>, parentWords: int, j: nat, k: nat) {
    && j < |sections| && c.section == sections[j].heading
    && k < |Pieces(sections[j].text, parentWords, sections[j].start)|
    && HasSpan(c, Pieces(sections[j].text, parentWords, sections[j].start)[k])
  }

  /** The chunk is piece `k` of its parent; a parent in one piece is its own only child. */
  predicate PieceOfParent(c: Chunk, parent: Chunk, childWords: int, k: nat) {
    var pieces := Pieces(parent.content, childWords, parent.start);
    && c.section == parent.section
    && if |pieces| <= 1 then k == 0 && HasSpan(c, Span(parent.content, parent.start, parent.end))
       else k < |pieces| && HasSpan(c, pieces[k])
  }

  // ---- families ----

  /** Chunk `i` belongs to the family of parent `p`. */
  predicate InFamily(p: Parent, chunks: seq<Chunk>, base: nat, i: nat) {
    && i < |chunks| && chunks[i].section == p.section
    && match chunks[i].parent
       case None => HasSpan(chunks[i], p.span)
       case Some(id) =>
         && base <= id < base + |chunks| && chunks[id - base].parent.None?
         && HasSpan(chunks[id - base], p.span) && chunks[id - base].section == p.section
         && i - (id - base) - 1 >= 0 && i - (id - base) - 1 < |p.children|
         && HasSpan(chunks[i], p.children[i - (id - base) - 1])
  }

  lemma FamilyMembers(p: Parent, base: nat, i: nat)
    requires i < |Family(p, base)|
    ensures InFamily(p, Family(p, base), base, i)
  {
    LeavesAre(p.children, p.section, base, base + 1);
  }

  lemma MembersStay(p: Parent, a: seq<Chunk>, b: seq<Chunk>, whole: seq<Chunk>, base: nat, i: nat)
    requires whole == a + b
    requires if i < |a| then InFamily(p, a, base, i) else InFamily(p, b, base + |a|, i - |a|)
    ensures InFamily(p, whole, base, i)
  {
  }

  /** Every chunk of a forest is in the family of one of its parents. */
  lemma {:induction false} ForestMembers(parents: seq<Parent>, base: nat, i: nat) returns (p: Parent)
    requires i < |Forest(parents, base)|
    ensures p in parents && InFamily(p, Forest(parents, base), base, i)
    decreases |parents|
  {
    var family, whole := Family(parents[0], base), Forest(parents, base);
    var next := base + |family|;
    var rest := Forest(parents[1..], next);
    if i < |family| {
      p := parents[0];
      FamilyMembers(p, base, i);
    } else {
      p := ForestMembers(parents[1..], next, i - |family|);
    }
    MembersStay(p, family, rest, whole, base, i);
  }

  // ---- parents are pieces of sections ----

  /** The parent is piece `k` of section `j`, cut at the children's size. */
  predicate CutFrom(p: Parent, sections: seq<Section>, parentWords: int, childWords: int, j: nat, k: nat) {
    && j < |sections| && k < |Pieces(sections[j].text, parentWords, sections[j].start)|
    && p == Cut(Pieces(sections[j].text, parentWords, sections[j].start)[k], sections[j].heading, childWords)
  }

  lemma {:induction false} InFlattened<T>(parts: seq<seq<T>>, x: T) returns (j: nat)
    requires x in Flatten(parts)
    ensures j < |parts| && x in parts[j]
  {
    if x in parts[0] {
      j := 0;
    } else {
      var rest := InFlattened(parts[1..], x);
      j := rest + 1;
    }
  }

  lemma ParentsAreCut(sections: seq<Section>, parentWords: int, childWords: int, p: Parent) returns (j: nat, k: nat)
    requires p in Parents(sections, parentWords, childWords)
    ensures CutFrom(p, sections, parentWords, childWords, j, k)
  {
    var groups := Map((s: Section) => SectionParents(s, parentWords, childWords), sections);
    j := InFlattened(groups, p);
    var spans := Pieces(sections[j].text, parentWords, sections[j].start);
    var cut := CutAll(spans, sections[j].heading, childWords);
    assert groups[j] == cut;
    k :| 0 <= k < |cut| && cut[k] == p;
  }

  /** A member of a family that was cut from a section is a piece of the section, or of its parent. */
  predicate IsPiece(chunks: seq<Chunk>, sections: seq<Section>, parentWords: int, childWords: int, i: nat, j: nat, k: nat)
    requires i < |chunks|
  {
    match chunks[i].parent
    case None => PieceOfSection(chunks[i], sections, parentWords, j, k)
    case Some(id) => id < |chunks| && chunks[id].parent.None? && PieceOfParent(chunks[i], chunks[id], childWords, k)
  }

  lemma ParentIsPiece(
    chunks: seq<Chunk>, p: Parent, sections: seq<Section>, parentWords: int, childWords: int, i: nat, j: nat, k: nat)
    requires i < |chunks| && chunks[i].parent.None? && InFamily(p, chunks, 0, i)
    requires CutFrom(p, sections, parentWords, childWords, j, k)
    ensures IsPiece(chunks, sections, parentWords, childWords, i, j, k)
  {
  }

  lemma ChildIsPiece(chunks: seq<Chunk>, p: Parent, span: Span, heading: string, childWords: int, i: nat) returns (k: nat)
    requires i < |chunks| && chunks[i].parent.Some? && InFamily(p, chunks, 0, i) && p == Cut(span, heading, childWords)
    requires span.end == span.start + |span.content|
    ensures var id := chunks[i].parent.value;
            id < |chunks| && chunks[id].parent.None? && PieceOfParent(chunks[i], chunks[id], childWords, k)
  {
    k := i - chunks[i].parent.value - 1;
  }

  /**
   Every parent is a piece, at the parents' target size, of a section whose heading it carries;
   every child is a piece, at the children's target size, of its parent, whose heading it carries.
   */
  lemma ChunksArePieces(text: string, detect: Detector, parentWords: int, childWords: int, i: nat) returns (j: nat, k: nat)
    requires i < |Chunks(text, detect, parentWords, childWords)|
    ensures IsPiece(Chunks(text, detect, parentWords, childWords), Segment(text, detect), parentWords, childWords, i, j, k)
  {
    var chunks, sections := Chunks(text, detect, parentWords, childWords), Segment(text, detect);
    var parents := Parents(sections, parentWords, childWords);
    var p := ForestMembers(parents, 0, i);
    j, k := ParentsAreCut(sections, parentWords, childWords, p);
    if chunks[i].parent.None? {
      ParentIsPiece(chunks, p, sections, parentWords, childWords, i, j, k);
    } else {
      var section := sections[j];
      var span := Pieces(section.text, parentWords, section.start)[k];
      PiecesStayInside(section.text, parentWords, section.start);
      assert SpanInside(span, section.start, section.start + |Strip(section.text)|);
      k := ChildIsPiece(chunks, p, span, section.heading, childWords, i);
    }
  }

  /** So a parent is within the parents' target, or is one sentence of its section. */
  lemma ParentsFit(text: string, detect: Detector, parentWords: int, childWords: int, i: nat) returns (j: nat)
    requires i < |Chunks(text, detect, parentWords, childWords)|
    requires Chunks(text, detect, parentWords, childWords)[i].parent.None?
    ensures var c, sections := Chunks(text, detect, parentWords, childWords)[i], Segment(text, detect);
            && j < |sections| && c.section == sections[j].heading && sections[j].start <= c.start && c.end <= sections[j].end
            && FitsOrSentence(Words(c.content), parentWords, Sentences(sections[j].text))
  {
    var k;
    j, k := ChunksArePieces(text, detect, parentWords, childWords, i);
    var section := Segment(text, detect)[j];
    PiecesFit(section.text, parentWords, section.start, k);
    PiecesStayInside(section.text, parentWords, section.start);
    assert SpanInside(Pieces(section.text, parentWords, section.start)[k], section.start, section.start + |Strip(section.text)|);
    StripKeepsWords(section.text);
    SectionsStayInside(text, detect);
  }
}
