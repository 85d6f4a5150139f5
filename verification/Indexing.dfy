/**
 Indexing a document's chunks: the cap on embedded children and the batched embedding calls
 (serving/app/services/indexing.py, `index_resume_version`).

 The embedder is a function from a batch of texts to the vectors it returned.
 */
module Indexing {
  import opened Wrappers
  import opened Batching
  import opened Sorting
  import opened Chunking

  const EMBED_BATCH_SIZE := 32

  type Embedder<V> = seq<string> -> seq<V>

  datatype Row<V> = Row(chunk: Chunk, embedding: Option<V>)

  // ---- the cap ----

  /** The parents, or the children, of a chunk list, in order. */
  function Select(chunks: seq<Chunk>, parents: bool): seq<Chunk> {
    if chunks == [] then []
    else if chunks[0].isParent == parents then [chunks[0]] + Select(chunks[1..], parents)
    else Select(chunks[1..], parents)
  }

  function KeepIds(chunks: seq<Chunk>, ids: set<nat>): seq<Chunk> {
    if chunks == [] then []
    else if chunks[0].isParent || chunks[0].id in ids then [chunks[0]] + KeepIds(chunks[1..], ids)
    else KeepIds(chunks[1..], ids)
  }

  function IdsOf(chunks: seq<Chunk>): set<nat> {
    set i | 0 <= i < |chunks| :: chunks[i].id
  }

  function Kept(chunks: seq<Chunk>, cap: nat): seq<Chunk> {
    var children := Select(chunks, false);
    if |children| <= cap then chunks else KeepIds(chunks, IdsOf(children[..cap]))
  }

  function KeptChildren(chunks: seq<Chunk>, cap: nat): seq<Chunk> {
    var children := Select(chunks, false);
    if |children| <= cap then children else children[..cap]
  }

  lemma {:induction false} SelectedAre(chunks: seq<Chunk>, base: nat, parents: bool)
    requires Numbered(chunks, base)
    ensures var chosen := Select(chunks, parents);
            && (forall i :: 0 <= i < |chosen| ==> chosen[i] in chunks && chosen[i].isParent == parents && chosen[i].id >= base)
            && (forall i, j :: 0 <= i < j < |chosen| ==> chosen[i].id < chosen[j].id)
            && (forall c :: c in chunks && c.isParent == parents ==> c in chosen)
    decreases |chunks|
  {
    if chunks != [] {
      assert Numbered(chunks[1..], base + 1) by {
        forall i | 0 <= i < |chunks| - 1 ensures chunks[1..][i].id == chunks[1..][i].index == base + 1 + i {
          assert chunks[1..][i] == chunks[i + 1];
        }
      }
      SelectedAre(chunks[1..], base + 1, parents);
    }
  }

  lemma {:induction false} KeepIdsSelects(chunks: seq<Chunk>, first: seq<Chunk>, rest: seq<Chunk>, ids: set<nat>)
    requires Select(chunks, false) == first + rest
    requires forall i :: 0 <= i < |first| ==> first[i].id in ids
    requires forall i :: 0 <= i < |rest| ==> rest[i].id !in ids
    ensures Select(KeepIds(chunks, ids), false) == first
    ensures Select(KeepIds(chunks, ids), true) == Select(chunks, true)
    decreases |chunks|
  {
    if chunks != [] {
      if chunks[0].isParent {
        KeepIdsSelects(chunks[1..], first, rest, ids);
      } else if first != [] {
        assert Select(chunks, false)[0] == chunks[0] && (first + rest)[0] == first[0];
        assert (first + rest)[1..] == first[1..] + rest;
        KeepIdsSelects(chunks[1..], first[1..], rest, ids);
        assert Select(KeepIds(chunks, ids), false) == [first[0]] + Select(KeepIds(chunks[1..], ids), false);
      } else {
        assert first + rest == rest && rest[0] == chunks[0];
        KeepIdsSelects(chunks[1..], [], rest[1..], ids);
        assert [] + rest[1..] == rest[1..];
      }
    }
  }

  /** The cap keeps every parent and exactly the first children, both in order. */
  lemma CapKeepsParents(chunks: seq<Chunk>, cap: nat)
    requires Numbered(chunks, 0)
    ensures Select(Kept(chunks, cap), true) == Select(chunks, true)
    ensures Select(Kept(chunks, cap), false) == KeptChildren(chunks, cap)
  {
    var children := Select(chunks, false);
    if |children| > cap {
      SelectedAre(chunks, 0, false);
      var ids := IdsOf(children[..cap]);
      assert children == children[..cap] + children[cap..];
      forall i | 0 <= i < |children| - cap ensures children[cap..][i].id !in ids {
        assert children[cap..][i] == children[cap + i];
      }
      KeepIdsSelects(chunks, children[..cap], children[cap..], ids);
    }
  }

  lemma {:induction false} SelectMembers(chunks: seq<Chunk>, parents: bool)
    ensures forall c :: c in Select(chunks, parents) <==> c in chunks && c.isParent == parents
  {
    if chunks != [] {
      SelectMembers(chunks[1..], parents);
      assert chunks == [chunks[0]] + chunks[1..];
    }
  }

  /** A kept child's parent is kept, whatever the cap. */
  lemma CapOrphansNone(chunks: seq<Chunk>, cap: nat, childWords: int, c: Chunk)
    requires Sound(chunks, 0, childWords) && c in Kept(chunks, cap) && !c.isParent
    ensures c.parent.Some? && c.parent.value < |chunks|
    ensures chunks[c.parent.value].isParent && chunks[c.parent.value] in Kept(chunks, cap)
  {
    CapKeepsParents(chunks, cap);
    SelectMembers(Kept(chunks, cap), false);
    SelectMembers(chunks, false);
    SelectMembers(chunks, true);
    SelectMembers(Kept(chunks, cap), true);
    assert c in KeptChildren(chunks, cap);
    assert c in Select(chunks, false);
    var i :| 0 <= i < |chunks| && chunks[i] == c;
    assert ChildPlaced(chunks, 0, i, childWords);
    assert chunks[c.parent.value] in Select(chunks, true);
  }

  /** How many children come before chunk `i`. */
  function ChildrenBefore(chunks: seq<Chunk>, i: nat): nat
    requires i <= |chunks|
  {
    if i == 0 then 0 else ChildrenBefore(chunks, i - 1) + if chunks[i - 1].isParent then 0 else 1
  }

  lemma {:induction false} ChildrenBeforeTail(chunks: seq<Chunk>, i: nat)
    requires 1 <= i <= |chunks|
    ensures ChildrenBefore(chunks, i) == ChildrenBefore(chunks[1..], i - 1) + if chunks[0].isParent then 0 else 1
  {
    if i > 1 {
      ChildrenBeforeTail(chunks, i - 1);
      assert chunks[1..][i - 2] == chunks[i - 1];
    }
  }

  lemma {:induction false} ChildAt(chunks: seq<Chunk>, i: nat)
    requires i < |chunks| && !chunks[i].isParent
    ensures ChildrenBefore(chunks, i) < |Select(chunks, false)|
    ensures Select(chunks, false)[ChildrenBefore(chunks, i)] == chunks[i]
    decreases |chunks|
  {
    if i > 0 {
      ChildrenBeforeTail(chunks, i);
      ChildAt(chunks[1..], i - 1);
    }
  }

  /** A chunk is kept exactly when it is a parent, or fewer children than the cap come before it. */
  lemma KeptIffAmongFirst(chunks: seq<Chunk>, cap: nat, i: nat)
    requires Numbered(chunks, 0) && i < |chunks|
    ensures chunks[i] in Kept(chunks, cap) <==> chunks[i].isParent || ChildrenBefore(chunks, i) < cap
  {
    var c := chunks[i];
    CapKeepsParents(chunks, cap);
    SelectMembers(Kept(chunks, cap), c.isParent);
    SelectMembers(chunks, c.isParent);
    assert c in Kept(chunks, cap) <==> c in Select(Kept(chunks, cap), c.isParent);
    if !c.isParent {
      var children, k := Select(chunks, false), ChildrenBefore(chunks, i);
      ChildAt(chunks, i);
      SelectedAre(chunks, 0, false);
      if k < cap {
        assert KeptChildren(chunks, cap)[k] == c;
      } else {
        forall j | 0 <= j < |KeptChildren(chunks, cap)| ensures KeptChildren(chunks, cap)[j] != c {
          assert children[j].id < children[k].id;
        }
      }
    }
  }

  // ---- embedding ----

  function EmbedBatches<V>(embed: Embedder<V>, batches: seq<seq<string>>): seq<V> {
    if batches == [] then [] else embed(batches[0]) + EmbedBatches(embed, batches[1..])
  }

  function ContentsOf(chunks: seq<Chunk>): seq<string> {
    Map((c: Chunk) => c.content, chunks)
  }

  function BatchesOf(chunks: seq<Chunk>): seq<seq<string>> {
    Batches(ContentsOf(chunks), EMBED_BATCH_SIZE)
  }

  /** The vectors of the kept children, unless the total count is wrong. */
  function Vectors<V>(embed: Embedder<V>, children: seq<Chunk>): Option<seq<V>> {
    var vectors := EmbedBatches(embed, BatchesOf(children));
    if |vectors| != |children| then None else Some(vectors)
  }

  /** The vector paired with a chunk: that of the last child with its identifier. */
  function VectorOf<V>(children: seq<Chunk>, vectors: seq<V>, id: nat): Option<V>
    requires |vectors| == |children|
  {
    if children == [] then None
    else
      var last := |children| - 1;
      if children[last].id == id then Some(vectors[last]) else VectorOf(children[..last], vectors[..last], id)
  }

  function Rows<V>(chunks: seq<Chunk>, children: seq<Chunk>, vectors: seq<V>): seq<Row<V>>
    requires |vectors| == |children|
  {
    seq(|chunks|, i requires 0 <= i < |chunks| => Row(chunks[i], VectorOf(children, vectors, chunks[i].id)))
  }

  function Indexed<V>(embed: Embedder<V>, chunks: seq<Chunk>, cap: nat): Option<seq<Row<V>>> {
    match Vectors(embed, KeptChildren(chunks, cap))
    case None => None
    case Some(vectors) => Some(Rows(Kept(chunks, cap), KeptChildren(chunks, cap), vectors))
  }

  // ---- the loops ----

  method EmbedInBatches<V>(embed: Embedder<V>, batches: seq<seq<string>>) returns (vectors: seq<V>)
    ensures vectors == EmbedBatches(embed, batches)
  {
    vectors := [];
    assert batches[0..] == batches;
    for i := 0 to |batches|
      invariant EmbedBatches(embed, batches) == vectors + EmbedBatches(embed, batches[i..])
    {
      assert batches[i..][1..] == batches[i + 1..];
      vectors := vectors + embed(batches[i]);
    }
  }

  method IndexChunks<V>(embed: Embedder<V>, chunks: seq<Chunk>, cap: nat) returns (rows: Option<seq<Row<V>>>)
    ensures rows == Indexed(embed, chunks, cap)
  {
    var children := Select(chunks, false);
    var infos := chunks;
    if |children| > cap {
      children := children[..cap];
      infos := KeepIds(chunks, IdsOf(children));
    }
    var vectors := EmbedInBatches(embed, BatchesOf(children));
    if |vectors| != |children| {
      return None;
    }
    return Some(Rows(infos, children, vectors));
  }

  // ---- alignment ----

  predicate EachBatchExact<V>(embed: Embedder<V>, batches: seq<seq<string>>) {
    forall b :: 0 <= b < |batches| ==> |embed(batches[b])| == |batches[b]|
  }

  /** The vector of text `i` is the one its own batch returned at its own position. */
  ghost predicate OwnVector<V>(embed: Embedder<V>, batches: seq<seq<string>>, vectors: seq<V>, i: nat) {
    var b, k := i / EMBED_BATCH_SIZE, i % EMBED_BATCH_SIZE;
    i < |vectors| && b < |batches| && k < |embed(batches[b])| && vectors[i] == embed(batches[b])[k]
  }

  lemma {:induction false} ExactBatchesAlign<V>(embed: Embedder<V>, contents: seq<string>, i: nat)
    requires EachBatchExact(embed, Batches(contents, EMBED_BATCH_SIZE))
    ensures |EmbedBatches(embed, Batches(contents, EMBED_BATCH_SIZE))| == |contents|
    ensures i < |contents| ==>
              OwnVector(embed, Batches(contents, EMBED_BATCH_SIZE), EmbedBatches(embed, Batches(contents, EMBED_BATCH_SIZE)), i)
    decreases |contents|
  {
    var batches := Batches(contents, EMBED_BATCH_SIZE);
    if |contents| > EMBED_BATCH_SIZE {
      var rest := contents[EMBED_BATCH_SIZE..];
      assert batches[1..] == Batches(rest, EMBED_BATCH_SIZE);
      assert forall b :: 0 <= b < |batches| - 1 ==> batches[1..][b] == batches[b + 1];
      var j := if i < EMBED_BATCH_SIZE then 0 else i - EMBED_BATCH_SIZE;
      ExactBatchesAlign(embed, rest, j);
      assert |embed(batches[0])| == EMBED_BATCH_SIZE;
      if EMBED_BATCH_SIZE <= i < |contents| {
        assert i / EMBED_BATCH_SIZE == j / EMBED_BATCH_SIZE + 1 && i % EMBED_BATCH_SIZE == j % EMBED_BATCH_SIZE;
        assert batches[1..][j / EMBED_BATCH_SIZE] == batches[i / EMBED_BATCH_SIZE];
      }
    } else if contents != [] {
      assert |embed(batches[0])| == |contents|;
      assert EmbedBatches(embed, batches) == embed(batches[0]) + [];
    }
  }

  predicate Ascending(children: seq<Chunk>) {
    forall i, j :: 0 <= i < j < |children| ==> children[i].id < children[j].id
  }

  lemma {:induction false} VectorOfChild<V>(children: seq<Chunk>, vectors: seq<V>, j: nat)
    requires |vectors| == |children| && Ascending(children) && j < |children|
    ensures VectorOf(children, vectors, children[j].id) == Some(vectors[j])
    decreases |children|
  {
    var last := |children| - 1;
    if j < last {
      VectorOfChild(children[..last], vectors[..last], j);
    }
  }

  lemma {:induction false} NoVectorOfOther<V>(children: seq<Chunk>, vectors: seq<V>, id: nat)
    requires |vectors| == |children| && forall j :: 0 <= j < |children| ==> children[j].id != id
    ensures VectorOf(children, vectors, id) == None
    decreases |children|
  {
    if children != [] {
      NoVectorOfOther(children[..|children| - 1], vectors[..|children| - 1], id);
    }
  }

  /** The row of child `j` carries what its own batch returned at its own position. */
  ghost predicate CarriesOwnVector<V>(embed: Embedder<V>, children: seq<Chunk>, row: Row<V>, j: nat) {
    var batches, b, k := BatchesOf(children), j / 32, j % 32;
    && j < |children| && row.chunk == children[j]
    && b < |batches| && k < |batches[b]| && k < |embed(batches[b])|
    && row.embedding == Some(embed(batches[b])[k])
  }

  lemma {:induction false} BatchHolds(contents: seq<string>, i: nat)
    requires i < |contents|
    ensures var batches, b, k := Batches(contents, EMBED_BATCH_SIZE), i / EMBED_BATCH_SIZE, i % EMBED_BATCH_SIZE;
            b < |batches| && k < |batches[b]| && batches[b][k] == contents[i]
    decreases |contents|
  {
    if i >= EMBED_BATCH_SIZE {
      var rest := contents[EMBED_BATCH_SIZE..];
      var j := i - EMBED_BATCH_SIZE;
      BatchHolds(rest, j);
      assert i / EMBED_BATCH_SIZE == j / EMBED_BATCH_SIZE + 1 && i % EMBED_BATCH_SIZE == j % EMBED_BATCH_SIZE;
    }
  }

  lemma KeptChildrenAre(chunks: seq<Chunk>, cap: nat)
    requires Numbered(chunks, 0)
    ensures var children := KeptChildren(chunks, cap);
            && Ascending(children)
            && forall j :: 0 <= j < |children| ==> children[j] in chunks && !children[j].isParent
  {
    SelectedAre(chunks, 0, false);
  }

  lemma KeptAmong(chunks: seq<Chunk>, cap: nat, c: Chunk)
    requires Numbered(chunks, 0) && c in Kept(chunks, cap)
    ensures c in chunks && (!c.isParent ==> c in KeptChildren(chunks, cap))
  {
    CapKeepsParents(chunks, cap);
    SelectMembers(Kept(chunks, cap), c.isParent);
    SelectMembers(chunks, c.isParent);
    assert c in Select(Kept(chunks, cap), c.isParent);
  }

  /**
   When every call returns one vector per text, indexing succeeds, each kept child is stored with
   the vector of its own text, and parents are stored without one.
   */
  lemma ChildrenGetTheirOwnVectors<V>(embed: Embedder<V>, chunks: seq<Chunk>, cap: nat, r: nat)
    requires Numbered(chunks, 0) && EachBatchExact(embed, BatchesOf(KeptChildren(chunks, cap)))
    requires r < |Kept(chunks, cap)|
    ensures var rows := Indexed(embed, chunks, cap);
            && rows.Some? && |rows.value| == |Kept(chunks, cap)|
            && rows.value[r].chunk == Kept(chunks, cap)[r]
            && (rows.value[r].chunk.isParent ==> rows.value[r].embedding == None)
            && (!rows.value[r].chunk.isParent ==>
                  exists j :: CarriesOwnVector(embed, KeptChildren(chunks, cap), rows.value[r], j))
  {
    var children, c := KeptChildren(chunks, cap), Kept(chunks, cap)[r];
    ExactBatchesAlign(embed, ContentsOf(children), 0);
    var vectors := EmbedBatches(embed, BatchesOf(children));
    KeptChildrenAre(chunks, cap);
    KeptAmong(chunks, cap, c);
    if c.isParent {
      NoVectorOfOther(children, vectors, c.id);
    } else {
      var j :| 0 <= j < |children| && children[j] == c;
      VectorOfChild(children, vectors, j);
      ExactBatchesAlign(embed, ContentsOf(children), j);
      BatchHolds(ContentsOf(children), j);
      assert CarriesOwnVector(embed, children, Row(c, Some(vectors[j])), j);
    }
  }

  // ---- what the length check does not see ----

  /** Where the vectors of a batch begin in the concatenated answers. */
  function VectorsBefore<V>(embed: Embedder<V>, batches: seq<seq<string>>, b: nat): nat
    requires b <= |batches|
  {
    |EmbedBatches(embed, batches[..b])|
  }

  /** The vector at position `i` is number `k` of the answer to batch `b`. */
  predicate IsOrigin<V>(embed: Embedder<V>, batches: seq<seq<string>>, i: nat, b: nat, k: nat) {
    b < |batches| && k < |embed(batches[b])| && VectorsBefore(embed, batches, b) + k == i
  }

  lemma {:induction false} EmbedConcat<V>(embed: Embedder<V>, a: seq<seq<string>>, b: seq<seq<string>>)
    ensures EmbedBatches(embed, a + b) == EmbedBatches(embed, a) + EmbedBatches(embed, b)
  {
    if a == [] {
      assert a + b == b;
    } else {
      assert (a + b)[1..] == a[1..] + b;
      EmbedConcat(embed, a[1..], b);
    }
  }

  lemma AnswerInPlace<V>(embed: Embedder<V>, batches: seq<seq<string>>, b: nat)
    requires b < |batches|
    ensures VectorsBefore(embed, batches, b + 1) == VectorsBefore(embed, batches, b) + |embed(batches[b])|
    ensures VectorsBefore(embed, batches, b + 1) <= |EmbedBatches(embed, batches)|
    ensures forall k :: 0 <= k < |embed(batches[b])| ==>
              EmbedBatches(embed, batches)[VectorsBefore(embed, batches, b) + k] == embed(batches[b])[k]
  {
    var before, one, after := batches[..b], [batches[b]], batches[b + 1..];
    assert batches == batches[..b + 1] + after && batches[..b + 1] == before + one;
    EmbedConcat(embed, before, one);
    EmbedConcat(embed, batches[..b + 1], after);
    assert one[1..] == [];
    assert EmbedBatches(embed, one) == embed(batches[b]) + [];
  }

  /** Every vector comes from exactly one place of one answer. */
  lemma {:induction false} OriginOf<V>(embed: Embedder<V>, batches: seq<seq<string>>, n: nat, i: nat) returns (b: nat, k: nat)
    requires n <= |batches| && i < VectorsBefore(embed, batches, n)
    ensures b < n && IsOrigin(embed, batches, i, b, k)
  {
    AnswerInPlace(embed, batches, n - 1);
    if VectorsBefore(embed, batches, n - 1) <= i {
      b, k := n - 1, i - VectorsBefore(embed, batches, n - 1);
    } else {
      b, k := OriginOf(embed, batches, n - 1, i);
    }
  }

  /** The row holds child `j` and the vector number `k` of the answer to batch `b`. */
  ghost predicate CarriesVector<V>(embed: Embedder<V>, children: seq<Chunk>, row: Row<V>, j: nat, b: nat, k: nat) {
    && j < |children| && row.chunk == children[j]
    && IsOrigin(embed, BatchesOf(children), j, b, k)
    && row.embedding == Some(embed(BatchesOf(children)[b])[k])
  }

  /** Whenever indexing succeeds, child `j` is stored with the vector that happens to be at position `j`. */
  lemma StoredVectorHasOrigin<V>(embed: Embedder<V>, chunks: seq<Chunk>, cap: nat, r: nat)
    requires Numbered(chunks, 0) && Indexed(embed, chunks, cap).Some?
    requires r < |Kept(chunks, cap)| && !Kept(chunks, cap)[r].isParent
    ensures r < |Indexed(embed, chunks, cap).value|
    ensures exists j: nat, b: nat, k: nat :: CarriesVector(embed, KeptChildren(chunks, cap), Indexed(embed, chunks, cap).value[r], j, b, k)
  {
    var children, c := KeptChildren(chunks, cap), Kept(chunks, cap)[r];
    var batches := BatchesOf(children);
    var vectors := EmbedBatches(embed, batches);
    KeptChildrenAre(chunks, cap);
    KeptAmong(chunks, cap, c);
    var j :| 0 <= j < |children| && children[j] == c;
    VectorOfChild(children, vectors, j);
    assert batches[..|batches|] == batches;
    var b, k := OriginOf(embed, batches, |batches|, j);
    AnswerInPlace(embed, batches, b);
    var row := Indexed(embed, chunks, cap).value[r];
    assert row == Row(c, Some(vectors[j]));
    assert CarriesVector(embed, children, row, j, b, k);
  }

  /** How many vectors all calls returned. */
  function VectorCount<V>(embed: Embedder<V>, batches: seq<seq<string>>): nat {
    if batches == [] then 0 else |embed(batches[0])| + VectorCount(embed, batches[1..])
  }

  lemma {:induction false} AnswersCounted<V>(embed: Embedder<V>, batches: seq<seq<string>>)
    ensures |EmbedBatches(embed, batches)| == VectorCount(embed, batches)
  {
    if batches != [] {
      AnswersCounted(embed, batches[1..]);
    }
  }

  /** Indexing is refused exactly when the calls together did not return one vector per kept child. */
  lemma RefusedIffTotalDiffers<V>(embed: Embedder<V>, chunks: seq<Chunk>, cap: nat)
    ensures Indexed(embed, chunks, cap).None? <==>
              VectorCount(embed, BatchesOf(KeptChildren(chunks, cap))) != |KeptChildren(chunks, cap)|
  {
    AnswersCounted(embed, BatchesOf(KeptChildren(chunks, cap)));
  }

  /** Every child's vector was computed for its own text. */
  predicate Aligned<V>(embed: Embedder<V>, children: seq<Chunk>) {
    forall j :: 0 <= j < |children| ==>
      IsOrigin(embed, BatchesOf(children), j, j / 32, j % 32)
  }

  /** All batches are full but the last, which holds the rest. */
  lemma {:induction false} BatchSizes(contents: seq<string>)
    requires contents != []
    ensures var batches := Batches(contents, EMBED_BATCH_SIZE);
            && batches != []
            && EMBED_BATCH_SIZE * (|batches| - 1) + |batches[|batches| - 1]| == |contents|
            && batches[|batches| - 1] != []
            && forall b :: 0 <= b < |batches| - 1 ==> |batches[b]| == EMBED_BATCH_SIZE
    decreases |contents|
  {
    if |contents| > EMBED_BATCH_SIZE {
      BatchSizes(contents[EMBED_BATCH_SIZE..]);
    }
  }

  lemma {:induction false} FullBefore<V>(embed: Embedder<V>, batches: seq<seq<string>>, b: nat)
    requires EachBatchExact(embed, batches) && b < |batches|
    requires forall a :: 0 <= a < |batches| - 1 ==> |batches[a]| == EMBED_BATCH_SIZE
    ensures VectorsBefore(embed, batches, b) == EMBED_BATCH_SIZE * b
  {
    if b > 0 {
      FullBefore(embed, batches, b - 1);
      AnswerInPlace(embed, batches, b - 1);
    }
  }

  lemma AlignedBatchStarts<V>(embed: Embedder<V>, children: seq<Chunk>, b: nat)
    requires Aligned(embed, children) && b < |BatchesOf(children)|
    ensures VectorsBefore(embed, BatchesOf(children), b) == EMBED_BATCH_SIZE * b
  {
    BatchSizes(ContentsOf(children));
    var j := EMBED_BATCH_SIZE * b;
    assert j < |children|;
    assert j / EMBED_BATCH_SIZE == b && j % EMBED_BATCH_SIZE == 0;
    assert IsOrigin(embed, BatchesOf(children), j, j / EMBED_BATCH_SIZE, j % EMBED_BATCH_SIZE);
  }

  lemma AlignedBatchIsExact<V>(embed: Embedder<V>, children: seq<Chunk>, b: nat)
    requires Vectors(embed, children).Some? && Aligned(embed, children) && b < |BatchesOf(children)|
    ensures |embed(BatchesOf(children)[b])| == |BatchesOf(children)[b]|
  {
    var batches := BatchesOf(children);
    BatchSizes(ContentsOf(children));
    AnswerInPlace(embed, batches, b);
    AlignedBatchStarts(embed, children, b);
    if b < |batches| - 1 {
      AlignedBatchStarts(embed, children, b + 1);
    } else {
      assert batches[..b + 1] == batches;
    }
  }

  /**
   When the total is right, every child is stored with the vector computed for its own text exactly
   when every call returned one vector per text.
   */
  lemma AlignedIffEachBatchExact<V>(embed: Embedder<V>, children: seq<Chunk>)
    requires Vectors(embed, children).Some?
    ensures Aligned(embed, children) <==> EachBatchExact(embed, BatchesOf(children))
  {
    var contents, batches := ContentsOf(children), BatchesOf(children);
    if Aligned(embed, children) {
      forall b | 0 <= b < |batches| ensures |embed(batches[b])| == |batches[b]| {
        AlignedBatchIsExact(embed, children, b);
      }
    }
    if EachBatchExact(embed, batches) {
      forall j: nat | j < |children| ensures IsOrigin(embed, batches, j, j / EMBED_BATCH_SIZE, j % EMBED_BATCH_SIZE) {
        BatchSizes(contents);
        BatchHolds(contents, j);
        FullBefore(embed, batches, j / EMBED_BATCH_SIZE);
      }
    }
  }

  /** One vector too few in a full batch and one too many in the next. */
  function Compensating(batch: seq<string>): seq<nat> {
    if |batch| == EMBED_BATCH_SIZE then seq(|batch| - 1, i requires 0 <= i < |batch| - 1 => i)
    else seq(|batch| + 1, i requires 0 <= i < |batch| + 1 => 100 + i)
  }

  /**
   The check compares totals only: a short batch followed by a long one passes it, and a text of
   the first batch is stored with a vector of the second.
   */
  lemma TotalCheckMissesShiftedVectors(children: seq<Chunk>)
    requires |children| == EMBED_BATCH_SIZE + 1
    ensures Vectors(Compensating, children).Some?
    ensures |BatchesOf(children)| == 2 && !Aligned(Compensating, children)
    ensures |Compensating(BatchesOf(children)[1])| > 0
    ensures Vectors(Compensating, children).value[EMBED_BATCH_SIZE - 1] == Compensating(BatchesOf(children)[1])[0]
  {
    var contents := ContentsOf(children);
    var batches := BatchesOf(children);
    assert Batches(contents[EMBED_BATCH_SIZE..], EMBED_BATCH_SIZE) == [contents[EMBED_BATCH_SIZE..]];
    assert batches == [contents[..EMBED_BATCH_SIZE]] + [contents[EMBED_BATCH_SIZE..]];
    assert batches[1..] == [contents[EMBED_BATCH_SIZE..]];
    assert EmbedBatches(Compensating, batches[1..]) == Compensating(batches[1]) + [];
    assert |Compensating(batches[0])| != |batches[0]|;
    AlignedIffEachBatchExact(Compensating, children);
  }
}
