/**
 Reciprocal rank fusion and grouping by candidate (serving/app/services/search.py), and the
 stage counts taken over the fused list (serving/app/services/retrieval_funnel.py).

 Scores are exact numbers; floating-point rounding is not modelled.
 */
module Fusion {
  import opened Wrappers
  import opened Sorting
  import opened Sums

  /** A scored chunk. */
  datatype Hit = Hit(id: nat, documentId: nat, score: real)

  /** One appearance of a chunk in a ranked list and the credit it earns. */
  datatype Entry = Entry(hit: Hit, credit: real)

  const RRF_K := 60

  /** Best score first. */
  predicate Higher(a: Hit, b: Hit) {
    a.score >= b.score
  }

  // ---- fusion ----

  function Credit(weight: real, k: nat, rank: nat): real {
    weight / (k + rank + 1) as real
  }

  function ListEntries(list: seq<Hit>, weight: real, k: nat, rank: nat): seq<Entry>
    decreases |list|
  {
    if list == [] then []
    else [Entry(list[0], Credit(weight, k, rank))] + ListEntries(list[1..], weight, k, rank + 1)
  }

  /** The appearances in all lists that have a weight, in reading order. */
  function Entries(lists: seq<seq<Hit>>, weights: seq<real>, k: nat): seq<Entry>
    decreases |lists|
  {
    if lists == [] || weights == [] then []
    else ListEntries(lists[0], weights[0], k, 0) + Entries(lists[1..], weights[1..], k)
  }

  function ScoreOf(entries: seq<Entry>, id: nat): real {
    if entries == [] then 0.0
    else
      var last := |entries| - 1;
      ScoreOf(entries[..last], id) + (if entries[last].hit.id == id then entries[last].credit else 0.0)
  }

  /** Ids in the order they first appear. */
  function FirstSeen(entries: seq<Entry>): seq<nat> {
    if entries == [] then []
    else
      var before, id := FirstSeen(entries[..|entries| - 1]), entries[|entries| - 1].hit.id;
      if id in before then before else before + [id]
  }

  /** The appearance with the highest individual score, the earliest among equals. */
  function Chosen(entries: seq<Entry>, id: nat): Option<Hit> {
    if entries == [] then None
    else
      var before, hit := Chosen(entries[..|entries| - 1], id), entries[|entries| - 1].hit;
      if hit.id == id && (before.None? || hit.score > before.value.score) then Some(hit) else before
  }

  function FusedHit(entries: seq<Entry>, id: nat): Hit {
    Hit(id, Chosen(entries, id).GetOr(Hit(id, 0, 0.0)).documentId, ScoreOf(entries, id))
  }

  function Merged(entries: seq<Entry>): seq<Hit> {
    Map((id: nat) => FusedHit(entries, id), FirstSeen(entries))
  }

  function Fuse(lists: seq<seq<Hit>>, weights: seq<real>, k: nat): seq<Hit> {
    Sort(Merged(Entries(lists, weights, k)), Higher)
  }

  /** The loop's dictionaries; `order` is their insertion order. */
  datatype Ledger = Ledger(order: seq<nat>, scores: map<nat, real>, chosen: map<nat, Hit>)

  /** What the dictionaries hold after some entries. */
  ghost predicate Recorded(entries: seq<Entry>, l: Ledger) {
    && l.order == FirstSeen(entries)
    && (forall id: nat :: id in l.scores <==> id in l.order)
    && (forall id: nat :: id in l.chosen <==> id in l.order)
    && (forall id: nat :: id in l.scores ==> l.scores[id] == ScoreOf(entries, id))
    && (forall id: nat :: id in l.chosen ==> Chosen(entries, id) == Some(l.chosen[id]))
    && (forall id: nat :: id !in l.order ==> ScoreOf(entries, id) == 0.0 && Chosen(entries, id).None?)
  }

  method Record(ghost entries: seq<Entry>, l: Ledger, e: Entry) returns (after: Ledger)
    requires Recorded(entries, l)
    ensures Recorded(entries + [e], after)
  {
    var id := e.hit.id;
    assert (entries + [e])[..|entries|] == entries;
    var order := if id in l.scores then l.order else l.order + [id];
    var scores := l.scores[id := (if id in l.scores then l.scores[id] else 0.0) + e.credit];
    var chosen := l.chosen;
    if id !in chosen || e.hit.score > chosen[id].score {
      chosen := chosen[id := e.hit];
    }
    after := Ledger(order, scores, chosen);
  }

  lemma {:induction false} EntryAt(list: seq<Hit>, weight: real, k: nat, start: nat, rank: nat)
    ensures |ListEntries(list, weight, k, start)| == |list|
    ensures rank < |list| ==> ListEntries(list, weight, k, start)[rank] == Entry(list[rank], Credit(weight, k, start + rank))
    decreases |list|
  {
    if list != [] {
      EntryAt(list[1..], weight, k, start + 1, if rank > 0 then rank - 1 else 0);
    }
  }

  /** Records a list rank by rank; `entries` are its appearances. */
  method RecordEach(ghost done: seq<Entry>, ghost entries: seq<Entry>, l: Ledger, list: seq<Hit>, weight: real, k: nat)
    returns (after: Ledger)
    requires Recorded(done, l) && |entries| == |list|
    requires forall r :: 0 <= r < |list| ==> entries[r] == Entry(list[r], Credit(weight, k, r))
    ensures Recorded(done + entries, after)
  {
    after := l;
    assert done + entries[..0] == done;
    for rank := 0 to |list|
      invariant Recorded(done + entries[..rank], after)
    {
      assert done + entries[..rank] + [entries[rank]] == done + entries[..rank + 1];
      after := Record(done + entries[..rank], after, Entry(list[rank], Credit(weight, k, rank)));
    }
    assert entries[..|list|] == entries;
  }

  method RecordList(ghost done: seq<Entry>, l: Ledger, list: seq<Hit>, weight: real, k: nat) returns (after: Ledger)
    requires Recorded(done, l)
    ensures Recorded(done + ListEntries(list, weight, k, 0), after)
  {
    ghost var entries := ListEntries(list, weight, k, 0);
    EntryAt(list, weight, k, 0, 0);
    forall r: nat | r < |list| ensures entries[r] == Entry(list[r], Credit(weight, k, r)) {
      EntryAt(list, weight, k, 0, r);
    }
    after := RecordEach(done, entries, l, list, weight, k);
  }

  method RecordLists(lists: seq<seq<Hit>>, weights: seq<real>, k: nat) returns (l: Ledger)
    ensures Recorded(Entries(lists, weights, k), l)
  {
    l := Ledger([], map[], map[]);
    ghost var done: seq<Entry> := [];
    var i := 0;
    assert lists[0..] == lists && weights[0..] == weights;
    while i < |lists| && i < |weights|
      invariant 0 <= i <= |lists| && i <= |weights|
      invariant Recorded(done, l)
      invariant Entries(lists, weights, k) == done + Entries(lists[i..], weights[i..], k)
    {
      l := RecordList(done, l, lists[i], weights[i], k);
      done := done + ListEntries(lists[i], weights[i], k, 0);
      i := i + 1;
    }
    assert Entries(lists[i..], weights[i..], k) == [];
    assert done + [] == done;
  }

  method ReciprocalRankFusion(lists: seq<seq<Hit>>, weights: seq<real>, k: nat) returns (fused: seq<Hit>)
    ensures fused == Fuse(lists, weights, k)
  {
    var l := RecordLists(lists, weights, k);
    ghost var full := Merged(Entries(lists, weights, k));
    var hits: seq<Hit> := [];
    for j := 0 to |l.order|
      invariant hits == full[..j]
    {
      var id := l.order[j];
      hits := hits + [Hit(id, l.chosen[id].documentId, l.scores[id])];
    }
    assert hits == full;
    fused := Sort(hits, Higher);
  }

  // ---- what fusion returns ----

  function HitIds(hits: seq<Hit>): seq<nat> {
    Map((h: Hit) => h.id, hits)
  }

  predicate Appears(lists: seq<seq<Hit>>, weights: seq<real>, id: nat) {
    exists i, r :: 0 <= i < |lists| && i < |weights| && 0 <= r < |lists[i]| && lists[i][r].id == id
  }

  predicate InEntries(entries: seq<Entry>, id: nat) {
    exists i :: 0 <= i < |entries| && entries[i].hit.id == id
  }

  lemma {:induction false} FirstSeenOnce(entries: seq<Entry>)
    ensures Distinct(FirstSeen(entries))
    ensures forall id: nat :: id in FirstSeen(entries) <==> InEntries(entries, id)
  {
    if entries != [] {
      var front, id := entries[..|entries| - 1], entries[|entries| - 1].hit.id;
      FirstSeenOnce(front);
      forall x: nat ensures InEntries(entries, x) <==> InEntries(front, x) || x == id {
        if InEntries(front, x) {
          var i :| 0 <= i < |front| && front[i].hit.id == x;
          assert entries[i].hit.id == x;
        }
      }
    }
  }

  lemma {:induction false} EntriesCoverLists(lists: seq<seq<Hit>>, weights: seq<real>, k: nat, id: nat)
    ensures InEntries(Entries(lists, weights, k), id) <==> Appears(lists, weights, id)
    decreases |lists|
  {
    if lists != [] && weights != [] {
      var first, rest := ListEntries(lists[0], weights[0], k, 0), Entries(lists[1..], weights[1..], k);
      EntriesCoverLists(lists[1..], weights[1..], k, id);
      EntriesSplit(first, rest, id);
      EntriesCoverList(lists[0], weights[0], k, id);
      AppearsSplit(lists, weights, id);
    }
  }

  lemma EntriesSplit(a: seq<Entry>, b: seq<Entry>, id: nat)
    ensures InEntries(a + b, id) <==> InEntries(a, id) || InEntries(b, id)
  {
    if InEntries(a, id) {
      var i :| 0 <= i < |a| && a[i].hit.id == id;
      assert (a + b)[i].hit.id == id;
    } else if InEntries(b, id) {
      var i :| 0 <= i < |b| && b[i].hit.id == id;
      assert (a + b)[|a| + i].hit.id == id;
    }
  }

  predicate InList(list: seq<Hit>, id: nat) {
    exists r :: 0 <= r < |list| && list[r].id == id
  }

  lemma EntriesCoverList(list: seq<Hit>, weight: real, k: nat, id: nat)
    ensures InEntries(ListEntries(list, weight, k, 0), id) <==> InList(list, id)
  {
    var entries := ListEntries(list, weight, k, 0);
    EntryAt(list, weight, k, 0, 0);
    forall r: nat | r < |list| ensures entries[r].hit == list[r] {
      EntryAt(list, weight, k, 0, r);
    }
  }

  lemma AppearsSplit(lists: seq<seq<Hit>>, weights: seq<real>, id: nat)
    requires lists != [] && weights != []
    ensures Appears(lists, weights, id) <==> InList(lists[0], id) || Appears(lists[1..], weights[1..], id)
  {
    if Appears(lists[1..], weights[1..], id) {
      var i, r :| 0 <= i < |lists| - 1 && i < |weights| - 1 && 0 <= r < |lists[1..][i]| && lists[1..][i][r].id == id;
      assert lists[i + 1][r].id == id;
    }
    if Appears(lists, weights, id) {
      var i, r :| 0 <= i < |lists| && i < |weights| && 0 <= r < |lists[i]| && lists[i][r].id == id;
      if i > 0 {
        assert lists[1..][i - 1][r].id == id;
      }
    }
  }

  lemma HitIdsPermuted(a: seq<Hit>, b: seq<Hit>)
    requires multiset(a) == multiset(b)
    ensures multiset(HitIds(a)) == multiset(HitIds(b))
  {
    var f := (h: Hit) => h.id;
    MapPermutes(f, a, b);
    assert HitIds(a) == Map(f, a) && HitIds(b) == Map(f, b);
  }

  /**
   The fused list holds exactly the ids that appear in a weighted list, each once, in descending
   score, and each with the sum of the credits it earned.
   */
  lemma FusionIsUnion(lists: seq<seq<Hit>>, weights: seq<real>, k: nat)
    ensures var fused := Fuse(lists, weights, k);
            && Distinct(HitIds(fused))
            && (forall id: nat :: id in HitIds(fused) <==> Appears(lists, weights, id))
            && SortedBy(fused, Higher)
            && forall i :: 0 <= i < |fused| ==> fused[i].score == ScoreOf(Entries(lists, weights, k), fused[i].id)
  {
    var entries := Entries(lists, weights, k);
    var merged, fused := Merged(entries), Fuse(lists, weights, k);
    FirstSeenOnce(entries);
    SortPermutes(merged, Higher);
    SortSorts(merged, Higher);
    HitIdsPermuted(merged, fused);
    assert HitIds(merged) == FirstSeen(entries);
    DistinctPermuted(HitIds(merged), HitIds(fused));
    SamePresence(HitIds(merged), HitIds(fused));
    SamePresence(merged, fused);
    forall id: nat ensures id in HitIds(fused) <==> Appears(lists, weights, id) {
      EntriesCoverLists(lists, weights, k, id);
    }
    forall i | 0 <= i < |fused| ensures fused[i].score == ScoreOf(entries, fused[i].id) {
      assert fused[i] in merged;
    }
  }

  /** The funnel's first two counts agree: the pooled ids are as many as the fused items. */
  lemma PoolEqualsRecall(dense: seq<Hit>, lexical: seq<Hit>, denseWeight: real, lexicalWeight: real)
    ensures |Elements(HitIds(dense + lexical))| == |Fuse([dense, lexical], [denseWeight, lexicalWeight], RRF_K)|
  {
    var lists, weights := [dense, lexical], [denseWeight, lexicalWeight];
    var fused := Fuse(lists, weights, RRF_K);
    FusionIsUnion(lists, weights, RRF_K);
    ElementsSize(HitIds(fused));
    forall id: nat ensures id in HitIds(dense + lexical) <==> Appears(lists, weights, id) {
      PooledIffAppears(dense, lexical, denseWeight, lexicalWeight, id);
    }
    assert Elements(HitIds(dense + lexical)) == Elements(HitIds(fused));
  }

  lemma PooledIffAppears(dense: seq<Hit>, lexical: seq<Hit>, denseWeight: real, lexicalWeight: real, id: nat)
    ensures id in HitIds(dense + lexical) <==> Appears([dense, lexical], [denseWeight, lexicalWeight], id)
  {
    var lists: seq<seq<Hit>> := [dense, lexical];
    var both := dense + lexical;
    if id in HitIds(both) {
      var i :| 0 <= i < |both| && HitIds(both)[i] == id;
      if i < |dense| {
        assert lists[0][i].id == id;
      } else {
        assert lists[1][i - |dense|].id == id;
      }
    }
    if Appears(lists, [denseWeight, lexicalWeight], id) {
      var i, r :| 0 <= i < 2 && 0 <= r < |lists[i]| && lists[i][r].id == id;
      assert HitIds(both)[if i == 0 then r else |dense| + r] == id;
    }
  }

  /** The appearance a fused chunk is taken from has the highest individual score of its id. */
  lemma {:induction false} ChosenScoresHighest(entries: seq<Entry>, id: nat)
    ensures Chosen(entries, id).Some? <==> InEntries(entries, id)
    ensures Chosen(entries, id).Some? ==>
              && Chosen(entries, id).value.id == id
              && (exists i :: 0 <= i < |entries| && entries[i].hit == Chosen(entries, id).value)
              && forall i :: 0 <= i < |entries| && entries[i].hit.id == id ==>
                   entries[i].hit.score <= Chosen(entries, id).value.score
  {
    if entries != [] {
      var last := |entries| - 1;
      ChosenScoresHighest(entries[..last], id);
      EntriesSplit(entries[..last], [entries[last]], id);
      assert entries == entries[..last] + [entries[last]];
      assert InEntries([entries[last]], id) <==> entries[last].hit.id == id by {
        assert [entries[last]][0].hit.id == entries[last].hit.id;
      }
      if Chosen(entries[..last], id).Some? {
        var i :| 0 <= i < last && entries[..last][i].hit == Chosen(entries[..last], id).value;
        assert entries[i].hit == Chosen(entries[..last], id).value;
      }
    }
  }

  // ---- dominance ----

  /** `a` is ahead of `b` in a list that holds `b`. */
  predicate Ahead(list: seq<Hit>, a: nat, b: nat) {
    InList(list, b) ==> exists p, q :: 0 <= p < q < |list| && list[p].id == a && list[q].id == b
  }

  lemma {:induction false} ScoreConcat(a: seq<Entry>, b: seq<Entry>, id: nat)
    ensures ScoreOf(a + b, id) == ScoreOf(a, id) + ScoreOf(b, id)
    decreases |b|
  {
    if b == [] {
      assert a + b == a;
    } else {
      var last := |b| - 1;
      assert (a + b)[..|a| + last] == a + b[..last];
      ScoreConcat(a, b[..last], id);
    }
  }

  lemma NoCredit(entries: seq<Entry>, id: nat)
    requires !InEntries(entries, id)
    ensures ScoreOf(entries, id) == 0.0
  {
    if entries != [] {
      var last := |entries| - 1;
      assert entries[last].hit.id != id;
      forall i | 0 <= i < last ensures entries[..last][i].hit.id != id {
        assert entries[i].hit.id != id;
      }
      NoCredit(entries[..last], id);
    }
  }

  /** The only appearance of a chunk decides its score. */
  lemma OnlyEntryScores(front: seq<Entry>, e: Entry, rest: seq<Entry>)
    requires !InEntries(front, e.hit.id) && !InEntries(rest, e.hit.id)
    ensures ScoreOf(front + [e] + rest, e.hit.id) == e.credit
  {
    var id, one := e.hit.id, [e];
    NoCredit(front, id);
    NoCredit(rest, id);
    ScoreConcat(front, one, id);
    ScoreConcat(front + one, rest, id);
    assert one[..0] == [];
  }

  /** In a list without repetitions an id has one rank. */
  lemma OneRank(list: seq<Hit>, r: nat, j: nat)
    requires r < |list| && j < |list| && Distinct(HitIds(list))
    ensures list[j].id == list[r].id <==> j == r
  {
    assert HitIds(list)[j] == list[j].id && HitIds(list)[r] == list[r].id;
  }

  /** In a list without repetitions, a chunk earns the credit of its rank. */
  lemma ListScore(list: seq<Hit>, weight: real, k: nat, r: nat)
    requires r < |list| && Distinct(HitIds(list))
    ensures ScoreOf(ListEntries(list, weight, k, 0), list[r].id) == Credit(weight, k, r)
  {
    var entries := ListEntries(list, weight, k, 0);
    EntryAt(list, weight, k, 0, r);
    forall j: nat | j < |list| ensures entries[j].hit == list[j] && (j != r ==> list[j].id != list[r].id) {
      EntryAt(list, weight, k, 0, j);
      OneRank(list, r, j);
    }
    SplitScores(entries, r);
  }

  lemma SplitScores(entries: seq<Entry>, r: nat)
    requires r < |entries|
    requires forall j :: 0 <= j < |entries| && j != r ==> entries[j].hit.id != entries[r].hit.id
    ensures ScoreOf(entries, entries[r].hit.id) == entries[r].credit
  {
    var front, rest := entries[..r], entries[r + 1..];
    assert entries == front + [entries[r]] + rest;
    OnlyEntryScores(front, entries[r], rest);
  }

  lemma CreditFalls(weight: real, k: nat, p: nat, q: nat)
    requires weight >= 0.0 && p < q
    ensures Credit(weight, k, p) >= Credit(weight, k, q) >= 0.0
    ensures weight > 0.0 ==> Credit(weight, k, p) > Credit(weight, k, q) > 0.0
  {
    var a, b := (k + p + 1) as real, (k + q + 1) as real;
    QuotientFalls(weight, a, b, weight / a, weight / b);
  }

  lemma QuotientFalls(w: real, a: real, b: real, x: real, y: real)
    requires w >= 0.0 && 0.0 < a < b && x * a == w && y * b == w
    ensures x >= y >= 0.0 && (w > 0.0 ==> x > y > 0.0)
  {
    FactorSign(y, b, w);
    assert (x - y) * a == y * (b - a);
    ProductSign(y, b - a, y * (b - a));
    FactorSign(x - y, a, y * (b - a));
  }

  lemma FactorSign(x: real, a: real, product: real)
    requires a > 0.0 && product == x * a
    ensures product >= 0.0 ==> x >= 0.0
    ensures product > 0.0 ==> x > 0.0
  {
  }

  lemma ProductSign(x: real, a: real, product: real)
    requires a > 0.0 && x >= 0.0 && product == x * a
    ensures product >= 0.0
    ensures x > 0.0 ==> product > 0.0
  {
  }

  /** The lists that have a weight: no repetitions, no negative weight, `a` ahead wherever `b` is. */
  predicate AheadEverywhere(lists: seq<seq<Hit>>, weights: seq<real>, a: nat, b: nat) {
    forall i :: 0 <= i < |lists| && i < |weights| ==>
      Distinct(HitIds(lists[i])) && Ahead(lists[i], a, b) && weights[i] >= 0.0
  }

  lemma AheadInRest(lists: seq<seq<Hit>>, weights: seq<real>, a: nat, b: nat)
    requires lists != [] && weights != [] && AheadEverywhere(lists, weights, a, b)
    ensures Distinct(HitIds(lists[0])) && Ahead(lists[0], a, b) && weights[0] >= 0.0
    ensures AheadEverywhere(lists[1..], weights[1..], a, b)
  {
    forall i | 0 <= i < |lists| - 1 && i < |weights| - 1
      ensures Distinct(HitIds(lists[1..][i])) && Ahead(lists[1..][i], a, b) && weights[1..][i] >= 0.0
    {
      assert lists[1..][i] == lists[i + 1] && weights[1..][i] == weights[i + 1];
    }
  }

  lemma ScoreInList(list: seq<Hit>, weight: real, k: nat, a: nat, b: nat)
    requires weight >= 0.0 && Distinct(HitIds(list)) && Ahead(list, a, b)
    ensures var entries := ListEntries(list, weight, k, 0);
            && ScoreOf(entries, a) >= ScoreOf(entries, b)
            && (weight > 0.0 && InList(list, b) ==> ScoreOf(entries, a) > ScoreOf(entries, b))
  {
    var entries := ListEntries(list, weight, k, 0);
    EntriesCoverList(list, weight, k, a);
    EntriesCoverList(list, weight, k, b);
    if InList(list, b) {
      var p, q :| 0 <= p < q < |list| && list[p].id == a && list[q].id == b;
      ListScore(list, weight, k, p);
      ListScore(list, weight, k, q);
      CreditFalls(weight, k, p, q);
    } else {
      NoCredit(entries, b);
      if InList(list, a) {
        var p :| 0 <= p < |list| && list[p].id == a;
        ListScore(list, weight, k, p);
        CreditFalls(weight, k, p, p + 1);
      } else {
        NoCredit(entries, a);
      }
    }
  }

  predicate EarnsCredit(lists: seq<seq<Hit>>, weights: seq<real>, id: nat) {
    exists i :: 0 <= i < |lists| && i < |weights| && weights[i] > 0.0 && InList(lists[i], id)
  }

  lemma EarnsSplit(lists: seq<seq<Hit>>, weights: seq<real>, id: nat)
    requires lists != [] && weights != [] && EarnsCredit(lists, weights, id)
    ensures (weights[0] > 0.0 && InList(lists[0], id)) || EarnsCredit(lists[1..], weights[1..], id)
  {
    var i :| 0 <= i < |lists| && i < |weights| && weights[i] > 0.0 && InList(lists[i], id);
    if i > 0 {
      assert InList(lists[1..][i - 1], id) && weights[1..][i - 1] > 0.0;
    }
  }

  lemma EntriesScore(lists: seq<seq<Hit>>, weights: seq<real>, k: nat, id: nat)
    requires lists != [] && weights != []
    ensures ScoreOf(Entries(lists, weights, k), id)
         == ScoreOf(ListEntries(lists[0], weights[0], k, 0), id) + ScoreOf(Entries(lists[1..], weights[1..], k), id)
  {
    ScoreConcat(ListEntries(lists[0], weights[0], k, 0), Entries(lists[1..], weights[1..], k), id);
  }

  lemma {:induction false} AheadScoresHigher(lists: seq<seq<Hit>>, weights: seq<real>, k: nat, a: nat, b: nat)
    requires AheadEverywhere(lists, weights, a, b)
    ensures ScoreOf(Entries(lists, weights, k), a) >= ScoreOf(Entries(lists, weights, k), b)
    ensures EarnsCredit(lists, weights, b) ==> ScoreOf(Entries(lists, weights, k), a) > ScoreOf(Entries(lists, weights, k), b)
    decreases |lists|
  {
    if lists != [] && weights != [] {
      AheadInRest(lists, weights, a, b);
      ScoreInList(lists[0], weights[0], k, a, b);
      AheadScoresHigher(lists[1..], weights[1..], k, a, b);
      EntriesScore(lists, weights, k, a);
      EntriesScore(lists, weights, k, b);
      if EarnsCredit(lists, weights, b) {
        EarnsSplit(lists, weights, b);
      }
    }
  }

  /** Every appearance of `b` comes after one of `a`. */
  ghost predicate LedBy(entries: seq<Entry>, a: nat, b: nat) {
    forall q :: 0 <= q < |entries| && entries[q].hit.id == b ==> InEntries(entries[..q], a)
  }

  lemma LedByConcat(first: seq<Entry>, second: seq<Entry>, a: nat, b: nat)
    requires LedBy(first, a, b) && LedBy(second, a, b)
    ensures LedBy(first + second, a, b)
  {
    var both := first + second;
    forall q | 0 <= q < |both| && both[q].hit.id == b ensures InEntries(both[..q], a) {
      if q < |first| {
        assert both[..q] == first[..q];
      } else {
        var r := q - |first|;
        assert both[..q] == first + second[..r];
        EntriesSplit(first, second[..r], a);
      }
    }
  }

  lemma ListLedBy(list: seq<Hit>, weight: real, k: nat, a: nat, b: nat)
    requires Distinct(HitIds(list)) && Ahead(list, a, b)
    ensures LedBy(ListEntries(list, weight, k, 0), a, b)
  {
    var entries := ListEntries(list, weight, k, 0);
    EntryAt(list, weight, k, 0, 0);
    forall q: nat | q < |list| && entries[q].hit.id == b ensures InEntries(entries[..q], a) {
      EntryAt(list, weight, k, 0, q);
      assert InList(list, b);
      var p, r :| 0 <= p < r < |list| && list[p].id == a && list[r].id == b;
      OneRank(list, r, q);
      EntryAt(list, weight, k, 0, p);
      assert entries[..q][p].hit.id == a;
    }
  }

  lemma {:induction false} EntriesLedBy(lists: seq<seq<Hit>>, weights: seq<real>, k: nat, a: nat, b: nat)
    requires AheadEverywhere(lists, weights, a, b)
    ensures LedBy(Entries(lists, weights, k), a, b)
    decreases |lists|
  {
    if lists != [] && weights != [] {
      AheadInRest(lists, weights, a, b);
      ListLedBy(lists[0], weights[0], k, a, b);
      EntriesLedBy(lists[1..], weights[1..], k, a, b);
      LedByConcat(ListEntries(lists[0], weights[0], k, 0), Entries(lists[1..], weights[1..], k), a, b);
    }
  }

  lemma LedInFront(entries: seq<Entry>, a: nat, b: nat)
    requires LedBy(entries, a, b) && entries != []
    ensures LedBy(entries[..|entries| - 1], a, b)
  {
    var front := entries[..|entries| - 1];
    forall q | 0 <= q < |front| && front[q].hit.id == b ensures InEntries(front[..q], a) {
      assert front[..q] == entries[..q];
    }
  }

  lemma FirstAppearanceIsLast(entries: seq<Entry>, b: nat)
    requires entries != [] && InEntries(entries, b) && !InEntries(entries[..|entries| - 1], b)
    ensures entries[|entries| - 1].hit.id == b
  {
    var last := |entries| - 1;
    assert entries == entries[..last] + [entries[last]];
    EntriesSplit(entries[..last], [entries[last]], b);
  }

  /** The leader is first seen before the one it leads. */
  lemma {:induction false} LeaderSeenFirst(entries: seq<Entry>, a: nat, b: nat)
    requires LedBy(entries, a, b) && InEntries(entries, b)
    ensures a != b ==> Precedes(FirstSeen(entries), a, b)
    decreases |entries|
  {
    var last := |entries| - 1;
    var front, seen, id := entries[..last], FirstSeen(entries[..last]), entries[last].hit.id;
    FirstSeenOnce(front);
    if InEntries(front, b) {
      LedInFront(entries, a, b);
      LeaderSeenFirst(front, a, b);
      if a != b && id !in seen {
        PrecedesInLonger(seen, [id], a, b);
      }
    } else {
      FirstAppearanceIsLast(entries, b);
      PrecedesAppended(seen, a, b);
    }
  }

  lemma MergedPrecedes(entries: seq<Entry>, a: nat, b: nat)
    requires Precedes(FirstSeen(entries), a, b)
    ensures Precedes(Merged(entries), FusedHit(entries, a), FusedHit(entries, b))
  {
    var ids := FirstSeen(entries);
    var i, j :| 0 <= i < j < |ids| && ids[i] == a && ids[j] == b;
    assert Merged(entries)[i] == FusedHit(entries, a) && Merged(entries)[j] == FusedHit(entries, b);
  }

  lemma PlacesById(hits: seq<Hit>, a: Hit, b: Hit, p: nat, q: nat)
    requires Distinct(HitIds(hits)) && Precedes(hits, a, b)
    requires p < |hits| && q < |hits| && hits[p].id == a.id && hits[q].id == b.id
    ensures p < q
  {
    var i, j :| 0 <= i < j < |hits| && hits[i] == a && hits[j] == b;
    OneRank(hits, i, p);
    OneRank(hits, j, q);
  }

  lemma NotAheadInList(list: seq<Hit>, id: nat)
    requires InList(list, id) && Distinct(HitIds(list))
    ensures !Ahead(list, id, id)
  {
    forall p, q | 0 <= p < q < |list| ensures list[p].id != list[q].id {
      OneRank(list, p, q);
    }
  }

  /** No chunk is ahead of itself in a list that holds it. */
  lemma NotAheadOfItself(lists: seq<seq<Hit>>, weights: seq<real>, id: nat)
    requires Appears(lists, weights, id)
    ensures !AheadEverywhere(lists, weights, id, id)
  {
    var i, r :| 0 <= i < |lists| && i < |weights| && 0 <= r < |lists[i]| && lists[i][r].id == id;
    if Distinct(HitIds(lists[i])) {
      NotAheadInList(lists[i], id);
    }
  }

  /**
   A chunk that is ahead of another in every weighted list that holds the other comes out ahead
   of it, also when no weight is positive: equal scores keep the order of first appearance. With
   a positive weight on some list that holds the other its score is strictly higher.
   */
  lemma AheadEverywhereComesOutAhead(lists: seq<seq<Hit>>, weights: seq<real>, k: nat, p: nat, q: nat)
    requires p < |Fuse(lists, weights, k)| && q < |Fuse(lists, weights, k)|
    requires AheadEverywhere(lists, weights, Fuse(lists, weights, k)[p].id, Fuse(lists, weights, k)[q].id)
    ensures p < q
    ensures EarnsCredit(lists, weights, Fuse(lists, weights, k)[q].id) ==>
              Fuse(lists, weights, k)[p].score > Fuse(lists, weights, k)[q].score
  {
    var entries, fused := Entries(lists, weights, k), Fuse(lists, weights, k);
    var a, b := fused[p].id, fused[q].id;
    FusionIsUnion(lists, weights, k);
    assert HitIds(fused)[q] == b;
    NotAheadOfItself(lists, weights, b);
    AheadScoresHigher(lists, weights, k, a, b);
    EntriesCoverLists(lists, weights, k, b);
    EntriesLedBy(lists, weights, k, a, b);
    LeaderSeenFirst(entries, a, b);
    MergedPrecedes(entries, a, b);
    var ahead, behind := FusedHit(entries, a), FusedHit(entries, b);
    SortIsStable(Merged(entries), Higher, ahead, behind);
    PlacesById(fused, ahead, behind, p, q);
  }

  // ---- the fused scores, from the lists alone ----

  /** What a chunk earns in one list: the weight over the constant plus its rank, counted from one, each time it appears. */
  function EarnedIn(list: seq<Hit>, weight: real, k: nat, rank: nat, id: nat): real
    requires rank >= 1
    decreases |list|
  {
    if list == [] then 0.0
    else (if list[0].id == id then weight / (k + rank) as real else 0.0) + EarnedIn(list[1..], weight, k, rank + 1, id)
  }

  /** What it earns in all lists; lists without a weight, and weights without a list, do not count. */
  function Earned(lists: seq<seq<Hit>>, weights: seq<real>, k: nat, id: nat): real
    decreases |lists|
  {
    if lists == [] || weights == [] then 0.0
    else EarnedIn(lists[0], weights[0], k, 1, id) + Earned(lists[1..], weights[1..], k, id)
  }

  lemma FirstScore(e: Entry, rest: seq<Entry>, id: nat)
    ensures ScoreOf([e] + rest, id) == (if e.hit.id == id then e.credit else 0.0) + ScoreOf(rest, id)
  {
    ScoreConcat([e], rest, id);
    assert [e][..0] == [];
  }

  lemma {:induction false} ListScoreIsEarned(list: seq<Hit>, weight: real, k: nat, rank: nat, id: nat)
    ensures ScoreOf(ListEntries(list, weight, k, rank), id) == EarnedIn(list, weight, k, rank + 1, id)
    decreases |list|
  {
    if list != [] {
      ListScoreIsEarned(list[1..], weight, k, rank + 1, id);
      FirstScore(Entry(list[0], Credit(weight, k, rank)), ListEntries(list[1..], weight, k, rank + 1), id);
    }
  }

  lemma {:induction false} ScoreIsEarned(lists: seq<seq<Hit>>, weights: seq<real>, k: nat, id: nat)
    ensures ScoreOf(Entries(lists, weights, k), id) == Earned(lists, weights, k, id)
    decreases |lists|
  {
    if lists != [] && weights != [] {
      ListScoreIsEarned(lists[0], weights[0], k, 0, id);
      EntriesScore(lists, weights, k, id);
      ScoreIsEarned(lists[1..], weights[1..], k, id);
    }
  }

  predicate IsAppearance(lists: seq<seq<Hit>>, weights: seq<real>, h: Hit) {
    exists i :: 0 <= i < |lists| && i < |weights| && h in lists[i]
  }

  predicate IsEntry(entries: seq<Entry>, h: Hit) {
    exists i :: 0 <= i < |entries| && entries[i].hit == h
  }

  lemma {:induction false} EntriesAreAppearances(lists: seq<seq<Hit>>, weights: seq<real>, k: nat, h: Hit)
    ensures IsEntry(Entries(lists, weights, k), h) <==> IsAppearance(lists, weights, h)
    decreases |lists|
  {
    if lists != [] && weights != [] {
      var first, rest := ListEntries(lists[0], weights[0], k, 0), Entries(lists[1..], weights[1..], k);
      EntriesAreAppearances(lists[1..], weights[1..], k, h);
      ListEntriesAreHits(lists[0], weights[0], k, h);
      EntryInEither(first, rest, h);
      AppearanceInEither(lists, weights, h);
    }
  }

  lemma ListEntriesAreHits(list: seq<Hit>, weight: real, k: nat, h: Hit)
    ensures IsEntry(ListEntries(list, weight, k, 0), h) <==> h in list
  {
    var entries := ListEntries(list, weight, k, 0);
    EntryAt(list, weight, k, 0, 0);
    forall r: nat | r < |list| ensures entries[r].hit == list[r] {
      EntryAt(list, weight, k, 0, r);
    }
  }

  lemma EntryInEither(a: seq<Entry>, b: seq<Entry>, h: Hit)
    ensures IsEntry(a + b, h) <==> IsEntry(a, h) || IsEntry(b, h)
  {
    if IsEntry(a, h) {
      var i :| 0 <= i < |a| && a[i].hit == h;
      assert (a + b)[i].hit == h;
    } else if IsEntry(b, h) {
      var i :| 0 <= i < |b| && b[i].hit == h;
      assert (a + b)[|a| + i].hit == h;
    }
  }

  lemma AppearanceInEither(lists: seq<seq<Hit>>, weights: seq<real>, h: Hit)
    requires lists != [] && weights != []
    ensures IsAppearance(lists, weights, h) <==> h in lists[0] || IsAppearance(lists[1..], weights[1..], h)
  {
    if IsAppearance(lists, weights, h) {
      var i :| 0 <= i < |lists| && i < |weights| && h in lists[i];
      assert i > 0 ==> h in lists[1..][i - 1];
    }
    if IsAppearance(lists[1..], weights[1..], h) {
      var i :| 0 <= i < |lists| - 1 && i < |weights| - 1 && h in lists[1..][i];
      assert h in lists[i + 1];
    }
  }

  /** The best scored of its appearances in the weighted lists. */
  ghost predicate BestAppearance(lists: seq<seq<Hit>>, weights: seq<real>, best: Hit) {
    && IsAppearance(lists, weights, best)
    && forall h: Hit :: IsAppearance(lists, weights, h) && h.id == best.id ==> h.score <= best.score
  }

  /**
   Each fused chunk scores what it earned in the lists, and is taken from the document of its
   best scored appearance.
   */
  lemma FusedScoreIsEarned(lists: seq<seq<Hit>>, weights: seq<real>, k: nat, i: nat) returns (best: Hit)
    requires i < |Fuse(lists, weights, k)|
    ensures var fused := Fuse(lists, weights, k);
            && fused[i].score == Earned(lists, weights, k, fused[i].id)
            && best.id == fused[i].id && best.documentId == fused[i].documentId && BestAppearance(lists, weights, best)
  {
    var entries, fused := Entries(lists, weights, k), Fuse(lists, weights, k);
    var id := fused[i].id;
    FusedFrom(entries, fused, i);
    ScoreIsEarned(lists, weights, k, id);
    FirstSeenOnce(entries);
    ChosenScoresHighest(entries, id);
    best := Chosen(entries, id).value;
    assert IsEntry(entries, best);
    EntriesAreAppearances(lists, weights, k, best);
    forall h: Hit | IsAppearance(lists, weights, h) && h.id == id ensures h.score <= best.score {
      EntriesAreAppearances(lists, weights, k, h);
    }
  }

  lemma FusedFrom(entries: seq<Entry>, fused: seq<Hit>, i: nat)
    requires fused == Sort(Merged(entries), Higher) && i < |fused|
    ensures fused[i].id in FirstSeen(entries) && fused[i] == FusedHit(entries, fused[i].id)
  {
    SortPermutes(Merged(entries), Higher);
    SamePresence(Merged(entries), fused);
    assert fused[i] in Merged(entries);
  }

  // ---- grouping by candidate ----

  datatype CandidateHit = CandidateHit(documentId: nat, score: real, spans: seq<Hit>)

  predicate HigherCandidate(a: CandidateHit, b: CandidateHit) {
    a.score >= b.score
  }

  function InDocument(hits: seq<Hit>, documentId: nat): seq<Hit> {
    if hits == [] then []
    else
      var before, last := InDocument(hits[..|hits| - 1], documentId), hits[|hits| - 1];
      if last.documentId == documentId then before + [last] else before
  }

  function Documents(hits: seq<Hit>): seq<nat> {
    if hits == [] then []
    else
      var before, d := Documents(hits[..|hits| - 1]), hits[|hits| - 1].documentId;
      if d in before then before else before + [d]
  }

  function ScoresOf(hits: seq<Hit>): seq<real> {
    Map((h: Hit) => h.score, hits)
  }

  /** One candidate: its best chunks and the sum of their scores. */
  function Best(documentId: nat, mine: seq<Hit>, maxSpans: nat): CandidateHit {
    var best := Take(Sort(mine, Higher), maxSpans);
    CandidateHit(documentId, Total(ScoresOf(best)), best)
  }

  function Grouped(hits: seq<Hit>, documentId: nat, maxSpans: nat): CandidateHit {
    Best(documentId, InDocument(hits, documentId), maxSpans)
  }

  function AllGrouped(hits: seq<Hit>, maxSpans: nat): seq<CandidateHit> {
    Map((d: nat) => Grouped(hits, d, maxSpans), Documents(hits))
  }

  function Candidates(hits: seq<Hit>, maxSpans: nat): seq<CandidateHit> {
    Sort(AllGrouped(hits, maxSpans), HigherCandidate)
  }

  /** The dictionary of lists by document; `order` is its insertion order. */
  ghost predicate Collected(hits: seq<Hit>, order: seq<nat>, byDocument: map<nat, seq<Hit>>) {
    && order == Documents(hits)
    && (forall d: nat :: d in byDocument <==> d in order)
    && (forall d: nat :: d in byDocument ==> byDocument[d] == InDocument(hits, d))
    && (forall d: nat :: d !in order ==> InDocument(hits, d) == [])
  }

  method Collect(hits: seq<Hit>) returns (order: seq<nat>, byDocument: map<nat, seq<Hit>>)
    ensures Collected(hits, order, byDocument)
  {
    order, byDocument := [], map[];
    for i := 0 to |hits|
      invariant Collected(hits[..i], order, byDocument)
    {
      var d := hits[i].documentId;
      assert hits[..i + 1][..i] == hits[..i];
      if d !in byDocument {
        order := order + [d];
        byDocument := byDocument[d := [hits[i]]];
      } else {
        byDocument := byDocument[d := byDocument[d] + [hits[i]]];
      }
    }
    assert hits[..|hits|] == hits;
  }

  method GroupOne(ghost hits: seq<Hit>, documentId: nat, mine: seq<Hit>, maxSpans: nat) returns (c: CandidateHit)
    requires mine == InDocument(hits, documentId)
    ensures c == Grouped(hits, documentId, maxSpans)
  {
    c := Best(documentId, mine, maxSpans);
  }

  /** Groups the documents of `order` one after the other; `full` is what comes out. */
  method GroupEach(ghost hits: seq<Hit>, order: seq<nat>, byDocument: map<nat, seq<Hit>>, maxSpans: nat, ghost full: seq<CandidateHit>)
    returns (grouped: seq<CandidateHit>)
    requires forall d :: d in order ==> d in byDocument && byDocument[d] == InDocument(hits, d)
    requires |full| == |order| && forall i :: 0 <= i < |order| ==> full[i] == Grouped(hits, order[i], maxSpans)
    ensures grouped == full
  {
    grouped := [];
    for i := 0 to |order|
      invariant grouped == full[..i]
    {
      var candidate := GroupOne(hits, order[i], byDocument[order[i]], maxSpans);
      assert candidate == full[i];
      grouped := grouped + [candidate];
    }
  }

  method GroupAll(hits: seq<Hit>, maxSpans: nat) returns (grouped: seq<CandidateHit>)
    ensures grouped == AllGrouped(hits, maxSpans)
  {
    var order, byDocument := Collect(hits);
    ghost var full := AllGrouped(hits, maxSpans);
    grouped := GroupEach(hits, order, byDocument, maxSpans, full);
  }

  method GroupByCandidate(hits: seq<Hit>, maxSpans: nat) returns (candidates: seq<CandidateHit>)
    ensures candidates == Candidates(hits, maxSpans)
  {
    var grouped := GroupAll(hits, maxSpans);
    candidates := Sort(grouped, HigherCandidate);
  }

  // ---- what grouping returns ----

  /** Every chunk falls in the group of its own document, as often as it occurs, and in no other. */
  lemma {:induction false} GroupsPartition(hits: seq<Hit>, documentId: nat, h: Hit)
    ensures multiset(InDocument(hits, documentId))[h] == if h.documentId == documentId then multiset(hits)[h] else 0
    ensures h in hits ==> h.documentId in Documents(hits)
    ensures Distinct(Documents(hits))
  {
    if hits != [] {
      var last := |hits| - 1;
      GroupsPartition(hits[..last], documentId, h);
      assert hits == hits[..last] + [hits[last]];
    }
  }

  lemma PickOne(picks: seq<real>, x: real) returns (rest: seq<real>)
    requires x in picks
    ensures |rest| == |picks| - 1 && multiset(rest) == multiset(picks) - multiset{x}
    ensures Total(picks) == x + Total(rest)
  {
    var i :| 0 <= i < |picks| && picks[i] == x;
    RemoveAt(picks, i);
    rest := picks[..i] + picks[i + 1..];
    TotalConcat(picks[..i], picks[i + 1..]);
    TotalConcat(picks[..i], [x] + picks[i + 1..]);
    assert picks == picks[..i] + ([x] + picks[i + 1..]);
  }

  predicate Descending(s: seq<real>) {
    forall i, j :: 0 <= i < j < |s| ==> s[i] >= s[j]
  }

  predicate DescendingScores(s: seq<real>) {
    Descending(s) && forall i :: 0 <= i < |s| ==> s[i] >= 0.0
  }

  /** The best pick left to take, and what remains to be picked from the others. */
  lemma TakeBest(sorted: seq<real>, picks: seq<real>) returns (x: real, rest: seq<real>)
    requires sorted != [] && picks != [] && Descending(sorted) && multiset(picks) <= multiset(sorted)
    ensures x <= sorted[0] && |rest| == |picks| - 1 && Total(picks) == x + Total(rest)
    ensures multiset(rest) <= multiset(sorted[1..])
  {
    x := if sorted[0] in picks then sorted[0] else picks[0];
    BelowTop(sorted, picks, x);
    rest := PickOne(picks, x);
    RestStaysInside(sorted, picks, x, rest);
  }

  /** Among nonnegative scores, no choice of at most `n` sums to more than the first `n` in descending order. */
  lemma {:induction false} TopIsLargest(sorted: seq<real>, picks: seq<real>, n: nat)
    requires DescendingScores(sorted) && multiset(picks) <= multiset(sorted) && |picks| <= n
    ensures Total(picks) <= Total(Take(sorted, n))
    decreases |sorted|
  {
    if picks == [] {
      TotalNonnegative(Take(sorted, n));
    } else if sorted == [] {
      NoPicks(picks);
    } else {
      var x, rest := TakeBest(sorted, picks);
      TailDescends(sorted);
      TopIsLargest(sorted[1..], rest, n - 1);
      TakeFirst(sorted, n);
    }
  }

  lemma TailDescends(sorted: seq<real>)
    requires sorted != [] && DescendingScores(sorted)
    ensures DescendingScores(sorted[1..])
  {
  }

  lemma NoPicks(picks: seq<real>)
    requires multiset(picks) <= multiset([])
    ensures picks == []
  {
    assert |multiset(picks)| == 0;
  }

  lemma {:induction false} TotalNonnegative(s: seq<real>)
    requires forall i :: 0 <= i < |s| ==> s[i] >= 0.0
    ensures Total(s) >= 0.0
  {
    if s != [] {
      TotalNonnegative(s[1..]);
    }
  }

  lemma BelowTop(sorted: seq<real>, picks: seq<real>, x: real)
    requires sorted != [] && Descending(sorted) && multiset(picks) <= multiset(sorted) && x in picks
    ensures x <= sorted[0]
  {
    assert x in multiset(picks);
    assert x in multiset(sorted);
    assert x in sorted;
  }

  lemma RestStaysInside(sorted: seq<real>, picks: seq<real>, x: real, rest: seq<real>)
    requires sorted != [] && multiset(picks) <= multiset(sorted) && multiset(rest) == multiset(picks) - multiset{x}
    requires x == sorted[0] || sorted[0] !in picks
    ensures multiset(rest) <= multiset(sorted[1..])
  {
    TailMultiset(sorted);
    assert sorted[0] !in picks ==> multiset(picks)[sorted[0]] == 0;
  }

  lemma TakeFirst(s: seq<real>, n: nat)
    requires s != [] && n > 0
    ensures Total(Take(s, n)) == s[0] + Total(Take(s[1..], n - 1))
  {
    assert Take(s, n)[1..] == Take(s[1..], n - 1);
  }

  lemma ScoresPermuted(a: seq<Hit>, b: seq<Hit>)
    requires multiset(a) == multiset(b)
    ensures multiset(ScoresOf(a)) == multiset(ScoresOf(b))
  {
    var f := (h: Hit) => h.score;
    MapPermutes(f, a, b);
    assert ScoresOf(a) == Map(f, a) && ScoresOf(b) == Map(f, b);
  }

  predicate Nonnegative(hits: seq<Hit>) {
    forall i :: 0 <= i < |hits| ==> hits[i].score >= 0.0
  }

  lemma {:induction false} OwnHitsNonnegative(hits: seq<Hit>, documentId: nat)
    requires Nonnegative(hits)
    ensures Nonnegative(InDocument(hits, documentId))
  {
    if hits != [] {
      OwnHitsNonnegative(hits[..|hits| - 1], documentId);
    }
  }

  /** The sorted scores of a list of hits: descending, nonnegative, and the same scores. */
  lemma SortedScores(mine: seq<Hit>)
    requires Nonnegative(mine)
    ensures DescendingScores(ScoresOf(Sort(mine, Higher)))
    ensures multiset(ScoresOf(Sort(mine, Higher))) == multiset(ScoresOf(mine))
  {
    var sorted := Sort(mine, Higher);
    SortSorts(mine, Higher);
    SortPermutes(mine, Higher);
    ScoresPermuted(mine, sorted);
    SamePresence(mine, sorted);
    forall i | 0 <= i < |sorted| ensures sorted[i].score >= 0.0 {
      assert sorted[i] in mine;
    }
  }

  lemma TakenAreAmong(mine: seq<Hit>, n: nat)
    ensures multiset(Take(Sort(mine, Higher), n)) <= multiset(mine)
  {
    var sorted := Sort(mine, Higher);
    SortPermutes(mine, Higher);
    assert sorted == Take(sorted, n) + sorted[|Take(sorted, n)|..];
  }

  /**
   A candidate's score is the sum of its returned spans, and no choice of at most `maxSpans` of
   its chunks' nonnegative scores sums to more.
   */
  lemma CandidateScoreIsLargest(hits: seq<Hit>, documentId: nat, maxSpans: nat, picks: seq<real>)
    requires Nonnegative(hits)
    requires |picks| <= maxSpans && multiset(picks) <= multiset(ScoresOf(InDocument(hits, documentId)))
    ensures var c := Grouped(hits, documentId, maxSpans);
            && c.score == Total(ScoresOf(c.spans)) && |c.spans| <= maxSpans
            && multiset(c.spans) <= multiset(InDocument(hits, documentId)) && c.documentId == documentId
            && SortedBy(c.spans, Higher)
            && Total(picks) <= c.score
  {
    var mine := InDocument(hits, documentId);
    OwnHitsNonnegative(hits, documentId);
    SortedScores(mine);
    SortSorts(mine, Higher);
    TakenAreAmong(mine, maxSpans);
    TopIsLargest(ScoresOf(Sort(mine, Higher)), picks, maxSpans);
    assert ScoresOf(Take(Sort(mine, Higher), maxSpans)) == Take(ScoresOf(Sort(mine, Higher)), maxSpans);
  }

  /** Each document with a hit is returned once, in descending score. */
  lemma CandidatesAreDocuments(hits: seq<Hit>, maxSpans: nat)
    ensures var found := Candidates(hits, maxSpans);
            && SortedBy(found, HigherCandidate)
            && multiset(found) == multiset(AllGrouped(hits, maxSpans))
            && |found| == |Documents(hits)| && Distinct(Documents(hits))
            && (forall i :: 0 <= i < |found| ==> found[i] == Grouped(hits, found[i].documentId, maxSpans))
            && forall i :: 0 <= i < |hits| ==> hits[i].documentId in Documents(hits)
  {
    SortSorts(AllGrouped(hits, maxSpans), HigherCandidate);
    SortPermutes(AllGrouped(hits, maxSpans), HigherCandidate);
    SamePresence(AllGrouped(hits, maxSpans), Candidates(hits, maxSpans));
    forall i | 0 <= i < |Candidates(hits, maxSpans)|
      ensures Candidates(hits, maxSpans)[i] == Grouped(hits, Candidates(hits, maxSpans)[i].documentId, maxSpans)
    {
      assert Candidates(hits, maxSpans)[i] in AllGrouped(hits, maxSpans);
    }
    if hits == [] {
    } else {
      GroupsPartition(hits, 0, hits[0]);
    }
    forall i | 0 <= i < |hits| ensures hits[i].documentId in Documents(hits) {
      GroupsPartition(hits, 0, hits[i]);
    }
  }
}
