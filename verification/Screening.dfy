/**
 A screening run (serving/app/services/screening.py, `execute_screening_run`).

 A run scores its candidates one after another and stores each score before the next is
 judged. An attempt may stop at any candidate when the judge fails; the next attempt skips the
 candidates already stored. Retrieval, token counts and persisted explanations do not influence
 scores or ranks.
 */
module Screening {
  import opened Wrappers
  import opened Batching
  import opened Sorting
  import opened Scoring
  import opened Judging
  import opened Sums
  import Weights

  datatype Status = Queued | Running | Completed

  datatype Row = Row(candidateId: nat, score: int, rank: Option<nat>)

  datatype Run = Run(status: Status, rows: seq<Row>)

  /** The approved rubric and its requirements in display order. */
  datatype Criteria = Criteria(rubric: Rubric, requirements: seq<Requirement>)

  // ---- who is screened ----

  /** A profile as listed: by candidate, newest first. */
  datatype Listed = Listed(profile: Profile, createdAt: int)

  predicate ListedBefore(a: Listed, b: Listed) {
    a.profile.candidateId < b.profile.candidateId
    || (a.profile.candidateId == b.profile.candidateId && a.createdAt >= b.createdAt)
  }

  function ProfileIds(profiles: seq<Profile>): seq<nat> {
    Map((p: Profile) => p.candidateId, profiles)
  }

  /** The first profile listed for each candidate. */
  function FirstOfEach(listed: seq<Listed>): seq<Profile> {
    if listed == [] then []
    else
      var before, last := FirstOfEach(listed[..|listed| - 1]), listed[|listed| - 1].profile;
      if last.candidateId in ProfileIds(before) then before else before + [last]
  }

  lemma {:induction false} FirstOfEachIsDistinct(listed: seq<Listed>)
    ensures Distinct(ProfileIds(FirstOfEach(listed)))
  {
    if listed != [] {
      var before, last := FirstOfEach(listed[..|listed| - 1]), listed[|listed| - 1].profile;
      FirstOfEachIsDistinct(listed[..|listed| - 1]);
      if last.candidateId !in ProfileIds(before) {
        DistinctAppended(ProfileIds(before), last.candidateId);
        assert ProfileIds(before + [last]) == ProfileIds(before) + [last.candidateId];
      }
    }
  }

  /** `k` is the newest listing of its candidate and was kept. */
  predicate NewestKept(listed: seq<Listed>, i: nat, k: nat)
    requires i < |listed|
  {
    && k < |listed| && listed[k].profile.candidateId == listed[i].profile.candidateId
    && listed[k].profile in FirstOfEach(listed)
    && listed[k].createdAt >= listed[i].createdAt
  }

  /** Every listed candidate is screened, once, with a profile at least as new as any other of theirs. */
  lemma {:induction false} NewestOfEachCandidate(listed: seq<Listed>, i: nat) returns (k: nat)
    requires i < |listed| && SortedBy(listed, ListedBefore)
    ensures NewestKept(listed, i, k)
    ensures Distinct(ProfileIds(FirstOfEach(listed)))
    decreases |listed|
  {
    FirstOfEachIsDistinct(listed);
    var n := |listed| - 1;
    var before := FirstOfEach(listed[..n]);
    if i < n {
      k := NewestOfEachCandidate(listed[..n], i);
      assert listed[k].profile in before;
    } else if listed[n].profile.candidateId !in ProfileIds(before) {
      k := n;
    } else {
      var j :| 0 <= j < |before| && ProfileIds(before)[j] == listed[n].profile.candidateId;
      k := KeptFrom(listed[..n], before[j]);
      assert ListedBefore(listed[k], listed[n]);
    }
  }

  lemma {:induction false} KeptFrom(listed: seq<Listed>, p: Profile) returns (k: nat)
    requires p in FirstOfEach(listed)
    ensures k < |listed| && listed[k].profile == p
    decreases |listed|
  {
    var n := |listed| - 1;
    if p in FirstOfEach(listed[..n]) {
      k := KeptFrom(listed[..n], p);
    } else {
      k := n;
    }
  }

  /** A dictionary in insertion order: a candidate's first row stays. */
  method CandidateProfiles(listed: seq<Listed>) returns (newest: seq<Profile>)
    ensures newest == FirstOfEach(listed)
  {
    newest := [];
    var seen: set<nat> := {};
    for i := 0 to |listed|
      invariant newest == FirstOfEach(listed[..i])
      invariant forall id: nat :: id in seen <==> id in ProfileIds(newest)
    {
      var p := listed[i].profile;
      assert listed[..i + 1][..i] == listed[..i];
      if p.candidateId !in seen {
        assert ProfileIds(newest + [p]) == ProfileIds(newest) + [p.candidateId];
        newest := newest + [p];
        seen := seen + {p.candidateId};
      }
    }
    assert listed[..|listed|] == listed;
  }

  // ---- the score of one candidate ----

  function ScoreOf(judge: Judge, c: Criteria, p: Profile): Option<int> {
    match JudgedAll(judge, p, c.requirements)
    case None => None
    case Some(judged) =>
      match Aggregate(c.rubric, c.requirements, VerdictsFor(judged))
      case Err(_) => None
      case Ok(result) => Some(result.score)
  }

  /** All that an attempt needs of a judge: the score of a profile, or nothing when the judge fails. */
  type Scorer = Profile -> Option<int>

  function ScorerOf(judge: Judge, c: Criteria): Scorer {
    (p: Profile) => ScoreOf(judge, c, p)
  }

  // ---- one attempt ----

  predicate Stored(rows: seq<Row>, candidateId: nat) {
    exists i :: 0 <= i < |rows| && rows[i].candidateId == candidateId
  }

  function ToScore(profiles: seq<Profile>, rows: seq<Row>): seq<Profile> {
    if profiles == [] then []
    else if Stored(rows, profiles[0].candidateId) then ToScore(profiles[1..], rows)
    else [profiles[0]] + ToScore(profiles[1..], rows)
  }

  /** The rows stored by scoring one profile after another, and whether all were scored. */
  function ScoreEach(scorer: Scorer, profiles: seq<Profile>, rows: seq<Row>): (seq<Row>, bool)
    decreases |profiles|
  {
    if profiles == [] then (rows, true)
    else
      match scorer(profiles[0])
      case None => (rows, false)
      case Some(score) => ScoreEach(scorer, profiles[1..], rows + [Row(profiles[0].candidateId, score, None)])
  }

  /** Best score first, ties by candidate id. */
  predicate Before(a: Row, b: Row) {
    a.score > b.score || (a.score == b.score && a.candidateId <= b.candidateId)
  }

  function PlaceOf(ordered: seq<Row>, candidateId: nat): nat {
    if ordered == [] || ordered[0].candidateId == candidateId then 0 else 1 + PlaceOf(ordered[1..], candidateId)
  }

  function WithRank(ordered: seq<Row>, r: Row): Row {
    r.(rank := Some(1 + PlaceOf(ordered, r.candidateId)))
  }

  function RankedBy(ordered: seq<Row>, rows: seq<Row>): (r: seq<Row>)
    ensures |r| == |rows|
    ensures forall i :: 0 <= i < |rows| ==> r[i] == WithRank(ordered, rows[i])
  {
    if rows == [] then [] else [WithRank(ordered, rows[0])] + RankedBy(ordered, rows[1..])
  }

  function Ranked(rows: seq<Row>): seq<Row> {
    RankedBy(Sort(rows, Before), rows)
  }

  predicate ByRank(a: Row, b: Row) {
    a.rank.None? || (b.rank.Some? && a.rank.value <= b.rank.value)
  }

  /** The run after one attempt, and the list returned unless the judge failed. */
  function Attempt(scorer: Scorer, profiles: seq<Profile>, run: Run): (Run, Option<seq<Row>>) {
    if run.status.Completed? then (run, Some(Sort(run.rows, ByRank)))
    else
      var (rows, all) := ScoreEach(scorer, ToScore(profiles, run.rows), run.rows);
      if all then (Run(Completed, Ranked(rows)), Some(Ranked(rows))) else (Run(Running, rows), None)
  }

  // ---- ranking ----

  function CandidateIds(rows: seq<Row>): seq<nat> {
    Map((r: Row) => r.candidateId, rows)
  }

  lemma BeforeIsOrder(rows: seq<Row>)
    requires Distinct(CandidateIds(rows))
    ensures TotalPreorder(Before) && AntisymmetricOn(rows, Before)
  {
    forall i, j | 0 <= i < |rows| && 0 <= j < |rows| && Before(rows[i], rows[j]) && Before(rows[j], rows[i])
      ensures rows[i] == rows[j]
    {
      assert CandidateIds(rows)[i] == CandidateIds(rows)[j];
    }
  }

  lemma CandidateIdsPermuted(a: seq<Row>, b: seq<Row>)
    requires multiset(a) == multiset(b)
    ensures multiset(CandidateIds(a)) == multiset(CandidateIds(b))
  {
    var id := (r: Row) => r.candidateId;
    MapPermutes(id, a, b);
    assert CandidateIds(a) == Map(id, a) && CandidateIds(b) == Map(id, b);
  }

  lemma {:induction false} PlaceIsPosition(ordered: seq<Row>, k: nat)
    requires k < |ordered| && Distinct(CandidateIds(ordered))
    ensures PlaceOf(ordered, ordered[k].candidateId) == k
  {
    if k > 0 {
      assert CandidateIds(ordered)[0] != CandidateIds(ordered)[k];
      assert CandidateIds(ordered[1..]) == CandidateIds(ordered)[1..];
      PlaceIsPosition(ordered[1..], k - 1);
    }
  }

  lemma SortedRows(rows: seq<Row>)
    requires Distinct(CandidateIds(rows))
    ensures var ordered := Sort(rows, Before);
            SortedBy(ordered, Before) && Distinct(CandidateIds(ordered)) && multiset(ordered) == multiset(rows)
  {
    BeforeIsOrder(rows);
    SortSorts(rows, Before);
    SortPermutes(rows, Before);
    CandidateIdsPermuted(rows, Sort(rows, Before));
    DistinctPermuted(CandidateIds(rows), CandidateIds(Sort(rows, Before)));
  }

  lemma FindRow(rows: seq<Row>, ordered: seq<Row>, i: nat) returns (k: nat)
    requires i < |rows| && multiset(ordered) == multiset(rows)
    ensures k < |ordered| && ordered[k] == rows[i]
  {
    SamePresence(rows, ordered);
    assert rows[i] in ordered;
    k :| 0 <= k < |ordered| && ordered[k] == rows[i];
  }

  /** The position of a row among the sorted rows. */
  lemma SortedPosition(rows: seq<Row>, i: nat) returns (k: nat)
    requires i < |rows| && Distinct(CandidateIds(rows))
    ensures k < |rows| && Sort(rows, Before)[k] == rows[i] && Ranked(rows)[i].rank == Some(k + 1)
  {
    var ordered := Sort(rows, Before);
    SortedRows(rows);
    k := FindRow(rows, ordered, i);
    PlaceIsPosition(ordered, k);
  }

  /**
   Ranks are exactly 1 to n, and a candidate ranks ahead of another exactly when it has the
   higher score, or the same score and the smaller id.
   */
  lemma RanksFollowScores(rows: seq<Row>, i: nat, j: nat)
    requires Distinct(CandidateIds(rows)) && i < |rows| && j < |rows| && i != j
    ensures Ranked(rows)[i].rank.Some? && 1 <= Ranked(rows)[i].rank.value <= |rows|
    ensures Ranked(rows)[j].rank.Some? && Ranked(rows)[i].rank != Ranked(rows)[j].rank
    ensures Ranked(rows)[i].rank.value < Ranked(rows)[j].rank.value <==>
              rows[i].score > rows[j].score || (rows[i].score == rows[j].score && rows[i].candidateId < rows[j].candidateId)
  {
    var k := SortedPosition(rows, i);
    var l := SortedPosition(rows, j);
    SortedRows(rows);
    assert CandidateIds(rows)[i] != CandidateIds(rows)[j];
    if k < l {
      assert Before(Sort(rows, Before)[k], Sort(rows, Before)[l]);
    } else if l < k {
      assert Before(Sort(rows, Before)[l], Sort(rows, Before)[k]);
    }
  }

  lemma EveryRankIsTaken(rows: seq<Row>, rank: nat)
    requires Distinct(CandidateIds(rows)) && 1 <= rank <= |rows|
    ensures exists i :: 0 <= i < |rows| && Ranked(rows)[i].rank == Some(rank)
  {
    SortedRows(rows);
    var ordered := Sort(rows, Before);
    SamePresence(rows, ordered);
    assert ordered[rank - 1] in rows;
    var i :| 0 <= i < |rows| && rows[i] == ordered[rank - 1];
    PlaceIsPosition(ordered, rank - 1);
    assert Ranked(rows)[i].rank == Some(rank);
  }

  lemma RankedPermuted(ordered: seq<Row>, a: seq<Row>, b: seq<Row>)
    requires multiset(a) == multiset(b)
    ensures multiset(RankedBy(ordered, a)) == multiset(RankedBy(ordered, b))
  {
    var f := (r: Row) => WithRank(ordered, r);
    MapPermutes(f, a, b);
    assert RankedBy(ordered, a) == Map(f, a) && RankedBy(ordered, b) == Map(f, b);
  }

  /** Ranking depends on which rows there are, not on the order they were stored in. */
  lemma RankingIgnoresOrder(a: seq<Row>, b: seq<Row>)
    requires Distinct(CandidateIds(a)) && multiset(a) == multiset(b)
    ensures multiset(Ranked(a)) == multiset(Ranked(b))
  {
    BeforeIsOrder(a);
    SortUnique(a, b, Before);
    RankedPermuted(Sort(a, Before), a, b);
  }

  // ---- resumption ----

  /** The scorer of one attempt: where it scores, it scores as `scorer` would. */
  ghost predicate PartOf(attempt: Scorer, scorer: Scorer) {
    forall p :: attempt(p).Some? ==> attempt(p) == scorer(p)
  }

  function RowFor(scorer: Scorer, p: Profile): Row {
    Row(p.candidateId, scorer(p).GetOr(0), None)
  }

  /** The row of a profile that the judge can score. */
  predicate RowOf(scorer: Scorer, profiles: seq<Profile>, r: Row) {
    exists i :: 0 <= i < |profiles| && scorer(profiles[i]).Some? && r == RowFor(scorer, profiles[i])
  }

  /** What is stored before a run completes: no candidate twice, each with the judge's score. */
  predicate Sound(scorer: Scorer, profiles: seq<Profile>, rows: seq<Row>) {
    && Distinct(CandidateIds(rows))
    && forall r :: r in rows ==> RowOf(scorer, profiles, r)
  }

  lemma StoredIffListed(rows: seq<Row>, id: nat)
    ensures Stored(rows, id) <==> id in CandidateIds(rows)
  {
    if Stored(rows, id) {
      var i :| 0 <= i < |rows| && rows[i].candidateId == id;
      assert CandidateIds(rows)[i] == id;
    }
  }

  lemma IdsAppended(rows: seq<Row>, r: Row)
    requires Distinct(CandidateIds(rows)) && !Stored(rows, r.candidateId)
    ensures Distinct(CandidateIds(rows + [r]))
  {
    StoredIffListed(rows, r.candidateId);
    DistinctAppended(CandidateIds(rows), r.candidateId);
    assert CandidateIds(rows + [r]) == CandidateIds(rows) + [r.candidateId];
  }

  lemma AppendSound(scorer: Scorer, profiles: seq<Profile>, rows: seq<Row>, r: Row)
    requires Sound(scorer, profiles, rows) && RowOf(scorer, profiles, r) && !Stored(rows, r.candidateId)
    ensures Sound(scorer, profiles, rows + [r])
  {
    IdsAppended(rows, r);
    forall x | x in rows + [r] ensures RowOf(scorer, profiles, x) {
      assert x in rows || x == r;
    }
  }

  /** Profiles still to be scored: known, unscored, and none twice. */
  predicate Pending(profiles: seq<Profile>, rows: seq<Row>, todo: seq<Profile>) {
    && Distinct(ProfileIds(todo))
    && (forall i :: 0 <= i < |todo| ==> todo[i] in profiles && !Stored(rows, todo[i].candidateId))
  }

  lemma {:induction false} ToScoreIsPending(profiles: seq<Profile>, part: seq<Profile>, rows: seq<Row>)
    requires Distinct(ProfileIds(part)) && forall i :: 0 <= i < |part| ==> part[i] in profiles
    ensures Pending(profiles, rows, ToScore(part, rows))
    ensures forall p :: p in ToScore(part, rows) <==> p in part && !Stored(rows, p.candidateId)
  {
    if part != [] {
      var rest := part[1..];
      assert ProfileIds(rest) == ProfileIds(part)[1..];
      ToScoreIsPending(profiles, rest, rows);
      var todo := ToScore(rest, rows);
      forall i | 0 <= i < |todo| ensures todo[i].candidateId != part[0].candidateId {
        assert todo[i] in rest;
        var j :| 0 <= j < |rest| && rest[j] == todo[i];
        assert ProfileIds(part)[0] != ProfileIds(part)[j + 1];
      }
    }
  }

  /** Scoring stores sound rows, and when it gets through, a row for every pending profile. */
  lemma {:induction false} ScoreEachIsSound(
    attempt: Scorer, scorer: Scorer, profiles: seq<Profile>, todo: seq<Profile>, rows: seq<Row>)
    requires PartOf(attempt, scorer) && Sound(scorer, profiles, rows) && Pending(profiles, rows, todo)
    ensures var (after, all) := ScoreEach(attempt, todo, rows);
            && Sound(scorer, profiles, after)
            && (forall r :: r in rows ==> r in after)
            && (all ==> forall p :: p in todo ==> scorer(p).Some? && RowFor(scorer, p) in after)
    decreases |todo|
  {
    if todo != [] {
      var p := todo[0];
      if attempt(p).Some? {
        var row := Row(p.candidateId, attempt(p).value, None);
        var i :| 0 <= i < |profiles| && profiles[i] == p;
        assert row == RowFor(scorer, profiles[i]);
        AppendSound(scorer, profiles, rows, row);
        StillPending(profiles, rows, todo, row);
        ScoreEachIsSound(attempt, scorer, profiles, todo[1..], rows + [row]);
        assert row in rows + [row];
      }
    }
  }

  lemma StillPending(profiles: seq<Profile>, rows: seq<Row>, todo: seq<Profile>, row: Row)
    requires todo != [] && Pending(profiles, rows, todo) && row.candidateId == todo[0].candidateId
    ensures Pending(profiles, rows + [row], todo[1..])
  {
    assert ProfileIds(todo[1..]) == ProfileIds(todo)[1..];
    forall i | 1 <= i < |todo| ensures !Stored(rows + [row], todo[i].candidateId) {
      assert ProfileIds(todo)[0] != ProfileIds(todo)[i];
      assert !Stored(rows, todo[i].candidateId);
    }
  }

  /** The rows of an uninterrupted run, before ranking. */
  function AllRows(scorer: Scorer, profiles: seq<Profile>): seq<Row> {
    Map((p: Profile) => RowFor(scorer, p), profiles)
  }

  predicate AllScorable(scorer: Scorer, profiles: seq<Profile>) {
    forall i :: 0 <= i < |profiles| ==> scorer(profiles[i]).Some?
  }

  /** Sound rows that cover every profile are exactly the rows of an uninterrupted run. */
  lemma CoveringRowsAreAll(scorer: Scorer, profiles: seq<Profile>, rows: seq<Row>)
    requires Distinct(ProfileIds(profiles)) && Sound(scorer, profiles, rows)
    requires forall i :: 0 <= i < |profiles| ==> RowFor(scorer, profiles[i]) in rows
    ensures multiset(rows) == multiset(AllRows(scorer, profiles))
    ensures Distinct(CandidateIds(AllRows(scorer, profiles)))
  {
    var full := AllRows(scorer, profiles);
    assert CandidateIds(full) == ProfileIds(profiles);
    DistinctRows(rows);
    DistinctRows(full);
    forall r: Row ensures r in rows <==> r in full {
      if r in rows {
        var i :| 0 <= i < |rows| && rows[i] == r;
        assert RowOf(scorer, profiles, r);
        var k :| 0 <= k < |profiles| && r == RowFor(scorer, profiles[k]);
        assert full[k] == r;
      }
    }
    SameElementsPermute(rows, full);
  }

  lemma DistinctRows(rows: seq<Row>)
    requires Distinct(CandidateIds(rows))
    ensures Distinct(rows)
  {
    forall i, j | 0 <= i < j < |rows| ensures rows[i] != rows[j] {
      assert CandidateIds(rows)[i] != CandidateIds(rows)[j];
    }
  }

  /** A run between attempts: partial and sound, or complete and equal to an uninterrupted one. */
  predicate Consistent(scorer: Scorer, profiles: seq<Profile>, run: Run) {
    if run.status.Completed? then
      AllScorable(scorer, profiles) && multiset(run.rows) == multiset(Ranked(AllRows(scorer, profiles)))
    else Sound(scorer, profiles, run.rows)
  }

  /** A stored profile was scorable and its row is the judge's. */
  lemma StoredRow(scorer: Scorer, profiles: seq<Profile>, rows: seq<Row>, i: nat)
    requires Distinct(ProfileIds(profiles)) && Sound(scorer, profiles, rows)
    requires i < |profiles| && Stored(rows, profiles[i].candidateId)
    ensures scorer(profiles[i]).Some? && RowFor(scorer, profiles[i]) in rows
  {
    var k :| 0 <= k < |rows| && rows[k].candidateId == profiles[i].candidateId;
    assert RowOf(scorer, profiles, rows[k]);
    var j :| 0 <= j < |profiles| && scorer(profiles[j]).Some? && rows[k] == RowFor(scorer, profiles[j]);
  }

  lemma AttemptKeepsConsistent(attempt: Scorer, scorer: Scorer, profiles: seq<Profile>, run: Run)
    requires PartOf(attempt, scorer) && Distinct(ProfileIds(profiles)) && Consistent(scorer, profiles, run)
    ensures Consistent(scorer, profiles, Attempt(attempt, profiles, run).0)
  {
    if !run.status.Completed? {
      var todo := ToScore(profiles, run.rows);
      ToScoreIsPending(profiles, profiles, run.rows);
      ScoreEachIsSound(attempt, scorer, profiles, todo, run.rows);
      var (rows, all) := ScoreEach(attempt, todo, run.rows);
      if all {
        forall i | 0 <= i < |profiles|
          ensures scorer(profiles[i]).Some? && RowFor(scorer, profiles[i]) in rows
        {
          if Stored(run.rows, profiles[i].candidateId) {
            StoredRow(scorer, profiles, run.rows, i);
          } else {
            assert profiles[i] in todo;
          }
        }
        CoveringRowsAreAll(scorer, profiles, rows);
        RankingIgnoresOrder(rows, AllRows(scorer, profiles));
      }
    }
  }

  function AttemptAll(attempts: seq<Scorer>, profiles: seq<Profile>, run: Run): Run
    decreases |attempts|
  {
    if attempts == [] then run
    else AttemptAll(attempts[1..], profiles, Attempt(attempts[0], profiles, run).0)
  }

  lemma {:induction false} AttemptsStayConsistent(
    attempts: seq<Scorer>, scorer: Scorer, profiles: seq<Profile>, run: Run)
    requires forall i :: 0 <= i < |attempts| ==> PartOf(attempts[i], scorer)
    requires Distinct(ProfileIds(profiles)) && Consistent(scorer, profiles, run)
    ensures Consistent(scorer, profiles, AttemptAll(attempts, profiles, run))
    decreases |attempts|
  {
    if attempts != [] {
      AttemptKeepsConsistent(attempts[0], scorer, profiles, run);
      AttemptsStayConsistent(attempts[1..], scorer, profiles, Attempt(attempts[0], profiles, run).0);
    }
  }

  lemma UninterruptedCompletes(scorer: Scorer, profiles: seq<Profile>, todo: seq<Profile>, rows: seq<Row>)
    requires AllScorable(scorer, profiles) && forall i :: 0 <= i < |todo| ==> todo[i] in profiles
    ensures ScoreEach(scorer, todo, rows).1
    decreases |todo|
  {
    if todo != [] {
      assert todo[0] in profiles;
      var row := Row(todo[0].candidateId, scorer(todo[0]).value, None);
      UninterruptedCompletes(scorer, profiles, todo[1..], rows + [row]);
    }
  }

  /** However the work was split and interrupted, a run that completes holds what one uninterrupted run would. */
  lemma CompletedRunEqualsWhole(attempts: seq<Scorer>, scorer: Scorer, profiles: seq<Profile>, start: Run)
    requires forall i :: 0 <= i < |attempts| ==> PartOf(attempts[i], scorer)
    requires !start.status.Completed? && Distinct(ProfileIds(profiles)) && Sound(scorer, profiles, start.rows)
    requires AttemptAll(attempts, profiles, start).status.Completed?
    ensures var whole := Attempt(scorer, profiles, Run(Queued, [])).0;
            && whole.status.Completed?
            && multiset(AttemptAll(attempts, profiles, start).rows) == multiset(whole.rows)
  {
    AttemptsStayConsistent(attempts, scorer, profiles, start);
    var blank := Run(Queued, []);
    assert Sound(scorer, profiles, blank.rows);
    ToScoreIsPending(profiles, profiles, []);
    UninterruptedCompletes(scorer, profiles, ToScore(profiles, []), []);
    AttemptKeepsConsistent(scorer, scorer, profiles, blank);
  }

  // ---- resumption, in terms of judges ----

  /** The judge of one attempt: where it answers, it answers as `judge` would. */
  ghost predicate PartialJudge(attempt: Judge, judge: Judge) {
    forall p, batch :: attempt(p, batch).Some? ==> attempt(p, batch) == judge(p, batch)
  }

  lemma {:induction false} PartialJudgeAgrees(attempt: Judge, judge: Judge, p: Profile, batches: seq<seq<Requirement>>)
    requires PartialJudge(attempt, judge) && JudgedBatches(attempt, p, batches).Some?
    ensures JudgedBatches(judge, p, batches) == JudgedBatches(attempt, p, batches)
  {
    if batches != [] {
      assert attempt(p, batches[0]).Some?;
      PartialJudgeAgrees(attempt, judge, p, batches[1..]);
    }
  }

  /** A judge that stops in the middle of a rubric gives no score; otherwise the whole judge's score. */
  lemma PartialScoreAgrees(attempt: Judge, judge: Judge, c: Criteria, p: Profile)
    requires PartialJudge(attempt, judge) && ScoreOf(attempt, c, p).Some?
    ensures ScoreOf(judge, c, p) == ScoreOf(attempt, c, p)
  {
    PartialJudgeAgrees(attempt, judge, p, Batches(c.requirements, BATCH_SIZE));
  }

  lemma PartialJudgeIsPartOf(attempt: Judge, judge: Judge, c: Criteria)
    requires PartialJudge(attempt, judge)
    ensures PartOf(ScorerOf(attempt, c), ScorerOf(judge, c))
  {
    forall p: Profile | ScorerOf(attempt, c)(p).Some? ensures ScorerOf(attempt, c)(p) == ScorerOf(judge, c)(p) {
      PartialScoreAgrees(attempt, judge, c, p);
    }
  }

  function ScorersOf(judges: seq<Judge>, c: Criteria): (r: seq<Scorer>)
    ensures |r| == |judges|
  {
    seq(|judges|, i requires 0 <= i < |judges| => ScorerOf(judges[i], c))
  }

  /**
   However the work was split and however often it was interrupted, a run that completes holds
   the same scores and ranks as one uninterrupted run of the same judge.
   */
  lemma ResumedRunEqualsUninterrupted(attempts: seq<Judge>, judge: Judge, c: Criteria, listed: seq<Listed>, start: Run)
    requires forall i :: 0 <= i < |attempts| ==> PartialJudge(attempts[i], judge)
    requires !start.status.Completed? && Sound(ScorerOf(judge, c), FirstOfEach(listed), start.rows)
    requires AttemptAll(ScorersOf(attempts, c), FirstOfEach(listed), start).status.Completed?
    ensures var whole := Attempt(ScorerOf(judge, c), FirstOfEach(listed), Run(Queued, [])).0;
            && whole.status.Completed?
            && multiset(AttemptAll(ScorersOf(attempts, c), FirstOfEach(listed), start).rows) == multiset(whole.rows)
  {
    var scorers, scorer := ScorersOf(attempts, c), ScorerOf(judge, c);
    forall i | 0 <= i < |attempts| ensures PartOf(scorers[i], scorer) {
      PartialJudgeIsPartOf(attempts[i], judge, c);
    }
    FirstOfEachIsDistinct(listed);
    CompletedRunEqualsWhole(scorers, scorer, FirstOfEach(listed), start);
  }

  // ---- calling again ----

  lemma ByRankIsOrder()
    ensures TotalPreorder(ByRank)
  {
  }

  /** A further call on a completed run changes nothing and returns the same rows, in rank order. */
  lemma FurtherCallReturnsRanking(scorer: Scorer, later: Scorer, profiles: seq<Profile>, run: Run)
    requires Attempt(scorer, profiles, run).1.Some?
    ensures var (done, returned) := Attempt(scorer, profiles, run);
            var (again, listed) := Attempt(later, profiles, done);
            && again == done
            && listed.Some? && multiset(listed.value) == multiset(returned.value)
            && SortedBy(listed.value, ByRank)
  {
    var (done, returned) := Attempt(scorer, profiles, run);
    ByRankIsOrder();
    SortSorts(done.rows, ByRank);
    SortPermutes(done.rows, ByRank);
  }

  /** Scoring what is not stored yet keeps the candidates distinct. */
  lemma {:induction false} ScoreEachKeepsDistinct(scorer: Scorer, profiles: seq<Profile>, todo: seq<Profile>, rows: seq<Row>)
    requires Distinct(CandidateIds(rows)) && Pending(profiles, rows, todo)
    ensures Distinct(CandidateIds(ScoreEach(scorer, todo, rows).0))
    decreases |todo|
  {
    if todo != [] && scorer(todo[0]).Some? {
      var row := Row(todo[0].candidateId, scorer(todo[0]).value, None);
      StillPending(profiles, rows, todo, row);
      IdsAppended(rows, row);
      ScoreEachKeepsDistinct(scorer, profiles, todo[1..], rows + [row]);
    }
  }

  /** Storage order is rank order exactly when the rows were stored best first. */
  lemma RankedInOrderIff(rows: seq<Row>)
    requires Distinct(CandidateIds(rows))
    ensures SortedBy(Ranked(rows), ByRank) <==> SortedBy(rows, Before)
  {
    var ranked := Ranked(rows);
    forall i, j | 0 <= i < j < |rows| ensures ByRank(ranked[i], ranked[j]) <==> Before(rows[i], rows[j]) {
      RanksFollowScores(rows, i, j);
      RanksFollowScores(rows, j, i);
      assert CandidateIds(rows)[i] != CandidateIds(rows)[j];
    }
  }

  /** The next call returns the list that this one returned. */
  predicate Repeats(scorer: Scorer, later: Scorer, profiles: seq<Profile>, run: Run) {
    var (done, returned) := Attempt(scorer, profiles, run);
    Attempt(later, profiles, done).1 == returned
  }

  /**
   The call that completes a run returns the rows as stored, a further call returns them in
   rank order. The two lists are the same exactly when the rows were stored best first.
   */
  lemma FurtherCallRepeatsIff(scorer: Scorer, later: Scorer, profiles: seq<Profile>, run: Run)
    requires Distinct(ProfileIds(profiles)) && Distinct(CandidateIds(run.rows)) && !run.status.Completed?
    requires Attempt(scorer, profiles, run).1.Some?
    ensures Repeats(scorer, later, profiles, run)
       <==> SortedBy(ScoreEach(scorer, ToScore(profiles, run.rows), run.rows).0, Before)
  {
    var rows := ScoreEach(scorer, ToScore(profiles, run.rows), run.rows).0;
    ToScoreIsPending(profiles, profiles, run.rows);
    ScoreEachKeepsDistinct(scorer, profiles, ToScore(profiles, run.rows), run.rows);
    RankedInOrderIff(rows);
    ByRankIsOrder();
    SortSorts(Ranked(rows), ByRank);
    if SortedBy(Ranked(rows), ByRank) {
      SortOfSorted(Ranked(rows), ByRank);
    }
  }

  lemma {:induction false} NothingStoredYet(profiles: seq<Profile>)
    ensures ToScore(profiles, []) == profiles
  {
    if profiles != [] {
      NothingStoredYet(profiles[1..]);
      assert profiles == [profiles[0]] + profiles[1..];
    }
  }

  /** Rows with these scores follow those that were stored, in the order of the profiles. */
  predicate StoredInOrder(todo: seq<Profile>, scores: seq<int>, rows: seq<Row>, after: seq<Row>) {
    && |scores| == |todo| && |after| == |rows| + |todo|
    && (forall i :: 0 <= i < |rows| ==> after[i] == rows[i])
    && (forall k :: 0 <= k < |todo| ==> after[|rows| + k] == Row(todo[k].candidateId, scores[k], None))
  }

  ghost predicate AreScores(scorer: Scorer, todo: seq<Profile>, scores: seq<int>) {
    |scores| == |todo| && forall k :: 0 <= k < |todo| ==> scorer(todo[k]) == Some(scores[k])
  }

  lemma {:induction false} ScoredInOrder(scorer: Scorer, todo: seq<Profile>, rows: seq<Row>) returns (scores: seq<int>)
    requires ScoreEach(scorer, todo, rows).1
    ensures AreScores(scorer, todo, scores)
    ensures StoredInOrder(todo, scores, rows, ScoreEach(scorer, todo, rows).0)
    decreases |todo|
  {
    if todo == [] {
      scores := [];
    } else {
      var score := scorer(todo[0]).value;
      var rest := ScoredInOrder(scorer, todo[1..], rows + [Row(todo[0].candidateId, score, None)]);
      OneMoreInOrder(todo, score, rest, rows, ScoreEach(scorer, todo, rows).0);
      OneMoreScore(scorer, todo, score, rest);
      scores := [score] + rest;
    }
  }

  lemma OneMoreScore(scorer: Scorer, todo: seq<Profile>, score: int, rest: seq<int>)
    requires todo != [] && scorer(todo[0]) == Some(score) && AreScores(scorer, todo[1..], rest)
    ensures AreScores(scorer, todo, [score] + rest)
  {
    forall k | 1 <= k < |todo| ensures scorer(todo[k]) == Some(rest[k - 1]) {
      assert todo[1..][k - 1] == todo[k];
    }
  }

  lemma OneMoreInOrder(todo: seq<Profile>, score: int, rest: seq<int>, rows: seq<Row>, after: seq<Row>)
    requires todo != [] && StoredInOrder(todo[1..], rest, rows + [Row(todo[0].candidateId, score, None)], after)
    ensures StoredInOrder(todo, [score] + rest, rows, after)
  {
    var longer := rows + [Row(todo[0].candidateId, score, None)];
    forall i | 0 <= i < |rows| ensures after[i] == rows[i] {
      assert after[i] == longer[i];
    }
    assert after[|rows|] == longer[|rows|];
    forall k | 1 <= k < |todo| ensures after[|rows| + k] == Row(todo[k].candidateId, rest[k - 1], None) {
      assert after[|longer| + (k - 1)] == Row(todo[1..][k - 1].candidateId, rest[k - 1], None);
    }
  }

  predicate IdsAscend(profiles: seq<Profile>) {
    forall i, j :: 0 <= i < j < |profiles| ==> profiles[i].candidateId < profiles[j].candidateId
  }

  /** Candidates are screened in the order of their ids. */
  lemma {:induction false} FirstOfEachAscends(listed: seq<Listed>)
    requires SortedBy(listed, ListedBefore)
    ensures IdsAscend(FirstOfEach(listed))
  {
    if listed != [] {
      var n := |listed| - 1;
      var before, last := FirstOfEach(listed[..n]), listed[n].profile;
      FirstOfEachAscends(listed[..n]);
      forall i | 0 <= i < |before| ensures before[i].candidateId <= last.candidateId {
        var k := KeptFrom(listed[..n], before[i]);
        assert ListedBefore(listed[k], listed[n]);
      }
      forall i | 0 <= i < |before| && last.candidateId !in ProfileIds(before) ensures before[i].candidateId != last.candidateId {
        assert ProfileIds(before)[i] == before[i].candidateId;
      }
    }
  }

  predicate Falling(scores: seq<int>) {
    forall i, j :: 0 <= i < j < |scores| ==> scores[i] >= scores[j]
  }

  /** No candidate scores higher than one listed before. */
  predicate ScoresFall(scorer: Scorer, profiles: seq<Profile>) {
    forall i, j :: 0 <= i < j < |profiles| ==>
      scorer(profiles[i]).GetOr(0) >= scorer(profiles[j]).GetOr(0)
  }

  lemma ScoresFallIff(scorer: Scorer, profiles: seq<Profile>, scores: seq<int>)
    requires AreScores(scorer, profiles, scores)
    ensures ScoresFall(scorer, profiles) <==> Falling(scores)
  {
    if ScoresFall(scorer, profiles) {
      forall i, j | 0 <= i < j < |scores| ensures scores[i] >= scores[j] {
        assert scorer(profiles[i]) == Some(scores[i]) && scorer(profiles[j]) == Some(scores[j]);
      }
    }
  }

  lemma BestFirstIff(profiles: seq<Profile>, scores: seq<int>, rows: seq<Row>)
    requires IdsAscend(profiles) && StoredInOrder(profiles, scores, [], rows)
    ensures SortedBy(rows, Before) <==> Falling(scores)
  {
    forall i, j | 0 <= i < j < |rows| ensures Before(rows[i], rows[j]) <==> scores[i] >= scores[j] {
      var none: seq<Row> := [];
      assert rows[|none| + i] == rows[i] && rows[|none| + j] == rows[j];
    }
  }

  /**
   For a run completed by its first call: the second call returns the same list exactly when no
   candidate scores higher than one with a smaller id.
   */
  lemma SecondCallRepeatsFirstIff(scorer: Scorer, later: Scorer, listed: seq<Listed>)
    requires SortedBy(listed, ListedBefore) && Attempt(scorer, FirstOfEach(listed), Run(Queued, [])).1.Some?
    ensures Repeats(scorer, later, FirstOfEach(listed), Run(Queued, [])) <==> ScoresFall(scorer, FirstOfEach(listed))
  {
    var profiles := FirstOfEach(listed);
    FirstOfEachIsDistinct(listed);
    FirstOfEachAscends(listed);
    NothingStoredYet(profiles);
    FurtherCallRepeatsIff(scorer, later, profiles, Run(Queued, []));
    FirstCallBestFirstIff(scorer, profiles);
  }

  lemma FirstCallBestFirstIff(scorer: Scorer, profiles: seq<Profile>)
    requires IdsAscend(profiles) && ScoreEach(scorer, profiles, []).1
    ensures SortedBy(ScoreEach(scorer, profiles, []).0, Before) <==> ScoresFall(scorer, profiles)
  {
    var scores := ScoredInOrder(scorer, profiles, []);
    BestFirstIff(profiles, scores, ScoreEach(scorer, profiles, []).0);
    ScoresFallIff(scorer, profiles, scores);
  }

  // ---- two candidates, one requirement ----

  const ONE_REQUIREMENT := Criteria(Rubric(1, true, "v1", 40), [Requirement(0, 1, 0, false, 10_000)])

  /** A judge that finds the requirement met by every candidate but one. */
  function AllButOne(candidateId: nat): Judge {
    (p: Profile, batch: seq<Requirement>) => Some([VerdictOutput(0, if p.candidateId == candidateId then "missing" else "met")])
  }

  lemma JudgedOnce(judge: Judge, p: Profile, r: Requirement, verdict: string)
    requires judge(p, [r]) == Some([VerdictOutput(0, verdict)]) && KnownVerdict(verdict)
    ensures JudgedAll(judge, p, [r]) == Some([Judged(r, verdict)])
  {
    var answer := [VerdictOutput(0, verdict)];
    assert Batches([r], BATCH_SIZE) == [[r]];
    assert answer[..0] == [];
    assert ByIndex(answer) == map[0 := verdict];
    assert Parsed(answer, 1) == Some(answer);
    assert CoversBatch(ByIndex(answer), 1);
    var judged := JudgedBatch(judge, p, [r]);
    assert judged.Some? && judged.value == [Judged(r, verdict)];
    assert [[r]][1..] == [];
    assert JudgedBatches(judge, p, [[r]]) == Following(judged.value, Some([]));
    assert judged.value + [] == judged.value;
  }

  /** Accepted verdicts are scored by points and cap. */
  lemma AggregatedOnce(r: Requirement, rubric: Rubric, verdict: string)
    requires rubric.approved && rubric.formulaVersion == "v1" && r.versionId == rubric.id
    requires r.units == Weights.WEIGHT_UNITS && !r.isMustHave && KnownVerdict(verdict)
    ensures Aggregate(rubric, [r], [Verdict(r.id, verdict)]).Ok?
    ensures Aggregate(rubric, [r], [Verdict(r.id, verdict)]).value.score == Points(verdict, Weights.WEIGHT_UNITS)
  {
    var requirements, verdicts := [r], [Verdict(r.id, verdict)];
    assert UnitsOf(requirements) == [Weights.WEIGHT_UNITS] && [Weights.WEIGHT_UNITS][1..] == [];
    assert Sum(UnitsOf(requirements)) == Weights.WEIGHT_UNITS;
    assert RubricError(rubric, requirements).None?;
    assert Ids(requirements)[0] == r.id;
    assert verdicts[1..] == [];
    var answers := map[r.id := verdict];
    assert Indexed(Elements(Ids(requirements)), verdicts, map[]) == Ok(map[][r.id := verdict]);
    assert map[][r.id := verdict] == answers;
    assert IndexVerdicts(requirements, verdicts) == Ok(answers);
    ScoreIsCappedSum(rubric, answers, requirements);
    assert !FailsMustHave(answers, requirements[0]);
    assert PointsOf(answers, requirements) == [Points(verdict, Weights.WEIGHT_UNITS)];
    assert [Points(verdict, Weights.WEIGHT_UNITS)][1..] == [];
    assert RawScore(answers, requirements) == Points(verdict, Weights.WEIGHT_UNITS);
  }

  lemma ScoredOnce(judge: Judge, p: Profile, verdict: string)
    requires judge(p, ONE_REQUIREMENT.requirements) == Some([VerdictOutput(0, verdict)]) && KnownVerdict(verdict)
    ensures ScoreOf(judge, ONE_REQUIREMENT, p) == Some(Points(verdict, Weights.WEIGHT_UNITS))
  {
    var c := ONE_REQUIREMENT;
    var r := c.requirements[0];
    JudgedOnce(judge, p, r, verdict);
    AggregatedOnce(r, c.rubric, verdict);
    assert VerdictsFor([Judged(r, verdict)]) == [Verdict(0, verdict)];
  }

  lemma TwoListed(a: Listed, b: Listed)
    requires a.profile.candidateId != b.profile.candidateId
    ensures FirstOfEach([a, b]) == [a.profile, b.profile]
  {
    assert [a, b][..1] == [a] && [a][..0] == [];
    assert FirstOfEach([a]) == [] + [a.profile];
    assert ProfileIds([a.profile]) == [a.profile.candidateId];
  }

  const ONE := Profile(1, 1)
  const TWO := Profile(2, 2)

  lemma OneScored(p: Profile, verdict: string)
    requires verdict == if p.candidateId == 1 then "missing" else "met"
    ensures ScorerOf(AllButOne(1), ONE_REQUIREMENT)(p) == Some(if p.candidateId == 1 then 0 else 10_000)
  {
    ScoredOnce(AllButOne(1), p, verdict);
  }

  /** Candidate 1 has fewer points than candidate 2: the first call lists 1 before 2, the second call 2 before 1. */
  lemma WorseFirstReorders(scorer: Scorer, later: Scorer, low: int, high: int)
    requires scorer(ONE) == Some(low) && scorer(TWO) == Some(high) && low < high
    ensures var listed, start := [Listed(ONE, 0), Listed(TWO, 0)], Run(Queued, []);
            && SortedBy(listed, ListedBefore)
            && Attempt(scorer, FirstOfEach(listed), start).1.Some?
            && !Repeats(scorer, later, FirstOfEach(listed), start)
  {
    var profiles, listed := [ONE, TWO], [Listed(ONE, 0), Listed(TWO, 0)];
    TwoListed(listed[0], listed[1]);
    NothingStoredYet(profiles);
    UninterruptedCompletes(scorer, profiles, profiles, []);
    SecondCallRepeatsFirstIff(scorer, later, listed);
    ScoresFallIff(scorer, profiles, [low, high]);
  }

  /** A judge and a rubric for which the second call returns another list than the first. */
  lemma SecondCallReorders(later: Judge)
    ensures var listed, start := [Listed(ONE, 0), Listed(TWO, 0)], Run(Queued, []);
            var first, second := ScorerOf(AllButOne(1), ONE_REQUIREMENT), ScorerOf(later, ONE_REQUIREMENT);
            && SortedBy(listed, ListedBefore)
            && Attempt(first, FirstOfEach(listed), start).1.Some?
            && !Repeats(first, second, FirstOfEach(listed), start)
  {
    var first, second := ScorerOf(AllButOne(1), ONE_REQUIREMENT), ScorerOf(later, ONE_REQUIREMENT);
    OneScored(ONE, "missing");
    OneScored(TWO, "met");
    WorseFirstReorders(first, second, 0, 10_000);
  }

  // ---- the service ----

  /** Judge the whole rubric for one candidate, then aggregate. */
  method ScoreCandidate(judge: Judge, c: Criteria, p: Profile) returns (score: Option<int>)
    ensures score == ScoreOf(judge, c, p)
  {
    var judged := JudgeRubric(judge, p, c.requirements);
    if judged.None? {
      return None;
    }
    var aggregation := AggregateScore(c.rubric, c.requirements, VerdictsFor(judged.value));
    if aggregation.Err? {
      return None;
    }
    return Some(aggregation.value.score);
  }

  method Unscored(profiles: seq<Profile>, rows: seq<Row>) returns (todo: seq<Profile>)
    ensures todo == ToScore(profiles, rows)
  {
    todo := [];
    for i := 0 to |profiles|
      invariant ToScore(profiles, rows) == todo + ToScore(profiles[i..], rows)
    {
      assert profiles[i..][1..] == profiles[i + 1..];
      if !Stored(rows, profiles[i].candidateId) {
        todo := todo + [profiles[i]];
      }
    }
  }

  function SetRank(rows: seq<Row>, candidateId: nat, rank: nat): (r: seq<Row>)
    ensures CandidateIds(r) == CandidateIds(rows)
  {
    Map((r: Row) => if r.candidateId == candidateId then r.(rank := Some(rank)) else r, rows)
  }

  lemma PlaceIff(rows: seq<Row>, i: nat, k: nat)
    requires i < |rows| && k < |rows| && Distinct(CandidateIds(rows))
    ensures PlaceOf(Sort(rows, Before), rows[i].candidateId) < |rows|
    ensures PlaceOf(Sort(rows, Before), rows[i].candidateId) == k
       <==> rows[i].candidateId == Sort(rows, Before)[k].candidateId
  {
    SortedRows(rows);
    var place := SortedPosition(rows, i);
    PlaceIsPosition(Sort(rows, Before), place);
    PlaceIsPosition(Sort(rows, Before), k);
  }

  /** The rows whose places come before `k` have their ranks. */
  predicate RankedUpTo(places: seq<nat>, rows: seq<Row>, ranked: seq<Row>, k: nat) {
    |places| == |ranked| == |rows| && forall i :: 0 <= i < |rows| ==>
      ranked[i] == if places[i] < k then rows[i].(rank := Some(1 + places[i])) else rows[i]
  }

  lemma RankedOneMore(places: seq<nat>, rows: seq<Row>, ranked: seq<Row>, candidateId: nat, k: nat)
    requires RankedUpTo(places, rows, ranked, k)
    requires forall i :: 0 <= i < |rows| ==> (places[i] == k <==> rows[i].candidateId == candidateId)
    ensures RankedUpTo(places, rows, SetRank(ranked, candidateId, k + 1), k + 1)
  {
  }

  function Places(rows: seq<Row>): (r: seq<nat>)
    ensures |r| == |rows|
  {
    seq(|rows|, i requires 0 <= i < |rows| => PlaceOf(Sort(rows, Before), rows[i].candidateId))
  }

  /** Number the sorted rows from one. */
  method AssignRanks(rows: seq<Row>) returns (ranked: seq<Row>)
    requires Distinct(CandidateIds(rows))
    ensures ranked == Ranked(rows)
  {
    var ordered := Sort(rows, Before);
    ghost var places := Places(rows);
    ranked := rows;
    for k := 0 to |ordered|
      invariant RankedUpTo(places, rows, ranked, k)
    {
      forall i | 0 <= i < |rows| ensures places[i] == k <==> rows[i].candidateId == ordered[k].candidateId {
        PlaceIff(rows, i, k);
      }
      RankedOneMore(places, rows, ranked, ordered[k].candidateId, k);
      ranked := SetRank(ranked, ordered[k].candidateId, k + 1);
    }
    forall i | 0 <= i < |rows| ensures ranked[i] == Ranked(rows)[i] {
      PlaceIff(rows, i, 0);
    }
  }

  class ScreeningRun {
    var status: Status
    var rows: seq<Row>

    ghost function State(): Run
      reads this
    {
      Run(status, rows)
    }

    constructor ()
      ensures State() == Run(Queued, [])
    {
      status, rows := Queued, [];
    }

    /** One attempt; the store allows one row per candidate of a run. */
    method Execute(judge: Judge, c: Criteria, listed: seq<Listed>) returns (r: Option<seq<Row>>)
      requires Distinct(CandidateIds(rows))
      modifies this
      ensures (State(), r) == Attempt(ScorerOf(judge, c), FirstOfEach(listed), old(State()))
      ensures Distinct(CandidateIds(rows))
    {
      if status.Completed? {
        return Some(Sort(rows, ByRank));
      }
      status := Running;
      var profiles := CandidateProfiles(listed);
      FirstOfEachIsDistinct(listed);
      ToScoreIsPending(profiles, profiles, rows);
      var todo := Unscored(profiles, rows);
      var all := ScoreAll(judge, c, profiles, todo);
      if !all {
        return None;
      }
      rows := AssignRanks(rows);
      status := Completed;
      return Some(rows);
    }

    /** Score and store one candidate after another until the judge fails. */
    method ScoreAll(judge: Judge, c: Criteria, ghost profiles: seq<Profile>, todo: seq<Profile>) returns (all: bool)
      requires Distinct(CandidateIds(rows)) && Pending(profiles, rows, todo)
      modifies this`rows
      ensures (rows, all) == ScoreEach(ScorerOf(judge, c), todo, old(rows))
      ensures Distinct(CandidateIds(rows))
    {
      for i := 0 to |todo|
        invariant Distinct(CandidateIds(rows)) && Pending(profiles, rows, todo[i..])
        invariant ScoreEach(ScorerOf(judge, c), todo, old(rows)) == ScoreEach(ScorerOf(judge, c), todo[i..], rows)
      {
        var score := ScoreCandidate(judge, c, todo[i]);
        if score.None? {
          return false;
        }
        var row := Row(todo[i].candidateId, score.value, None);
        assert todo[i..][1..] == todo[i + 1..];
        StillPending(profiles, rows, todo[i..], row);
        IdsAppended(rows, row);
        rows := rows + [row];
      }
      return true;
    }
  }
}
