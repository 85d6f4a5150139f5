/**
 The rules of a published score (serving/app/services/scoring.py, `aggregate_score`), in terms of
 the rubric, its rows and the verdicts given: what each verdict earns, what a failed must-have
 does, which inputs are refused. The functions that compute the score are not used to say it.
 */
module ScoreRules {
  import opened Wrappers
  import opened Sorting
  import opened Sums
  import opened Scoring

  /** The verdict given on a requirement; the first, should there be more. */
  function VerdictOn(verdicts: seq<Verdict>, id: nat): string {
    if verdicts == [] then ""
    else if verdicts[0].requirementId == id then verdicts[0].verdict
    else VerdictOn(verdicts[1..], id)
  }

  /** Full weight when met, half of it rounded half up when partial, nothing otherwise. */
  function PointsFor(verdict: string, units: int): int {
    if verdict == "met" then units
    else if verdict == "partial" then (if units >= 0 then (units + 1) / 2 else -((1 - units) / 2))
    else 0
  }

  function RawTotal(requirements: seq<Requirement>, verdicts: seq<Verdict>): int {
    if requirements == [] then 0
    else
      PointsFor(VerdictOn(verdicts, requirements[0].id), requirements[0].units) + RawTotal(requirements[1..], verdicts)
  }

  function UnitTotal(requirements: seq<Requirement>): int {
    if requirements == [] then 0 else requirements[0].units + UnitTotal(requirements[1..])
  }

  /** Some must-have did not get the verdict "met". */
  predicate MissesMustHave(requirements: seq<Requirement>, verdicts: seq<Verdict>) {
    exists i :: 0 <= i < |requirements| && requirements[i].isMustHave && VerdictOn(verdicts, requirements[i].id) != "met"
  }

  // ---- which inputs are scored ----

  /** Approved, of the known formula, with rows of its own whose weights sum to one but for a unit. */
  predicate Scorable(rubric: Rubric, requirements: seq<Requirement>) {
    && rubric.approved && rubric.formulaVersion == "v1" && requirements != []
    && (forall i :: 0 <= i < |requirements| ==> requirements[i].versionId == rubric.id)
    && 9_999 <= UnitTotal(requirements) <= 10_001
  }

  /** One recognized verdict on each requirement, and on nothing else. */
  predicate JudgedOnce(requirements: seq<Requirement>, verdicts: seq<Verdict>) {
    && (forall i, j :: 0 <= i < j < |verdicts| ==> verdicts[i].requirementId != verdicts[j].requirementId)
    && (forall i :: 0 <= i < |verdicts| ==> verdicts[i].verdict in {"met", "partial", "missing", "unclear"})
    && (forall i :: 0 <= i < |verdicts| ==> IsRow(requirements, verdicts[i].requirementId))
    && (forall i :: 0 <= i < |requirements| ==> IsJudged(verdicts, requirements[i].id))
  }

  predicate IsRow(requirements: seq<Requirement>, id: nat) {
    exists i :: 0 <= i < |requirements| && requirements[i].id == id
  }

  predicate IsJudged(verdicts: seq<Verdict>, id: nat) {
    exists i :: 0 <= i < |verdicts| && verdicts[i].requirementId == id
  }

  lemma {:induction false} UnitsAdd(requirements: seq<Requirement>)
    ensures Sum(UnitsOf(requirements)) == UnitTotal(requirements)
  {
    if requirements != [] {
      UnitsAdd(requirements[1..]);
    }
  }

  lemma RowIds(requirements: seq<Requirement>, id: nat)
    ensures id in Elements(Ids(requirements)) <==> IsRow(requirements, id)
  {
    if IsRow(requirements, id) {
      var i :| 0 <= i < |requirements| && requirements[i].id == id;
      assert Ids(requirements)[i] == id;
    }
  }

  lemma JudgedIds(verdicts: seq<Verdict>, id: nat)
    ensures id in Elements(Named(verdicts)) <==> IsJudged(verdicts, id)
  {
    if IsJudged(verdicts, id) {
      var i :| 0 <= i < |verdicts| && verdicts[i].requirementId == id;
      assert Named(verdicts)[i] == id;
    }
  }

  lemma JudgedOnceIff(requirements: seq<Requirement>, verdicts: seq<Verdict>)
    ensures OneVerdictEach(requirements, verdicts) <==> JudgedOnce(requirements, verdicts)
  {
    forall id: nat
      ensures id in Elements(Ids(requirements)) <==> IsRow(requirements, id)
      ensures id in Elements(Named(verdicts)) <==> IsJudged(verdicts, id)
    {
      RowIds(requirements, id);
      JudgedIds(verdicts, id);
    }
    if OneVerdictEach(requirements, verdicts) {
      EachIsRow(requirements, verdicts);
    } else if JudgedOnce(requirements, verdicts) {
      EachIsNamed(requirements, verdicts);
    }
  }

  lemma EachIsRow(requirements: seq<Requirement>, verdicts: seq<Verdict>)
    requires OneVerdictEach(requirements, verdicts)
    ensures JudgedOnce(requirements, verdicts)
  {
    forall i, j | 0 <= i < j < |verdicts| ensures verdicts[i].requirementId != verdicts[j].requirementId {
      assert Named(verdicts)[i] != Named(verdicts)[j];
    }
    forall i | 0 <= i < |verdicts| ensures IsRow(requirements, verdicts[i].requirementId) {
      assert Named(verdicts)[i] in Elements(Named(verdicts));
      RowIds(requirements, verdicts[i].requirementId);
    }
    forall i | 0 <= i < |requirements| ensures IsJudged(verdicts, requirements[i].id) {
      assert Ids(requirements)[i] in Elements(Ids(requirements));
      JudgedIds(verdicts, requirements[i].id);
    }
  }

  lemma EachIsNamed(requirements: seq<Requirement>, verdicts: seq<Verdict>)
    requires JudgedOnce(requirements, verdicts)
    ensures OneVerdictEach(requirements, verdicts)
  {
    forall id: nat ensures id in Elements(Named(verdicts)) <==> id in Elements(Ids(requirements)) {
      RowIds(requirements, id);
      JudgedIds(verdicts, id);
    }
    assert Elements(Named(verdicts)) == Elements(Ids(requirements));
  }

  // ---- the score ----

  lemma {:induction false} FirstVerdict(verdicts: seq<Verdict>, k: nat)
    requires k < |verdicts|
    requires forall i, j :: 0 <= i < j < |verdicts| ==> verdicts[i].requirementId != verdicts[j].requirementId
    ensures VerdictOn(verdicts, verdicts[k].requirementId) == verdicts[k].verdict
  {
    if k > 0 {
      assert verdicts[0].requirementId != verdicts[k].requirementId;
      FirstVerdict(verdicts[1..], k - 1);
    }
  }

  /** The recorded answers are the verdicts given. */
  predicate Records(answers: map<nat, string>, requirements: seq<Requirement>, verdicts: seq<Verdict>) {
    forall i :: 0 <= i < |requirements| ==> AnswerTo(answers, requirements[i]) == VerdictOn(verdicts, requirements[i].id)
  }

  lemma RecordedAnswers(requirements: seq<Requirement>, verdicts: seq<Verdict>)
    requires JudgedOnce(requirements, verdicts)
    ensures IndexVerdicts(requirements, verdicts).Ok?
    ensures Records(IndexVerdicts(requirements, verdicts).value, requirements, verdicts)
  {
    JudgedOnceIff(requirements, verdicts);
    AcceptedIffOneVerdictEach(requirements, verdicts);
    var answers := IndexVerdicts(requirements, verdicts).value;
    forall i | 0 <= i < |requirements| ensures AnswerTo(answers, requirements[i]) == VerdictOn(verdicts, requirements[i].id) {
      var k :| 0 <= k < |verdicts| && verdicts[k].requirementId == requirements[i].id;
      FirstVerdict(verdicts, k);
    }
  }

  lemma PointsAre(verdict: string, units: int)
    ensures Points(verdict, units) == PointsFor(verdict, units)
  {
  }

  lemma {:induction false} RawIsTotal(answers: map<nat, string>, requirements: seq<Requirement>, verdicts: seq<Verdict>)
    requires Records(answers, requirements, verdicts)
    ensures RawScore(answers, requirements) == RawTotal(requirements, verdicts)
  {
    if requirements != [] {
      forall i | 0 <= i < |requirements| - 1
        ensures AnswerTo(answers, requirements[1..][i]) == VerdictOn(verdicts, requirements[1..][i].id)
      {
        assert requirements[1..][i] == requirements[i + 1];
      }
      RawIsTotal(answers, requirements[1..], verdicts);
      PointsAre(AnswerTo(answers, requirements[0]), requirements[0].units);
    }
  }

  lemma RubricPasses(rubric: Rubric, requirements: seq<Requirement>)
    ensures RubricError(rubric, requirements).None? <==> Scorable(rubric, requirements)
  {
    UnitsAdd(requirements);
  }

  lemma VerdictsPass(requirements: seq<Requirement>, verdicts: seq<Verdict>)
    ensures IndexVerdicts(requirements, verdicts).Ok? <==> JudgedOnce(requirements, verdicts)
  {
    JudgedOnceIff(requirements, verdicts);
    AcceptedIffOneVerdictEach(requirements, verdicts);
  }

  lemma AggregateSplits(rubric: Rubric, requirements: seq<Requirement>, verdicts: seq<Verdict>)
    ensures Aggregate(rubric, requirements, verdicts).Ok?
       <==> RubricError(rubric, requirements).None? && IndexVerdicts(requirements, verdicts).Ok?
    ensures Aggregate(rubric, requirements, verdicts).Ok? ==>
              Aggregate(rubric, requirements, verdicts).value == Scored(rubric, IndexVerdicts(requirements, verdicts).value, requirements)
  {
  }

  /** Exactly a scorable rubric with one recognized verdict on each row is scored. */
  lemma ScoredIffJudgedOnce(rubric: Rubric, requirements: seq<Requirement>, verdicts: seq<Verdict>)
    ensures Aggregate(rubric, requirements, verdicts).Ok? <==> Scorable(rubric, requirements) && JudgedOnce(requirements, verdicts)
  {
    RubricPasses(rubric, requirements);
    VerdictsPass(requirements, verdicts);
    AggregateSplits(rubric, requirements, verdicts);
  }

  /**
   The raw score is the sum of what the verdicts earn. If some must-have was not met, the score is
   the smaller of the raw score and the cap, otherwise it is the raw score; the cap is reported
   as applied exactly when it changed the score.
   */
  predicate FollowsRules(result: ScoreResult, cap: int, requirements: seq<Requirement>, verdicts: seq<Verdict>) {
    var raw := RawTotal(requirements, verdicts);
    && result.rawScore == raw
    && result.score == (if MissesMustHave(requirements, verdicts) && cap < raw then cap else raw)
    && result.mustHaveFailed == MissesMustHave(requirements, verdicts)
    && result.capApplied == (result.score != raw)
  }

  lemma ScoreFollowsRules(rubric: Rubric, requirements: seq<Requirement>, verdicts: seq<Verdict>)
    requires Aggregate(rubric, requirements, verdicts).Ok?
    ensures FollowsRules(Aggregate(rubric, requirements, verdicts).value, 100 * rubric.failCap, requirements, verdicts)
  {
    AggregateSplits(rubric, requirements, verdicts);
    VerdictsPass(requirements, verdicts);
    var answers := IndexVerdicts(requirements, verdicts).value;
    RecordedAnswers(requirements, verdicts);
    ScoredFollowsRules(rubric, answers, requirements, verdicts);
  }

  lemma ScoredFollowsRules(rubric: Rubric, answers: map<nat, string>, requirements: seq<Requirement>, verdicts: seq<Verdict>)
    requires Records(answers, requirements, verdicts)
    ensures FollowsRules(Scored(rubric, answers, requirements), 100 * rubric.failCap, requirements, verdicts)
  {
    RawIsTotal(answers, requirements, verdicts);
    ScoreIsCappedSum(rubric, answers, requirements);
    MustHaveIff(answers, requirements, verdicts);
  }

  lemma MustHaveIff(answers: map<nat, string>, requirements: seq<Requirement>, verdicts: seq<Verdict>)
    requires Records(answers, requirements, verdicts)
    ensures MustHaveFailed(answers, requirements) <==> MissesMustHave(requirements, verdicts)
  {
    if MissesMustHave(requirements, verdicts) {
      var i :| 0 <= i < |requirements| && requirements[i].isMustHave && VerdictOn(verdicts, requirements[i].id) != "met";
      assert FailsMustHave(answers, requirements[i]);
    }
    if MustHaveFailed(answers, requirements) {
      var i :| 0 <= i < |requirements| && FailsMustHave(answers, requirements[i]);
      assert requirements[i].isMustHave && VerdictOn(verdicts, requirements[i].id) != "met";
    }
  }

  // ---- the breakdown ----

  predicate InDisplayOrder(rows: seq<Requirement>) {
    forall i, j :: 0 <= i < j < |rows| ==>
      rows[i].ordinal < rows[j].ordinal || (rows[i].ordinal == rows[j].ordinal && rows[i].id <= rows[j].id)
  }

  /** What the breakdown says of a row. */
  predicate Explains(c: Contribution, r: Requirement, verdicts: seq<Verdict>) {
    && c.requirementId == r.id && c.ordinal == r.ordinal && c.units == r.units && c.isMustHave == r.isMustHave
    && c.verdict == VerdictOn(verdicts, r.id) && c.points == PointsFor(c.verdict, r.units)
  }

  predicate ExplainsAll(contributions: seq<Contribution>, ordered: seq<Requirement>, verdicts: seq<Verdict>) {
    |contributions| == |ordered| && forall i :: 0 <= i < |ordered| ==> Explains(contributions[i], ordered[i], verdicts)
  }

  /** Exactly the must-have rows whose verdict is not "met". */
  ghost predicate NamesMissed(failed: seq<nat>, ordered: seq<Requirement>, verdicts: seq<Verdict>) {
    forall id: nat :: id in failed <==>
      exists i :: 0 <= i < |ordered| && ordered[i].id == id && ordered[i].isMustHave && VerdictOn(verdicts, id) != "met"
  }

  /** The breakdown explains every row once, in display order, and the failed must-haves are named. */
  lemma BreakdownExplainsRows(rubric: Rubric, requirements: seq<Requirement>, verdicts: seq<Verdict>) returns (ordered: seq<Requirement>)
    requires Aggregate(rubric, requirements, verdicts).Ok?
    ensures multiset(ordered) == multiset(requirements) && InDisplayOrder(ordered)
    ensures var result := Aggregate(rubric, requirements, verdicts).value;
            ExplainsAll(result.contributions, ordered, verdicts) && NamesMissed(result.failedMustHaves, ordered, verdicts)
  {
    AggregateSplits(rubric, requirements, verdicts);
    VerdictsPass(requirements, verdicts);
    var answers := IndexVerdicts(requirements, verdicts).value;
    RecordedAnswers(requirements, verdicts);
    ordered := OrderedRows(answers, requirements, verdicts);
    BreakdownExplains(answers, ordered, verdicts);
    forall id: nat
      ensures id in FailedIds(answers, ordered) <==>
                exists i :: 0 <= i < |ordered| && ordered[i].id == id && ordered[i].isMustHave && VerdictOn(verdicts, id) != "met"
    {
      FailedIdsAre(answers, ordered, verdicts, id);
    }
  }

  lemma OrderedRows(answers: map<nat, string>, requirements: seq<Requirement>, verdicts: seq<Verdict>) returns (ordered: seq<Requirement>)
    requires Records(answers, requirements, verdicts)
    ensures ordered == Sort(requirements, ByOrdinal) && multiset(ordered) == multiset(requirements)
    ensures InDisplayOrder(ordered) && Records(answers, ordered, verdicts)
  {
    ordered := Sort(requirements, ByOrdinal);
    ByOrdinalIsOrder(requirements);
    SortSorts(requirements, ByOrdinal);
    SortPermutes(requirements, ByOrdinal);
    SamePresence(requirements, ordered);
    forall i | 0 <= i < |ordered| ensures AnswerTo(answers, ordered[i]) == VerdictOn(verdicts, ordered[i].id) {
      assert ordered[i] in requirements;
    }
  }

  lemma BreakdownExplains(answers: map<nat, string>, ordered: seq<Requirement>, verdicts: seq<Verdict>)
    requires Records(answers, ordered, verdicts)
    ensures ExplainsAll(Breakdown(answers, ordered), ordered, verdicts)
  {
    forall i | 0 <= i < |ordered| ensures Explains(Breakdown(answers, ordered)[i], ordered[i], verdicts) {
      PointsAre(AnswerTo(answers, ordered[i]), ordered[i].units);
    }
  }

  lemma {:induction false} FailedIdsAre(answers: map<nat, string>, rows: seq<Requirement>, verdicts: seq<Verdict>, id: nat)
    requires Records(answers, rows, verdicts)
    ensures id in FailedIds(answers, rows) <==>
              exists i :: 0 <= i < |rows| && rows[i].id == id && rows[i].isMustHave && VerdictOn(verdicts, id) != "met"
    decreases |rows|
  {
    if rows != [] {
      var last := |rows| - 1;
      var front := rows[..last];
      assert forall i :: 0 <= i < last ==> front[i] == rows[i];
      FailedIdsAre(answers, front, verdicts, id);
      assert AnswerTo(answers, rows[last]) == VerdictOn(verdicts, rows[last].id);
    }
  }
}
