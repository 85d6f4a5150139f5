/**
 From the judge's answers to the stored scores (serving/app/services/screening.py): which
 candidates get a score, and which score an attempt stores.
 */
module JudgedScores {
  import opened Wrappers
  import opened Sorting
  import opened Scoring
  import opened Judging
  import opened ScoreRules
  import opened Screening

  /** The verdict on each row is the one the judge answered to its own six under its own position. */
  predicate GivenBy(judge: Judge, p: Profile, requirements: seq<Requirement>, verdicts: seq<Verdict>) {
    && |verdicts| == |requirements|
    && forall i: nat | i < |verdicts| :: GivenAt(judge, p, requirements, verdicts[i], i)
  }

  predicate GivenAt(judge: Judge, p: Profile, requirements: seq<Requirement>, v: Verdict, i: nat) {
    && i < |requirements| && v.requirementId == requirements[i].id
    && Answers(judge, p, SixFrom(requirements, i / 6), i % 6, v.verdict)
  }

  predicate IdsDiffer(requirements: seq<Requirement>) {
    forall i, j :: 0 <= i < j < |requirements| ==> requirements[i].id != requirements[j].id
  }

  /** The raw score of the verdicts, or the cap if some must-have was not met and the cap is smaller. */
  function ScoreBy(c: Criteria, verdicts: seq<Verdict>): int {
    var raw, cap := RawTotal(c.requirements, verdicts), 100 * c.rubric.failCap;
    if MissesMustHave(c.requirements, verdicts) && cap < raw then cap else raw
  }

  lemma JudgedVerdicts(judge: Judge, p: Profile, requirements: seq<Requirement>)
    requires JudgedAll(judge, p, requirements).Some?
    ensures GivenBy(judge, p, requirements, VerdictsFor(JudgedAll(judge, p, requirements).value))
  {
    var judged := JudgedAll(judge, p, requirements).value;
    if requirements == [] {
      assert judged == [];
    } else {
      JudgedCarriesVerdicts(judge, p, requirements, 0);
    }
    forall i: nat | i < |judged| ensures GivenAt(judge, p, requirements, VerdictsFor(judged)[i], i) {
      JudgedCarriesVerdicts(judge, p, requirements, i);
    }
  }

  /** What a judge gives is one recognized verdict on each row, if the rows can be told apart. */
  lemma GivenVerdictsPass(judge: Judge, p: Profile, requirements: seq<Requirement>)
    requires JudgedAll(judge, p, requirements).Some?
    ensures IndexVerdicts(requirements, VerdictsFor(JudgedAll(judge, p, requirements).value)).Ok? <==> IdsDiffer(requirements)
  {
    var verdicts := VerdictsFor(JudgedAll(judge, p, requirements).value);
    JudgedVerdicts(judge, p, requirements);
    if IdsDiffer(requirements) {
      JudgedRubricIsComplete(judge, p, requirements);
    } else {
      var i, j :| 0 <= i < j < |requirements| && requirements[i].id == requirements[j].id;
      assert GivenAt(judge, p, requirements, verdicts[i], i) && GivenAt(judge, p, requirements, verdicts[j], j);
      VerdictsPass(requirements, verdicts);
    }
  }

  ghost predicate AnswersAreValid(judge: Judge, p: Profile, requirements: seq<Requirement>) {
    forall b: nat :: 6 * b < |requirements| ==> ValidAnswer(judge, p, SixFrom(requirements, b))
  }

  /**
   A candidate gets a score exactly when the judge answers each six of the rows validly and the
   rubric is scorable with rows that can be told apart. The score is the one of the verdicts the
   judge gave.
   */
  lemma ScoreFollowsJudge(judge: Judge, c: Criteria, p: Profile) returns (verdicts: seq<Verdict>)
    ensures ScoreOf(judge, c, p).Some? <==>
              AnswersAreValid(judge, p, c.requirements) && Scorable(c.rubric, c.requirements) && IdsDiffer(c.requirements)
    ensures ScoreOf(judge, c, p).Some? ==>
              GivenBy(judge, p, c.requirements, verdicts) && ScoreOf(judge, c, p).value == ScoreBy(c, verdicts)
  {
    JudgedIffAnswersValid(judge, p, c.requirements);
    verdicts := [];
    if JudgedAll(judge, p, c.requirements).Some? {
      verdicts := VerdictsFor(JudgedAll(judge, p, c.requirements).value);
      JudgedVerdicts(judge, p, c.requirements);
      GivenVerdictsPass(judge, p, c.requirements);
      AggregateSplits(c.rubric, c.requirements, verdicts);
      RubricPasses(c.rubric, c.requirements);
      if Aggregate(c.rubric, c.requirements, verdicts).Ok? {
        ScoreFollowsRules(c.rubric, c.requirements, verdicts);
      }
    }
  }

  // ---- what an attempt stores ----

  predicate SameScore(r: Row, s: Row) {
    r.candidateId == s.candidateId && r.score == s.score
  }

  /** The row was there before, or holds what the scorer gives one of the profiles. */
  predicate Accounts(scorer: Scorer, profiles: seq<Profile>, rows: seq<Row>, r: Row) {
    || (exists k :: 0 <= k < |rows| && SameScore(rows[k], r))
    || (exists i :: 0 <= i < |profiles| && r.candidateId == profiles[i].candidateId && scorer(profiles[i]) == Some(r.score))
  }

  predicate AllAccounted(scorer: Scorer, profiles: seq<Profile>, before: seq<Row>, rows: seq<Row>) {
    forall k :: 0 <= k < |rows| ==> Accounts(scorer, profiles, before, rows[k])
  }

  lemma {:induction false} ScoredRows(scorer: Scorer, profiles: seq<Profile>, todo: seq<Profile>, before: seq<Row>, rows: seq<Row>)
    requires forall i :: 0 <= i < |todo| ==> todo[i] in profiles
    requires AllAccounted(scorer, profiles, before, rows)
    ensures AllAccounted(scorer, profiles, before, ScoreEach(scorer, todo, rows).0)
    decreases |todo|
  {
    if todo != [] && scorer(todo[0]).Some? {
      var row := Row(todo[0].candidateId, scorer(todo[0]).value, None);
      var i :| 0 <= i < |profiles| && profiles[i] == todo[0];
      assert Accounts(scorer, profiles, before, row);
      assert ScoreEach(scorer, todo, rows) == ScoreEach(scorer, todo[1..], rows + [row]);
      ScoredRows(scorer, profiles, todo[1..], before, rows + [row]);
    }
  }

  lemma {:induction false} StillToScore(profiles: seq<Profile>, rows: seq<Row>)
    ensures forall i :: 0 <= i < |ToScore(profiles, rows)| ==> ToScore(profiles, rows)[i] in profiles
  {
    if profiles != [] {
      StillToScore(profiles[1..], rows);
      assert profiles == [profiles[0]] + profiles[1..];
    }
  }

  /** Every row after an attempt was stored before it, or holds the score that the attempt's judge leads to. */
  lemma StoredScoresFollowJudge(scorer: Scorer, profiles: seq<Profile>, run: Run, k: nat)
    requires k < |Attempt(scorer, profiles, run).0.rows|
    ensures Accounts(scorer, profiles, run.rows, Attempt(scorer, profiles, run).0.rows[k])
  {
    if run.status.Completed? {
      assert SameScore(run.rows[k], run.rows[k]);
    } else {
      StillToScore(profiles, run.rows);
      forall j | 0 <= j < |run.rows| ensures Accounts(scorer, profiles, run.rows, run.rows[j]) {
        assert SameScore(run.rows[j], run.rows[j]);
      }
      ScoredRows(scorer, profiles, ToScore(profiles, run.rows), run.rows, run.rows);
      var (rows, all) := ScoreEach(scorer, ToScore(profiles, run.rows), run.rows);
      if all {
        RankingKeepsScores(scorer, profiles, run.rows, rows, k);
      }
    }
  }

  lemma RankingKeepsScores(scorer: Scorer, profiles: seq<Profile>, before: seq<Row>, rows: seq<Row>, k: nat)
    requires k < |rows| && Accounts(scorer, profiles, before, rows[k])
    ensures Accounts(scorer, profiles, before, Ranked(rows)[k])
  {
    assert SameScore(rows[k], Ranked(rows)[k]);
    if j :| 0 <= j < |before| && SameScore(before[j], rows[k]) {
      assert SameScore(before[j], Ranked(rows)[k]);
    }
  }

  /** A run attempted for the first time stores, for a candidate of its list, the score of the verdicts its judge gave. */
  lemma FirstAttemptStoresJudgedScores(judge: Judge, c: Criteria, listed: seq<Listed>, k: nat)
    returns (p: Profile, verdicts: seq<Verdict>)
    requires k < |Attempt(ScorerOf(judge, c), FirstOfEach(listed), Run(Queued, [])).0.rows|
    ensures var row := Attempt(ScorerOf(judge, c), FirstOfEach(listed), Run(Queued, [])).0.rows[k];
            && p in FirstOfEach(listed) && row.candidateId == p.candidateId
            && GivenBy(judge, p, c.requirements, verdicts) && row.score == ScoreBy(c, verdicts)
  {
    var scorer, profiles := ScorerOf(judge, c), FirstOfEach(listed);
    StoredScoresFollowJudge(scorer, profiles, Run(Queued, []), k);
    var row := Attempt(scorer, profiles, Run(Queued, [])).0.rows[k];
    var i :| 0 <= i < |profiles| && row.candidateId == profiles[i].candidateId && scorer(profiles[i]) == Some(row.score);
    p := profiles[i];
    assert ScoreOf(judge, c, p) == Some(row.score);
    verdicts := ScoreFollowsJudge(judge, c, p);
  }

  // ---- when an attempt completes the run ----

  lemma {:induction false} GetsThroughIff(scorer: Scorer, todo: seq<Profile>, rows: seq<Row>)
    ensures ScoreEach(scorer, todo, rows).1 <==> forall i :: 0 <= i < |todo| ==> scorer(todo[i]).Some?
    decreases |todo|
  {
    if todo != [] && scorer(todo[0]).Some? {
      var row := Row(todo[0].candidateId, scorer(todo[0]).value, None);
      GetsThroughIff(scorer, todo[1..], rows + [row]);
      if ScoreEach(scorer, todo[1..], rows + [row]).1 {
        forall i | 0 <= i < |todo| ensures scorer(todo[i]).Some? {
          if i > 0 {
            assert todo[i] == todo[1..][i - 1];
          }
        }
      }
      if forall i :: 0 <= i < |todo| ==> scorer(todo[i]).Some? {
        forall i | 0 <= i < |todo| - 1 ensures scorer(todo[1..][i]).Some? {
          assert todo[1..][i] == todo[i + 1];
        }
      }
    }
  }

  predicate HasRow(rows: seq<Row>, candidateId: nat) {
    exists k :: 0 <= k < |rows| && rows[k].candidateId == candidateId
  }

  lemma {:induction false} LeftToScore(profiles: seq<Profile>, rows: seq<Row>, p: Profile)
    ensures p in ToScore(profiles, rows) <==> p in profiles && !HasRow(rows, p.candidateId)
  {
    if profiles != [] {
      LeftToScore(profiles[1..], rows, p);
      assert profiles == [profiles[0]] + profiles[1..];
      assert Stored(rows, profiles[0].candidateId) <==> HasRow(rows, profiles[0].candidateId);
    }
  }

  /** The candidates without a row all get a score. */
  ghost predicate AllLeftScorable(scorer: Scorer, profiles: seq<Profile>, rows: seq<Row>) {
    forall p :: p in profiles && !HasRow(rows, p.candidateId) ==> scorer(p).Some?
  }

  /**
   An attempt at a run that is not completed completes it, and returns its rows, exactly when
   every candidate without a row gets a score; otherwise the run stays running and nothing is
   returned. A completed run is not touched.
   */
  lemma AttemptCompletesIff(scorer: Scorer, profiles: seq<Profile>, run: Run)
    ensures var (after, returned) := Attempt(scorer, profiles, run);
            if run.status.Completed? then after == run && returned.Some? && multiset(returned.value) == multiset(run.rows)
            else
              && (after.status == Completed <==> AllLeftScorable(scorer, profiles, run.rows))
              && (returned.Some? <==> after.status == Completed)
              && (after.status != Completed ==> after.status == Running)
              && (returned.Some? ==> returned.value == after.rows)
  {
    if run.status.Completed? {
      SortPermutes(run.rows, ByRank);
    } else {
      var todo := ToScore(profiles, run.rows);
      GetsThroughIff(scorer, todo, run.rows);
      forall p ensures p in todo <==> p in profiles && !HasRow(run.rows, p.candidateId) {
        LeftToScore(profiles, run.rows, p);
      }
      if forall i :: 0 <= i < |todo| ==> scorer(todo[i]).Some? {
        forall p | p in profiles && !HasRow(run.rows, p.candidateId) ensures scorer(p).Some? {
          assert p in todo;
        }
      }
      if AllLeftScorable(scorer, profiles, run.rows) {
        forall i | 0 <= i < |todo| ensures scorer(todo[i]).Some? {
          assert todo[i] in todo;
        }
      }
    }
  }
}
