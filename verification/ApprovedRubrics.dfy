/**
 From the rubric store to the score (serving/app/services/rubric.py and
 serving/app/services/scoring.py): what the life cycle stores is what aggregation accepts.

 The two services read the same rows. A stored requirement has no identifier in the model of the
 life cycle, so the row identifiers are a parameter here.
 */
module ApprovedRubrics {
  import opened Wrappers
  import opened Sorting
  import opened Sums
  import Weights
  import RubricStore
  import opened Scoring

  /** The columns of a stored version and its rows that aggregation reads. */
  function RubricOf(v: RubricStore.Version, versionId: nat, formulaVersion: string): Rubric {
    Rubric(versionId, v.status.Approved?, formulaVersion, v.failCap)
  }

  function RowsOf(requirements: seq<RubricStore.Requirement>, ids: seq<nat>, versionId: nat): (r: seq<Requirement>)
    requires |ids| == |requirements|
    ensures |r| == |requirements|
  {
    seq(|requirements|, i requires 0 <= i < |requirements| =>
      Requirement(ids[i], versionId, requirements[i].ordinal, requirements[i].isMustHave, requirements[i].units))
  }

  /** A sound stored set is normalized in the sense of the score. */
  lemma StoredSetIsNormalized(requirements: seq<RubricStore.Requirement>, ids: seq<nat>, versionId: nat)
    requires |ids| == |requirements|
    ensures RubricStore.SoundSet(requirements) ==>
              RowsOf(requirements, ids, versionId) != [] && Normalized(RowsOf(requirements, ids, versionId))
    ensures UnitsOf(RowsOf(requirements, ids, versionId)) == RubricStore.UnitsOf(requirements)
  {
    assert UnitsOf(RowsOf(requirements, ids, versionId)) == RubricStore.UnitsOf(requirements);
    if RubricStore.SoundSet(requirements) {
      forall i | 0 <= i < |requirements| ensures RowsOf(requirements, ids, versionId)[i].units >= 0 {
      }
    }
  }

  /** All checks on the rubric pass for an approved version whose set is sound. */
  lemma SoundRubricPasses(v: RubricStore.Version, ids: seq<nat>, versionId: nat)
    requires v.status.Approved? && RubricStore.SoundSet(v.requirements) && |ids| == |v.requirements|
    ensures RubricError(RubricOf(v, versionId, "v1"), RowsOf(v.requirements, ids, versionId)).None?
  {
    StoredSetIsNormalized(v.requirements, ids, versionId);
  }

  predicate AllMet(verdicts: seq<Verdict>) {
    forall i :: 0 <= i < |verdicts| ==> verdicts[i].verdict == "met"
  }

  lemma MetAnswers(requirements: seq<Requirement>, verdicts: seq<Verdict>, answers: map<nat, string>, i: nat)
    requires OneVerdictEach(requirements, verdicts) && Reflects(answers, verdicts) && AllMet(verdicts) && i < |requirements|
    ensures AnswerTo(answers, requirements[i]) == "met"
  {
    assert Ids(requirements)[i] == requirements[i].id;
    assert requirements[i].id in Elements(Named(verdicts));
    var k :| 0 <= k < |verdicts| && Named(verdicts)[k] == requirements[i].id;
  }

  /**
   An approved version reached by any sequence of calls is scored whenever each of its rows has
   exactly one recognized verdict: the score lies between 0 and 100, and is 100.00 when
   everything is met. No call on the store can make an approved rubric unscorable.
   */
  lemma ApprovedVersionsScore(
    h: RubricStore.Hashing, s: RubricStore.Store, calls: seq<RubricStore.Call>, id: nat, ids: seq<nat>, verdicts: seq<Verdict>)
    requires RubricStore.Inv(h, s) && id < |RubricStore.AfterAll(h, s, calls).versions|
    requires var v := RubricStore.AfterAll(h, s, calls).versions[id];
             && v.status.Approved? && v.failCap >= 0 && |ids| == |v.requirements|
             && OneVerdictEach(RowsOf(v.requirements, ids, id), verdicts)
    ensures var v := RubricStore.AfterAll(h, s, calls).versions[id];
            var result := Aggregate(RubricOf(v, id, "v1"), RowsOf(v.requirements, ids, id), verdicts);
            && result.Ok? && 0 <= result.value.score <= 10_000
            && (AllMet(verdicts) ==> result.value.score == 10_000)
  {
    RubricStore.HistoryIsImmutable(h, s, calls);
    var t := RubricStore.AfterAll(h, s, calls);
    assert RubricStore.SoundVersion(h, t.jobs, t.versions[id]);
    SoundVersionScores(t.versions[id], id, ids, verdicts);
  }

  lemma SoundVersionScores(v: RubricStore.Version, id: nat, ids: seq<nat>, verdicts: seq<Verdict>)
    requires v.status.Approved? && RubricStore.SoundSet(v.requirements) && v.failCap >= 0 && |ids| == |v.requirements|
    requires OneVerdictEach(RowsOf(v.requirements, ids, id), verdicts)
    ensures var result := Aggregate(RubricOf(v, id, "v1"), RowsOf(v.requirements, ids, id), verdicts);
            && result.Ok? && 0 <= result.value.score <= 10_000
            && (AllMet(verdicts) ==> result.value.score == 10_000)
  {
    var rubric, rows := RubricOf(v, id, "v1"), RowsOf(v.requirements, ids, id);
    SoundRubricPasses(v, ids, id);
    StoredSetIsNormalized(v.requirements, ids, id);
    AcceptedIffOneVerdictEach(rows, verdicts);
    var answers := IndexVerdicts(rows, verdicts).value;
    ScoreIsPercentage(rubric, answers, rows);
    if AllMet(verdicts) {
      forall i | 0 <= i < |rows| ensures AnswerTo(answers, rows[i]) == "met" {
        MetAnswers(rows, verdicts, answers, i);
      }
    }
  }
}
