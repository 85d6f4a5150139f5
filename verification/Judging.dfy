/**
 Judging a rubric in batches (serving/app/services/screening.py, `_batches` and the judge loop;
 serving/app/agents/semantic_matching.py, `parse_judge_response`).

 The judge is a function from a profile and a batch to the verdicts it answered, or nothing
 when the provider failed.
 */
module Judging {
  import opened Wrappers
  import opened Batching
  import opened Sorting
  import opened Scoring

  datatype Profile = Profile(candidateId: nat, resumeVersionId: nat)

  datatype VerdictOutput = VerdictOutput(requirementIndex: int, verdict: string)

  type Judge = (Profile, seq<Requirement>) -> Option<seq<VerdictOutput>>

  datatype Judged = Judged(requirement: Requirement, verdict: string)

  const BATCH_SIZE := 6

  /** The answer is accepted only with one verdict per requirement of the batch, all recognized. */
  function Parsed(answer: seq<VerdictOutput>, expected: nat): Option<seq<VerdictOutput>> {
    if |answer| != expected || answer == [] then None
    else if exists i :: 0 <= i < |answer| && !KnownVerdict(answer[i].verdict) then None
    else Some(answer)
  }

  /** A dictionary by index: a later answer overwrites an earlier one. */
  function ByIndex(answer: seq<VerdictOutput>): map<int, string> {
    if answer == [] then map[]
    else
      var last := answer[|answer| - 1];
      ByIndex(answer[..|answer| - 1])[last.requirementIndex := last.verdict]
  }

  predicate CoversBatch(verdicts: map<int, string>, size: nat) {
    && (forall i :: 0 <= i < size ==> i in verdicts)
    && (forall i :: i in verdicts ==> 0 <= i < size)
  }

  function JudgedBatch(judge: Judge, p: Profile, batch: seq<Requirement>): Option<seq<Judged>> {
    match judge(p, batch)
    case None => None
    case Some(raw) =>
      match Parsed(raw, |batch|)
      case None => None
      case Some(answer) =>
        var verdicts := ByIndex(answer);
        if !CoversBatch(verdicts, |batch|) then None
        else Some(seq(|batch|, i requires 0 <= i < |batch| => Judged(batch[i], if i in verdicts then verdicts[i] else "")))
  }

  function Following(first: seq<Judged>, rest: Option<seq<Judged>>): Option<seq<Judged>> {
    match rest
    case None => None
    case Some(r) => Some(first + r)
  }

  function JudgedBatches(judge: Judge, p: Profile, batches: seq<seq<Requirement>>): Option<seq<Judged>> {
    if batches == [] then Some([])
    else
      match JudgedBatch(judge, p, batches[0])
      case None => None
      case Some(first) => Following(first, JudgedBatches(judge, p, batches[1..]))
  }

  function JudgedAll(judge: Judge, p: Profile, requirements: seq<Requirement>): Option<seq<Judged>> {
    JudgedBatches(judge, p, Batches(requirements, BATCH_SIZE))
  }

  lemma FollowingTwice(a: seq<Judged>, b: seq<Judged>, rest: Option<seq<Judged>>)
    ensures Following([], rest) == rest
    ensures Following(a, Following(b, rest)) == Following(a + b, rest)
  {
    if rest.Some? {
      assert [] + rest.value == rest.value;
      assert a + (b + rest.value) == a + b + rest.value;
    }
  }

  /** Judge a rubric batch by batch; the first failed batch fails the whole rubric. */
  method JudgeRubric(judge: Judge, p: Profile, requirements: seq<Requirement>) returns (r: Option<seq<Judged>>)
    ensures r == JudgedAll(judge, p, requirements)
  {
    var batches := Batches(requirements, BATCH_SIZE);
    var judged: seq<Judged> := [];
    FollowingTwice([], [], JudgedBatches(judge, p, batches));
    assert batches[0..] == batches;
    for i := 0 to |batches|
      invariant JudgedAll(judge, p, requirements) == Following(judged, JudgedBatches(judge, p, batches[i..]))
    {
      var answered := JudgedBatch(judge, p, batches[i]);
      if answered.None? {
        return None;
      }
      assert batches[i..][1..] == batches[i + 1..];
      FollowingTwice(judged, answered.value, JudgedBatches(judge, p, batches[i + 1..]));
      judged := judged + answered.value;
    }
    assert judged + [] == judged;
    return Some(judged);
  }

  // ---- an accepted answer is a permutation of the batch ----

  function Indices(answer: seq<VerdictOutput>): seq<int> {
    Map((v: VerdictOutput) => v.requirementIndex, answer)
  }

  lemma IndicesAppend(answer: seq<VerdictOutput>)
    requires answer != []
    ensures var last := |answer| - 1;
            Indices(answer) == Indices(answer[..last]) + [answer[last].requirementIndex]
  {
  }

  lemma {:induction false} ByIndexKeys(answer: seq<VerdictOutput>)
    ensures forall i: int :: i in ByIndex(answer) <==> i in Indices(answer)
  {
    if answer != [] {
      ByIndexKeys(answer[..|answer| - 1]);
      IndicesAppend(answer);
    }
  }

  lemma {:induction false} ByIndexValue(answer: seq<VerdictOutput>, k: nat)
    requires Distinct(Indices(answer)) && k < |answer|
    ensures answer[k].requirementIndex in ByIndex(answer)
    ensures ByIndex(answer)[answer[k].requirementIndex] == answer[k].verdict
  {
    var last := |answer| - 1;
    if k < last {
      IndicesAppend(answer);
      ByIndexValue(answer[..last], k);
      assert Indices(answer)[k] != Indices(answer)[last];
    }
  }

  function Range(n: nat): (r: set<int>)
    ensures |r| == n
    ensures forall i :: i in r <==> 0 <= i < n
  {
    if n == 0 then {} else Range(n - 1) + {n - 1}
  }

  lemma {:induction false} FullSizeIsDistinct(s: seq<int>)
    requires |Elements(s)| == |s|
    ensures Distinct(s)
  {
    if s != [] {
      var rest := s[1..];
      ElementsSize(rest);
      assert Elements(s) == {s[0]} + Elements(rest) by {
        assert s == [s[0]] + rest;
      }
      assert s[0] !in Elements(rest);
      FullSizeIsDistinct(rest);
    }
  }

  predicate AnswersPosition(answer: seq<VerdictOutput>, i: int) {
    exists k :: 0 <= k < |answer| && answer[k].requirementIndex == i
  }

  /**
   An answer of the batch's length whose indices are exactly the batch's positions repeats
   none of them, so no verdict was overwritten and every requirement gets its own.
   */
  lemma AcceptedAnswerIsPermutation(answer: seq<VerdictOutput>, size: nat)
    requires |answer| == size && CoversBatch(ByIndex(answer), size)
    ensures Distinct(Indices(answer))
    ensures forall k :: 0 <= k < size ==>
              0 <= answer[k].requirementIndex < size && ByIndex(answer)[answer[k].requirementIndex] == answer[k].verdict
    ensures forall i :: 0 <= i < size ==> AnswersPosition(answer, i)
  {
    var indices := Indices(answer);
    ByIndexKeys(answer);
    assert Elements(indices) == Range(size);
    FullSizeIsDistinct(indices);
    forall k | 0 <= k < size
      ensures 0 <= answer[k].requirementIndex < size && ByIndex(answer)[answer[k].requirementIndex] == answer[k].verdict
    {
      ByIndexValue(answer, k);
    }
    forall i | 0 <= i < size ensures AnswersPosition(answer, i) {
      assert i in indices;
      var k :| 0 <= k < |indices| && indices[k] == i;
      assert answer[k].requirementIndex == i;
    }
  }

  // ---- every requirement gets its own verdict ----

  function RequirementsOf(judged: seq<Judged>): seq<Requirement> {
    Map((j: Judged) => j.requirement, judged)
  }

  /** The verdict is the one the judge gave, in answer to this batch, under the requirement's position. */
  predicate Answers(judge: Judge, p: Profile, batch: seq<Requirement>, i: nat, verdict: string) {
    && i < |batch| && judge(p, batch).Some?
    && exists k :: 0 <= k < |judge(p, batch).value|
         && judge(p, batch).value[k] == VerdictOutput(i, verdict)
  }

  lemma JudgedBatchAnswers(judge: Judge, p: Profile, batch: seq<Requirement>)
    requires JudgedBatch(judge, p, batch).Some?
    ensures var judged := JudgedBatch(judge, p, batch).value;
            && RequirementsOf(judged) == batch
            && forall i :: 0 <= i < |judged| ==> KnownVerdict(judged[i].verdict) && Answers(judge, p, batch, i, judged[i].verdict)
  {
    var answer := judge(p, batch).value;
    var judged := JudgedBatch(judge, p, batch).value;
    AcceptedAnswerIsPermutation(answer, |batch|);
    forall i | 0 <= i < |judged| ensures KnownVerdict(judged[i].verdict) && Answers(judge, p, batch, i, judged[i].verdict) {
      assert AnswersPosition(answer, i);
      var k :| 0 <= k < |answer| && answer[k].requirementIndex == i;
      assert answer[k] == VerdictOutput(i, judged[i].verdict);
    }
  }

  lemma {:induction false} JudgedBatchesInOrder(judge: Judge, p: Profile, batches: seq<seq<Requirement>>)
    requires JudgedBatches(judge, p, batches).Some?
    ensures var judged := JudgedBatches(judge, p, batches).value;
            && RequirementsOf(judged) == Flatten(batches)
            && forall i :: 0 <= i < |judged| ==> KnownVerdict(judged[i].verdict)
  {
    if batches != [] {
      JudgedBatchAnswers(judge, p, batches[0]);
      JudgedBatchesInOrder(judge, p, batches[1..]);
      var first, rest := JudgedBatch(judge, p, batches[0]).value, JudgedBatches(judge, p, batches[1..]).value;
      MapConcat((j: Judged) => j.requirement, first, rest);
      assert RequirementsOf(first + rest) == RequirementsOf(first) + RequirementsOf(rest);
    }
  }

  function VerdictsFor(judged: seq<Judged>): seq<Verdict> {
    Map((j: Judged) => Verdict(j.requirement.id, j.verdict), judged)
  }

  /**
   A judged rubric is in rubric order, with exactly one recognized verdict for each requirement,
   so aggregation cannot fail for a missing, duplicate, unknown or unrecognized verdict.
   */
  lemma JudgedRubricIsComplete(judge: Judge, p: Profile, requirements: seq<Requirement>)
    requires JudgedAll(judge, p, requirements).Some? && Distinct(Ids(requirements))
    ensures var judged := JudgedAll(judge, p, requirements).value;
            && RequirementsOf(judged) == requirements
            && OneVerdictEach(requirements, VerdictsFor(judged))
            && IndexVerdicts(requirements, VerdictsFor(judged)).Ok?
  {
    var judged := JudgedAll(judge, p, requirements).value;
    BatchesPartition(requirements, BATCH_SIZE);
    JudgedBatchesInOrder(judge, p, Batches(requirements, BATCH_SIZE));
    assert Named(VerdictsFor(judged)) == Ids(requirements) by {
      forall i | 0 <= i < |judged| ensures judged[i].requirement == requirements[i] {
        assert RequirementsOf(judged)[i] == requirements[i];
      }
    }
    AcceptedIffOneVerdictEach(requirements, VerdictsFor(judged));
  }

  /** Requirement `i`, at place `k` of batch `b`, carries the verdict that batch answered under `k`. */
  predicate GetsOwnVerdict(judge: Judge, p: Profile, requirements: seq<Requirement>, i: nat, b: nat, k: nat) {
    var batches, judged := Batches(requirements, BATCH_SIZE), JudgedAll(judge, p, requirements);
    && b < |batches| && k < |batches[b]| && i < |requirements| && judged.Some? && i < |judged.value|
    && batches[b][k] == requirements[i] == judged.value[i].requirement
    && Answers(judge, p, batches[b], k, judged.value[i].verdict)
  }

  lemma OwnVerdictFirst(judge: Judge, p: Profile, requirements: seq<Requirement>, k: nat)
    requires JudgedAll(judge, p, requirements).Some? && k < |requirements| && k < BATCH_SIZE
    ensures GetsOwnVerdict(judge, p, requirements, k, 0, k)
  {
    var batches := Batches(requirements, BATCH_SIZE);
    JudgedBatchAnswers(judge, p, batches[0]);
    var first := JudgedBatch(judge, p, batches[0]).value;
    assert RequirementsOf(first)[k] == batches[0][k];
    assert JudgedAll(judge, p, requirements).value[k] == first[k];
  }

  /** The batches after the first are those of the remaining requirements. */
  lemma JudgedRest(judge: Judge, p: Profile, requirements: seq<Requirement>)
    requires JudgedAll(judge, p, requirements).Some? && |requirements| > BATCH_SIZE
    ensures var rest, batches := requirements[BATCH_SIZE..], Batches(requirements, BATCH_SIZE);
            && batches == [requirements[..BATCH_SIZE]] + Batches(rest, BATCH_SIZE)
            && JudgedAll(judge, p, rest).Some?
            && |JudgedAll(judge, p, requirements).value| == BATCH_SIZE + |JudgedAll(judge, p, rest).value|
            && JudgedAll(judge, p, requirements).value[BATCH_SIZE..] == JudgedAll(judge, p, rest).value
  {
    var batches := Batches(requirements, BATCH_SIZE);
    assert batches[1..] == Batches(requirements[BATCH_SIZE..], BATCH_SIZE);
    JudgedBatchAnswers(judge, p, batches[0]);
    var first := JudgedBatch(judge, p, batches[0]).value;
    assert |RequirementsOf(first)| == |first|;
  }

  lemma {:induction false} OwnVerdictAt(judge: Judge, p: Profile, requirements: seq<Requirement>, i: nat, b: nat, k: nat)
    requires JudgedAll(judge, p, requirements).Some? && i < |requirements|
    requires i == BATCH_SIZE * b + k && k < BATCH_SIZE
    ensures GetsOwnVerdict(judge, p, requirements, i, b, k)
    decreases b
  {
    if b == 0 {
      OwnVerdictFirst(judge, p, requirements, k);
    } else {
      var rest := requirements[BATCH_SIZE..];
      JudgedRest(judge, p, requirements);
      OwnVerdictAt(judge, p, rest, i - BATCH_SIZE, b - 1, k);
      var all, later := JudgedAll(judge, p, requirements).value, JudgedAll(judge, p, rest).value;
      assert all[i] == all[BATCH_SIZE..][i - BATCH_SIZE] == later[i - BATCH_SIZE];
    }
  }

  /** Requirement `i` gets the verdict its own batch `i / 6` answered under its own position `i % 6`. */
  lemma OwnVerdict(judge: Judge, p: Profile, requirements: seq<Requirement>, i: nat)
    requires JudgedAll(judge, p, requirements).Some? && i < |requirements|
    ensures GetsOwnVerdict(judge, p, requirements, i, i / BATCH_SIZE, i % BATCH_SIZE)
  {
    OwnVerdictAt(judge, p, requirements, i, i / BATCH_SIZE, i % BATCH_SIZE);
  }

  // ---- which answers are accepted ----

  /** Six requirements from place `6 * b` on, or as many as are left. */
  function SixFrom(requirements: seq<Requirement>, b: nat): (r: seq<Requirement>)
    requires 6 * b < |requirements|
  {
    requirements[6 * b..if 6 * b + 6 <= |requirements| then 6 * b + 6 else |requirements|]
  }

  /** The judge answered, once under each position of the batch, with verdicts that are known. */
  predicate ValidAnswer(judge: Judge, p: Profile, batch: seq<Requirement>) {
    && judge(p, batch).Some?
    && var answer := judge(p, batch).value;
       && |answer| == |batch|
       && (forall k :: 0 <= k < |answer| ==> answer[k].verdict in {"met", "partial", "missing", "unclear"})
       && (forall i :: 0 <= i < |batch| ==> AnswersPosition(answer, i))
  }

  lemma AnsweredIsIndexed(answer: seq<VerdictOutput>, i: int)
    requires AnswersPosition(answer, i)
    ensures i in Indices(answer)
  {
    var k :| 0 <= k < |answer| && answer[k].requirementIndex == i;
    assert Indices(answer)[k] == i;
  }

  /** As many indices as positions, with each position among them, are exactly the positions. */
  lemma IndicesAreRange(indices: seq<int>, size: nat)
    requires |indices| == size && forall i :: 0 <= i < size ==> i in indices
    ensures Elements(indices) == Range(size)
  {
    ElementsSize(indices);
    SubsetSize(Range(size), Elements(indices));
  }

  lemma AnsweredPositionsCover(answer: seq<VerdictOutput>, size: nat)
    requires |answer| == size && forall i :: 0 <= i < size ==> AnswersPosition(answer, i)
    ensures CoversBatch(ByIndex(answer), size)
  {
    ByIndexKeys(answer);
    forall i | 0 <= i < size ensures i in Indices(answer) {
      AnsweredIsIndexed(answer, i);
    }
    IndicesAreRange(Indices(answer), size);
    forall i | i in ByIndex(answer) ensures 0 <= i < size {
      assert i in Elements(Indices(answer));
    }
  }

  lemma BatchJudgedIffValid(judge: Judge, p: Profile, batch: seq<Requirement>)
    requires batch != []
    ensures JudgedBatch(judge, p, batch).Some? <==> ValidAnswer(judge, p, batch)
  {
    if ValidAnswer(judge, p, batch) {
      AnsweredPositionsCover(judge(p, batch).value, |batch|);
    }
    if JudgedBatch(judge, p, batch).Some? {
      var answer := judge(p, batch).value;
      AcceptedAnswerIsPermutation(answer, |batch|);
      assert forall k :: 0 <= k < |answer| ==> KnownVerdict(answer[k].verdict);
    }
  }

  lemma {:induction false} AllJudgedIffEach(judge: Judge, p: Profile, batches: seq<seq<Requirement>>)
    ensures JudgedBatches(judge, p, batches).Some? <==>
              forall b :: 0 <= b < |batches| ==> JudgedBatch(judge, p, batches[b]).Some?
  {
    if batches != [] {
      AllJudgedIffEach(judge, p, batches[1..]);
      if JudgedBatches(judge, p, batches).Some? {
        forall b | 0 <= b < |batches| ensures JudgedBatch(judge, p, batches[b]).Some? {
          if b > 0 {
            assert batches[b] == batches[1..][b - 1];
          }
        }
      }
      if forall b :: 0 <= b < |batches| ==> JudgedBatch(judge, p, batches[b]).Some? {
        forall b | 0 <= b < |batches| - 1 ensures JudgedBatch(judge, p, batches[1..][b]).Some? {
          assert batches[1..][b] == batches[b + 1];
        }
        assert JudgedBatch(judge, p, batches[0]).Some?;
      }
    }
  }

  /** A rubric is judged exactly when the judge gives a valid answer to each six of its requirements. */
  lemma JudgedIffAnswersValid(judge: Judge, p: Profile, requirements: seq<Requirement>)
    ensures JudgedAll(judge, p, requirements).Some? <==>
              forall b: nat :: 6 * b < |requirements| ==> ValidAnswer(judge, p, SixFrom(requirements, b))
  {
    var batches := Batches(requirements, 6);
    AllJudgedIffEach(judge, p, batches);
    forall b: nat
      ensures b < |batches| <==> 6 * b < |requirements|
      ensures b < |batches| ==> batches[b] == SixFrom(requirements, b)
      ensures b < |batches| ==> (JudgedBatch(judge, p, batches[b]).Some? <==> ValidAnswer(judge, p, SixFrom(requirements, b)))
    {
      BatchFrom(requirements, 6, b, 6 * b);
      if b < |batches| {
        BatchJudgedIffValid(judge, p, batches[b]);
      }
    }
  }

  /** And then requirement `i` carries the verdict answered to its own six under its own position. */
  lemma JudgedCarriesVerdicts(judge: Judge, p: Profile, requirements: seq<Requirement>, i: nat)
    requires JudgedAll(judge, p, requirements).Some? && i < |requirements|
    ensures var judged, b := JudgedAll(judge, p, requirements).value, i / 6;
            && |judged| == |requirements| && judged[i].requirement == requirements[i] && 6 * b < |requirements|
            && Answers(judge, p, SixFrom(requirements, b), i % 6, judged[i].verdict)
  {
    OwnVerdict(judge, p, requirements, i);
    BatchFrom(requirements, 6, i / 6, 6 * (i / 6));
    BatchesPartition(requirements, BATCH_SIZE);
    JudgedBatchesInOrder(judge, p, Batches(requirements, BATCH_SIZE));
  }
}
