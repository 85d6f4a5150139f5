/**
 Score aggregation (serving/app/services/scoring.py).

 Weights are whole units of 0.0001 and points whole hundredths, so the arithmetic is exact:
 full credit for `u` units is `u` hundredths and half credit is `u / 2` rounded half up.
 */
module Scoring {
  import opened Wrappers
  import opened Sorting
  import opened Sums
  import Weights

  datatype Requirement = Requirement(id: nat, versionId: nat, ordinal: int, isMustHave: bool, units: int)

  datatype Rubric = Rubric(id: nat, approved: bool, formulaVersion: string, failCap: int)

  datatype Verdict = Verdict(requirementId: nat, verdict: string)

  datatype Error =
    | NotApproved | UnknownFormula | NoRequirements | ForeignRequirement | NotNormalized
    | UnknownVerdict | UnknownRequirement | DuplicateVerdict | MissingVerdict

  datatype Contribution = Contribution(
    requirementId: nat, ordinal: int, units: int, isMustHave: bool, verdict: string, points: int)

  datatype ScoreResult = ScoreResult(
    score: int, rawScore: int, mustHaveFailed: bool, capApplied: bool,
    failedMustHaves: seq<nat>, contributions: seq<Contribution>)

  // ---- credit ----

  predicate KnownVerdict(verdict: string) {
    verdict in {"met", "partial", "missing", "unclear"}
  }

  /** Credit in halves of the weight. */
  function Credit(verdict: string): (c: int)
    ensures 0 <= c <= 2
  {
    if verdict == "met" then 2 else if verdict == "partial" then 1 else 0
  }

  /** `n / 2` rounded to the nearest, halves away from zero. */
  function HalvedUp(n: int): int {
    if n >= 0 then (n + 1) / 2 else -((-n + 1) / 2)
  }

  /** The points of one requirement in hundredths: weight times credit, quantized half up. */
  function Points(verdict: string, units: int): int {
    HalvedUp(units * Credit(verdict))
  }

  // ---- checks ----

  function UnitsOf(requirements: seq<Requirement>): seq<int> {
    Map((r: Requirement) => r.units, requirements)
  }

  function Ids(requirements: seq<Requirement>): seq<nat> {
    Map((r: Requirement) => r.id, requirements)
  }

  function RubricError(rubric: Rubric, requirements: seq<Requirement>): Option<Error> {
    if !rubric.approved then Some(NotApproved)
    else if rubric.formulaVersion != "v1" then Some(UnknownFormula)
    else if requirements == [] then Some(NoRequirements)
    else if exists i :: 0 <= i < |requirements| && requirements[i].versionId != rubric.id then Some(ForeignRequirement)
    else
      var total := Sum(UnitsOf(requirements));
      if total - Weights.WEIGHT_UNITS > 1 || Weights.WEIGHT_UNITS - total > 1 then Some(NotNormalized) else None
  }

  /** Accept verdicts one by one, refusing anything ambiguous. */
  function Indexed(known: set<nat>, verdicts: seq<Verdict>, accepted: map<nat, string>): Result<map<nat, string>, Error>
    decreases |verdicts|
  {
    if verdicts == [] then Ok(accepted)
    else
      var v := verdicts[0];
      if !KnownVerdict(v.verdict) then Err(UnknownVerdict)
      else if v.requirementId !in known then Err(UnknownRequirement)
      else if v.requirementId in accepted then Err(DuplicateVerdict)
      else Indexed(known, verdicts[1..], accepted[v.requirementId := v.verdict])
  }

  function IndexVerdicts(requirements: seq<Requirement>, verdicts: seq<Verdict>): Result<map<nat, string>, Error> {
    match Indexed(Elements(Ids(requirements)), verdicts, map[])
    case Err(e) => Err(e)
    case Ok(answers) =>
      if exists i :: 0 <= i < |requirements| && requirements[i].id !in answers then Err(MissingVerdict) else Ok(answers)
  }

  // ---- aggregation ----

  /** Display order, ties by id. */
  predicate ByOrdinal(a: Requirement, b: Requirement) {
    a.ordinal < b.ordinal || (a.ordinal == b.ordinal && a.id <= b.id)
  }

  function AnswerTo(answers: map<nat, string>, r: Requirement): string {
    if r.id in answers then answers[r.id] else ""
  }

  function Contributes(answers: map<nat, string>, r: Requirement): Contribution {
    Contribution(r.id, r.ordinal, r.units, r.isMustHave, AnswerTo(answers, r), Points(AnswerTo(answers, r), r.units))
  }

  function Breakdown(answers: map<nat, string>, requirements: seq<Requirement>): seq<Contribution> {
    Map((r: Requirement) => Contributes(answers, r), requirements)
  }

  predicate FailsMustHave(answers: map<nat, string>, r: Requirement) {
    r.isMustHave && AnswerTo(answers, r) != "met"
  }

  function FailedIds(answers: map<nat, string>, requirements: seq<Requirement>): seq<nat> {
    if requirements == [] then []
    else
      var last := requirements[|requirements| - 1];
      var before := FailedIds(answers, requirements[..|requirements| - 1]);
      if FailsMustHave(answers, last) then before + [last.id] else before
  }

  function PointsOf(answers: map<nat, string>, requirements: seq<Requirement>): seq<int> {
    Map((r: Requirement) => Points(AnswerTo(answers, r), r.units), requirements)
  }

  function RawScore(answers: map<nat, string>, requirements: seq<Requirement>): int {
    Sum(PointsOf(answers, requirements))
  }

  predicate MustHaveFailed(answers: map<nat, string>, requirements: seq<Requirement>) {
    exists i :: 0 <= i < |requirements| && FailsMustHave(answers, requirements[i])
  }

  /** A failed must-have caps the score; the cap never lifts it. */
  function Capped(raw: int, cap: int, failed: bool): int {
    if failed && raw > cap then cap else raw
  }

  function FinalScore(rubric: Rubric, answers: map<nat, string>, requirements: seq<Requirement>): int {
    Capped(RawScore(answers, requirements), 100 * rubric.failCap, MustHaveFailed(answers, requirements))
  }

  function Scored(rubric: Rubric, answers: map<nat, string>, requirements: seq<Requirement>): ScoreResult {
    var ordered := Sort(requirements, ByOrdinal);
    var raw := RawScore(answers, ordered);
    var failed := FailedIds(answers, ordered);
    ScoreResult(Capped(raw, 100 * rubric.failCap, failed != []), raw, failed != [],
                failed != [] && raw > 100 * rubric.failCap, failed,
                Breakdown(answers, ordered))
  }

  function Aggregate(rubric: Rubric, requirements: seq<Requirement>, verdicts: seq<Verdict>): Result<ScoreResult, Error> {
    match RubricError(rubric, requirements)
    case Some(e) => Err(e)
    case None =>
      match IndexVerdicts(requirements, verdicts)
      case Err(e) => Err(e)
      case Ok(answers) => Ok(Scored(rubric, answers, requirements))
  }

  // ---- which verdict sets are accepted ----

  function Named(verdicts: seq<Verdict>): seq<nat> {
    Map((v: Verdict) => v.requirementId, verdicts)
  }

  /** The answers say exactly what the verdicts say. */
  predicate Reflects(answers: map<nat, string>, verdicts: seq<Verdict>) {
    && (forall i :: 0 <= i < |verdicts| ==>
          verdicts[i].requirementId in answers && answers[verdicts[i].requirementId] == verdicts[i].verdict)
    && (forall id :: id in answers ==> exists i :: 0 <= i < |verdicts| && verdicts[i].requirementId == id)
  }

  predicate WellFormed(known: set<nat>, verdicts: seq<Verdict>) {
    && Distinct(Named(verdicts))
    && forall i :: 0 <= i < |verdicts| ==> KnownVerdict(verdicts[i].verdict) && verdicts[i].requirementId in known
  }

  lemma {:induction false} IndexedIffWellFormed(known: set<nat>, verdicts: seq<Verdict>, accepted: map<nat, string>)
    ensures Indexed(known, verdicts, accepted).Ok? <==>
              WellFormed(known, verdicts) && forall i :: 0 <= i < |verdicts| ==> verdicts[i].requirementId !in accepted
    ensures Indexed(known, verdicts, accepted).Ok? ==>
              var answers := Indexed(known, verdicts, accepted).value;
              && (forall id :: id in accepted ==> id in answers && answers[id] == accepted[id])
              && (forall i :: 0 <= i < |verdicts| ==>
                    verdicts[i].requirementId in answers && answers[verdicts[i].requirementId] == verdicts[i].verdict)
              && (forall id :: id in answers ==>
                    id in accepted || exists i :: 0 <= i < |verdicts| && verdicts[i].requirementId == id)
    decreases |verdicts|
  {
    if verdicts != [] {
      var v, rest := verdicts[0], verdicts[1..];
      var extended := accepted[v.requirementId := v.verdict];
      IndexedIffWellFormed(known, rest, extended);
      assert Named(rest) == Named(verdicts)[1..];
    }
  }

  /** Accepted are exactly the sets with one recognized verdict for every requirement and for nothing else. */
  predicate OneVerdictEach(requirements: seq<Requirement>, verdicts: seq<Verdict>) {
    && Distinct(Named(verdicts))
    && (forall i :: 0 <= i < |verdicts| ==> KnownVerdict(verdicts[i].verdict))
    && Elements(Named(verdicts)) == Elements(Ids(requirements))
  }

  lemma AcceptedIffOneVerdictEach(requirements: seq<Requirement>, verdicts: seq<Verdict>)
    ensures IndexVerdicts(requirements, verdicts).Ok? <==> OneVerdictEach(requirements, verdicts)
    ensures IndexVerdicts(requirements, verdicts).Ok? ==> Reflects(IndexVerdicts(requirements, verdicts).value, verdicts)
  {
    IndexedIffWellFormed(Elements(Ids(requirements)), verdicts, map[]);
    if OneVerdictEach(requirements, verdicts) {
      NothingMissing(requirements, verdicts, Indexed(Elements(Ids(requirements)), verdicts, map[]).value);
    }
  }

  lemma NothingMissing(requirements: seq<Requirement>, verdicts: seq<Verdict>, answers: map<nat, string>)
    requires OneVerdictEach(requirements, verdicts)
    requires forall i :: 0 <= i < |verdicts| ==> verdicts[i].requirementId in answers
    ensures forall i :: 0 <= i < |requirements| ==> requirements[i].id in answers
  {
    forall i | 0 <= i < |requirements| ensures requirements[i].id in answers {
      assert requirements[i].id in Elements(Named(verdicts));
    }
  }

  // ---- order does not matter ----

  lemma ByOrdinalIsOrder(requirements: seq<Requirement>)
    ensures TotalPreorder(ByOrdinal)
    ensures Distinct(Ids(requirements)) ==> AntisymmetricOn(requirements, ByOrdinal)
  {
    if Distinct(Ids(requirements)) {
      forall i, j | 0 <= i < |requirements| && 0 <= j < |requirements|
                    && ByOrdinal(requirements[i], requirements[j]) && ByOrdinal(requirements[j], requirements[i])
        ensures requirements[i] == requirements[j]
      {
        assert Ids(requirements)[i] == Ids(requirements)[j];
      }
    }
  }

  lemma RawScorePermuted(answers: map<nat, string>, a: seq<Requirement>, b: seq<Requirement>)
    requires multiset(a) == multiset(b)
    ensures RawScore(answers, a) == RawScore(answers, b)
  {
    var points := (r: Requirement) => Points(AnswerTo(answers, r), r.units);
    MapPermutes(points, a, b);
    assert PointsOf(answers, a) == Map(points, a) && PointsOf(answers, b) == Map(points, b);
    SumPermuted(PointsOf(answers, a), PointsOf(answers, b));
  }

  lemma {:induction false} FailedIffSome(answers: map<nat, string>, requirements: seq<Requirement>)
    ensures FailedIds(answers, requirements) != [] <==> MustHaveFailed(answers, requirements)
  {
    if requirements != [] {
      var last := |requirements| - 1;
      FailedIffSome(answers, requirements[..last]);
      assert forall i :: 0 <= i < last ==> requirements[..last][i] == requirements[i];
    }
  }

  lemma MustHaveFailedPermuted(answers: map<nat, string>, a: seq<Requirement>, b: seq<Requirement>)
    requires multiset(a) == multiset(b)
    ensures MustHaveFailed(answers, a) ==> MustHaveFailed(answers, b)
  {
    SamePresence(a, b);
    if MustHaveFailed(answers, a) {
      var i :| 0 <= i < |a| && FailsMustHave(answers, a[i]);
      assert a[i] in b;
    }
  }

  /** The published score needs no order: it is the capped sum over the requirements as given. */
  lemma ScoreIsCappedSum(rubric: Rubric, answers: map<nat, string>, requirements: seq<Requirement>)
    ensures Scored(rubric, answers, requirements).score == FinalScore(rubric, answers, requirements)
    ensures Scored(rubric, answers, requirements).rawScore == RawScore(answers, requirements)
    ensures Scored(rubric, answers, requirements).mustHaveFailed == MustHaveFailed(answers, requirements)
  {
    var ordered := Sort(requirements, ByOrdinal);
    SortPermutes(requirements, ByOrdinal);
    RawScorePermuted(answers, ordered, requirements);
    FailedIffSome(answers, ordered);
    MustHaveFailedPermuted(answers, ordered, requirements);
    MustHaveFailedPermuted(answers, requirements, ordered);
  }

  lemma RubricErrorPermuted(rubric: Rubric, a: seq<Requirement>, b: seq<Requirement>)
    requires multiset(a) == multiset(b)
    ensures RubricError(rubric, a).None? ==> RubricError(rubric, b).None?
  {
    SameSize(a, b);
    SamePresence(a, b);
    var units := (r: Requirement) => r.units;
    MapPermutes(units, a, b);
    assert UnitsOf(a) == Map(units, a) && UnitsOf(b) == Map(units, b);
    SumPermuted(UnitsOf(a), UnitsOf(b));
    if RubricError(rubric, a).None? {
      forall i | 0 <= i < |b| ensures b[i].versionId == rubric.id {
        assert b[i] in a;
      }
    }
  }

  lemma NamedPermuted(a: seq<Verdict>, b: seq<Verdict>)
    requires multiset(a) == multiset(b)
    ensures multiset(Named(a)) == multiset(Named(b)) && Elements(Named(a)) == Elements(Named(b))
  {
    var name := (v: Verdict) => v.requirementId;
    MapPermutes(name, a, b);
    assert Named(a) == Map(name, a) && Named(b) == Map(name, b);
    SamePresence(Named(a), Named(b));
  }

  lemma IdsPermuted(a: seq<Requirement>, b: seq<Requirement>)
    requires multiset(a) == multiset(b)
    ensures multiset(Ids(a)) == multiset(Ids(b)) && Elements(Ids(a)) == Elements(Ids(b))
  {
    var id := (r: Requirement) => r.id;
    MapPermutes(id, a, b);
    assert Ids(a) == Map(id, a) && Ids(b) == Map(id, b);
    SamePresence(Ids(a), Ids(b));
  }

  lemma AcceptancePermuted(
    requirements: seq<Requirement>, requirements': seq<Requirement>, verdicts: seq<Verdict>, verdicts': seq<Verdict>)
    requires multiset(requirements) == multiset(requirements') && multiset(verdicts) == multiset(verdicts')
    requires IndexVerdicts(requirements, verdicts).Ok?
    ensures IndexVerdicts(requirements', verdicts') == IndexVerdicts(requirements, verdicts)
  {
    AcceptedIffOneVerdictEach(requirements, verdicts);
    AcceptedIffOneVerdictEach(requirements', verdicts');
    NamedPermuted(verdicts, verdicts');
    IdsPermuted(requirements, requirements');
    DistinctPermuted(Named(verdicts), Named(verdicts'));
    SamePresence(verdicts, verdicts');
    forall i | 0 <= i < |verdicts'| ensures KnownVerdict(verdicts'[i].verdict) {
      assert verdicts'[i] in verdicts;
    }
    var a, b := IndexVerdicts(requirements, verdicts).value, IndexVerdicts(requirements', verdicts').value;
    SameReflection(a, b, verdicts, verdicts');
  }

  lemma SameReflection(a: map<nat, string>, b: map<nat, string>, verdicts: seq<Verdict>, verdicts': seq<Verdict>)
    requires Reflects(a, verdicts) && Reflects(b, verdicts') && multiset(verdicts) == multiset(verdicts')
    ensures a == b
  {
    SamePresence(verdicts, verdicts');
    forall id: nat ensures (id in a ==> id in b && b[id] == a[id]) && (id in b ==> id in a) {
      if id in a {
        var i :| 0 <= i < |verdicts| && verdicts[i].requirementId == id;
        assert verdicts[i] in verdicts';
        var j :| 0 <= j < |verdicts'| && verdicts'[j] == verdicts[i];
      }
      if id in b {
        var i :| 0 <= i < |verdicts'| && verdicts'[i].requirementId == id;
        assert verdicts'[i] in verdicts;
        var j :| 0 <= j < |verdicts| && verdicts[j] == verdicts'[i];
      }
    }
  }

  /**
   The whole result, breakdown included, is the same whatever order verdicts and requirements
   arrive in, and so is whether there is a result at all.
   */
  lemma AggregationIgnoresOrder(
    rubric: Rubric, requirements: seq<Requirement>, requirements': seq<Requirement>,
    verdicts: seq<Verdict>, verdicts': seq<Verdict>)
    requires Distinct(Ids(requirements))
    requires multiset(requirements) == multiset(requirements') && multiset(verdicts) == multiset(verdicts')
    ensures Aggregate(rubric, requirements, verdicts).Ok? <==> Aggregate(rubric, requirements', verdicts').Ok?
    ensures Aggregate(rubric, requirements, verdicts).Ok? ==>
              Aggregate(rubric, requirements', verdicts') == Aggregate(rubric, requirements, verdicts)
  {
    RubricErrorPermuted(rubric, requirements, requirements');
    RubricErrorPermuted(rubric, requirements', requirements);
    if IndexVerdicts(requirements, verdicts).Ok? {
      AcceptancePermuted(requirements, requirements', verdicts, verdicts');
    }
    if IndexVerdicts(requirements', verdicts').Ok? {
      AcceptancePermuted(requirements', requirements, verdicts', verdicts);
    }
    ByOrdinalIsOrder(requirements);
    SortUnique(requirements, requirements', ByOrdinal);
  }

  // ---- size of the score ----

  /** Requirements with normalized weights: nonnegative units summing to one. */
  predicate Normalized(requirements: seq<Requirement>) {
    && Sum(UnitsOf(requirements)) == Weights.WEIGHT_UNITS
    && forall i :: 0 <= i < |requirements| ==> requirements[i].units >= 0
  }

  lemma PointsWithinWeight(verdict: string, units: int)
    requires units >= 0
    ensures 0 <= Points(verdict, units) <= units
    ensures Credit(verdict) == 2 ==> Points(verdict, units) == units
    ensures 0 <= 2 * Points(verdict, units) - units * Credit(verdict) <= 1
    ensures Credit(verdict) != 1 ==> 2 * Points(verdict, units) == units * Credit(verdict)
  {
  }

  lemma PointsMonotone(worse: string, better: string, units: int)
    requires units >= 0 && Credit(worse) <= Credit(better)
    ensures Points(worse, units) <= Points(better, units)
  {
  }

  /** Twice the exact weighted sum, in hundredths. */
  function DoubledExact(answers: map<nat, string>, requirements: seq<Requirement>): int {
    Sum(Map((r: Requirement) => r.units * Credit(AnswerTo(answers, r)), requirements))
  }

  function Partials(answers: map<nat, string>, requirements: seq<Requirement>): seq<int> {
    Map((r: Requirement) => if Credit(AnswerTo(answers, r)) == 1 then 1 else 0, requirements)
  }

  /** Rounding only ever adds, at most half a hundredth for each partial verdict. */
  lemma {:induction false} RoundingAddsAtMostHalfEach(answers: map<nat, string>, requirements: seq<Requirement>)
    requires forall i :: 0 <= i < |requirements| ==> requirements[i].units >= 0
    ensures 0 <= 2 * RawScore(answers, requirements) - DoubledExact(answers, requirements) <= Sum(Partials(answers, requirements))
  {
    if requirements != [] {
      RoundingAddsAtMostHalfEach(answers, requirements[1..]);
      PointsWithinWeight(AnswerTo(answers, requirements[0]), requirements[0].units);
    }
  }

  /** On normalized weights and a nonnegative cap the score lies between 0 and 100, and is 100.00 when everything is met. */
  lemma ScoreIsPercentage(rubric: Rubric, answers: map<nat, string>, requirements: seq<Requirement>)
    requires Normalized(requirements) && rubric.failCap >= 0
    ensures 0 <= Scored(rubric, answers, requirements).score <= 10_000
    ensures (forall i :: 0 <= i < |requirements| ==> AnswerTo(answers, requirements[i]) == "met") ==>
              Scored(rubric, answers, requirements).score == 10_000
  {
    ScoreIsCappedSum(rubric, answers, requirements);
    var points := PointsOf(answers, requirements);
    forall i | 0 <= i < |requirements|
      ensures 0 <= points[i] <= UnitsOf(requirements)[i]
      ensures AnswerTo(answers, requirements[i]) == "met" ==> points[i] == UnitsOf(requirements)[i]
    {
      PointsWithinWeight(AnswerTo(answers, requirements[i]), requirements[i].units);
    }
    SumNonnegative(points);
    SumMonotone(points, UnitsOf(requirements));
    if forall i :: 0 <= i < |requirements| ==> AnswerTo(answers, requirements[i]) == "met" {
      assert points == UnitsOf(requirements);
    }
  }

  /** Every requirement's verdict is at least as good. */
  predicate AtLeastAsGood(worse: map<nat, string>, better: map<nat, string>, requirements: seq<Requirement>) {
    forall i :: 0 <= i < |requirements| ==>
      Credit(AnswerTo(worse, requirements[i])) <= Credit(AnswerTo(better, requirements[i]))
  }

  /** Improving any number of verdicts never lowers the score, the cap included. */
  lemma ScoreIsMonotone(rubric: Rubric, worse: map<nat, string>, better: map<nat, string>, requirements: seq<Requirement>)
    requires AtLeastAsGood(worse, better, requirements)
    requires forall i :: 0 <= i < |requirements| ==> requirements[i].units >= 0
    ensures Scored(rubric, worse, requirements).score <= Scored(rubric, better, requirements).score
  {
    ScoreIsCappedSum(rubric, worse, requirements);
    ScoreIsCappedSum(rubric, better, requirements);
    var a, b := PointsOf(worse, requirements), PointsOf(better, requirements);
    forall i | 0 <= i < |requirements| ensures a[i] <= b[i] {
      PointsMonotone(AnswerTo(worse, requirements[i]), AnswerTo(better, requirements[i]), requirements[i].units);
    }
    SumMonotone(a, b);
    if MustHaveFailed(better, requirements) {
      var i :| 0 <= i < |requirements| && FailsMustHave(better, requirements[i]);
      assert FailsMustHave(worse, requirements[i]);
    }
  }

  // ---- the loops ----

  method IndexVerdictsLoop(requirements: seq<Requirement>, verdicts: seq<Verdict>)
    returns (r: Result<map<nat, string>, Error>)
    ensures r == IndexVerdicts(requirements, verdicts)
  {
    var known := Elements(Ids(requirements));
    var answers: map<nat, string> := map[];
    var i := 0;
    while i < |verdicts|
      invariant 0 <= i <= |verdicts|
      invariant Indexed(known, verdicts, map[]) == Indexed(known, verdicts[i..], answers)
    {
      var v := verdicts[i];
      if !KnownVerdict(v.verdict) {
        return Err(UnknownVerdict);
      }
      if v.requirementId !in known {
        return Err(UnknownRequirement);
      }
      if v.requirementId in answers {
        return Err(DuplicateVerdict);
      }
      answers := answers[v.requirementId := v.verdict];
      i := i + 1;
    }
    if exists k :: 0 <= k < |requirements| && requirements[k].id !in answers {
      return Err(MissingVerdict);
    }
    return Ok(answers);
  }

  datatype Totals = Totals(rawScore: int, failed: seq<nat>, contributions: seq<Contribution>)

  function Adding(answers: map<nat, string>, t: Totals, r: Requirement): Totals {
    Totals(t.rawScore + Points(AnswerTo(answers, r), r.units),
           if FailsMustHave(answers, r) then t.failed + [r.id] else t.failed,
           t.contributions + [Contributes(answers, r)])
  }

  function Tallied(answers: map<nat, string>, ordered: seq<Requirement>): Totals {
    if ordered == [] then Totals(0, [], [])
    else Adding(answers, Tallied(answers, ordered[..|ordered| - 1]), ordered[|ordered| - 1])
  }

  lemma {:induction false} TalliedIsAll(answers: map<nat, string>, ordered: seq<Requirement>)
    ensures Tallied(answers, ordered)
         == Totals(RawScore(answers, ordered), FailedIds(answers, ordered), Breakdown(answers, ordered))
  {
    if ordered != [] {
      var last := |ordered| - 1;
      TalliedIsAll(answers, ordered[..last]);
      assert ordered[..last + 1] == ordered;
      OneMore(answers, ordered, last);
    }
  }

  method Tally(answers: map<nat, string>, ordered: seq<Requirement>) returns (totals: Totals)
    ensures totals == Tallied(answers, ordered)
  {
    totals := Totals(0, [], []);
    var i := 0;
    while i < |ordered|
      invariant 0 <= i <= |ordered|
      invariant totals == Tallied(answers, ordered[..i])
    {
      assert ordered[..i + 1][..i] == ordered[..i];
      var r := ordered[i];
      totals := Adding(answers, totals, r);
      i := i + 1;
    }
    assert ordered[..i] == ordered;
  }

  method AggregateScore(rubric: Rubric, requirements: seq<Requirement>, verdicts: seq<Verdict>)
    returns (r: Result<ScoreResult, Error>)
    ensures r == Aggregate(rubric, requirements, verdicts)
  {
    var invalid := RubricError(rubric, requirements);
    if invalid.Some? {
      return Err(invalid.value);
    }
    var indexed := IndexVerdictsLoop(requirements, verdicts);
    if indexed.Err? {
      return Err(indexed.error);
    }
    var answers := indexed.value;
    var ordered := Sort(requirements, ByOrdinal);
    var t := Tally(answers, ordered);
    TalliedIsAll(answers, ordered);
    var capApplied := t.failed != [] && t.rawScore > 100 * rubric.failCap;
    return Ok(ScoreResult(if capApplied then 100 * rubric.failCap else t.rawScore, t.rawScore, t.failed != [], capApplied,
                          t.failed, t.contributions));
  }

  lemma OneMore(answers: map<nat, string>, ordered: seq<Requirement>, i: nat)
    requires i < |ordered|
    ensures var r := ordered[i];
            && RawScore(answers, ordered[..i + 1]) == RawScore(answers, ordered[..i]) + Points(AnswerTo(answers, r), r.units)
            && FailedIds(answers, ordered[..i + 1])
               == FailedIds(answers, ordered[..i]) + (if FailsMustHave(answers, r) then [r.id] else [])
            && Breakdown(answers, ordered[..i + 1]) == Breakdown(answers, ordered[..i]) + [Contributes(answers, r)]
  {
    var before, r := ordered[..i], ordered[i];
    assert ordered[..i + 1] == before + [r];
    assert PointsOf(answers, before + [r]) == PointsOf(answers, before) + [Points(AnswerTo(answers, r), r.units)];
    SumConcat(PointsOf(answers, before), [Points(AnswerTo(answers, r), r.units)]);
    assert (before + [r])[..i] == before;
  }
}
