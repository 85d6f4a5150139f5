/**
 What the four calls on rubrics do, row by row and column by column (serving/app/services/rubric.py).

 Nothing here is said by way of the functions that compute the new store: success and error are
 stated in terms of the arguments and the columns of the table, and the new rows field by field.
 */
module RubricCalls {
  import opened Wrappers
  import opened Sorting
  import opened Text
  import Weights
  import opened ContentHash
  import opened RubricStore

  // ---- the rows of a submission ----

  predicate AreWeights(ws: seq<real>, proposals: seq<Proposal>) {
    |ws| == |proposals| && forall i :: 0 <= i < |ws| ==> ws[i] == proposals[i].weight
  }

  /** Row `i` carries the columns of proposal `i`, its place, and its normalized weight. */
  predicate StoresSubmission(rows: seq<Requirement>, proposals: seq<Proposal>, units: seq<int>) {
    && |rows| == |proposals| == |units|
    && forall i :: 0 <= i < |rows| ==>
         && rows[i].ordinal == i && rows[i].units == units[i]
         && rows[i].text == proposals[i].text && rows[i].category == proposals[i].category
         && rows[i].isMustHave == proposals[i].isMustHave
         && rows[i].minYears == proposals[i].minYears && rows[i].minSeniority == proposals[i].minSeniority
  }

  lemma RescopeStoresSubmission(proposals: seq<Proposal>, ws: seq<real>)
    requires AreWeights(ws, proposals)
    ensures Rescope(proposals).Ok? <==> Weights.Normalize(ws).Ok?
    ensures Rescope(proposals).Ok? ==> StoresSubmission(Rescope(proposals).value, proposals, Weights.Normalize(ws).value)
    ensures Rescope(proposals).Err? ==> Rescope(proposals).error == Invalid
  {
    assert ProposedWeights(proposals) == ws;
  }

  /** All rows but one are as before, and so are the jobs. */
  predicate OnlyRow(s: Store, t: Store, id: nat) {
    && t.jobs == s.jobs && |t.versions| == |s.versions|
    && forall i :: 0 <= i < |s.versions| && i != id ==> t.versions[i] == s.versions[i]
  }

  /** The version row, with another set of requirements. */
  predicate OnlyRequirements(v: Version, w: Version) {
    && w.tenantId == v.tenantId && w.jobId == v.jobId && w.number == v.number
    && w.status == v.status && w.contentHash == v.contentHash && w.failCap == v.failCap
  }

  // ---- editing ----

  /**
   An edit succeeds exactly for a draft of the caller's tenant and a nonempty submission whose
   weights normalize. It replaces that version's requirements by the submitted rows and changes
   nothing else. Otherwise the first reason in this order is reported, and nothing is stored.
   */
  lemma EditStoresSubmission(h: Hashing, s: Store, tenantId: TenantId, id: nat, proposals: seq<Proposal>, ws: seq<real>)
    requires AreWeights(ws, proposals)
    ensures var outcome := Outcome(h, s, Update(tenantId, id, proposals));
            && (outcome == Err(NotFound) <==> id >= |s.versions| || s.versions[id].tenantId != tenantId)
            && (outcome == Err(Conflict) <==>
                  id < |s.versions| && s.versions[id].tenantId == tenantId && s.versions[id].status != Draft)
            && (outcome.Ok? <==>
                  && id < |s.versions| && s.versions[id].tenantId == tenantId && s.versions[id].status == Draft
                  && proposals != [] && Weights.Normalize(ws).Ok?)
            && (outcome.Ok? ==>
                  && OnlyRow(s, outcome.value, id) && OnlyRequirements(s.versions[id], outcome.value.versions[id])
                  && StoresSubmission(outcome.value.versions[id].requirements, proposals, Weights.Normalize(ws).value))
  {
    RescopeStoresSubmission(proposals, ws);
  }

  // ---- creating ----

  /** One more than every number the job has, so the first is 1 and none is skipped. */
  predicate NextNumber(s: Store, jobId: JobId, number: nat) {
    && number >= 1
    && (forall i :: 0 <= i < |s.versions| && s.versions[i].jobId == jobId ==> s.versions[i].number < number)
    && (number > 1 ==> exists i :: 0 <= i < |s.versions| && s.versions[i].jobId == jobId && s.versions[i].number == number - 1)
  }

  lemma {:induction false} LargestIsHeld(numbers: seq<nat>)
    ensures forall i :: 0 <= i < |numbers| ==> numbers[i] <= Largest(numbers)
    ensures Largest(numbers) > 0 ==> Largest(numbers) in numbers
  {
    if numbers != [] {
      LargestIsHeld(numbers[1..]);
    }
  }

  lemma {:induction false} NumbersComeFrom(versions: seq<Version>, tenantId: TenantId, jobId: JobId, number: nat)
    requires number in Numbers(versions, tenantId, jobId)
    ensures exists i :: 0 <= i < |versions| && versions[i].jobId == jobId && versions[i].number == number
  {
    var last := |versions| - 1;
    if number in Numbers(versions[..last], tenantId, jobId) {
      NumbersComeFrom(versions[..last], tenantId, jobId, number);
      var i :| 0 <= i < last && versions[..last][i].jobId == jobId && versions[..last][i].number == number;
      assert versions[i].jobId == jobId && versions[i].number == number;
    } else {
      assert versions[last].jobId == jobId && versions[last].number == number;
    }
  }

  lemma NumberIsNext(h: Hashing, s: Store, tenantId: TenantId, jobId: JobId)
    requires Inv(h, s) && jobId in s.jobs && s.jobs[jobId] == tenantId
    ensures NextNumber(s, jobId, MaxVersion(s.versions, tenantId, jobId) + 1)
  {
    var numbers := Numbers(s.versions, tenantId, jobId);
    LargestIsHeld(numbers);
    forall i | 0 <= i < |s.versions| && s.versions[i].jobId == jobId ensures s.versions[i].number <= Largest(numbers) {
      assert SoundVersion(h, s.jobs, s.versions[i]);
      NumbersHold(s.versions, tenantId, jobId, i);
    }
    if Largest(numbers) > 0 {
      NumbersComeFrom(s.versions, tenantId, jobId, Largest(numbers));
    }
  }

  /**
   Creating succeeds exactly for a job of the caller's tenant and a nonempty submission whose
   weights normalize. It adds one draft with the next number of the job, fail cap 40, no hash,
   and the submitted rows.
   */
  lemma CreateStoresSubmission(h: Hashing, s: Store, tenantId: TenantId, jobId: JobId, proposals: seq<Proposal>, ws: seq<real>)
    requires Inv(h, s) && AreWeights(ws, proposals)
    ensures var outcome, n := Outcome(h, s, Create(tenantId, jobId, proposals)), |s.versions|;
            && (outcome.Ok? <==> proposals != [] && jobId in s.jobs && s.jobs[jobId] == tenantId && Weights.Normalize(ws).Ok?)
            && (outcome == Err(NotFound) <==> proposals != [] && !(jobId in s.jobs && s.jobs[jobId] == tenantId))
            && outcome != Err(Conflict)
            && (outcome.Ok? ==>
                  var t := outcome.value;
                  && t.jobs == s.jobs && |t.versions| == n + 1 && t.versions[..n] == s.versions
                  && t.versions[n].tenantId == tenantId && t.versions[n].jobId == jobId && t.versions[n].status == Draft
                  && t.versions[n].contentHash == None && t.versions[n].failCap == 40
                  && NextNumber(s, jobId, t.versions[n].number)
                  && StoresSubmission(t.versions[n].requirements, proposals, Weights.Normalize(ws).value))
  {
    RescopeStoresSubmission(proposals, ws);
    if jobId in s.jobs && s.jobs[jobId] == tenantId {
      NextNumberIsFree(h, s, tenantId, jobId);
      NumberIsNext(h, s, tenantId, jobId);
      if Created(s, tenantId, jobId, proposals).Ok? {
        CreateAppends(h, s, tenantId, jobId, proposals);
      }
    }
  }

  // ---- approving and minting ----

  /**
   Approving succeeds exactly for a draft of the caller's tenant. It sets the status and the hash
   of the stored rows, and changes nothing else.
   */
  lemma ApproveFreezesDraft(h: Hashing, s: Store, tenantId: TenantId, id: nat)
    requires Inv(h, s)
    ensures var outcome := Outcome(h, s, Approve(tenantId, id));
            && (outcome == Err(NotFound) <==> id >= |s.versions| || s.versions[id].tenantId != tenantId)
            && (outcome == Err(Conflict) <==>
                  id < |s.versions| && s.versions[id].tenantId == tenantId && s.versions[id].status != Draft)
            && (outcome.Ok? <==> id < |s.versions| && s.versions[id].tenantId == tenantId && s.versions[id].status == Draft)
            && (outcome.Ok? ==>
                  && OnlyRow(s, outcome.value, id)
                  && outcome.value.versions[id]
                     == s.versions[id].(status := Approved, contentHash := Some(HashOf(h, s.versions[id].requirements))))
  {
    if id < |s.versions| {
      assert SoundVersion(h, s.jobs, s.versions[id]);
    }
  }

  /**
   Minting succeeds exactly for an approved version of the caller's tenant. It adds a draft with
   the next number and the same requirements and fail cap, and marks the old version superseded.
   */
  lemma MintSupersedes(h: Hashing, s: Store, tenantId: TenantId, id: nat)
    requires Inv(h, s)
    ensures var outcome, n := Outcome(h, s, Mint(tenantId, id)), |s.versions|;
            && (outcome == Err(NotFound) <==> id >= n || s.versions[id].tenantId != tenantId)
            && (outcome == Err(Conflict) <==> id < n && s.versions[id].tenantId == tenantId && s.versions[id].status != Approved)
            && (outcome.Ok? <==> id < n && s.versions[id].tenantId == tenantId && s.versions[id].status == Approved)
            && (outcome.Ok? ==>
                  var t, v := outcome.value, s.versions[id];
                  && t.jobs == s.jobs && |t.versions| == n + 1
                  && (forall i :: 0 <= i < n && i != id ==> t.versions[i] == s.versions[i])
                  && t.versions[id] == v.(status := Superseded)
                  && NextNumber(s, v.jobId, t.versions[n].number)
                  && t.versions[n] == Version(tenantId, v.jobId, t.versions[n].number, Draft, None, v.failCap, v.requirements))
  {
    MintCopies(h, s, tenantId, id);
    if id < |s.versions| && s.versions[id].tenantId == tenantId {
      assert SoundVersion(h, s.jobs, s.versions[id]);
      NumberIsNext(h, s, tenantId, s.versions[id].jobId);
    }
  }

  // ---- the hash, in terms of the stored columns ----

  /** The columns that are hashed: text without surrounding space, and everything else but the place. */
  type Columns = (string, string, bool, int, Option<string>, Option<string>)

  function ColumnsOf(rows: seq<Requirement>): seq<Columns> {
    if rows == [] then []
    else
      var r := rows[0];
      [(Strip(r.text), r.category, r.isMustHave, r.units, r.minYears, r.minSeniority)] + ColumnsOf(rows[1..])
  }

  function AsCriterion(c: Columns): Criterion {
    Criterion(c.0, c.1, c.2, c.3, c.4, c.5)
  }

  function AsColumns(c: Criterion): Columns {
    (c.text, c.category, c.isMustHave, c.units, c.minYears, c.minSeniority)
  }

  lemma {:induction false} CriteriaAreColumns(rows: seq<Requirement>)
    ensures Map(CriterionOf, rows) == Map(AsCriterion, ColumnsOf(rows))
    ensures Map(AsColumns, Map(CriterionOf, rows)) == ColumnsOf(rows)
  {
    if rows != [] {
      CriteriaAreColumns(rows[1..]);
    }
  }

  lemma SameCriteriaIffSameColumns(a: seq<Requirement>, b: seq<Requirement>)
    ensures multiset(Map(CriterionOf, a)) == multiset(Map(CriterionOf, b)) <==> multiset(ColumnsOf(a)) == multiset(ColumnsOf(b))
  {
    CriteriaAreColumns(a);
    CriteriaAreColumns(b);
    if multiset(ColumnsOf(a)) == multiset(ColumnsOf(b)) {
      MapPermutes(AsCriterion, ColumnsOf(a), ColumnsOf(b));
    }
    if multiset(Map(CriterionOf, a)) == multiset(Map(CriterionOf, b)) {
      MapPermutes(AsColumns, Map(CriterionOf, a), Map(CriterionOf, b));
    }
  }

  function HashedText(h: Hashing, rows: seq<Requirement>): string {
    Payload(h.encode, Map(CriterionOf, rows))
  }

  /** Two stored sets are hashed as the same text exactly when their rows have the same columns, places aside, in any order. */
  lemma SameTextIffSameColumns(h: Hashing, a: seq<Requirement>, b: seq<Requirement>)
    requires Canonical(h.encode)
    ensures HashedText(h, a) == HashedText(h, b) <==> multiset(ColumnsOf(a)) == multiset(ColumnsOf(b))
  {
    SameCriteriaIffSameColumns(a, b);
    PayloadIffSameCriteria(h.encode, Map(CriterionOf, a), Map(CriterionOf, b));
  }

  /** So they hash alike exactly then, unless the digest collides on these two texts. */
  lemma SameHashIffSameColumns(h: Hashing, a: seq<Requirement>, b: seq<Requirement>)
    requires Canonical(h.encode)
    ensures HashOf(h, a) == h.sha(HashedText(h, a))
    ensures multiset(ColumnsOf(a)) == multiset(ColumnsOf(b)) ==> HashOf(h, a) == HashOf(h, b)
    ensures HashOf(h, a) == HashOf(h, b) ==>
              || multiset(ColumnsOf(a)) == multiset(ColumnsOf(b))
              || (HashedText(h, a) != HashedText(h, b) && h.sha(HashedText(h, a)) == h.sha(HashedText(h, b)))
  {
    SameTextIffSameColumns(h, a, b);
  }
}
