/**
 The rubric life cycle (serving/app/services/rubric.py and serving/app/repositories/rubric.py).

 A version's id is its position in the table; its requirement rows are kept with it in display
 order. Each service call is one transaction: on an error nothing is stored.
 */
module RubricStore {
  import opened Wrappers
  import opened Sorting
  import opened Sums
  import opened Text
  import Weights
  import opened ContentHash

  type TenantId = nat
  type JobId = nat

  datatype Status = Draft | Approved | Superseded

  datatype Error = Invalid | NotFound | Conflict

  /** A requirement as the caller submits it, with a relative weight. */
  datatype Proposal = Proposal(
    text: string, category: string, isMustHave: bool, weight: real, minYears: Option<string>, minSeniority: Option<string>)

  /** A stored requirement, with normalized weight in units of 0.0001. */
  datatype Requirement = Requirement(
    ordinal: nat, text: string, category: string, isMustHave: bool, units: int,
    minYears: Option<string>, minSeniority: Option<string>)

  datatype Version = Version(
    tenantId: TenantId, jobId: JobId, number: nat, status: Status, contentHash: Option<string>,
    failCap: int, requirements: seq<Requirement>)

  datatype Store = Store(jobs: map<JobId, TenantId>, versions: seq<Version>)

  /** The encoding of one criterion and the digest. */
  datatype Hashing = Hashing(encode: Encoding, sha: string -> string)

  const DEFAULT_FAIL_CAP := 40

  // ---- requirements ----

  function ProposedWeights(proposals: seq<Proposal>): seq<real> {
    seq(|proposals|, i requires 0 <= i < |proposals| => proposals[i].weight)
  }

  function Scoped(p: Proposal, ordinal: nat, units: int): Requirement {
    Requirement(ordinal, p.text, p.category, p.isMustHave, units, p.minYears, p.minSeniority)
  }

  /** Renumber from 0 and reweight to 10000 units. */
  function Rescope(proposals: seq<Proposal>): Result<seq<Requirement>, Error> {
    match Weights.Normalize(ProposedWeights(proposals))
    case Err(_) => Err(Invalid)
    case Ok(units) => Ok(Assemble(proposals, units))
  }

  function Assemble(proposals: seq<Proposal>, units: seq<int>): seq<Requirement>
    requires |units| == |proposals|
  {
    seq(|proposals|, i requires 0 <= i < |proposals| => Scoped(proposals[i], i, units[i]))
  }

  function Copy(r: Requirement): Proposal {
    Proposal(r.text, r.category, r.isMustHave, Weights.AsWeight(r.units), r.minYears, r.minSeniority)
  }

  function CriterionOf(r: Requirement): Criterion {
    Criterion(Strip(r.text), r.category, r.isMustHave, r.units, r.minYears, r.minSeniority)
  }

  function HashOf(h: Hashing, requirements: seq<Requirement>): string {
    Fingerprint(h.encode, h.sha, Map(CriterionOf, requirements))
  }

  function UnitsOf(requirements: seq<Requirement>): seq<int> {
    seq(|requirements|, i requires 0 <= i < |requirements| => requirements[i].units)
  }

  predicate SoundSet(requirements: seq<Requirement>) {
    && requirements != []
    && Sum(UnitsOf(requirements)) == Weights.WEIGHT_UNITS
    && forall i :: 0 <= i < |requirements| ==> requirements[i].ordinal == i && requirements[i].units >= 0
  }

  /** A rescoped set is nonempty, numbered in order and sums to exactly one. */
  lemma RescopedIsSound(proposals: seq<Proposal>)
    requires Rescope(proposals).Ok?
    ensures SoundSet(Rescope(proposals).value) && |Rescope(proposals).value| == |proposals|
  {
    var ws := ProposedWeights(proposals);
    Weights.NormalizedWeights(ws);
    assert UnitsOf(Rescope(proposals).value) == Weights.Normalize(ws).value;
  }

  /** Rescoping the copy of a stored set gives that set back. */
  lemma CopyRescopesToItself(requirements: seq<Requirement>)
    requires SoundSet(requirements)
    ensures Rescope(Map(Copy, requirements)) == Ok(requirements)
  {
    var units := UnitsOf(requirements);
    Weights.NormalizationIsIdempotent(units);
    CopiedWeights(requirements);
    AssembleCopies(requirements);
  }

  lemma CopiedWeights(requirements: seq<Requirement>)
    ensures ProposedWeights(Map(Copy, requirements)) == Weights.AsWeights(UnitsOf(requirements))
  {
  }

  lemma AssembleCopies(requirements: seq<Requirement>)
    requires forall i :: 0 <= i < |requirements| ==> requirements[i].ordinal == i
    ensures Assemble(Map(Copy, requirements), UnitsOf(requirements)) == requirements
  {
  }

  // ---- the table ----

  function Owned(s: Store, tenantId: TenantId, id: nat): bool {
    id < |s.versions| && s.versions[id].tenantId == tenantId
  }

  function Numbers(versions: seq<Version>, tenantId: TenantId, jobId: JobId): seq<nat> {
    if versions == [] then []
    else
      var last := versions[|versions| - 1];
      var before := Numbers(versions[..|versions| - 1], tenantId, jobId);
      if last.tenantId == tenantId && last.jobId == jobId then before + [last.number] else before
  }

  function Largest(numbers: seq<nat>): nat {
    if numbers == [] then 0
    else
      var rest := Largest(numbers[1..]);
      if numbers[0] > rest then numbers[0] else rest
  }

  function MaxVersion(versions: seq<Version>, tenantId: TenantId, jobId: JobId): nat {
    Largest(Numbers(versions, tenantId, jobId))
  }

  /** The unique constraint on job and version number. */
  predicate NumberTaken(versions: seq<Version>, jobId: JobId, number: nat) {
    exists i :: 0 <= i < |versions| && versions[i].jobId == jobId && versions[i].number == number
  }

  function Added(s: Store, v: Version): Result<Store, Error> {
    if NumberTaken(s.versions, v.jobId, v.number) then Err(Conflict)
    else Ok(s.(versions := s.versions + [v]))
  }

  // ---- the four calls ----

  datatype Call =
    | Create(tenantId: TenantId, jobId: JobId, proposals: seq<Proposal>)
    | Update(tenantId: TenantId, id: nat, proposals: seq<Proposal>)
    | Approve(tenantId: TenantId, id: nat)
    | Mint(tenantId: TenantId, id: nat)

  function Created(s: Store, tenantId: TenantId, jobId: JobId, proposals: seq<Proposal>): Result<Store, Error> {
    if proposals == [] then Err(Invalid)
    else if !(jobId in s.jobs && s.jobs[jobId] == tenantId) then Err(NotFound)
    else
      var number := MaxVersion(s.versions, tenantId, jobId) + 1;
      match Added(s, Version(tenantId, jobId, number, Draft, None, DEFAULT_FAIL_CAP, []))
      case Err(e) => Err(e)
      case Ok(added) =>
        match Rescope(proposals)
        case Err(e) => Err(e)
        case Ok(set_) => Ok(Replaced(added, |s.versions|, set_))
  }

  function Replaced(s: Store, id: nat, requirements: seq<Requirement>): Store {
    if id < |s.versions| then s.(versions := s.versions[id := s.versions[id].(requirements := requirements)]) else s
  }

  function Updated(s: Store, tenantId: TenantId, id: nat, proposals: seq<Proposal>): Result<Store, Error> {
    if !Owned(s, tenantId, id) then Err(NotFound)
    else if !s.versions[id].status.Draft? then Err(Conflict)
    else if proposals == [] then Err(Invalid)
    else
      match Rescope(proposals)
      case Err(e) => Err(e)
      case Ok(set_) => Ok(Replaced(s, id, set_))
  }

  function ApprovedBy(h: Hashing, s: Store, tenantId: TenantId, id: nat): Result<Store, Error> {
    if !Owned(s, tenantId, id) then Err(NotFound)
    else
      var v := s.versions[id];
      if !v.status.Draft? then Err(Conflict)
      else if v.requirements == [] then Err(Invalid)
      else Ok(s.(versions := s.versions[id := v.(contentHash := Some(HashOf(h, v.requirements)), status := Approved)]))
  }

  function Retired(s: Store, id: nat): Store {
    if id < |s.versions| then s.(versions := s.versions[id := s.versions[id].(status := Superseded)]) else s
  }

  function Minted(s: Store, tenantId: TenantId, id: nat): Result<Store, Error> {
    if !Owned(s, tenantId, id) then Err(NotFound)
    else
      var v := s.versions[id];
      if !v.status.Approved? then Err(Conflict)
      else if v.requirements == [] then Err(Invalid)
      else
        var number := MaxVersion(s.versions, tenantId, v.jobId) + 1;
        match Added(s, Version(tenantId, v.jobId, number, Draft, None, v.failCap, []))
        case Err(e) => Err(e)
        case Ok(added) =>
          match Rescope(Map(Copy, v.requirements))
          case Err(e) => Err(e)
          case Ok(set_) => Ok(Retired(Replaced(added, |s.versions|, set_), id))
  }

  function Outcome(h: Hashing, s: Store, call: Call): Result<Store, Error> {
    match call
    case Create(tenantId, jobId, proposals) => Created(s, tenantId, jobId, proposals)
    case Update(tenantId, id, proposals) => Updated(s, tenantId, id, proposals)
    case Approve(tenantId, id) => ApprovedBy(h, s, tenantId, id)
    case Mint(tenantId, id) => Minted(s, tenantId, id)
  }

  function After(h: Hashing, s: Store, call: Call): Store {
    match Outcome(h, s, call)
    case Ok(t) => t
    case Err(_) => s
  }

  function AfterAll(h: Hashing, s: Store, calls: seq<Call>): Store
    decreases |calls|
  {
    if calls == [] then s else AfterAll(h, After(h, s, calls[0]), calls[1..])
  }

  // ---- what every call keeps ----

  predicate SoundVersion(h: Hashing, jobs: map<JobId, TenantId>, v: Version) {
    && v.jobId in jobs && jobs[v.jobId] == v.tenantId
    && SoundSet(v.requirements)
    && (v.contentHash.None? <==> v.status.Draft?)
    && (!v.status.Draft? ==> v.contentHash == Some(HashOf(h, v.requirements)))
  }

  /** The versions of a job are numbered 1, 2, ... in the order they were added. */
  predicate Consecutive(numbers: seq<nat>) {
    forall i :: 0 <= i < |numbers| ==> numbers[i] == i + 1
  }

  ghost predicate Inv(h: Hashing, s: Store) {
    && (forall i :: 0 <= i < |s.versions| ==> SoundVersion(h, s.jobs, s.versions[i]))
    && (forall tenantId: TenantId, jobId: JobId :: Consecutive(Numbers(s.versions, tenantId, jobId)))
  }

  lemma {:induction false} LargestOfConsecutive(numbers: seq<nat>, from: nat)
    requires forall i :: 0 <= i < |numbers| ==> numbers[i] == from + i + 1
    ensures Largest(numbers) == if numbers == [] then 0 else from + |numbers|
  {
    if numbers != [] {
      LargestOfConsecutive(numbers[1..], from + 1);
    }
  }

  lemma {:induction false} NumbersOfSameRows(a: seq<Version>, b: seq<Version>, tenantId: TenantId, jobId: JobId)
    requires |a| == |b|
    requires forall i :: 0 <= i < |a| ==> a[i].tenantId == b[i].tenantId && a[i].jobId == b[i].jobId && a[i].number == b[i].number
    ensures Numbers(a, tenantId, jobId) == Numbers(b, tenantId, jobId)
  {
    if a != [] {
      NumbersOfSameRows(a[..|a| - 1], b[..|b| - 1], tenantId, jobId);
    }
  }

  lemma {:induction false} NumbersHold(versions: seq<Version>, tenantId: TenantId, jobId: JobId, i: nat)
    requires i < |versions| && versions[i].tenantId == tenantId && versions[i].jobId == jobId
    ensures versions[i].number in Numbers(versions, tenantId, jobId)
  {
    if i < |versions| - 1 {
      NumbersHold(versions[..|versions| - 1], tenantId, jobId, i);
    }
  }

  /** The next number is free: the unique constraint never fires when calls do not race. */
  lemma NextNumberIsFree(h: Hashing, s: Store, tenantId: TenantId, jobId: JobId)
    requires Inv(h, s) && jobId in s.jobs && s.jobs[jobId] == tenantId
    ensures MaxVersion(s.versions, tenantId, jobId) == |Numbers(s.versions, tenantId, jobId)|
    ensures !NumberTaken(s.versions, jobId, MaxVersion(s.versions, tenantId, jobId) + 1)
  {
    var numbers := Numbers(s.versions, tenantId, jobId);
    LargestOfConsecutive(numbers, 0);
    forall i | 0 <= i < |s.versions| && s.versions[i].jobId == jobId
      ensures s.versions[i].number != |numbers| + 1
    {
      assert SoundVersion(h, s.jobs, s.versions[i]);
      NumbersHold(s.versions, tenantId, jobId, i);
    }
  }

  /** Adding the next draft of a job keeps the table sound. */
  lemma AppendKeepsInv(h: Hashing, s: Store, v: Version)
    requires Inv(h, s) && SoundVersion(h, s.jobs, v)
    requires v.number == MaxVersion(s.versions, v.tenantId, v.jobId) + 1
    ensures Inv(h, s.(versions := s.versions + [v]))
  {
    var t := s.(versions := s.versions + [v]);
    assert t.versions[..|t.versions| - 1] == s.versions;
    forall tenantId: TenantId, jobId: JobId ensures Consecutive(Numbers(t.versions, tenantId, jobId)) {
      assert Consecutive(Numbers(s.versions, tenantId, jobId));
      LargestOfConsecutive(Numbers(s.versions, tenantId, jobId), 0);
    }
  }

  /** Rewriting one row without touching its identity keeps the table sound. */
  lemma RewriteKeepsInv(h: Hashing, s: Store, id: nat, v: Version)
    requires Inv(h, s) && id < |s.versions| && SoundVersion(h, s.jobs, v)
    requires v.tenantId == s.versions[id].tenantId && v.jobId == s.versions[id].jobId && v.number == s.versions[id].number
    ensures Inv(h, s.(versions := s.versions[id := v]))
  {
    var t := s.(versions := s.versions[id := v]);
    forall tenantId: TenantId, jobId: JobId ensures Consecutive(Numbers(t.versions, tenantId, jobId)) {
      assert Consecutive(Numbers(s.versions, tenantId, jobId));
      NumbersOfSameRows(s.versions, t.versions, tenantId, jobId);
    }
  }

  /** The draft that minting starts from a version. */
  function Successor(s: Store, v: Version): Version {
    Version(v.tenantId, v.jobId, MaxVersion(s.versions, v.tenantId, v.jobId) + 1, Draft, None, v.failCap, v.requirements)
  }

  /** Minting succeeds for exactly the approved versions of the caller's tenant; the successor holds the same requirements. */
  lemma MintCopies(h: Hashing, s: Store, tenantId: TenantId, id: nat)
    requires Inv(h, s)
    ensures Minted(s, tenantId, id).Ok? <==> Owned(s, tenantId, id) && s.versions[id].status.Approved?
    ensures Minted(s, tenantId, id).Ok? ==>
              var v := s.versions[id];
              Minted(s, tenantId, id).value == s.(versions := (s.versions + [Successor(s, v)])[id := v.(status := Superseded)])
  {
    if Owned(s, tenantId, id) && s.versions[id].status.Approved? {
      var v := s.versions[id];
      assert SoundVersion(h, s.jobs, v);
      NextNumberIsFree(h, s, tenantId, v.jobId);
      CopyRescopesToItself(v.requirements);
      var number := MaxVersion(s.versions, tenantId, v.jobId) + 1;
      var blank := Version(tenantId, v.jobId, number, Draft, None, v.failCap, []);
      var successor := blank.(requirements := v.requirements);
      var added := s.versions + [blank];
      assert added[|s.versions| := successor] == s.versions + [successor];
    }
  }

  lemma MintKeepsInv(h: Hashing, s: Store, tenantId: TenantId, id: nat)
    requires Inv(h, s) && Minted(s, tenantId, id).Ok?
    ensures Inv(h, Minted(s, tenantId, id).value)
  {
    MintCopies(h, s, tenantId, id);
    var v := s.versions[id];
    assert SoundVersion(h, s.jobs, v);
    AppendKeepsInv(h, s, Successor(s, v));
    RewriteKeepsInv(h, s.(versions := s.versions + [Successor(s, v)]), id, v.(status := Superseded));
  }

  lemma CreateAppends(h: Hashing, s: Store, tenantId: TenantId, jobId: JobId, proposals: seq<Proposal>)
    requires Inv(h, s) && Created(s, tenantId, jobId, proposals).Ok?
    ensures var draft := Version(tenantId, jobId, MaxVersion(s.versions, tenantId, jobId) + 1, Draft, None,
                                 DEFAULT_FAIL_CAP, Rescope(proposals).value);
            Created(s, tenantId, jobId, proposals).value == s.(versions := s.versions + [draft])
  {
    var blank := Version(tenantId, jobId, MaxVersion(s.versions, tenantId, jobId) + 1, Draft, None, DEFAULT_FAIL_CAP, []);
    var draft := blank.(requirements := Rescope(proposals).value);
    assert (s.versions + [blank])[|s.versions| := draft] == s.versions + [draft];
  }

  /** Every call keeps the whole table sound. */
  lemma CallKeepsInv(h: Hashing, s: Store, call: Call)
    requires Inv(h, s)
    ensures Inv(h, After(h, s, call))
  {
    if Outcome(h, s, call).Ok? {
      match call
      case Create(tenantId, jobId, proposals) =>
        CreateAppends(h, s, tenantId, jobId, proposals);
        RescopedIsSound(proposals);
        AppendKeepsInv(h, s, Version(tenantId, jobId, MaxVersion(s.versions, tenantId, jobId) + 1, Draft, None,
                                     DEFAULT_FAIL_CAP, Rescope(proposals).value));
      case Update(tenantId, id, proposals) =>
        assert SoundVersion(h, s.jobs, s.versions[id]);
        RescopedIsSound(proposals);
        RewriteKeepsInv(h, s, id, s.versions[id].(requirements := Rescope(proposals).value));
      case Approve(tenantId, id) =>
        var v := s.versions[id];
        assert SoundVersion(h, s.jobs, v);
        RewriteKeepsInv(h, s, id, v.(contentHash := Some(HashOf(h, v.requirements)), status := Approved));
      case Mint(tenantId, id) => MintKeepsInv(h, s, tenantId, id);
    }
  }

  // ---- what never changes again ----

  function Rank(status: Status): nat {
    match status
    case Draft => 0
    case Approved => 1
    case Superseded => 2
  }

  /** Identity is fixed, status moves forward, and past draft the criteria and their hash are frozen. */
  predicate RowEvolves(v: Version, w: Version) {
    && w.tenantId == v.tenantId && w.jobId == v.jobId && w.number == v.number && w.failCap == v.failCap
    && Rank(v.status) <= Rank(w.status)
    && (!v.status.Draft? ==> w.requirements == v.requirements && w.contentHash == v.contentHash)
  }

  predicate Evolves(s: Store, t: Store) {
    && t.jobs == s.jobs && |s.versions| <= |t.versions|
    && forall i :: 0 <= i < |s.versions| ==> RowEvolves(s.versions[i], t.versions[i])
  }

  lemma AppendEvolves(s: Store, v: Version)
    ensures Evolves(s, s.(versions := s.versions + [v]))
  {
  }

  lemma RewriteEvolves(s: Store, id: nat, v: Version)
    requires id < |s.versions| && RowEvolves(s.versions[id], v)
    ensures Evolves(s, s.(versions := s.versions[id := v]))
  {
  }

  lemma MintEvolves(h: Hashing, s: Store, tenantId: TenantId, id: nat)
    requires Inv(h, s) && Minted(s, tenantId, id).Ok?
    ensures Evolves(s, Minted(s, tenantId, id).value)
  {
    MintCopies(h, s, tenantId, id);
    var v := s.versions[id];
    var added := s.(versions := s.versions + [Successor(s, v)]);
    AppendEvolves(s, Successor(s, v));
    RewriteEvolves(added, id, v.(status := Superseded));
  }

  lemma CallEvolves(h: Hashing, s: Store, call: Call)
    requires Inv(h, s)
    ensures Evolves(s, After(h, s, call))
  {
    if Outcome(h, s, call).Ok? {
      match call
      case Create(tenantId, jobId, proposals) =>
        CreateAppends(h, s, tenantId, jobId, proposals);
        AppendEvolves(s, Version(tenantId, jobId, MaxVersion(s.versions, tenantId, jobId) + 1, Draft, None,
                                 DEFAULT_FAIL_CAP, Rescope(proposals).value));
      case Update(tenantId, id, proposals) =>
        RewriteEvolves(s, id, s.versions[id].(requirements := Rescope(proposals).value));
      case Approve(tenantId, id) =>
        var v := s.versions[id];
        RewriteEvolves(s, id, v.(contentHash := Some(HashOf(h, v.requirements)), status := Approved));
      case Mint(tenantId, id) => MintEvolves(h, s, tenantId, id);
    }
  }

  /**
   Over every run of calls: the table stays sound, no version disappears or is renumbered,
   status only moves draft, approved, superseded, and an approved or superseded version keeps
   its criteria and its hash for ever.
   */
  lemma {:induction false} HistoryIsImmutable(h: Hashing, s: Store, calls: seq<Call>)
    requires Inv(h, s)
    ensures Inv(h, AfterAll(h, s, calls)) && Evolves(s, AfterAll(h, s, calls))
    decreases |calls|
  {
    if calls != [] {
      CallKeepsInv(h, s, calls[0]);
      CallEvolves(h, s, calls[0]);
      HistoryIsImmutable(h, After(h, s, calls[0]), calls[1..]);
    }
  }

  // ---- minting and approving ----

  /** The calls leave the requirements of one version alone. */
  predicate NeverUpdates(calls: seq<Call>, id: nat) {
    forall i :: 0 <= i < |calls| && calls[i].Update? ==> calls[i].id != id
  }

  lemma {:induction false} UneditedKeepsRequirements(h: Hashing, s: Store, calls: seq<Call>, id: nat)
    requires Inv(h, s) && id < |s.versions| && NeverUpdates(calls, id)
    ensures id < |AfterAll(h, s, calls).versions|
    ensures AfterAll(h, s, calls).versions[id].requirements == s.versions[id].requirements
    decreases |calls|
  {
    if calls != [] {
      var call := calls[0];
      assert call.Update? ==> call.id != id;
      CallKeepsInv(h, s, call);
      CallEvolves(h, s, call);
      if Outcome(h, s, call).Ok? {
        match call
        case Create(tenantId, jobId, proposals) => CreateAppends(h, s, tenantId, jobId, proposals);
        case Mint(tenantId, minted) => MintCopies(h, s, tenantId, minted);
        case _ =>
      }
      UneditedKeepsRequirements(h, After(h, s, call), calls[1..], id);
    }
  }

  /**
   A successor that is approved without having been edited carries its predecessor's hash,
   whatever else happens in between.
   */
  lemma UneditedSuccessorKeepsHash(h: Hashing, s: Store, tenantId: TenantId, id: nat, calls: seq<Call>)
    requires Inv(h, s) && Minted(s, tenantId, id).Ok?
    requires NeverUpdates(calls, |s.versions|)
    ensures var t := AfterAll(h, Minted(s, tenantId, id).value, calls);
            && |s.versions| < |t.versions|
            && (!t.versions[|s.versions|].status.Draft? ==>
                  t.versions[|s.versions|].contentHash == s.versions[id].contentHash)
  {
    var minted := Minted(s, tenantId, id).value;
    MintCopies(h, s, tenantId, id);
    MintKeepsInv(h, s, tenantId, id);
    UneditedKeepsRequirements(h, minted, calls, |s.versions|);
    HistoryIsImmutable(h, minted, calls);
    assert SoundVersion(h, s.jobs, s.versions[id]);
    assert SoundVersion(h, minted.jobs, AfterAll(h, minted, calls).versions[|s.versions|]);
  }

  // ---- approved versions of a job ----

  predicate OneApproved(s: Store) {
    forall i, j :: 0 <= i < j < |s.versions| && s.versions[i].jobId == s.versions[j].jobId ==>
      !(s.versions[i].status.Approved? && s.versions[j].status.Approved?)
  }

  predicate HasApproved(s: Store, jobId: JobId) {
    exists i :: 0 <= i < |s.versions| && s.versions[i].jobId == jobId && s.versions[i].status.Approved?
  }

  /**
   A job can come to have two approved versions, because a second draft may be created beside an
   approved one. One successful call keeps at most one exactly when it is not the approval of
   a draft whose job already has an approved version.
   */
  lemma OneApprovedIffNoSecondApproval(h: Hashing, s: Store, call: Call)
    requires Inv(h, s) && OneApproved(s) && Outcome(h, s, call).Ok?
    ensures OneApproved(After(h, s, call)) <==> !(call.Approve? && HasApproved(s, s.versions[call.id].jobId))
  {
    match call
    case Create(tenantId, jobId, proposals) =>
      CreateAppends(h, s, tenantId, jobId, proposals);
    case Update(_, _, _) =>
    case Mint(tenantId, id) =>
      MintCopies(h, s, tenantId, id);
    case Approve(tenantId, id) =>
      ApprovalIffNone(h, s, tenantId, id);
  }

  lemma ApprovalIffNone(h: Hashing, s: Store, tenantId: TenantId, id: nat)
    requires OneApproved(s) && ApprovedBy(h, s, tenantId, id).Ok?
    ensures OneApproved(ApprovedBy(h, s, tenantId, id).value) <==> !HasApproved(s, s.versions[id].jobId)
  {
    var t, jobId := ApprovedBy(h, s, tenantId, id).value, s.versions[id].jobId;
    if HasApproved(s, jobId) {
      var i :| 0 <= i < |s.versions| && s.versions[i].jobId == jobId && s.versions[i].status.Approved?;
      assert t.versions[i].status.Approved? && t.versions[id].status.Approved? && i != id;
    }
  }

  /** A job of a tenant with no versions yet. */
  function FreshJob(tenantId: TenantId, jobId: JobId): Store {
    Store(map[jobId := tenantId], [])
  }

  lemma FreshJobIsSound(h: Hashing, tenantId: TenantId, jobId: JobId)
    ensures Inv(h, FreshJob(tenantId, jobId))
  {
  }

  /** Creating and approving a draft of a job, whatever versions it has. */
  lemma CreateThenApprove(h: Hashing, s: Store, tenantId: TenantId, jobId: JobId, proposals: seq<Proposal>)
    requires Inv(h, s) && jobId in s.jobs && s.jobs[jobId] == tenantId && Rescope(proposals).Ok?
    ensures var t := After(h, After(h, s, Create(tenantId, jobId, proposals)), Approve(tenantId, |s.versions|));
            && Inv(h, t) && t.jobs == s.jobs && |t.versions| == |s.versions| + 1
            && t.versions[..|s.versions|] == s.versions
            && t.versions[|s.versions|].jobId == jobId && t.versions[|s.versions|].status.Approved?
  {
    RescopedIsSound(proposals);
    NextNumberIsFree(h, s, tenantId, jobId);
    CreateAppends(h, s, tenantId, jobId, proposals);
    CallKeepsInv(h, s, Create(tenantId, jobId, proposals));
    var drafted := After(h, s, Create(tenantId, jobId, proposals));
    CallKeepsInv(h, drafted, Approve(tenantId, |s.versions|));
  }

  /** Two drafts of a new job, each created and then approved, are both approved. */
  lemma TwoApprovedVersions(h: Hashing, tenantId: TenantId, jobId: JobId, proposals: seq<Proposal>)
    requires Rescope(proposals).Ok?
    ensures var calls := [Create(tenantId, jobId, proposals), Approve(tenantId, 0),
                          Create(tenantId, jobId, proposals), Approve(tenantId, 1)];
            !OneApproved(AfterAll(h, FreshJob(tenantId, jobId), calls))
  {
    var create, s := Create(tenantId, jobId, proposals), FreshJob(tenantId, jobId);
    var first, second := Approve(tenantId, 0), Approve(tenantId, 1);
    FreshJobIsSound(h, tenantId, jobId);
    CreateThenApprove(h, s, tenantId, jobId, proposals);
    var t := After(h, After(h, s, create), first);
    CreateThenApprove(h, t, tenantId, jobId, proposals);
    var u := After(h, After(h, t, create), second);
    assert u.versions[0] == u.versions[..1][0] == t.versions[0];
    FourCalls(h, s, create, first, create, second);
  }

  lemma FourCalls(h: Hashing, s: Store, a: Call, b: Call, c: Call, d: Call)
    ensures AfterAll(h, s, [a, b, c, d]) == After(h, After(h, After(h, After(h, s, a), b), c), d)
  {
    var s1 := After(h, s, a);
    var s2 := After(h, s1, b);
    var s3 := After(h, s2, c);
    assert [a, b, c, d][1..] == [b, c, d] && [b, c, d][1..] == [c, d] && [c, d][1..] == [d] && [d][1..] == [];
    assert AfterAll(h, s3, [d]) == After(h, s3, d);
    assert AfterAll(h, s2, [c, d]) == AfterAll(h, s3, [d]);
    assert AfterAll(h, s1, [b, c, d]) == AfterAll(h, s2, [c, d]);
  }

  /** A submission of one row with a positive weight is accepted. */
  lemma OneRowIsAccepted(p: Proposal)
    requires p.weight > 0.0
    ensures Rescope([p]).Ok?
  {
    var ws := ProposedWeights([p]);
    assert ws == [p.weight] && ws[1..] == [];
    assert Total(ws) == p.weight;
    Weights.WholeShare(p.weight);
    Weights.RepresentableWeightsNormalize(ws);
  }

  /** From a new job, four successful calls by its own tenant end with two approved versions. */
  lemma OneApprovedFailsReachably(h: Hashing, tenantId: TenantId, jobId: JobId, p: Proposal)
    requires p.weight > 0.0
    ensures exists calls: seq<Call> ::
              OneApproved(FreshJob(tenantId, jobId)) && !OneApproved(AfterAll(h, FreshJob(tenantId, jobId), calls))
  {
    OneRowIsAccepted(p);
    TwoApprovedVersions(h, tenantId, jobId, [p]);
  }

  // ---- the service, one transaction a call ----

  ghost predicate Refused(h: Hashing, s: Store, call: Call, error: Error) {
    Outcome(h, s, call) == Err(error) && After(h, s, call) == s
  }

  ghost predicate Reached(h: Hashing, s: Store, call: Call, t: Store) {
    Outcome(h, s, call) == Ok(t) && After(h, s, call) == t
  }

  /** What minting comes to once the new version has been added. */
  lemma MintedThrough(h: Hashing, s: Store, tenantId: TenantId, id: nat, added: Store)
    requires Owned(s, tenantId, id) && s.versions[id].status.Approved? && s.versions[id].requirements != []
    requires var v := s.versions[id];
             Added(s, Version(tenantId, v.jobId, MaxVersion(s.versions, tenantId, v.jobId) + 1, Draft, None, v.failCap, []))
             == Ok(added)
    ensures var rescoped := Rescope(Map(Copy, s.versions[id].requirements));
            && (rescoped.Err? ==> Refused(h, s, Mint(tenantId, id), rescoped.error))
            && (rescoped.Ok? ==> Reached(h, s, Mint(tenantId, id), Retired(Replaced(added, |s.versions|, rescoped.value), id)))
  {
  }

  class RubricService {
    const h: Hashing
    const jobs: map<JobId, TenantId>
    var versions: seq<Version>

    ghost function State(): Store
      reads this
    {
      Store(jobs, versions)
    }

    constructor (h: Hashing, jobs: map<JobId, TenantId>)
      ensures this.h == h && State() == Store(jobs, []) && Inv(h, State())
    {
      this.h := h;
      this.jobs := jobs;
      versions := [];
    }

    method MaxVersionForJob(tenantId: TenantId, jobId: JobId) returns (highest: nat)
      ensures highest == MaxVersion(versions, tenantId, jobId)
    {
      var numbers := [];
      var i := 0;
      while i < |versions|
        invariant 0 <= i <= |versions|
        invariant numbers == Numbers(versions[..i], tenantId, jobId)
      {
        assert versions[..i + 1][..i] == versions[..i];
        if versions[i].tenantId == tenantId && versions[i].jobId == jobId {
          numbers := numbers + [versions[i].number];
        }
        i := i + 1;
      }
      assert versions[..i] == versions;
      highest := Largest(numbers);
    }

    /** Replace the requirement set of one version; on an error nothing is written. */
    method ReplaceRequirements(id: nat, proposals: seq<Proposal>) returns (r: Result<(), Error>)
      requires id < |versions|
      modifies this
      ensures r.Ok? <==> Rescope(proposals).Ok?
      ensures r.Ok? ==> State() == Replaced(old(State()), id, Rescope(proposals).value)
      ensures r.Err? ==> versions == old(versions) && r.error == Rescope(proposals).error
    {
      var normalized := Weights.NormalizeWeights(ProposedWeights(proposals));
      if normalized.Err? {
        return Err(Invalid);
      }
      var scoped: seq<Requirement> := [];
      for ordinal := 0 to |proposals|
        invariant scoped == Assemble(proposals, normalized.value)[..ordinal]
      {
        scoped := scoped + [Scoped(proposals[ordinal], ordinal, normalized.value[ordinal])];
      }
      assert scoped == Assemble(proposals, normalized.value);
      versions := versions[id := versions[id].(requirements := scoped)];
      return Ok(());
    }

    method CreateDraft(tenantId: TenantId, jobId: JobId, proposals: seq<Proposal>) returns (r: Result<nat, Error>)
      requires Inv(h, State())
      modifies this
      ensures State() == After(h, old(State()), Create(tenantId, jobId, proposals)) && Inv(h, State())
      ensures r == match Outcome(h, old(State()), Create(tenantId, jobId, proposals))
                   case Ok(_) => Ok(|old(versions)|)
                   case Err(e) => Err(e)
    {
      CallKeepsInv(h, State(), Create(tenantId, jobId, proposals));
      if proposals == [] {
        return Err(Invalid);
      }
      if !(jobId in jobs && jobs[jobId] == tenantId) {
        return Err(NotFound);
      }
      var highest := MaxVersionForJob(tenantId, jobId);
      NextNumberIsFree(h, State(), tenantId, jobId);
      var before := versions;
      versions := versions + [Version(tenantId, jobId, highest + 1, Draft, None, DEFAULT_FAIL_CAP, [])];
      var replaced := ReplaceRequirements(|before|, proposals);
      if replaced.Err? {
        versions := before;
        return Err(replaced.error);
      }
      return Ok(|before|);
    }

    method UpdateDraft(tenantId: TenantId, id: nat, proposals: seq<Proposal>) returns (r: Result<nat, Error>)
      requires Inv(h, State())
      modifies this
      ensures State() == After(h, old(State()), Update(tenantId, id, proposals)) && Inv(h, State())
      ensures r == match Outcome(h, old(State()), Update(tenantId, id, proposals))
                   case Ok(_) => Ok(id)
                   case Err(e) => Err(e)
    {
      CallKeepsInv(h, State(), Update(tenantId, id, proposals));
      if id >= |versions| || versions[id].tenantId != tenantId {
        return Err(NotFound);
      }
      if !versions[id].status.Draft? {
        return Err(Conflict);
      }
      if proposals == [] {
        return Err(Invalid);
      }
      var replaced := ReplaceRequirements(id, proposals);
      if replaced.Err? {
        return Err(replaced.error);
      }
      return Ok(id);
    }

    method ApproveRubric(tenantId: TenantId, id: nat) returns (r: Result<nat, Error>)
      requires Inv(h, State())
      modifies this
      ensures State() == After(h, old(State()), Approve(tenantId, id)) && Inv(h, State())
      ensures r == match Outcome(h, old(State()), Approve(tenantId, id))
                   case Ok(_) => Ok(id)
                   case Err(e) => Err(e)
    {
      CallKeepsInv(h, State(), Approve(tenantId, id));
      if id >= |versions| || versions[id].tenantId != tenantId {
        return Err(NotFound);
      }
      var v := versions[id];
      if !v.status.Draft? {
        return Err(Conflict);
      }
      if v.requirements == [] {
        return Err(Invalid);
      }
      versions := versions[id := v.(contentHash := Some(HashOf(h, v.requirements)), status := Approved)];
      return Ok(id);
    }

    method MintNextVersion(tenantId: TenantId, id: nat) returns (r: Result<nat, Error>)
      requires Inv(h, State())
      modifies this
      ensures State() == After(h, old(State()), Mint(tenantId, id)) && Inv(h, State())
      ensures r == match Outcome(h, old(State()), Mint(tenantId, id))
                   case Ok(_) => Ok(|old(versions)|)
                   case Err(e) => Err(e)
    {
      CallKeepsInv(h, State(), Mint(tenantId, id));
      if id >= |versions| || versions[id].tenantId != tenantId {
        return Err(NotFound);
      }
      var v := versions[id];
      if !v.status.Approved? {
        return Err(Conflict);
      }
      if v.requirements == [] {
        return Err(Invalid);
      }
      var highest := MaxVersionForJob(tenantId, v.jobId);
      NextNumberIsFree(h, State(), tenantId, v.jobId);
      var before := versions;
      versions := versions + [Version(tenantId, v.jobId, highest + 1, Draft, None, v.failCap, [])];
      ghost var added := State();
      MintedThrough(h, old(State()), tenantId, id, added);
      var replaced := ReplaceRequirements(|before|, Map(Copy, v.requirements));
      if replaced.Err? {
        versions := before;
        return Err(replaced.error);
      }
      versions := versions[id := versions[id].(status := Superseded)];
      return Ok(|before|);
    }
  }
}
