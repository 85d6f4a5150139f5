/**
 The durable task queue (serving/app/services/workflow_runner.py).

 Task ids are handed out in ascending order and rows are never deleted, so a task's id is its
 position in `tasks`. Every method of the source is one transaction and therefore one step;
 workers interleave between steps. `Complete` and `Fail` look at neither the status nor the
 claimant, so late reports by a worker that was already given up are ordinary steps here.
 */
module WorkflowQueue {
  import opened Wrappers
  import opened Sums
  import opened Sorting

  type RunId = nat

  datatype Status = Pending | Claimed | Done | Failed

  datatype Task = Task(
    runId: RunId, stage: string, status: Status,
    claimedBy: Option<string>, claimedAt: Option<int>, notBefore: Option<int>,
    attempt: nat, maxAttempts: nat,
    outcome: Option<string>, error: Option<string>, errorCode: Option<string>)

  datatype Checkpoint = Checkpoint(lastStage: string, heartbeatAt: int, resumedCount: nat)

  datatype Queue = Queue(tasks: seq<Task>, checkpoints: map<RunId, Checkpoint>)

  const EMPTY := Queue([], map[])
  const RETRYABLE := {"network", "model_unavailable", "unknown"}
  const QUOTA := {"rate_limit", "quota", "budget_exceeded"}
  const MAX_ATTEMPTS := 3

  // ---- steps ----

  function Pow2(n: nat): nat {
    if n == 0 then 1 else 2 * Pow2(n - 1)
  }

  function RetryDelay(attempt: nat): nat {
    var delay := Pow2(if attempt >= 1 then attempt - 1 else 0);
    if delay < 300 then delay else 300
  }

  function NewTask(runId: RunId, stage: string): Task {
    Task(runId, stage, Pending, None, None, None, 0, MAX_ATTEMPTS, None, None, None)
  }

  function Fresh(runId: RunId, stage: string, count: nat): seq<Task> {
    seq(count, _ => NewTask(runId, stage))
  }

  predicate Ready(t: Task, runId: RunId, stage: string, now: int) {
    && t.runId == runId && t.stage == stage && t.status == Pending
    && (t.notBefore.None? || t.notBefore.value <= now)
  }

  /** The ids `claim` selects: ready rows in id order, at most `limit` of them. */
  function ReadyIds(tasks: seq<Task>, from: nat, runId: RunId, stage: string, limit: nat, now: int): (ids: seq<nat>)
    requires from <= |tasks|
    ensures forall k :: 0 <= k < |ids| ==> from <= ids[k] < |tasks|
    decreases |tasks| - from
  {
    if from == |tasks| || limit == 0 then []
    else if Ready(tasks[from], runId, stage, now)
    then [from] + ReadyIds(tasks, from + 1, runId, stage, limit - 1, now)
    else ReadyIds(tasks, from + 1, runId, stage, limit, now)
  }

  function Marked(t: Task, worker: string, now: int): Task {
    t.(status := Claimed, claimedBy := Some(worker), claimedAt := Some(now), attempt := t.attempt + 1)
  }

  function Failing(t: Task, error: string, code: string, retryAfter: Option<int>, now: int): Task {
    var noted := t.(error := Some(error), errorCode := Some(code));
    if code in QUOTA then
      var asked := match retryAfter case None => 60 case Some(s) => if s == 0 then 60 else s;
      noted.(status := Pending, claimedBy := None, claimedAt := None,
             notBefore := Some(now + if asked >= 1 then asked else 1),
             attempt := if t.attempt >= 1 then t.attempt - 1 else 0)
    else if code in RETRYABLE && t.attempt < t.maxAttempts then
      noted.(status := Pending, claimedBy := None, claimedAt := None, notBefore := Some(now + RetryDelay(t.attempt)))
    else
      noted.(status := Failed, claimedBy := None, claimedAt := None)
  }

  predicate Abandoned(t: Task, cutoff: int) {
    t.status == Claimed && t.claimedAt.Some? && t.claimedAt.value < cutoff
  }

  function AbandonedRuns(tasks: seq<Task>, cutoff: int): set<RunId> {
    set i | 0 <= i < |tasks| && Abandoned(tasks[i], cutoff) :: tasks[i].runId
  }

  function Released(t: Task, cutoff: int): Task {
    if Abandoned(t, cutoff) then t.(status := Pending, claimedBy := None, claimedAt := None) else t
  }

  function ReleasedAll(tasks: seq<Task>, cutoff: int): seq<Task> {
    seq(|tasks|, i requires 0 <= i < |tasks| => Released(tasks[i], cutoff))
  }

  function Resumed(checkpoints: map<RunId, Checkpoint>, runId: RunId): nat {
    if runId in checkpoints then checkpoints[runId].resumedCount else 0
  }

  function Bumped(checkpoints: map<RunId, Checkpoint>, runId: RunId, now: int): Checkpoint {
    if runId in checkpoints
    then checkpoints[runId].(resumedCount := checkpoints[runId].resumedCount + 1)
    else Checkpoint("screening", now, 1)
  }

  function BumpedAll(checkpoints: map<RunId, Checkpoint>, runs: set<RunId>, now: int): map<RunId, Checkpoint> {
    map r | r in checkpoints.Keys + runs :: if r in runs then Bumped(checkpoints, r, now) else checkpoints[r]
  }

  function Beaten(checkpoints: map<RunId, Checkpoint>, runId: RunId, stage: string, now: int): map<RunId, Checkpoint> {
    if runId in checkpoints
    then checkpoints[runId := checkpoints[runId].(lastStage := stage, heartbeatAt := now)]
    else checkpoints[runId := Checkpoint(stage, now, 0)]
  }

  datatype Event =
    | Enqueue(runId: RunId, stage: string, count: nat)
    | Claim(runId: RunId, stage: string, limit: nat, worker: string, now: int)
    | Complete(id: int, outcome: string)
    | Fail(id: int, error: string, code: string, retryAfter: Option<int>, now: int)
    | Recover(olderThan: int, now: int)
    | Heartbeat(runId: RunId, stage: string, now: int)

  function ClaimedTasks(tasks: seq<Task>, ids: seq<nat>, worker: string, now: int): seq<Task> {
    seq(|tasks|, i requires 0 <= i < |tasks| => if i in ids then Marked(tasks[i], worker, now) else tasks[i])
  }

  function Apply(q: Queue, e: Event): Queue {
    match e
    case Enqueue(runId, stage, count) => q.(tasks := q.tasks + Fresh(runId, stage, count))
    case Claim(runId, stage, limit, worker, now) =>
      q.(tasks := ClaimedTasks(q.tasks, ReadyIds(q.tasks, 0, runId, stage, limit, now), worker, now))
    case Complete(id, outcome) =>
      if 0 <= id < |q.tasks| then q.(tasks := q.tasks[id := q.tasks[id].(status := Done, outcome := Some(outcome))]) else q
    case Fail(id, error, code, retryAfter, now) =>
      if 0 <= id < |q.tasks| then q.(tasks := q.tasks[id := Failing(q.tasks[id], error, code, retryAfter, now)]) else q
    case Recover(olderThan, now) =>
      var cutoff := now - olderThan;
      Queue(ReleasedAll(q.tasks, cutoff), BumpedAll(q.checkpoints, AbandonedRuns(q.tasks, cutoff), now))
    case Heartbeat(runId, stage, now) => q.(checkpoints := Beaten(q.checkpoints, runId, stage, now))
  }

  function Run(q: Queue, events: seq<Event>): Queue
    decreases |events|
  {
    if events == [] then q else Run(Apply(q, events[0]), events[1..])
  }

  // ---- what every step keeps ----

  predicate TaskInv(t: Task, resumed: nat) {
    && 1 <= t.maxAttempts
    && t.attempt <= t.maxAttempts + resumed
    && (t.status == Pending ==> t.attempt < t.maxAttempts + resumed)
    && (t.status == Claimed ==> t.claimedAt.Some?)
  }

  predicate Inv(q: Queue) {
    forall i :: 0 <= i < |q.tasks| ==> TaskInv(q.tasks[i], Resumed(q.checkpoints, q.tasks[i].runId))
  }

  /** A step changes neither the identity of a task nor its retry limit, and loses no task. */
  lemma StepKeepsRows(q: Queue, e: Event)
    ensures |q.tasks| <= |Apply(q, e).tasks|
    ensures forall i :: 0 <= i < |q.tasks| ==>
              && Apply(q, e).tasks[i].runId == q.tasks[i].runId
              && Apply(q, e).tasks[i].stage == q.tasks[i].stage
              && Apply(q, e).tasks[i].maxAttempts == q.tasks[i].maxAttempts
  {
  }

  /** The attempt bound and "pending means strictly below it" survive every step, late reports included. */
  lemma StepKeepsInv(q: Queue, e: Event)
    requires Inv(q)
    ensures Inv(Apply(q, e))
  {
    var q' := Apply(q, e);
    forall i | 0 <= i < |q'.tasks| ensures TaskInv(q'.tasks[i], Resumed(q'.checkpoints, q'.tasks[i].runId)) {
      if i < |q.tasks| {
        assert TaskInv(q.tasks[i], Resumed(q.checkpoints, q.tasks[i].runId));
        if e.Recover? && Abandoned(q.tasks[i], e.now - e.olderThan) {
          assert q.tasks[i].runId in AbandonedRuns(q.tasks, e.now - e.olderThan);
        }
        if e.Claim? {
          ReadyIdsAreReady(q.tasks, 0, e.runId, e.stage, e.limit, e.now);
        }
      }
    }
  }

  /** Claims come in id order and only ready rows are claimed. */
  lemma {:induction false} ReadyIdsAreReady(tasks: seq<Task>, from: nat, runId: RunId, stage: string, limit: nat, now: int)
    requires from <= |tasks|
    ensures var ids := ReadyIds(tasks, from, runId, stage, limit, now);
            && |ids| <= limit
            && (forall k :: 0 <= k < |ids| ==>
                  var t := tasks[ids[k]];
                  && t.runId == runId && t.stage == stage && t.status == Pending
                  && (t.notBefore.Some? ==> t.notBefore.value <= now))
            && (forall k, l :: 0 <= k < l < |ids| ==> ids[k] < ids[l])
    decreases |tasks| - from
  {
    if from < |tasks| && limit > 0 {
      ReadyIdsAreReady(tasks, from + 1, runId, stage,
                       if Ready(tasks[from], runId, stage, now) then limit - 1 else limit, now);
    }
  }

  /** A ready row is passed over only when the limit is used up by older rows. */
  lemma {:induction false} ReadyIdsAreOldest(
    tasks: seq<Task>, from: nat, runId: RunId, stage: string, limit: nat, now: int, i: nat)
    requires from <= i < |tasks| && tasks[i].runId == runId && tasks[i].stage == stage && tasks[i].status == Pending
    requires tasks[i].notBefore.Some? ==> tasks[i].notBefore.value <= now
    requires i !in ReadyIds(tasks, from, runId, stage, limit, now)
    ensures var ids := ReadyIds(tasks, from, runId, stage, limit, now);
            |ids| == limit && forall k :: 0 <= k < |ids| ==> ids[k] < i
    decreases |tasks| - from
  {
    if limit > 0 {
      var ids := ReadyIds(tasks, from, runId, stage, limit, now);
      if Ready(tasks[from], runId, stage, now) {
        assert ids[0] == from && ids[1..] == ReadyIds(tasks, from + 1, runId, stage, limit - 1, now);
        assert i != from && i !in ids[1..];
        ReadyIdsAreOldest(tasks, from + 1, runId, stage, limit - 1, now, i);
      } else {
        ReadyIdsAreOldest(tasks, from + 1, runId, stage, limit, now, i);
      }
    }
  }

  // ---- accounting over whole runs ----

  function ClaimsBy(q: Queue, e: Event, id: nat): nat {
    if e.Claim? && id in ReadyIds(q.tasks, 0, e.runId, e.stage, e.limit, e.now) then 1 else 0
  }

  /** A quota failure gives the attempt back, unless a late report finds none to give back. */
  function RefundsBy(q: Queue, e: Event, id: nat): nat {
    if e.Fail? && e.id == id && id < |q.tasks| && e.code in QUOTA && q.tasks[id].attempt >= 1 then 1 else 0
  }

  function RecoveriesBy(q: Queue, e: Event, runId: RunId): nat {
    if e.Recover? && runId in AbandonedRuns(q.tasks, e.now - e.olderThan) then 1 else 0
  }

  function Claims(q: Queue, events: seq<Event>, id: nat): nat
    decreases |events|
  {
    if events == [] then 0 else ClaimsBy(q, events[0], id) + Claims(Apply(q, events[0]), events[1..], id)
  }

  function Refunds(q: Queue, events: seq<Event>, id: nat): nat
    decreases |events|
  {
    if events == [] then 0 else RefundsBy(q, events[0], id) + Refunds(Apply(q, events[0]), events[1..], id)
  }

  function Recoveries(q: Queue, events: seq<Event>, runId: RunId): nat
    decreases |events|
  {
    if events == [] then 0 else RecoveriesBy(q, events[0], runId) + Recoveries(Apply(q, events[0]), events[1..], runId)
  }

  function AttemptOf(q: Queue, id: nat): nat {
    if id < |q.tasks| then q.tasks[id].attempt else 0
  }

  /** In every run, late reports included: attempts are claims less refunds, resumptions are recoveries. */
  lemma {:induction false} AttemptIsClaimsLessRefunds(q: Queue, events: seq<Event>, id: nat, runId: RunId)
    ensures AttemptOf(Run(q, events), id) == AttemptOf(q, id) + Claims(q, events, id) - Refunds(q, events, id)
    ensures Resumed(Run(q, events).checkpoints, runId) == Resumed(q.checkpoints, runId) + Recoveries(q, events, runId)
    decreases |events|
  {
    if events != [] {
      AttemptIsClaimsLessRefunds(Apply(q, events[0]), events[1..], id, runId);
    }
  }

  lemma {:induction false} RunKeepsInv(q: Queue, events: seq<Event>)
    requires Inv(q)
    ensures Inv(Run(q, events)) && |q.tasks| <= |Run(q, events).tasks|
    ensures forall i :: 0 <= i < |q.tasks| ==>
              && Run(q, events).tasks[i].runId == q.tasks[i].runId
              && Run(q, events).tasks[i].maxAttempts == q.tasks[i].maxAttempts
    decreases |events|
  {
    if events != [] {
      StepKeepsInv(q, events[0]);
      StepKeepsRows(q, events[0]);
      RunKeepsInv(Apply(q, events[0]), events[1..]);
    }
  }

  /**
   No task is ever claimed more often than its retry limit, its run's resumptions and its
   quota refunds allow, whatever the interleaving.
   */
  lemma ClaimsAreBounded(q: Queue, events: seq<Event>, id: nat)
    requires Inv(q) && id < |Run(q, events).tasks|
    ensures var t := Run(q, events).tasks[id];
            && t.attempt <= t.maxAttempts + Resumed(Run(q, events).checkpoints, t.runId)
            && Claims(q, events, id) <= t.maxAttempts + Resumed(q.checkpoints, t.runId)
                 + Recoveries(q, events, t.runId) + Refunds(q, events, id)
  {
    RunKeepsInv(q, events);
    var t := Run(q, events).tasks[id];
    assert TaskInv(t, Resumed(Run(q, events).checkpoints, t.runId));
    AttemptIsClaimsLessRefunds(q, events, id, t.runId);
  }

  /** The event puts the task back in the queue. */
  predicate Requeues(q: Queue, e: Event, id: nat) {
    && id < |q.tasks|
    && match e
       case Fail(failed, error, code, retryAfter, now) =>
         failed == id && Failing(q.tasks[id], error, code, retryAfter, now).status == Pending
       case Recover(olderThan, now) => Abandoned(q.tasks[id], now - olderThan)
       case _ => false
  }

  predicate NeverRequeued(q: Queue, events: seq<Event>, id: nat)
    decreases |events|
  {
    events != [] ==> !Requeues(q, events[0], id) && NeverRequeued(Apply(q, events[0]), events[1..], id)
  }

  lemma {:induction false} HeldTasksAreNotClaimed(q: Queue, events: seq<Event>, id: nat)
    requires id < |q.tasks| && q.tasks[id].status != Pending && NeverRequeued(q, events, id)
    ensures Claims(q, events, id) == 0
    decreases |events|
  {
    if events != [] {
      var e := events[0];
      if e.Claim? {
        ReadyIdsAreReady(q.tasks, 0, e.runId, e.stage, e.limit, e.now);
      }
      HeldTasksAreNotClaimed(Apply(q, e), events[1..], id);
    }
  }

  /** Between two claims of one task something puts it back in the queue: no two workers hold it at once. */
  lemma NoDoubleClaim(q: Queue, first: Event, events: seq<Event>, id: nat)
    requires first.Claim? && ClaimsBy(q, first, id) == 1
    requires NeverRequeued(Apply(q, first), events, id)
    ensures Claims(Apply(q, first), events, id) == 0
  {
    HeldTasksAreNotClaimed(Apply(q, first), events, id);
  }

  predicate ClaimsBefore(events: seq<Event>, moment: int) {
    forall i :: 0 <= i < |events| && events[i].Claim? ==> events[i].now < moment
  }

  predicate NoReportFor(events: seq<Event>, id: nat) {
    forall i :: 0 <= i < |events| && events[i].Fail? ==> events[i].id != id
  }

  /** A task with a start time is not handed out before it, recoveries and late completions notwithstanding. */
  lemma {:induction false} NotBeforeIsRespected(q: Queue, events: seq<Event>, id: nat, moment: int)
    requires id < |q.tasks| && q.tasks[id].notBefore == Some(moment)
    requires ClaimsBefore(events, moment) && NoReportFor(events, id)
    ensures Claims(q, events, id) == 0
    decreases |events|
  {
    if events != [] {
      var e := events[0];
      assert e.Claim? ==> e.now < moment;
      assert e.Fail? ==> e.id != id;
      if e.Claim? {
        ReadyIdsAreReady(q.tasks, 0, e.runId, e.stage, e.limit, e.now);
      }
      NotBeforeIsRespected(Apply(q, e), events[1..], id, moment);
    }
  }

  /** "Done is final" holds for one step exactly when the step is not a late failure report for the task. */
  lemma DoneUnlessReportedFailed(q: Queue, e: Event, id: nat)
    requires id < |q.tasks| && q.tasks[id].status == Done
    ensures Apply(q, e).tasks[id].status == Done <==> !(e.Fail? && e.id == id)
  {
    if e.Claim? {
      ReadyIdsAreReady(q.tasks, 0, e.runId, e.stage, e.limit, e.now);
    }
  }

  lemma {:induction false} DoneStaysDone(q: Queue, events: seq<Event>, id: nat)
    requires id < |q.tasks| && q.tasks[id].status == Done && NoReportFor(events, id)
    ensures id < |Run(q, events).tasks| && Run(q, events).tasks[id].status == Done
    ensures Claims(q, events, id) == 0
    decreases |events|
  {
    if events != [] {
      var e := events[0];
      assert e.Fail? ==> e.id != id;
      if e.Claim? {
        ReadyIdsAreReady(q.tasks, 0, e.runId, e.stage, e.limit, e.now);
      }
      DoneStaysDone(Apply(q, e), events[1..], id);
    }
  }

  /** Claimed, given up, claimed by another worker and completed; then the first worker reports a failure. */
  const GIVEN_UP: seq<Event> := [
    Enqueue(0, "screening", 1), Claim(0, "screening", 1, "a", 0), Recover(120, 1000),
    Claim(0, "screening", 1, "b", 1000), Complete(0, "ok")]

  const LATE_FAILURE := Fail(0, "timed out", "network", None, 1001)

  function OneTask(t: Task, checkpoints: map<RunId, Checkpoint>): Queue {
    Queue([t], checkpoints)
  }

  lemma ClaimOne(t: Task, checkpoints: map<RunId, Checkpoint>, worker: string, now: int)
    requires Ready(t, t.runId, t.stage, now)
    ensures Apply(OneTask(t, checkpoints), Claim(t.runId, t.stage, 1, worker, now)) == OneTask(Marked(t, worker, now), checkpoints)
  {
    var q := OneTask(t, checkpoints);
    assert ReadyIds(q.tasks, 0, t.runId, t.stage, 1, now) == [0];
    assert Apply(q, Claim(t.runId, t.stage, 1, worker, now)).tasks == [Marked(t, worker, now)];
  }

  lemma RecoverOne(t: Task, checkpoints: map<RunId, Checkpoint>, olderThan: int, now: int)
    requires Abandoned(t, now - olderThan)
    ensures Apply(OneTask(t, checkpoints), Recover(olderThan, now))
         == OneTask(Released(t, now - olderThan), BumpedAll(checkpoints, {t.runId}, now))
  {
    var q := OneTask(t, checkpoints);
    assert q.tasks[0] == t;
    assert AbandonedRuns(q.tasks, now - olderThan) == {t.runId};
    assert ReleasedAll(q.tasks, now - olderThan) == [Released(t, now - olderThan)];
  }

  /** Where the first worker is when it reports. */
  lemma GivenUpIsDone() returns (t: Task, checkpoints: map<RunId, Checkpoint>)
    ensures Run(EMPTY, GIVEN_UP) == OneTask(t, checkpoints)
    ensures t.runId == 0 && t.stage == "screening" && t.status == Done && t.attempt == 2 && t.maxAttempts == 3
  {
    var t0 := NewTask(0, "screening");
    var t1 := Marked(t0, "a", 0);
    var t2 := Released(t1, 880);
    var t3 := Marked(t2, "b", 1000);
    checkpoints := BumpedAll(map[], {0}, 1000);
    t := t3.(status := Done, outcome := Some("ok"));
    FiveEvents(EMPTY, GIVEN_UP);
    assert Apply(EMPTY, GIVEN_UP[0]) == OneTask(t0, map[]);
    ClaimOne(t0, map[], "a", 0);
    RecoverOne(t1, map[], 120, 1000);
    ClaimOne(t2, checkpoints, "b", 1000);
    assert Apply(OneTask(t3, checkpoints), GIVEN_UP[4]).tasks == [t];
  }

  /** From the empty queue: a done task is put back in the queue by a late report, and handed out once more. */
  lemma DoneIsNotFinal()
    ensures var done := Run(EMPTY, GIVEN_UP);
            && |done.tasks| == 1 && done.tasks[0].status == Done
            && Apply(done, LATE_FAILURE).tasks[0].status == Pending
            && ClaimsBy(Apply(done, LATE_FAILURE), Claim(0, "screening", 1, "c", 2000), 0) == 1
  {
    var t, checkpoints := GivenUpIsDone();
    var back := Failing(t, "timed out", "network", None, 1001);
    DelayDoublesUpToCap(2);
    assert Apply(OneTask(t, checkpoints), LATE_FAILURE).tasks == [back];
    assert Ready(back, 0, "screening", 2000);
    assert ReadyIds([back], 0, 0, "screening", 1, 2000)[0] == 0;
  }

  lemma FiveEvents(q: Queue, e: seq<Event>)
    requires |e| == 5
    ensures Run(q, e) == Apply(Apply(Apply(Apply(Apply(q, e[0]), e[1]), e[2]), e[3]), e[4])
  {
    var q1 := Apply(q, e[0]);
    var q2 := Apply(q1, e[1]);
    var q3 := Apply(q2, e[2]);
    var q4 := Apply(q3, e[3]);
    assert Run(q4, e[4..]) == Apply(q4, e[4]);
    assert Run(q3, e[3..]) == Run(q4, e[4..]);
    assert Run(q2, e[2..]) == Run(q3, e[3..]);
    assert Run(q1, e[1..]) == Run(q2, e[2..]);
  }

  /** The retry delay doubles with each attempt and is capped at five minutes. */
  lemma {:induction false} DelayDoublesUpToCap(attempt: nat)
    ensures 1 <= RetryDelay(attempt) <= 300
    ensures attempt >= 1 ==> RetryDelay(attempt + 1) == if 2 * RetryDelay(attempt) < 300 then 2 * RetryDelay(attempt) else 300
  {
    PowPositive(if attempt >= 1 then attempt - 1 else 0);
  }

  lemma {:induction false} PowPositive(n: nat)
    ensures Pow2(n) >= 1
  {
    if n > 0 {
      PowPositive(n - 1);
    }
  }

  // ---- what each step leaves in the rows ----

  /** The seconds a failed task waits before its next attempt: doubling from one, at most five minutes. */
  function Backoff(attempt: nat): nat {
    if attempt < 10 then [1, 1, 2, 4, 8, 16, 32, 64, 128, 256][attempt] else 300
  }

  lemma {:induction false} DelayIsBackoff(attempt: nat)
    ensures RetryDelay(attempt) == Backoff(attempt)
  {
    if attempt < 10 {
      assert Pow2(2) == 4 && Pow2(4) == 16;
      assert Pow2(5) == 32 && Pow2(7) == 128 && Pow2(8) == 256;
    } else if attempt == 10 {
      assert Pow2(8) == 256 && Pow2(9) == 512;
    } else {
      DelayIsBackoff(attempt - 1);
      DelayDoublesUpToCap(attempt - 1);
    }
  }

  /** The row is handed back: unclaimed, with the failure noted, not before the given time. */
  predicate WaitsUntil(before: Task, after: Task, error: string, code: string, moment: int, attempt: nat) {
    after == Task(before.runId, before.stage, Pending, None, None, Some(moment), attempt, before.maxAttempts,
                  before.outcome, Some(error), Some(code))
  }

  /**
   What a failure report leaves of the row. A quota failure waits as long as the provider asked,
   at least a second, and a minute when it did not say, and gives the attempt back. A transient
   failure with attempts left waits longer each time. Any other failure is final. In each case
   the claim is cleared and the failure noted.
   */
  lemma FailedRow(q: Queue, id: nat, error: string, code: string, retryAfter: Option<int>, now: int)
    requires id < |q.tasks|
    ensures var before, after := q.tasks[id], Apply(q, Fail(id, error, code, retryAfter, now)).tasks[id];
            if code in {"rate_limit", "quota", "budget_exceeded"} then
              var attempt := if before.attempt == 0 then 0 else before.attempt - 1;
              && (retryAfter.None? || retryAfter == Some(0) ==> WaitsUntil(before, after, error, code, now + 60, attempt))
              && (retryAfter.Some? && retryAfter.value >= 1 ==>
                    WaitsUntil(before, after, error, code, now + retryAfter.value, attempt))
              && (retryAfter.Some? && retryAfter.value < 0 ==> WaitsUntil(before, after, error, code, now + 1, attempt))
            else if code in {"network", "model_unavailable", "unknown"} && before.attempt < before.maxAttempts then
              WaitsUntil(before, after, error, code, now + Backoff(before.attempt), before.attempt)
            else
              after == Task(before.runId, before.stage, Failed, None, None, before.notBefore, before.attempt,
                            before.maxAttempts, before.outcome, Some(error), Some(code))
  {
    DelayIsBackoff(q.tasks[id].attempt);
  }

  /** A report concerns one row, and a report for a missing row none. */
  lemma ReportsTouchOneRow(q: Queue, e: Event, i: nat)
    requires (e.Complete? || e.Fail?) && i < |q.tasks| && i != e.id
    ensures Apply(q, e).tasks[i] == q.tasks[i] && |Apply(q, e).tasks| == |q.tasks| && Apply(q, e).checkpoints == q.checkpoints
  {
  }

  /** A row, and a run's checkpoint, after the recovery of old claims. */
  lemma RecoveredRow(q: Queue, olderThan: int, now: int, i: nat)
    requires Inv(q) && i < |q.tasks|
    ensures var before, q' := q.tasks[i], Apply(q, Recover(olderThan, now));
            && |q'.tasks| == |q.tasks|
            && (if before.status == Claimed && before.claimedAt.Some? && before.claimedAt.value < now - olderThan then
                  && q'.tasks[i] == before.(status := Pending, claimedBy := None, claimedAt := None)
                  && before.runId in q'.checkpoints
                  && q'.checkpoints[before.runId]
                     == (if before.runId in q.checkpoints
                         then q.checkpoints[before.runId].(resumedCount := q.checkpoints[before.runId].resumedCount + 1)
                         else Checkpoint("screening", now, 1))
                else q'.tasks[i] == before)
  {
    assert TaskInv(q.tasks[i], Resumed(q.checkpoints, q.tasks[i].runId));
    if Abandoned(q.tasks[i], now - olderThan) {
      assert q.tasks[i].runId in AbandonedRuns(q.tasks, now - olderThan);
    }
  }

  /** Runs without an old claim keep their checkpoint, or their lack of one. */
  lemma UnrecoveredRun(q: Queue, olderThan: int, now: int, runId: RunId)
    requires forall i :: 0 <= i < |q.tasks| && q.tasks[i].runId == runId && q.tasks[i].status == Claimed && q.tasks[i].claimedAt.Some? ==>
               q.tasks[i].claimedAt.value >= now - olderThan
    ensures var after := Apply(q, Recover(olderThan, now)).checkpoints;
            && (runId in after <==> runId in q.checkpoints)
            && (runId in after ==> after[runId] == q.checkpoints[runId])
  {
    assert runId !in AbandonedRuns(q.tasks, now - olderThan);
  }

  /** A row after a claim: the oldest that are pending and due are taken, as many as the limit allows, the rest left alone. */
  lemma ClaimedRow(q: Queue, runId: RunId, stage: string, limit: nat, worker: string, now: int, i: nat)
    requires i < |q.tasks|
    ensures var before, after := q.tasks[i], Apply(q, Claim(runId, stage, limit, worker, now)).tasks[i];
            var taken := before.(status := Claimed, claimedBy := Some(worker), claimedAt := Some(now), attempt := before.attempt + 1);
            if && before.runId == runId && before.stage == stage && before.status == Pending
               && (before.notBefore.Some? ==> before.notBefore.value <= now)
               && ReadyBefore(q.tasks, i, runId, stage, now) < limit
            then after == taken else after == before
  {
    TakenIffAmongFirst(q.tasks, 0, i, runId, stage, limit, now);
  }

  /** How many rows ahead of `i` are pending and due. */
  function ReadyBefore(tasks: seq<Task>, i: nat, runId: RunId, stage: string, now: int): nat
    requires i <= |tasks|
  {
    ReadyBetween(tasks, 0, i, runId, stage, now)
  }

  function ReadyBetween(tasks: seq<Task>, from: nat, i: nat, runId: RunId, stage: string, now: int): nat
    requires from <= i <= |tasks|
    decreases i - from
  {
    if from == i then 0
    else
      var t := tasks[from];
      var due := t.notBefore.Some? ==> t.notBefore.value <= now;
      (if t.runId == runId && t.stage == stage && t.status == Pending && due then 1 else 0)
      + ReadyBetween(tasks, from + 1, i, runId, stage, now)
  }

  lemma {:induction false} TakenIffAmongFirst(
    tasks: seq<Task>, from: nat, i: nat, runId: RunId, stage: string, limit: nat, now: int)
    requires from <= i < |tasks|
    ensures i in ReadyIds(tasks, from, runId, stage, limit, now)
       <==> Ready(tasks[i], runId, stage, now) && ReadyBetween(tasks, from, i, runId, stage, now) < limit
    decreases i - from
  {
    if limit > 0 {
      var rest := if Ready(tasks[from], runId, stage, now) then limit - 1 else limit;
      var later := ReadyIds(tasks, from + 1, runId, stage, rest, now);
      if from < i {
        TakenIffAmongFirst(tasks, from + 1, i, runId, stage, rest, now);
      }
      assert i in ReadyIds(tasks, from, runId, stage, limit, now) <==>
        i in later || (i == from && Ready(tasks[from], runId, stage, now));
    }
  }

  /** A new row waits to be claimed, for the first of three attempts, from now on. */
  lemma EnqueuedRow(q: Queue, runId: RunId, stage: string, count: nat, i: nat)
    requires i < |q.tasks| + count
    ensures var q' := Apply(q, Enqueue(runId, stage, count));
            && |q'.tasks| == |q.tasks| + count && q'.checkpoints == q.checkpoints
            && q'.tasks[i] == if i < |q.tasks| then q.tasks[i]
                              else Task(runId, stage, Pending, None, None, None, 0, 3, None, None, None)
  {
  }

  // ---- the queue as a whole ----

  function Left(t: Task, checkpoints: map<RunId, Checkpoint>): int {
    t.maxAttempts + Resumed(checkpoints, t.runId) - t.attempt
  }

  function Lefts(q: Queue): seq<int> {
    seq(|q.tasks|, i requires 0 <= i < |q.tasks| => Left(q.tasks[i], q.checkpoints))
  }

  /** How many claims the queue can still hand out. */
  function Budget(q: Queue): int {
    Sum(Lefts(q))
  }

  function HandedBy(q: Queue, e: Event): nat {
    if e.Claim? then |ReadyIds(q.tasks, 0, e.runId, e.stage, e.limit, e.now)| else 0
  }

  function InRuns(tasks: seq<Task>, runs: set<RunId>): set<nat> {
    set i: nat | i < |tasks| && tasks[i].runId in runs
  }

  /** What an event adds to the budget: new tasks, a refund, or one more resumption for every task of a recovered run. */
  function GainedBy(q: Queue, e: Event): nat {
    match e
    case Enqueue(runId, stage, count) => count * (MAX_ATTEMPTS + Resumed(q.checkpoints, runId))
    case Fail(id, _, _, _, _) => if id >= 0 then RefundsBy(q, e, id) else 0
    case Recover(olderThan, now) => |InRuns(q.tasks, AbandonedRuns(q.tasks, now - olderThan))|
    case _ => 0
  }

  function Handed(q: Queue, events: seq<Event>): nat
    decreases |events|
  {
    if events == [] then 0 else HandedBy(q, events[0]) + Handed(Apply(q, events[0]), events[1..])
  }

  function Gained(q: Queue, events: seq<Event>): nat
    decreases |events|
  {
    if events == [] then 0 else GainedBy(q, events[0]) + Gained(Apply(q, events[0]), events[1..])
  }

  lemma EnqueueBudget(q: Queue, runId: RunId, stage: string, count: nat)
    ensures Budget(Apply(q, Enqueue(runId, stage, count))) == Budget(q) + count * (MAX_ATTEMPTS + Resumed(q.checkpoints, runId))
  {
    var a, b := Lefts(q), Lefts(Apply(q, Enqueue(runId, stage, count)));
    var added := b[|a|..];
    assert b == a + added;
    SumConcat(a, added);
    SumConstant(added, MAX_ATTEMPTS + Resumed(q.checkpoints, runId));
  }

  lemma ClaimBudget(q: Queue, e: Event)
    requires e.Claim?
    ensures Budget(Apply(q, e)) + HandedBy(q, e) == Budget(q)
  {
    var ids := ReadyIds(q.tasks, 0, e.runId, e.stage, e.limit, e.now);
    ReadyIdsAreReady(q.tasks, 0, e.runId, e.stage, e.limit, e.now);
    ElementsSize(ids);
    var a, b := Lefts(q), Lefts(Apply(q, e));
    forall i | 0 <= i < |a| ensures b[i] == a[i] + if i in Elements(ids) then -1 else 0 {
    }
    SumShift(a, b, Elements(ids), -1);
  }

  lemma FailBudget(q: Queue, e: Event)
    requires e.Fail? && 0 <= e.id < |q.tasks|
    ensures Budget(Apply(q, e)) == Budget(q) + RefundsBy(q, e, e.id)
  {
    var a, b := Lefts(q), Lefts(Apply(q, e));
    var d := RefundsBy(q, e, e.id);
    assert b[e.id] == a[e.id] + d;
    SumShift(a, b, {e.id as nat}, d);
  }

  lemma RecoverBudget(q: Queue, olderThan: int, now: int)
    ensures Budget(Apply(q, Recover(olderThan, now)))
         == Budget(q) + |InRuns(q.tasks, AbandonedRuns(q.tasks, now - olderThan))|
  {
    var runs := AbandonedRuns(q.tasks, now - olderThan);
    var a, b := Lefts(q), Lefts(Apply(q, Recover(olderThan, now)));
    forall i | 0 <= i < |a| ensures b[i] == a[i] + if i in InRuns(q.tasks, runs) then 1 else 0 {
    }
    SumShift(a, b, InRuns(q.tasks, runs), 1);
  }

  /** One step: the budget spent on claims is exactly what was there plus what the event added. */
  lemma StepConservesBudget(q: Queue, e: Event)
    ensures Budget(Apply(q, e)) + HandedBy(q, e) == Budget(q) + GainedBy(q, e)
  {
    match e
    case Enqueue(runId, stage, count) => EnqueueBudget(q, runId, stage, count);
    case Claim(_, _, _, _, _) => ClaimBudget(q, e);
    case Fail(id, _, _, _, _) =>
      if 0 <= id < |q.tasks| {
        FailBudget(q, e);
      }
    case Recover(olderThan, now) => RecoverBudget(q, olderThan, now);
    case Complete(_, _) => assert Lefts(q) == Lefts(Apply(q, e));
    case Heartbeat(_, _, _) => assert Lefts(q) == Lefts(Apply(q, e));
  }

  /**
   In every run from a sound state the claims handed out never exceed the initial budget plus
   what enqueues, refunds and recoveries added. Once those stop, the queue runs dry.
   */
  lemma {:induction false} ClaimsSpendTheBudget(q: Queue, events: seq<Event>)
    requires Inv(q)
    ensures Budget(Run(q, events)) + Handed(q, events) == Budget(q) + Gained(q, events)
    ensures Handed(q, events) <= Budget(q) + Gained(q, events)
    decreases |events|
  {
    if events == [] {
      forall i | 0 <= i < |q.tasks| ensures Lefts(q)[i] >= 0 {
        assert TaskInv(q.tasks[i], Resumed(q.checkpoints, q.tasks[i].runId));
      }
      SumNonnegative(Lefts(q));
    } else {
      StepConservesBudget(q, events[0]);
      StepKeepsInv(q, events[0]);
      ClaimsSpendTheBudget(Apply(q, events[0]), events[1..]);
    }
  }

  /** No event of the list can add to the budget. */
  predicate Quiet(events: seq<Event>) {
    forall i :: 0 <= i < |events| ==>
      && !events[i].Enqueue? && !events[i].Recover?
      && (events[i].Fail? ==> events[i].code !in QUOTA)
  }

  /** Once enqueues, quota failures and recoveries stop, at most `Budget(q)` claims are left, retries included. */
  lemma {:induction false} QueueRunsDry(q: Queue, events: seq<Event>)
    requires Inv(q) && Quiet(events)
    ensures Handed(q, events) <= Budget(q)
    decreases |events|
  {
    if events == [] {
      ClaimsSpendTheBudget(q, events);
    } else {
      StepKeepsInv(q, events[0]);
      StepConservesBudget(q, events[0]);
      QueueRunsDry(Apply(q, events[0]), events[1..]);
    }
  }

  // ---- the runner, updating its tables in place ----

  lemma MarkOneMore(tasks: seq<Task>, ids: seq<nat>, k: nat, worker: string, now: int)
    requires k < |ids| && ids[k] < |tasks| && ids[k] !in ids[..k]
    ensures var before := ClaimedTasks(tasks, ids[..k], worker, now);
            ClaimedTasks(tasks, ids[..k + 1], worker, now) == before[ids[k] := Marked(before[ids[k]], worker, now)]
  {
    assert ids[..k + 1] == ids[..k] + [ids[k]];
  }

  class WorkflowRunner {
    var tasks: seq<Task>
    var checkpoints: map<RunId, Checkpoint>

    function State(): Queue
      reads this
    {
      Queue(tasks, checkpoints)
    }

    constructor ()
      ensures State() == EMPTY && Inv(State())
    {
      tasks := [];
      checkpoints := map[];
    }

    method EnqueueTasks(runId: RunId, stage: string, count: nat) returns (ids: seq<nat>)
      requires Inv(State())
      modifies this`tasks
      ensures State() == Apply(old(State()), Enqueue(runId, stage, count)) && Inv(State())
      ensures ids == seq(count, i requires 0 <= i < count => |old(tasks)| + i)
    {
      StepKeepsInv(State(), Enqueue(runId, stage, count));
      ids := [];
      for i := 0 to count
        invariant tasks == old(tasks) + Fresh(runId, stage, i)
        invariant ids == seq(i, j requires 0 <= j < i => |old(tasks)| + j)
      {
        ids := ids + [|tasks|];
        tasks := tasks + [NewTask(runId, stage)];
      }
    }

    method ClaimTasks(runId: RunId, stage: string, limit: nat, worker: string, now: int) returns (ids: seq<nat>)
      requires Inv(State())
      modifies this`tasks
      ensures State() == Apply(old(State()), Claim(runId, stage, limit, worker, now)) && Inv(State())
      ensures ids == ReadyIds(old(tasks), 0, runId, stage, limit, now)
      ensures forall k :: 0 <= k < |ids| ==> tasks[ids[k]] == Marked(old(tasks)[ids[k]], worker, now)
    {
      ghost var event := Claim(runId, stage, limit, worker, now);
      StepKeepsInv(State(), event);
      ids := SelectReady(runId, stage, limit, now);
      ReadyIdsAreReady(tasks, 0, runId, stage, limit, now);
      var k := 0;
      while k < |ids|
        invariant 0 <= k <= |ids|
        invariant tasks == ClaimedTasks(old(tasks), ids[..k], worker, now)
      {
        MarkOneMore(old(tasks), ids, k, worker, now);
        tasks := tasks[ids[k] := Marked(tasks[ids[k]], worker, now)];
        k := k + 1;
      }
      assert ids[..k] == ids;
    }

    method SelectReady(runId: RunId, stage: string, limit: nat, now: int) returns (ids: seq<nat>)
      ensures ids == ReadyIds(tasks, 0, runId, stage, limit, now)
    {
      ids := [];
      var i := 0;
      while i < |tasks| && |ids| < limit
        invariant 0 <= i <= |tasks| && |ids| <= limit
        invariant ReadyIds(tasks, 0, runId, stage, limit, now) == ids + ReadyIds(tasks, i, runId, stage, limit - |ids|, now)
      {
        ghost var rest := ReadyIds(tasks, i + 1, runId, stage, limit - |ids| - 1, now);
        if Ready(tasks[i], runId, stage, now) {
          assert ids + ([i] + rest) == (ids + [i]) + rest;
          ids := ids + [i];
        }
        i := i + 1;
      }
    }

    method CompleteTask(id: int, outcome: string)
      requires Inv(State())
      modifies this`tasks
      ensures State() == Apply(old(State()), Complete(id, outcome)) && Inv(State())
      ensures 0 <= id < |tasks| ==> tasks == old(tasks)[id := old(tasks)[id].(status := Done, outcome := Some(outcome))]
    {
      StepKeepsInv(State(), Complete(id, outcome));
      if 0 <= id < |tasks| {
        tasks := tasks[id := tasks[id].(status := Done, outcome := Some(outcome))];
      }
    }

    method FailTask(id: int, error: string, code: string, retryAfter: Option<int>, now: int)
      requires Inv(State())
      modifies this`tasks
      ensures State() == Apply(old(State()), Fail(id, error, code, retryAfter, now)) && Inv(State())
      ensures |tasks| == |old(tasks)| && forall i :: 0 <= i < |tasks| && i != id ==> tasks[i] == old(tasks)[i]
    {
      StepKeepsInv(State(), Fail(id, error, code, retryAfter, now));
      if id < 0 || id >= |tasks| {
        return;
      }
      tasks := tasks[id := Failing(tasks[id], error, code, retryAfter, now)];
    }

    method RecoverClaimed(olderThan: int, now: int) returns (runs: set<RunId>)
      requires Inv(State())
      modifies this
      ensures State() == Apply(old(State()), Recover(olderThan, now)) && Inv(State())
      ensures runs == AbandonedRuns(old(tasks), now - olderThan)
    {
      StepKeepsInv(State(), Recover(olderThan, now));
      var cutoff := now - olderThan;
      runs := AbandonedRuns(tasks, cutoff);
      tasks := ReleasedAll(tasks, cutoff);
      BumpRuns(runs, now);
    }

    method BumpRuns(runs: set<RunId>, now: int)
      modifies this`checkpoints
      ensures checkpoints == BumpedAll(old(checkpoints), runs, now)
    {
      var todo := runs;
      while todo != {}
        invariant todo <= runs
        invariant checkpoints == BumpedAll(old(checkpoints), runs - todo, now)
        decreases todo
      {
        var r :| r in todo;
        checkpoints := checkpoints[r := Bumped(checkpoints, r, now)];
        todo := todo - {r};
      }
      assert runs - todo == runs;
    }

    method Beat(runId: RunId, stage: string, now: int)
      requires Inv(State())
      modifies this`checkpoints
      ensures State() == Apply(old(State()), Heartbeat(runId, stage, now)) && Inv(State())
      ensures checkpoints == old(checkpoints)[runId :=
                Checkpoint(stage, now, if runId in old(checkpoints) then old(checkpoints)[runId].resumedCount else 0)]
    {
      StepKeepsInv(State(), Heartbeat(runId, stage, now));
      checkpoints := Beaten(checkpoints, runId, stage, now);
    }
  }
}
