/**
 Screening runs and their durable tasks (serving/app/routers/screening.py, admission,
 `_drain_run` and `_execute_run`).

 Admission stores a run as queued together with one task. A worker claims the task, executes,
 writes the run's status and reports to the queue: three transactions, between which it may stop
 and others may step. Inside the execution the status `running` is never committed. Runs are
 numbered in the order of admission, so the task of run `i` is row `i` of the queue; run rows are
 never deleted.
 */
module ScreeningRuns {
  import opened Wrappers
  import opened WorkflowQueue

  datatype Outcome = Success | Failure(code: string)

  datatype RunStatus = Queued | Completed | RunFailed

  const RESCHEDULABLE := {"rate_limit", "quota", "budget_exceeded", "network", "model_unavailable", "unknown"}

  /** The status an execution commits on the run. */
  function StatusAfter(outcome: Outcome): RunStatus {
    match outcome
    case Success => Completed
    case Failure(code) => if code in RESCHEDULABLE then Queued else RunFailed
  }

  /** An empty code is reported as unknown. */
  function CodeOf(code: string): string {
    if code == "" then "unknown" else code
  }

  function Report(id: nat, outcome: Outcome, now: int): Event {
    match outcome
    case Success => Complete(id, "ok")
    case Failure(code) => Fail(id, "screening execution failed", CodeOf(code), None, now)
  }

  // ---- one drain among others ----

  /** The event neither reports on the task nor takes it from its claimant. */
  predicate LeavesAlone(q: Queue, e: Event, id: nat) {
    && (e.Complete? || e.Fail? ==> e.id != id)
    && !(e.Recover? && id < |q.tasks| && Abandoned(q.tasks[id], e.now - e.olderThan))
  }

  predicate AllLeaveAlone(q: Queue, events: seq<Event>, id: nat)
    decreases |events|
  {
    events != [] ==> LeavesAlone(q, events[0], id) && AllLeaveAlone(Apply(q, events[0]), events[1..], id)
  }

  lemma {:induction false} ClaimedTaskStays(q: Queue, events: seq<Event>, id: nat)
    requires id < |q.tasks| && q.tasks[id].status == Claimed && AllLeaveAlone(q, events, id)
    ensures |q.tasks| <= |Run(q, events).tasks| && Run(q, events).tasks[id] == q.tasks[id]
    decreases |events|
  {
    if events != [] {
      var e := events[0];
      if e.Claim? {
        ReadyIdsAreReady(q.tasks, 0, e.runId, e.stage, e.limit, e.now);
      }
      ClaimedTaskStays(Apply(q, e), events[1..], id);
    }
  }

  /** A drain: claim, whatever others do meanwhile, report. */
  function Drained(q: Queue, id: nat, outcome: Outcome, worker: string, claimAt: int, others: seq<Event>, reportAt: int): Queue
    requires id < |q.tasks|
  {
    var claimed := Apply(q, Claim(q.tasks[id].runId, "screening", 1, worker, claimAt));
    Apply(Run(claimed, others), Report(id, outcome, reportAt))
  }

  predicate Settles(before: Task, after: Task, outcome: Outcome, reportAt: int) {
    && (after.status == Done <==> outcome.Success?)
    && (after.status == Pending <==>
          && outcome.Failure?
          && (CodeOf(outcome.code) in QUOTA || (CodeOf(outcome.code) in RETRYABLE && before.attempt + 1 < before.maxAttempts)))
    && (after.status == Pending ==>
          && after.notBefore.Some? && reportAt < after.notBefore.value
          && after.attempt == before.attempt + if CodeOf(outcome.code) in QUOTA then 0 else 1)
    && after.status != Claimed
  }

  /**
   A drain takes the oldest ready task of the run and settles it: done, back in the queue with
   a later start, or failed for good. Other workers may claim, report on other tasks, enqueue,
   beat and recover in between; every other task is as they left it.
   */
  lemma DrainSettlesOldestReady(
    q: Queue, id: nat, outcome: Outcome, worker: string, claimAt: int, others: seq<Event>, reportAt: int)
    requires id < |q.tasks| && Ready(q.tasks[id], q.tasks[id].runId, "screening", claimAt)
    requires forall i :: 0 <= i < id ==> !Ready(q.tasks[i], q.tasks[id].runId, "screening", claimAt)
    requires AllLeaveAlone(Apply(q, Claim(q.tasks[id].runId, "screening", 1, worker, claimAt)), others, id)
    ensures var claimed := Apply(q, Claim(q.tasks[id].runId, "screening", 1, worker, claimAt));
            var left, after := Run(claimed, others), Drained(q, id, outcome, worker, claimAt, others, reportAt);
            && (forall i :: 0 <= i < |q.tasks| && i != id ==> claimed.tasks[i] == q.tasks[i])
            && |after.tasks| == |left.tasks| >= |q.tasks| && after.checkpoints == left.checkpoints
            && (forall i :: 0 <= i < |left.tasks| && i != id ==> after.tasks[i] == left.tasks[i])
            && Settles(q.tasks[id], after.tasks[id], outcome, reportAt)
  {
    var t := q.tasks[id];
    var claimed := Apply(q, Claim(t.runId, "screening", 1, worker, claimAt));
    ClaimTakesOldest(q, id, worker, claimAt);
    ClaimedTaskStays(claimed, others, id);
    ReportSettles(Run(claimed, others), id, t, worker, claimAt, outcome, reportAt);
  }

  lemma ClaimTakesOldest(q: Queue, id: nat, worker: string, claimAt: int)
    requires id < |q.tasks| && Ready(q.tasks[id], q.tasks[id].runId, "screening", claimAt)
    requires forall i :: 0 <= i < id ==> !Ready(q.tasks[i], q.tasks[id].runId, "screening", claimAt)
    ensures Apply(q, Claim(q.tasks[id].runId, "screening", 1, worker, claimAt))
         == q.(tasks := q.tasks[id := Marked(q.tasks[id], worker, claimAt)])
  {
    FirstReady(q.tasks, 0, id, q.tasks[id].runId, claimAt);
    assert ClaimedTasks(q.tasks, [id], worker, claimAt) == q.tasks[id := Marked(q.tasks[id], worker, claimAt)];
  }

  lemma ReportSettles(q: Queue, id: nat, before: Task, worker: string, claimAt: int, outcome: Outcome, reportAt: int)
    requires id < |q.tasks| && q.tasks[id] == Marked(before, worker, claimAt)
    ensures var after := Apply(q, Report(id, outcome, reportAt));
            && |after.tasks| == |q.tasks| && after.checkpoints == q.checkpoints
            && (forall i :: 0 <= i < |q.tasks| && i != id ==> after.tasks[i] == q.tasks[i])
            && Settles(before, after.tasks[id], outcome, reportAt)
  {
    DelayDoublesUpToCap(before.attempt + 1);
  }

  lemma {:induction false} FirstReady(tasks: seq<Task>, from: nat, id: nat, runId: RunId, now: int)
    requires from <= id < |tasks| && Ready(tasks[id], runId, "screening", now)
    requires forall i :: from <= i < id ==> !Ready(tasks[i], runId, "screening", now)
    ensures ReadyIds(tasks, from, runId, "screening", 1, now) == [id]
    decreases id - from
  {
    if from < id {
      FirstReady(tasks, from + 1, id, runId, now);
    }
  }

  /**
   What a report leaves of the task's row: done with its outcome, or failed as reported. The
   drain never passes on how long a provider asked to wait, so a quota failure waits a minute.
   */
  lemma ReportedRow(q: Queue, id: nat, outcome: Outcome, now: int)
    requires id < |q.tasks|
    ensures var before, after := q.tasks[id], Apply(q, Report(id, outcome, now)).tasks[id];
            match outcome
            case Success => after == before.(status := Done, outcome := Some("ok"))
            case Failure(code) =>
              var reported := if code == "" then "unknown" else code;
              if code in {"rate_limit", "quota", "budget_exceeded"} then
                WaitsUntil(before, after, "screening execution failed", code, now + 60,
                           if before.attempt == 0 then 0 else before.attempt - 1)
              else if code in {"network", "model_unavailable", "unknown", ""} && before.attempt < before.maxAttempts then
                WaitsUntil(before, after, "screening execution failed", reported, now + Backoff(before.attempt), before.attempt)
              else
                after == before.(status := Failed, claimedBy := None, claimedAt := None,
                                 error := Some("screening execution failed"), errorCode := Some(reported))
  {
    if outcome.Failure? {
      var reported := if outcome.code == "" then "unknown" else outcome.code;
      FailedRow(q, id, "screening execution failed", reported, None, now);
    }
  }

  // ---- runs, their tasks and the workers ----

  /** A worker executes, or has committed a status for the run and not yet reported. */
  datatype Phase = Holding | Written(outcome: Outcome)

  datatype Work = Work(runId: nat, task: nat, phase: Phase)

  datatype World = World(queue: Queue, statuses: seq<RunStatus>, workers: map<string, Work>)

  const START := World(EMPTY, [], map[])

  datatype Act =
    | Admit
    | Begin(worker: string, runId: nat, now: int)
    | Beat(runId: nat, now: int)
    | Write(worker: string, outcome: Outcome)
    | Settle(worker: string, now: int)
    | Crash(worker: string)
    | Sweep(olderThan: int, now: int)

  /** An execution commits once; a failure after a successful commit overwrites the status. */
  predicate MayWrite(phase: Phase, outcome: Outcome) {
    phase.Holding? || (phase.outcome.Success? && outcome.Failure?)
  }

  function Step(w: World, a: Act): World {
    match a
    case Admit =>
      World(Apply(w.queue, Enqueue(|w.statuses|, "screening", 1)), w.statuses + [Queued], w.workers)
    case Begin(worker, runId, now) =>
      var ids := ReadyIds(w.queue.tasks, 0, runId, "screening", 1, now);
      if worker in w.workers || ids == [] then w
      else World(Apply(w.queue, Claim(runId, "screening", 1, worker, now)), w.statuses,
                 w.workers[worker := Work(runId, ids[0], Holding)])
    case Beat(runId, now) => w.(queue := Apply(w.queue, Heartbeat(runId, "screening", now)))
    case Write(worker, outcome) =>
      if worker in w.workers && MayWrite(w.workers[worker].phase, outcome) && w.workers[worker].runId < |w.statuses|
      then w.(statuses := w.statuses[w.workers[worker].runId := StatusAfter(outcome)],
              workers := w.workers[worker := w.workers[worker].(phase := Written(outcome))])
      else w
    case Settle(worker, now) =>
      if worker in w.workers && w.workers[worker].phase.Written?
      then w.(queue := Apply(w.queue, Report(w.workers[worker].task, w.workers[worker].phase.outcome, now)),
              workers := w.workers - {worker})
      else w
    case Crash(worker) => w.(workers := w.workers - {worker})
    case Sweep(olderThan, now) => w.(queue := Apply(w.queue, Recover(olderThan, now)))
  }

  function Play(w: World, acts: seq<Act>): World
    decreases |acts|
  {
    if acts == [] then w else Play(Step(w, acts[0]), acts[1..])
  }

  /**
   The status an execution commits, and that it commits nothing else. It commits once; only a
   failure after a successful commit overwrites the status.
   */
  lemma WrittenStatus(w: World, worker: string, outcome: Outcome)
    requires worker in w.workers && w.workers[worker].runId < |w.statuses|
    ensures var w', work := Step(w, Write(worker, outcome)), w.workers[worker];
            if work.phase == Holding || (work.phase == Written(Success) && outcome != Success) then
              && w'.queue == w.queue
              && w'.workers == w.workers[worker := Work(work.runId, work.task, Written(outcome))]
              && w'.statuses == w.statuses[work.runId :=
                   if outcome == Success then Completed
                   else if outcome.code in {"rate_limit", "quota", "budget_exceeded", "network", "model_unavailable", "unknown"} then Queued
                   else RunFailed]
            else w' == w
  {
  }

  lemma NoneReady(tasks: seq<Task>, runId: RunId, now: int)
    ensures ReadyIds(tasks, 0, runId, "screening", 1, now) == [] <==>
              forall i :: 0 <= i < |tasks| ==> !Ready(tasks[i], runId, "screening", now)
  {
    ReadyIdsAreReady(tasks, 0, runId, "screening", 1, now);
    if ReadyIds(tasks, 0, runId, "screening", 1, now) == [] {
      forall i | 0 <= i < |tasks| ensures !Ready(tasks[i], runId, "screening", now) {
        if Ready(tasks[i], runId, "screening", now) {
          ReadyIdsAreOldest(tasks, 0, runId, "screening", 1, now, i);
        }
      }
    } else {
      assert Ready(tasks[ReadyIds(tasks, 0, runId, "screening", 1, now)[0]], runId, "screening", now);
    }
  }

  /** A new worker claims the task of its run, if that is ready, and holds it; else nothing happens. */
  lemma BeginClaims(w: World, worker: string, runId: nat, now: int)
    requires Shaped(w)
    ensures var w' := Step(w, Begin(worker, runId, now));
            if worker in w.workers || forall i :: 0 <= i < |w.queue.tasks| ==> !Ready(w.queue.tasks[i], runId, "screening", now) then w' == w
            else
              && w'.workers == w.workers[worker := Work(runId, runId, Holding)] && w'.statuses == w.statuses
              && w'.queue == Apply(w.queue, Claim(runId, "screening", 1, worker, now)) && HoldsClaim(w', worker)
  {
    NoneReady(w.queue.tasks, runId, now);
    ReadyIdsAreReady(w.queue.tasks, 0, runId, "screening", 1, now);
  }

  /** A worker reports what it wrote and is gone, or is gone without. */
  lemma WorkerLeaves(w: World, worker: string, now: int)
    ensures worker in w.workers && w.workers[worker].phase.Written? ==>
              Step(w, Settle(worker, now))
              == World(Apply(w.queue, Report(w.workers[worker].task, w.workers[worker].phase.outcome, now)),
                       w.statuses, w.workers - {worker})
    ensures worker !in w.workers || w.workers[worker].phase == Holding ==> Step(w, Settle(worker, now)) == w
    ensures Step(w, Crash(worker)) == World(w.queue, w.statuses, w.workers - {worker})
  {
  }

  /** Row `i` of the queue is the task of run `i`, and every worker works on the task of its run. */
  ghost predicate Shaped(w: World) {
    && |w.queue.tasks| == |w.statuses|
    && (forall i :: 0 <= i < |w.queue.tasks| ==> w.queue.tasks[i].runId == i)
    && (forall v :: v in w.workers ==> w.workers[v].task == w.workers[v].runId < |w.statuses|)
  }

  lemma StepKeepsShape(w: World, a: Act)
    requires Shaped(w)
    ensures Shaped(Step(w, a)) && |w.statuses| <= |Step(w, a).statuses|
  {
    if a.Begin? {
      ReadyIdsAreReady(w.queue.tasks, 0, a.runId, "screening", 1, a.now);
    }
  }

  // ---- the queue underneath ----

  function EventsOf(w: World, a: Act): seq<Event> {
    match a
    case Admit => [Enqueue(|w.statuses|, "screening", 1)]
    case Begin(worker, runId, now) => if worker in w.workers then [] else [Claim(runId, "screening", 1, worker, now)]
    case Beat(runId, now) => [Heartbeat(runId, "screening", now)]
    case Write(_, _) => []
    case Settle(worker, now) =>
      if worker in w.workers && w.workers[worker].phase.Written?
      then [Report(w.workers[worker].task, w.workers[worker].phase.outcome, now)] else []
    case Crash(_) => []
    case Sweep(olderThan, now) => [Recover(olderThan, now)]
  }

  function EventsOfAll(w: World, acts: seq<Act>): seq<Event>
    decreases |acts|
  {
    if acts == [] then [] else EventsOf(w, acts[0]) + EventsOfAll(Step(w, acts[0]), acts[1..])
  }

  lemma OneEvent(q: Queue, e: Event)
    ensures Run(q, [e]) == Apply(q, e)
  {
    assert [e][1..] == [];
    assert Run(Apply(q, e), []) == Apply(q, e);
  }

  lemma StepIsEvents(w: World, a: Act)
    ensures Step(w, a).queue == Run(w.queue, EventsOf(w, a))
  {
    if |EventsOf(w, a)| == 1 {
      OneEvent(w.queue, EventsOf(w, a)[0]);
    }
    if a.Begin? && ReadyIds(w.queue.tasks, 0, a.runId, "screening", 1, a.now) == [] {
      assert ClaimedTasks(w.queue.tasks, [], a.worker, a.now) == w.queue.tasks;
    }
  }

  /** Every run of workers is a run of the queue, so what holds over every run of the queue holds here. */
  lemma {:induction false} PlayIsQueueRun(w: World, acts: seq<Act>)
    ensures Play(w, acts).queue == Run(w.queue, EventsOfAll(w, acts))
    decreases |acts|
  {
    if acts != [] {
      StepIsEvents(w, acts[0]);
      PlayIsQueueRun(Step(w, acts[0]), acts[1..]);
      RunConcat(w.queue, EventsOf(w, acts[0]), EventsOfAll(Step(w, acts[0]), acts[1..]));
    }
  }

  lemma {:induction false} RunConcat(q: Queue, a: seq<Event>, b: seq<Event>)
    ensures Run(q, a + b) == Run(Run(q, a), b)
    decreases |a|
  {
    if a == [] {
      assert a + b == b;
    } else {
      assert (a + b)[1..] == a[1..] + b;
      RunConcat(Apply(q, a[0]), a[1..], b);
    }
  }

  lemma StepKeepsQueueInv(w: World, a: Act)
    requires Inv(w.queue)
    ensures Inv(Step(w, a).queue)
  {
    StepIsEvents(w, a);
    RunKeepsInv(w.queue, EventsOf(w, a));
  }

  // ---- what a queued run waits for ----

  predicate HasPendingTask(w: World, runId: nat) {
    exists i :: 0 <= i < |w.queue.tasks| && w.queue.tasks[i].runId == runId && w.queue.tasks[i].status == Pending
  }

  /** Given up by the queue after a retryable failure of the last attempt. */
  predicate Exhausted(t: Task) {
    t.status == Failed && t.errorCode.Some? && t.errorCode.value in RETRYABLE && t.maxAttempts <= t.attempt
  }

  predicate Waits(t: Task) {
    t.status == Pending || t.status == Claimed || Exhausted(t)
  }

  /** A queued run has a task that is pending, claimed or exhausted. */
  predicate Accounted(w: World, i: nat) {
    i < |w.statuses| && i < |w.queue.tasks| && w.statuses[i] == Queued ==> Waits(w.queue.tasks[i])
  }

  /** The claim on its task is still the worker's own. */
  predicate HoldsClaim(w: World, worker: string) {
    && worker in w.workers && w.workers[worker].task < |w.queue.tasks|
    && w.queue.tasks[w.workers[worker].task].status == Claimed
    && w.queue.tasks[w.workers[worker].task].claimedBy == Some(worker)
  }

  /** A worker whose claim was taken from it writes the run's status or reports all the same. */
  predicate LateFor(w: World, a: Act, i: nat) {
    && (a.Write? || a.Settle?) && a.worker in w.workers
    && w.workers[a.worker].runId == i && !HoldsClaim(w, a.worker)
  }

  predicate NeverLate(w: World, acts: seq<Act>, i: nat)
    decreases |acts|
  {
    acts != [] ==> !LateFor(w, acts[0], i) && NeverLate(Step(w, acts[0]), acts[1..], i)
  }

  /** Beside being accounted for: what a worker with the claim has written is still the run's status. */
  ghost predicate InStep(w: World, i: nat) {
    && Accounted(w, i)
    && forall v :: v in w.workers && w.workers[v].runId == i && w.workers[v].phase.Written? && HoldsClaim(w, v) && i < |w.statuses| ==>
         w.statuses[i] == StatusAfter(w.workers[v].phase.outcome)
  }

  /** The status of a run that is reported on in step with its task. */
  lemma ReportedInStep(t: Task, outcome: Outcome, now: int, after: Task)
    requires t.maxAttempts >= 1
    requires after == match outcome
                      case Success => t.(status := Done, outcome := Some("ok"))
                      case Failure(code) => Failing(t, "screening execution failed", CodeOf(code), None, now)
    ensures StatusAfter(outcome) == Queued ==> Waits(after)
    ensures Waits(after) <==> outcome.Failure? && CodeOf(outcome.code) in RESCHEDULABLE
  {
    assert RESCHEDULABLE == QUOTA + RETRYABLE;
  }

  lemma BeginKeepsInStep(w: World, worker: string, runId: nat, now: int, i: nat)
    requires Shaped(w) && InStep(w, i)
    ensures InStep(Step(w, Begin(worker, runId, now)), i)
  {
    ReadyIdsAreReady(w.queue.tasks, 0, runId, "screening", 1, now);
  }

  lemma SettleKeepsInStep(w: World, worker: string, now: int, i: nat)
    requires Shaped(w) && Inv(w.queue) && InStep(w, i) && !LateFor(w, Settle(worker, now), i)
    ensures InStep(Step(w, Settle(worker, now)), i)
  {
    if worker in w.workers && w.workers[worker].phase.Written? && w.workers[worker].task == i {
      assert HoldsClaim(w, worker);
      ReportedInStep(w.queue.tasks[i], w.workers[worker].phase.outcome, now, Step(w, Settle(worker, now)).queue.tasks[i]);
    }
  }

  lemma StepKeepsInStep(w: World, a: Act, i: nat)
    requires Shaped(w) && Inv(w.queue) && InStep(w, i) && !LateFor(w, a, i)
    ensures InStep(Step(w, a), i)
  {
    match a
    case Begin(worker, runId, now) => BeginKeepsInStep(w, worker, runId, now, i);
    case Settle(worker, now) => SettleKeepsInStep(w, worker, now, i);
    case _ =>
  }

  lemma {:induction false} PlayKeepsInStep(w: World, acts: seq<Act>, i: nat)
    requires Shaped(w) && Inv(w.queue) && InStep(w, i) && NeverLate(w, acts, i)
    ensures Shaped(Play(w, acts)) && Inv(Play(w, acts).queue) && InStep(Play(w, acts), i)
    decreases |acts|
  {
    if acts != [] {
      StepKeepsInStep(w, acts[0], i);
      StepKeepsShape(w, acts[0]);
      StepKeepsQueueInv(w, acts[0]);
      PlayKeepsInStep(Step(w, acts[0]), acts[1..], i);
    }
  }

  /**
   Over every run from the start in which no worker writes or reports on run `i` after losing its
   claim: a queued run has no pending task exactly while its task is claimed or when a retryable
   failure used up the last attempt.
   */
  lemma QueuedRunsAreAccountedFor(acts: seq<Act>, i: nat)
    requires NeverLate(START, acts, i)
    ensures var w := Play(START, acts);
            i < |w.statuses| && w.statuses[i] == Queued ==>
              && i < |w.queue.tasks| && w.queue.tasks[i].runId == i
              && (!HasPendingTask(w, i) <==> w.queue.tasks[i].status == Claimed || Exhausted(w.queue.tasks[i]))
  {
    PlayKeepsInStep(START, acts, i);
  }

  /** The guard missing before a late act: whether this step would leave the run queued with nothing to wait for. */
  predicate Strands(w: World, a: Act, i: nat) {
    i < |w.statuses| && i < |w.queue.tasks| &&
    match a
    case Write(worker, outcome) =>
      && worker in w.workers && w.workers[worker].runId == i && MayWrite(w.workers[worker].phase, outcome)
      && StatusAfter(outcome) == Queued && !Waits(w.queue.tasks[i])
    case Settle(worker, _) =>
      && worker in w.workers && w.workers[worker].task == i && w.workers[worker].phase.Written?
      && w.statuses[i] == Queued
      && !(w.workers[worker].phase.outcome.Failure? && CodeOf(w.workers[worker].phase.outcome.code) in RESCHEDULABLE)
    case _ => false
  }

  /** One step, late or not, keeps a run accounted for exactly when it is not one of these. */
  lemma AccountedIffNotStranded(w: World, a: Act, i: nat)
    requires Shaped(w) && Inv(w.queue) && Accounted(w, i)
    ensures Accounted(Step(w, a), i) <==> !Strands(w, a, i)
  {
    match a
    case Begin(worker, runId, now) =>
      ReadyIdsAreReady(w.queue.tasks, 0, runId, "screening", 1, now);
    case Settle(worker, now) =>
      if worker in w.workers && w.workers[worker].phase.Written? && w.workers[worker].task == i {
        ReportedInStep(w.queue.tasks[i], w.workers[worker].phase.outcome, now, Step(w, a).queue.tasks[i]);
      }
    case _ =>
  }

  predicate AlwaysAccounted(w: World, acts: seq<Act>, i: nat)
    decreases |acts|
  {
    Accounted(w, i) && (acts != [] ==> AlwaysAccounted(Step(w, acts[0]), acts[1..], i))
  }

  predicate NeverStranded(w: World, acts: seq<Act>, i: nat)
    decreases |acts|
  {
    acts != [] ==> !Strands(w, acts[0], i) && NeverStranded(Step(w, acts[0]), acts[1..], i)
  }

  /** Over every run, late acts included: a run is accounted for at every moment exactly when no step strands it. */
  lemma {:induction false} AlwaysAccountedIff(w: World, acts: seq<Act>, i: nat)
    requires Shaped(w) && Inv(w.queue) && Accounted(w, i)
    ensures AlwaysAccounted(w, acts, i) <==> NeverStranded(w, acts, i)
    decreases |acts|
  {
    if acts != [] {
      AccountedIffNotStranded(w, acts[0], i);
      StepKeepsShape(w, acts[0]);
      StepKeepsQueueInv(w, acts[0]);
      if Accounted(Step(w, acts[0]), i) {
        AlwaysAccountedIff(Step(w, acts[0]), acts[1..], i);
      } else {
        assert !AlwaysAccounted(Step(w, acts[0]), acts[1..], i);
      }
    }
  }

  // ---- runs from the start ----

  function OneRun(t: Task, checkpoints: map<RunId, Checkpoint>, status: RunStatus, workers: map<string, Work>): World {
    World(OneTask(t, checkpoints), [status], workers)
  }

  predicate FirstTask(t: Task) {
    t.runId == 0 && t.stage == "screening"
  }

  lemma {:induction false} PlayConcat(w: World, a: seq<Act>, b: seq<Act>)
    ensures Play(w, a + b) == Play(Play(w, a), b)
    decreases |a|
  {
    if a == [] {
      assert a + b == b;
    } else {
      assert (a + b)[1..] == a[1..] + b;
      PlayConcat(Step(w, a[0]), a[1..], b);
    }
  }

  lemma PlayThree(w: World, a: Act, b: Act, c: Act)
    ensures Play(w, [a, b, c]) == Step(Step(Step(w, a), b), c)
  {
    var w1 := Step(w, a);
    var w2 := Step(w1, b);
    assert [a, b, c][1..] == [b, c] && [b, c][1..] == [c] && [c][1..] == [];
    assert Play(w2, [c]) == Step(w2, c);
    assert Play(w1, [b, c]) == Play(w2, [c]);
  }

  lemma BeginOne(t: Task, checkpoints: map<RunId, Checkpoint>, status: RunStatus, workers: map<string, Work>, worker: string, now: int)
    requires FirstTask(t) && Ready(t, 0, "screening", now) && worker !in workers
    ensures Step(OneRun(t, checkpoints, status, workers), Begin(worker, 0, now))
         == OneRun(Marked(t, worker, now), checkpoints, status, workers[worker := Work(0, 0, Holding)])
  {
    ClaimOne(t, checkpoints, worker, now);
    assert ReadyIds(OneTask(t, checkpoints).tasks, 0, 0, "screening", 1, now)[0] == 0;
  }

  /** A claim, an outcome and its report. */
  function Attempt(worker: string, outcome: Outcome, now: int): seq<Act> {
    [Begin(worker, 0, now), Write(worker, outcome), Settle(worker, now)]
  }

  /** What the task is after its next attempt. */
  function Attempted(t: Task, worker: string, outcome: Outcome, now: int): Task {
    var marked := Marked(t, worker, now);
    match outcome
    case Success => marked.(status := Done, outcome := Some("ok"))
    case Failure(code) => Failing(marked, "screening execution failed", CodeOf(code), None, now)
  }

  lemma AttemptOne(
    t: Task, checkpoints: map<RunId, Checkpoint>, status: RunStatus, workers: map<string, Work>,
    worker: string, outcome: Outcome, now: int)
    requires FirstTask(t) && Ready(t, 0, "screening", now) && worker !in workers
    ensures Play(OneRun(t, checkpoints, status, workers), Attempt(worker, outcome, now))
         == OneRun(Attempted(t, worker, outcome, now), checkpoints, StatusAfter(outcome), workers)
  {
    var w, marked := OneRun(t, checkpoints, status, workers), Marked(t, worker, now);
    BeginOne(t, checkpoints, status, workers, worker, now);
    PlayThree(w, Begin(worker, 0, now), Write(worker, outcome), Settle(worker, now));
    var engaged := workers[worker := Work(0, 0, Holding)];
    var written := workers[worker := Work(0, 0, Written(outcome))];
    assert engaged[worker := Work(0, 0, Written(outcome))] == written;
    assert Step(OneRun(marked, checkpoints, status, engaged), Write(worker, outcome))
        == OneRun(marked, checkpoints, StatusAfter(outcome), written);
    assert written - {worker} == workers;
    assert OneTask(marked, checkpoints).tasks[0 := Attempted(t, worker, outcome, now)] == [Attempted(t, worker, outcome, now)];
  }

  lemma AdmitFirst()
    ensures Step(START, Admit) == OneRun(NewTask(0, "screening"), map[], Queued, map[])
    ensures Play(START, [Admit]) == Step(START, Admit)
  {
    var w := Step(START, Admit);
    assert w.queue.tasks == [NewTask(0, "screening")];
    assert [Admit][1..] == [];
    assert Play(w, []) == w;
  }

  /** A run that was just claimed is still queued. */
  lemma ClaimedRunIsQueued()
    ensures var w := Play(START, [Admit] + [Begin("a", 0, 0)]);
            w.statuses == [Queued] && |w.queue.tasks| == 1 && w.queue.tasks[0].status == Claimed && !HasPendingTask(w, 0)
  {
    var t := NewTask(0, "screening");
    AdmitFirst();
    PlayConcat(START, [Admit], [Begin("a", 0, 0)]);
    BeginOne(t, map[], Queued, map[], "a", 0);
    var w := OneRun(Marked(t, "a", 0), map[], Queued, map["a" := Work(0, 0, Holding)]);
    assert map[]["a" := Work(0, 0, Holding)] == map["a" := Work(0, 0, Holding)];
    OneAct(OneRun(t, map[], Queued, map[]), Begin("a", 0, 0));
  }

  const NETWORK := Failure("network")

  lemma OneAct(w: World, a: Act)
    ensures Play(w, [a]) == Step(w, a)
  {
    assert [a][1..] == [];
    assert Play(Step(w, a), []) == Step(w, a);
  }

  /** Two attempts that failed for the network, ten seconds apart. */
  lemma TwoFailures() returns (t: Task)
    ensures Play(OneRun(NewTask(0, "screening"), map[], Queued, map[]), Attempt("a", NETWORK, 0) + Attempt("a", NETWORK, 10))
         == OneRun(t, map[], Queued, map[])
    ensures FirstTask(t) && Ready(t, 0, "screening", 20) && t.attempt == 2 && t.maxAttempts == 3
  {
    var first, second := Attempt("a", NETWORK, 0), Attempt("a", NETWORK, 10);
    var t0 := NewTask(0, "screening");
    var t1 := Attempted(t0, "a", NETWORK, 0);
    t := Attempted(t1, "a", NETWORK, 10);
    PlayConcat(OneRun(t0, map[], Queued, map[]), first, second);
    AttemptOne(t0, map[], Queued, map[], "a", NETWORK, 0);
    assert t1.notBefore == Some(RetryDelay(1)) && RetryDelay(1) == 1;
    AttemptOne(t1, map[], Queued, map[], "a", NETWORK, 10);
    assert t.notBefore == Some(10 + RetryDelay(2)) && RetryDelay(2) == 2;
  }

  /** A run whose three attempts failed for the network is queued, with a task that is failed. */
  lemma ExhaustedRunIsQueued()
    ensures var w := Play(START, [Admit] + (Attempt("a", NETWORK, 0) + Attempt("a", NETWORK, 10) + Attempt("a", NETWORK, 20)));
            w.statuses == [Queued] && |w.queue.tasks| == 1 && Exhausted(w.queue.tasks[0]) && !HasPendingTask(w, 0)
  {
    var two, third := Attempt("a", NETWORK, 0) + Attempt("a", NETWORK, 10), Attempt("a", NETWORK, 20);
    AdmitFirst();
    PlayConcat(START, [Admit], two + third);
    PlayConcat(OneRun(NewTask(0, "screening"), map[], Queued, map[]), two, third);
    var t := TwoFailures();
    AttemptOne(t, map[], Queued, map[], "a", NETWORK, 20);
  }

  const SWEPT: seq<Act> := [Begin("a", 0, 0), Sweep(120, 1000)]

  /** A slow worker's claim is taken from it while it executes. */
  lemma ClaimIsSwept() returns (t: Task, checkpoints: map<RunId, Checkpoint>)
    ensures Play(OneRun(NewTask(0, "screening"), map[], Queued, map[]), SWEPT)
         == OneRun(t, checkpoints, Queued, map["a" := Work(0, 0, Holding)])
    ensures FirstTask(t) && Ready(t, 0, "screening", 1000)
  {
    var t0 := NewTask(0, "screening");
    var w, t1 := OneRun(t0, map[], Queued, map[]), Marked(t0, "a", 0);
    t, checkpoints := Released(t1, 880), BumpedAll(map[], {0}, 1000);
    BeginOne(t0, map[], Queued, map[], "a", 0);
    RecoverOne(t1, map[], 120, 1000);
    assert map[]["a" := Work(0, 0, Holding)] == map["a" := Work(0, 0, Holding)];
    assert SWEPT == [SWEPT[0]] + [SWEPT[1]];
    PlayConcat(w, [SWEPT[0]], [SWEPT[1]]);
    OneAct(w, SWEPT[0]);
    OneAct(OneRun(t1, map[], Queued, map["a" := Work(0, 0, Holding)]), SWEPT[1]);
  }

  /** A worker that lost its claim writes after the run was completed by another: queued, with a task that is done. */
  lemma LateWriteStrandsRun()
    ensures var w := Play(START, [Admit] + (SWEPT + (Attempt("b", Success, 1000) + [Write("a", NETWORK)])));
            w.statuses == [Queued] && |w.queue.tasks| == 1 && w.queue.tasks[0].status == Done
  {
    var other, late := Attempt("b", Success, 1000), [Write("a", NETWORK)];
    var workers := map["a" := Work(0, 0, Holding)];
    AdmitFirst();
    PlayConcat(START, [Admit], SWEPT + (other + late));
    PlayConcat(OneRun(NewTask(0, "screening"), map[], Queued, map[]), SWEPT, other + late);
    var t, checkpoints := ClaimIsSwept();
    PlayConcat(OneRun(t, checkpoints, Queued, workers), other, late);
    AttemptOne(t, checkpoints, Queued, workers, "b", Success, 1000);
    OneAct(OneRun(Attempted(t, "b", Success, 1000), checkpoints, Completed, workers), late[0]);
  }

  // ---- the drain, one transaction a method ----

  /** Claim one task of the run, if any is ready. */
  method BeginDrain(runner: WorkflowRunner, runId: RunId, worker: string, now: int) returns (id: Option<nat>)
    requires Inv(runner.State())
    modifies runner
    ensures runner.State() == Apply(old(runner.State()), Claim(runId, "screening", 1, worker, now)) && Inv(runner.State())
    ensures var ids := ReadyIds(old(runner.tasks), 0, runId, "screening", 1, now);
            id == if ids == [] then None else Some(ids[0])
  {
    var ids := runner.ClaimTasks(runId, "screening", 1, worker, now);
    if ids == [] {
      return None;
    }
    return Some(ids[0]);
  }

  /** Report the outcome of an execution, whoever holds the task by now. */
  method SettleDrain(runner: WorkflowRunner, id: nat, outcome: Outcome, now: int)
    requires Inv(runner.State())
    modifies runner
    ensures runner.State() == Apply(old(runner.State()), Report(id, outcome, now)) && Inv(runner.State())
  {
    match outcome
    case Success => runner.CompleteTask(id, "ok");
    case Failure(code) => runner.FailTask(id, "screening execution failed", CodeOf(code), None, now);
  }
}
