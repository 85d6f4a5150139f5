/**
 The HTTP request limiter (serving/app/main.py, `_is_rate_limited`).

 The limiter keeps one pruned list per key and drops stale keys when it tracks too many. The
 reference keeps every admitted request for ever. Eviction and pruning never change an answer.
 */
module RequestLimiter {
  import opened SlidingWindow

  const REQUESTS := 20
  const WINDOW := 60.0
  const MAX_TRACKED_KEYS := 10_000

  type Counts = map<string, seq<real>>

  /** A `defaultdict(list)` read. */
  function Lookup(counts: Counts, key: string): seq<real> {
    if key in counts then counts[key] else []
  }

  predicate Stale(stamps: seq<real>, horizon: real) {
    stamps == [] || stamps[|stamps| - 1] <= horizon
  }

  function Evicted(counts: Counts, horizon: real): Counts {
    if |counts| > MAX_TRACKED_KEYS then map k | k in counts && !Stale(counts[k], horizon) :: counts[k] else counts
  }

  /** One call: the new table and whether the caller is refused. */
  function Step(counts: Counts, key: string, now: real): (Counts, bool) {
    var table := Evicted(counts, now - WINDOW);
    var recent := After(Lookup(table, key), now - WINDOW);
    if |recent| >= REQUESTS then (table[key := recent], true)
    else (table[key := recent + [now]], false)
  }

  /** The limiter that never forgets: refused when 20 admissions are still in the window. */
  function Reference(history: Counts, key: string, now: real): (Counts, bool) {
    if |After(Lookup(history, key), now - WINDOW)| >= REQUESTS then (history, true)
    else (history[key := Lookup(history, key) + [now]], false)
  }

  /** The table and the full history agree on everything a later call can see. */
  ghost predicate Agrees(counts: Counts, history: Counts, clock: real) {
    forall key: string :: KeyAgrees(Lookup(counts, key), Lookup(history, key), clock)
  }

  ghost predicate KeyAgrees(kept: seq<real>, admitted: seq<real>, clock: real) {
    && Nondecreasing(kept)
    && (forall i :: 0 <= i < |kept| ==> kept[i] <= clock)
    && (forall cutoff :: cutoff >= clock - WINDOW ==> After(kept, cutoff) == After(admitted, cutoff))
  }

  ghost predicate WithinLimit(history: Counts) {
    forall key: string, start: real :: InWindow(Lookup(history, key), start, WINDOW) <= REQUESTS
  }

  lemma EvictionAgrees(counts: Counts, history: Counts, clock: real, now: real)
    requires Agrees(counts, history, clock) && clock <= now
    ensures Agrees(Evicted(counts, now - WINDOW), history, now)
  {
    var table := Evicted(counts, now - WINDOW);
    forall key: string ensures KeyAgrees(Lookup(table, key), Lookup(history, key), now) {
      var kept := Lookup(counts, key);
      assert KeyAgrees(kept, Lookup(history, key), clock);
      if Lookup(table, key) != kept {
        forall cutoff | cutoff >= now - WINDOW ensures After(kept, cutoff) == [] {
          AfterNone(kept, cutoff);
        }
      }
    }
  }

  lemma AppendAgrees(kept: seq<real>, admitted: seq<real>, now: real)
    requires KeyAgrees(kept, admitted, now)
    ensures var recent := After(kept, now - WINDOW);
            KeyAgrees(recent, admitted, now) && KeyAgrees(recent + [now], admitted + [now], now)
  {
    var recent := After(kept, now - WINDOW);
    AfterNondecreasing(kept, now - WINDOW);
    var _ := AfterIsSuffix(kept, now - WINDOW);
    forall cutoff | cutoff >= now - WINDOW
      ensures After(recent, cutoff) == After(admitted, cutoff)
      ensures After(recent + [now], cutoff) == After(admitted + [now], cutoff)
    {
      AfterAfter(kept, now - WINDOW, cutoff);
      AfterConcat(recent, [now], cutoff);
      AfterConcat(admitted, [now], cutoff);
    }
  }

  /** One call answers as the reference does and keeps the agreement. */
  lemma StepRefines(counts: Counts, history: Counts, key: string, clock: real, now: real)
    requires Agrees(counts, history, clock) && clock <= now
    ensures Step(counts, key, now).1 == Reference(history, key, now).1
    ensures Agrees(Step(counts, key, now).0, Reference(history, key, now).0, now)
  {
    EvictionAgrees(counts, history, clock, now);
    var table := Evicted(counts, now - WINDOW);
    assert KeyAgrees(Lookup(table, key), Lookup(history, key), now);
    AppendAgrees(Lookup(table, key), Lookup(history, key), now);
    var (after, refused) := Step(counts, key, now);
    var (history', _) := Reference(history, key, now);
    forall k: string ensures KeyAgrees(Lookup(after, k), Lookup(history', k), now) {
      if k != key {
        assert KeyAgrees(Lookup(table, k), Lookup(history, k), now);
      }
    }
  }

  lemma ReferenceStaysWithinLimit(history: Counts, key: string, now: real)
    requires WithinLimit(history)
    ensures WithinLimit(Reference(history, key, now).0)
  {
    var admitted := Lookup(history, key);
    if |After(admitted, now - WINDOW)| < REQUESTS {
      GrantKeepsWindows(admitted, REQUESTS, WINDOW, now - WINDOW, now, 1);
      assert Repeat(now, 1) == [now];
      var history' := Reference(history, key, now).0;
      forall k: string, start: real ensures InWindow(Lookup(history', k), start, WINDOW) <= REQUESTS {
        assert InWindow(Lookup(history, k), start, WINDOW) <= REQUESTS;
      }
    }
  }

  datatype Request = Request(key: string, now: real)

  predicate InOrder(requests: seq<Request>, clock: real) {
    requests != [] ==> clock <= requests[0].now && InOrder(requests[1..], requests[0].now)
  }

  function Answers(counts: Counts, requests: seq<Request>): seq<bool>
    decreases |requests|
  {
    if requests == [] then []
    else
      var (next, refused) := Step(counts, requests[0].key, requests[0].now);
      [refused] + Answers(next, requests[1..])
  }

  function ReferenceRun(history: Counts, requests: seq<Request>): (Counts, seq<bool>)
    decreases |requests|
  {
    if requests == [] then (history, [])
    else
      var (next, refused) := Reference(history, requests[0].key, requests[0].now);
      var (end, answers) := ReferenceRun(next, requests[1..]);
      (end, [refused] + answers)
  }

  /**
   For every request sequence under a nondecreasing clock the evicting limiter gives the
   answers of the one that never forgets, and admits at most 20 requests of a key in any
   window of 60 seconds.
   */
  lemma {:induction false} EvictionIsInvisible(counts: Counts, history: Counts, requests: seq<Request>, clock: real)
    requires Agrees(counts, history, clock) && WithinLimit(history) && InOrder(requests, clock)
    ensures Answers(counts, requests) == ReferenceRun(history, requests).1
    ensures WithinLimit(ReferenceRun(history, requests).0)
    decreases |requests|
  {
    if requests != [] {
      var r := requests[0];
      StepRefines(counts, history, r.key, clock, r.now);
      ReferenceStaysWithinLimit(history, r.key, r.now);
      EvictionIsInvisible(Step(counts, r.key, r.now).0, Reference(history, r.key, r.now).0, requests[1..], r.now);
    }
  }

  /** A process starts with nothing recorded. */
  lemma FreshStart(requests: seq<Request>, clock: real)
    requires InOrder(requests, clock)
    ensures Answers(map[], requests) == ReferenceRun(map[], requests).1
    ensures WithinLimit(ReferenceRun(map[], requests).0)
  {
    EvictionIsInvisible(map[], map[], requests, clock);
  }

  /** With more than 10000 keys tracked, the keys without a request in the last 60 seconds are dropped; no other is. */
  lemma IdleKeysAreDropped(counts: Counts, key: string, now: real, k: string)
    requires k != key
    ensures var table := Step(counts, key, now).0;
            && (k in table <==>
                  && k in counts
                  && (|counts| <= 10_000 || (counts[k] != [] && counts[k][|counts[k]| - 1] > now - 60.0)))
            && (k in table ==> table[k] == counts[k])
  {
  }

  // ---- in terms of the answers alone ----

  /** How many requests of the key were not refused in (start, end]. */
  function AdmittedIn(requests: seq<Request>, refused: seq<bool>, key: string, start: real, end: real): nat
    requires |refused| == |requests|
  {
    if requests == [] then 0
    else
      var r := requests[0];
      (if !refused[0] && r.key == key && start < r.now <= end then 1 else 0)
      + AdmittedIn(requests[1..], refused[1..], key, start, end)
  }

  lemma {:induction false} OneAnswerEach(history: Counts, requests: seq<Request>)
    ensures |ReferenceRun(history, requests).1| == |requests|
    decreases |requests|
  {
    if requests != [] {
      OneAnswerEach(Reference(history, requests[0].key, requests[0].now).0, requests[1..]);
    }
  }

  lemma {:induction false} NoneEarlier(requests: seq<Request>, clock: real, i: nat)
    requires InOrder(requests, clock) && i < |requests|
    ensures clock <= requests[i].now
    decreases |requests|
  {
    if i > 0 {
      NoneEarlier(requests[1..], requests[0].now, i - 1);
    }
  }

  /** What one request of the reference adds to a key's admissions. */
  lemma OneAdmission(history: Counts, r: Request, key: string, start: real)
    ensures var (next, refused) := Reference(history, r.key, r.now);
            && |After(Lookup(next, key), start)|
               == |After(Lookup(history, key), start)| + (if !refused && r.key == key && start < r.now then 1 else 0)
            && forall width: real ::
                 InWindow(Lookup(next, key), start, width)
                 == InWindow(Lookup(history, key), start, width)
                    + (if !refused && r.key == key && start < r.now <= start + width then 1 else 0)
  {
    var admitted := Lookup(history, r.key);
    AfterConcat(admitted, [r.now], start);
    assert [r.now][1..] == [];
    forall width: real
      ensures InWindow(admitted + [r.now], start, width)
           == InWindow(admitted, start, width) + if start < r.now <= start + width then 1 else 0
    {
      InWindowConcat(admitted, [r.now], start, width);
    }
  }

  lemma {:induction false} RefusedByCount(history: Counts, requests: seq<Request>, clock: real, i: nat)
    requires InOrder(requests, clock) && i < |requests|
    ensures |ReferenceRun(history, requests).1| == |requests|
    ensures var r, refused := requests[i], ReferenceRun(history, requests).1;
            refused[i] <==>
              |After(Lookup(history, r.key), r.now - 60.0)|
              + AdmittedIn(requests[..i], refused[..i], r.key, r.now - 60.0, r.now) >= 20
    decreases |requests|
  {
    OneAnswerEach(history, requests);
    if i > 0 {
      var first, r, rest := requests[0], requests[i], requests[1..];
      var (next, answer) := Reference(history, first.key, first.now);
      RefusedByCount(next, rest, first.now, i - 1);
      OneAdmission(history, first, r.key, r.now - 60.0);
      NoneEarlier(rest, first.now, i - 1);
      var refused, later := ReferenceRun(history, requests).1, ReferenceRun(next, rest).1;
      assert refused == [answer] + later;
      assert requests[..i][1..] == rest[..i - 1] && refused[..i][1..] == later[..i - 1];
    }
  }

  lemma {:induction false} AdmissionsCounted(history: Counts, requests: seq<Request>, key: string, start: real)
    ensures var (end, refused) := ReferenceRun(history, requests);
            && |refused| == |requests|
            && InWindow(Lookup(end, key), start, 60.0)
               == InWindow(Lookup(history, key), start, 60.0) + AdmittedIn(requests, refused, key, start, start + 60.0)
    decreases |requests|
  {
    if requests != [] {
      var first, rest := requests[0], requests[1..];
      var (next, answer) := Reference(history, first.key, first.now);
      AdmissionsCounted(next, rest, key, start);
      OneAdmission(history, first, key, start);
      assert ([answer] + ReferenceRun(next, rest).1)[1..] == ReferenceRun(next, rest).1;
    }
  }

  /**
   From an empty process, whatever is evicted: a request is refused exactly when 20 requests of
   its key were admitted in the 60 seconds before it.
   */
  lemma RefusedExactlyAtTwenty(requests: seq<Request>, clock: real, i: nat)
    requires InOrder(requests, clock) && i < |requests|
    ensures var refused := Answers(map[], requests);
            && |refused| == |requests|
            && (refused[i] <==>
                  AdmittedIn(requests[..i], refused[..i], requests[i].key, requests[i].now - 60.0, requests[i].now) >= 20)
  {
    FreshStart(requests, clock);
    RefusedByCount(map[], requests, clock, i);
  }

  /** And no 60 seconds see more than 20 admissions of a key. */
  lemma AtMostTwentyAdmitted(requests: seq<Request>, clock: real, key: string, start: real)
    requires InOrder(requests, clock)
    ensures |Answers(map[], requests)| == |requests|
    ensures AdmittedIn(requests, Answers(map[], requests), key, start, start + 60.0) <= 20
  {
    FreshStart(requests, clock);
    AdmissionsCounted(map[], requests, key, start);
    assert InWindow(Lookup(ReferenceRun(map[], requests).0, key), start, WINDOW) <= REQUESTS;
  }

  method StampsAfter(stamps: seq<real>, horizon: real) returns (recent: seq<real>)
    ensures recent == After(stamps, horizon)
  {
    recent := [];
    for i := 0 to |stamps|
      invariant After(stamps, horizon) == recent + After(stamps[i..], horizon)
    {
      if stamps[i] > horizon {
        recent := recent + [stamps[i]];
      }
    }
  }

  class Limiter {
    var counts: Counts

    constructor ()
      ensures counts == map[]
    {
      counts := map[];
    }

    method IsRateLimited(key: string, now: real) returns (refused: bool)
      modifies this
      ensures (counts, refused) == Step(old(counts), key, now)
    {
      var horizon := now - WINDOW;
      if |counts| > MAX_TRACKED_KEYS {
        var stale := set k | k in counts && Stale(counts[k], horizon);
        counts := counts - stale;
      }
      assert counts == Evicted(old(counts), horizon);
      var recent := StampsAfter(Lookup(counts, key), horizon);
      if |recent| >= REQUESTS {
        counts := counts[key := recent];
        return true;
      }
      counts := counts[key := recent + [now]];
      return false;
    }
  }
}
