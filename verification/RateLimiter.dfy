/**
 The per-key token buckets (serving/app/services/rate_limiter.py).

 A bucket stores only the grants of its current window. The model keeps the full grant
 history beside the stored list and shows that forgetting is invisible: decisions, waits and
 the window bound are all statements about the history. Time is a `real`; the check and the
 consumption read the clock separately.
 */
module RateLimiter {
  import opened Wrappers
  import opened SlidingWindow
  import opened Sorting

  /** A bucket together with what it has forgotten. */
  datatype Bucket = Bucket(
    capacity: int, window: real, timestamps: seq<real>,
    granted: seq<real>,  // every grant ever made
    cutoff: real,        // the cutoff of the last pruning
    clock: real          // the latest clock reading
  )

  function NewBucket(capacity: int, window: real, clock: real): Bucket {
    Bucket(capacity, window, [], [], clock - window, clock)
  }

  ghost predicate WindowsBounded(granted: seq<real>, capacity: int, window: real) {
    forall start :: InWindow(granted, start, window) <= if capacity < 0 then 0 else capacity
  }

  ghost predicate BucketInv(b: Bucket) {
    && b.window > 0.0
    && b.cutoff <= b.clock - b.window
    && b.timestamps == After(b.granted, b.cutoff)
    && Nondecreasing(b.granted)
    && (forall i :: 0 <= i < |b.granted| ==> b.granted[i] <= b.clock)
    && WindowsBounded(b.granted, b.capacity, b.window)
  }

  function Pruned(b: Bucket, now: real): Bucket {
    b.(timestamps := After(b.timestamps, now - b.window), cutoff := now - b.window, clock := now)
  }

  predicate HasRoom(b: Bucket, tokens: int) {
    |b.timestamps| + tokens <= b.capacity
  }

  function Consumed(b: Bucket, tokens: int, now: real): Bucket {
    b.(timestamps := b.timestamps + Repeat(now, tokens), granted := b.granted + Repeat(now, tokens), clock := now)
  }

  /** The decision an unbounded memory would make at time `at`. */
  predicate RoomInHistory(b: Bucket, tokens: int, at: real) {
    |After(b.granted, at - b.window)| + tokens <= b.capacity
  }

  lemma PrunedInv(b: Bucket, now: real)
    requires BucketInv(b) && b.clock <= now
    ensures BucketInv(Pruned(b, now))
    ensures Pruned(b, now).timestamps == After(b.granted, now - b.window)
    ensures Pruned(b, now).granted == b.granted
  {
    AfterAfter(b.granted, b.cutoff, now - b.window);
  }

  /** Pruning is invisible: the stored list decides as the whole history would. */
  lemma DecisionIgnoresPruning(b: Bucket, tokens: int, now: real)
    requires BucketInv(b) && b.clock <= now
    ensures HasRoom(Pruned(b, now), tokens) <==> RoomInHistory(b, tokens, now)
  {
    PrunedInv(b, now);
  }

  lemma ConsumedInv(b: Bucket, tokens: int, now: real)
    requires BucketInv(b) && b.clock <= now
    requires tokens <= 0 || HasRoom(b, tokens)
    ensures BucketInv(Consumed(b, tokens, now))
  {
    var stamps := Repeat(now, tokens);
    GrantKeepsWindows(b.granted, b.capacity, b.window, b.cutoff, now, tokens);
    AfterConcat(b.granted, stamps, b.cutoff);
    AfterAll(stamps, b.cutoff);
  }

  /** How many of the stamps granted at `taken` still count at time `at`. */
  function StillTaken(b: Bucket, tokens: int, taken: real, at: real): nat {
    if tokens > 0 && at - b.window < taken then tokens else 0
  }

  /** From `before` to `after`, every later request lost exactly the tokens that were taken. */
  ghost predicate TookExactly(before: Bucket, after: Bucket, tokens: int, taken: real) {
    forall later: int, at: real :: AllowedLess(before, after, tokens, taken, later, at)
  }

  predicate AllowedLess(before: Bucket, after: Bucket, tokens: int, taken: real, later: int, at: real) {
    RoomInHistory(after, later, at) <==> RoomInHistory(before, later + StillTaken(before, tokens, taken, at), at)
  }

  /**
   What consuming means for later decisions: until the window has passed over it, the
   consumption takes away exactly its own tokens from what any later request is allowed, and
   afterwards nothing.
   */
  lemma ConsumptionTakesItsTokens(b: Bucket, tokens: int, taken: real, later: int, at: real)
    ensures AllowedLess(b, Consumed(b, tokens, taken), tokens, taken, later, at)
  {
    var stamps := Repeat(taken, tokens);
    AfterConcat(b.granted, stamps, at - b.window);
    if at - b.window < taken {
      AfterAll(stamps, at - b.window);
    } else {
      AfterNone(stamps, at - b.window);
    }
  }

  // ---- waiting ----

  function Max(a: real, b: real): real {
    if a >= b then a else b
  }

  predicate StampLe(a: real, b: real) { a <= b }

  /** What `estimated_wait` answers once the bucket has been pruned. */
  function Wait(b: Bucket, tokens: int): real {
    if HasRoom(b, tokens) then 0.0
    else
      var needed := |b.timestamps| + tokens - b.capacity;
      if needed <= |b.timestamps|
      then Max(Sort(b.timestamps, StampLe)[needed - 1] + b.window - b.clock, 1.0)
      else b.window
  }

  /** Room opens at one moment and stays open as long as nothing else is consumed. */
  ghost predicate OpensAt(b: Bucket, tokens: int, moment: real) {
    forall at :: b.clock <= at ==> (RoomInHistory(b, tokens, at) <==> moment <= at)
  }

  /** The moment room opens is decided by the needed-th oldest stamp still counted. */
  lemma OldestNeededDecides(b: Bucket, tokens: int)
    requires BucketInv(b) && b.cutoff == b.clock - b.window
    requires !HasRoom(b, tokens) && tokens <= b.capacity
    ensures OpensAt(b, tokens, Sort(b.timestamps, StampLe)[|b.timestamps| + tokens - b.capacity - 1] + b.window)
  {
    var needed := |b.timestamps| + tokens - b.capacity;
    AfterNondecreasing(b.granted, b.cutoff);
    SortOfSorted(b.timestamps, StampLe);
    forall at | b.clock <= at
      ensures RoomInHistory(b, tokens, at) <==> b.timestamps[needed - 1] + b.window <= at
    {
      AfterAfter(b.granted, b.cutoff, at - b.window);
      ExpiredCount(b.timestamps, needed, at - b.window);
    }
  }

  /**
   The returned wait is sound and least. It is zero exactly when there is room now; otherwise,
   for a request that fits the bucket at all, it is the time to the opening moment, but at
   least one second. A request larger than the bucket never gets room.
   */
  lemma WaitIsLeast(b: Bucket, tokens: int)
    requires BucketInv(b) && b.cutoff == b.clock - b.window
    ensures Wait(b, tokens) == 0.0 <==> RoomInHistory(b, tokens, b.clock)
    ensures tokens <= b.capacity ==>
              forall at :: b.clock + Wait(b, tokens) <= at ==> RoomInHistory(b, tokens, at)
    ensures tokens <= b.capacity && Wait(b, tokens) > 1.0 ==> OpensAt(b, tokens, b.clock + Wait(b, tokens))
    ensures tokens <= b.capacity && Wait(b, tokens) > 0.0 ==> Wait(b, tokens) >= 1.0
    ensures tokens > b.capacity ==> Wait(b, tokens) == b.window && forall at :: !RoomInHistory(b, tokens, at)
  {
    if HasRoom(b, tokens) {
      forall at | b.clock <= at ensures RoomInHistory(b, tokens, at) {
        AfterShrinks(b.granted, b.cutoff, at - b.window);
      }
    } else if tokens <= b.capacity {
      OldestNeededDecides(b, tokens);
    }
  }

  // ---- one bucket, updated in place ----

  class TokenBucket {
    const capacity: int
    const window: real
    var timestamps: seq<real>
    ghost var granted: seq<real>
    ghost var cutoff: real
    ghost var clock: real

    ghost function Model(): Bucket
      reads this
    {
      Bucket(capacity, window, timestamps, granted, cutoff, clock)
    }

    constructor (capacity: int, window: real, ghost now: real)
      ensures Model() == NewBucket(capacity, window, now)
    {
      this.capacity := capacity;
      this.window := window;
      timestamps := [];
      granted := [];
      cutoff := now - window;
      clock := now;
    }

    method Prune(now: real)
      modifies this
      ensures Model() == Pruned(old(Model()), now)
    {
      var horizon := now - window;
      var kept := [];
      var i := 0;
      while i < |timestamps|
        invariant 0 <= i <= |timestamps|
        invariant After(timestamps, horizon) == kept + After(timestamps[i..], horizon)
      {
        if timestamps[i] > horizon {
          kept := kept + [timestamps[i]];
        }
        i := i + 1;
      }
      timestamps := kept;
      cutoff := horizon;
      clock := now;
    }

    method HasCapacity(tokens: int, now: real) returns (ok: bool)
      modifies this
      ensures Model() == Pruned(old(Model()), now)
      ensures ok == HasRoom(Model(), tokens)
      ensures old(BucketInv(Model()) && clock <= now) ==>
                BucketInv(Model()) && ok == RoomInHistory(old(Model()), tokens, now)
    {
      Prune(now);
      ok := |timestamps| + tokens <= capacity;
      if old(BucketInv(Model()) && clock <= now) {
        PrunedInv(old(Model()), now);
      }
    }

    /**
     Consume without a check. After a check that found room this keeps the window bound, and
     later requests are allowed exactly that much less until the window has passed.
     */
    method Consume(tokens: int, now: real)
      modifies this
      ensures Model() == Consumed(old(Model()), tokens, now)
      ensures old(BucketInv(Model()) && clock <= now && (tokens <= 0 || HasRoom(Model(), tokens))) ==> BucketInv(Model())
      ensures TookExactly(old(Model()), Model(), tokens, now)
    {
      if BucketInv(Model()) && clock <= now && (tokens <= 0 || HasRoom(Model(), tokens)) {
        ConsumedInv(Model(), tokens, now);
      }
      forall later: int, at: real
        ensures AllowedLess(Model(), Consumed(Model(), tokens, now), tokens, now, later, at)
      {
        ConsumptionTakesItsTokens(Model(), tokens, now, later, at);
      }
      timestamps := timestamps + Repeat(now, tokens);
      granted := granted + Repeat(now, tokens);
      clock := now;
    }

    method TryConsume(tokens: int, checked: real, consumed: real) returns (ok: bool)
      requires BucketInv(Model()) && clock <= checked <= consumed
      modifies this
      ensures BucketInv(Model())
      ensures ok == RoomInHistory(old(Model()), tokens, checked)
      ensures granted == old(granted) + if ok then Repeat(consumed, tokens) else []
    {
      ghost var before := Model();
      ok := HasCapacity(tokens, checked);
      if ok {
        Consume(tokens, consumed);
      }
    }

    method EstimatedWait(tokens: int, now: real) returns (wait: real)
      requires BucketInv(Model()) && clock <= now
      modifies this
      ensures Model() == Pruned(old(Model()), now) && BucketInv(Model())
      ensures wait == Wait(Model(), tokens)
    {
      PrunedInv(Model(), now);
      Prune(now);
      if |timestamps| + tokens <= capacity {
        return 0.0;
      }
      var needed := |timestamps| + tokens - capacity;
      var sorted := Sort(timestamps, StampLe);
      if needed <= |sorted| {
        return Max(sorted[needed - 1] + window - now, 1.0);
      }
      return window;
    }
  }

  // ---- three buckets a key, reserved together ----

  datatype KeyState = KeyState(tpm: Bucket, rpm: Bucket, rpd: Bucket)

  /** The six clock readings of one `reserve`: three checks, then three consumptions. */
  datatype Readings = Readings(check1: real, check2: real, check3: real, take1: real, take2: real, take3: real)

  predicate InOrder(r: Readings, from: real) {
    from <= r.check1 <= r.check2 <= r.check3 <= r.take1 <= r.take2 <= r.take3
  }

  const DEFAULT_TPM := 1_000_000
  const DEFAULT_RPM := 1_500
  const DEFAULT_RPD := 1_500

  function OrDefault(value: int, default: int): int {
    if value == 0 then default else value
  }

  function NewKey(tpm: int, rpm: int, rpd: int, now: real): KeyState {
    KeyState(NewBucket(OrDefault(tpm, DEFAULT_TPM), 60.0, now),
             NewBucket(OrDefault(rpm, DEFAULT_RPM), 60.0, now),
             NewBucket(OrDefault(rpd, DEFAULT_RPD), 86400.0, now))
  }

  ghost predicate KeyInv(s: KeyState, clock: real) {
    && BucketInv(s.tpm) && BucketInv(s.rpm) && BucketInv(s.rpd)
    && s.tpm.clock <= clock && s.rpm.clock <= clock && s.rpd.clock <= clock
  }

  /** All three checks run before anything is consumed; a failed check ends the evaluation. */
  function Reserve(s: KeyState, tokens: int, r: Readings): (KeyState, bool) {
    var s1 := s.(tpm := Pruned(s.tpm, r.check1));
    if !HasRoom(s1.tpm, tokens) then (s1, false) else
    var s2 := s1.(rpm := Pruned(s.rpm, r.check2));
    if !HasRoom(s2.rpm, 1) then (s2, false) else
    var s3 := s2.(rpd := Pruned(s.rpd, r.check3));
    if !HasRoom(s3.rpd, 1) then (s3, false) else
    (KeyState(Consumed(s3.tpm, tokens, r.take1), Consumed(s3.rpm, 1, r.take2), Consumed(s3.rpd, 1, r.take3)), true)
  }

  lemma NewKeyInv(tpm: int, rpm: int, rpd: int, now: real)
    ensures KeyInv(NewKey(tpm, rpm, rpd, now), now)
  {
  }

  predicate SameGrants(a: KeyState, b: KeyState) {
    && a.tpm.granted == b.tpm.granted && a.rpm.granted == b.rpm.granted && a.rpd.granted == b.rpd.granted
  }

  predicate SameShape(a: KeyState, b: KeyState) {
    && a.tpm.capacity == b.tpm.capacity && a.rpm.capacity == b.rpm.capacity && a.rpd.capacity == b.rpd.capacity
    && a.tpm.window == b.tpm.window && a.rpm.window == b.rpm.window && a.rpd.window == b.rpd.window
  }

  /**
   One reservation: granted exactly when all three histories leave room, it then consumes from
   all three; refused, it consumes from none.
   */
  lemma ReserveStep(s: KeyState, tokens: int, r: Readings, clock: real)
    requires KeyInv(s, clock) && InOrder(r, clock)
    ensures KeyInv(Reserve(s, tokens, r).0, r.take3)
    ensures SameShape(Reserve(s, tokens, r).0, s)
    ensures Reserve(s, tokens, r).1 <==>
              && RoomInHistory(s.tpm, tokens, r.check1)
              && RoomInHistory(s.rpm, 1, r.check2)
              && RoomInHistory(s.rpd, 1, r.check3)
    ensures !Reserve(s, tokens, r).1 ==> SameGrants(Reserve(s, tokens, r).0, s)
    ensures Reserve(s, tokens, r).1 ==>
              var t := Reserve(s, tokens, r).0;
              && t.tpm.granted == s.tpm.granted + Repeat(r.take1, tokens)
              && t.rpm.granted == s.rpm.granted + [r.take2]
              && t.rpd.granted == s.rpd.granted + [r.take3]
  {
    BucketStep(s.tpm, tokens, r.check1, r.take1);
    BucketStep(s.rpm, 1, r.check2, r.take2);
    BucketStep(s.rpd, 1, r.check3, r.take3);
    assert Repeat(r.take2, 1) == [r.take2] && Repeat(r.take3, 1) == [r.take3];
  }

  lemma BucketStep(b: Bucket, tokens: int, check: real, take: real)
    requires BucketInv(b) && b.clock <= check <= take
    ensures BucketInv(Pruned(b, check)) && Pruned(b, check).granted == b.granted
    ensures HasRoom(Pruned(b, check), tokens) <==> RoomInHistory(b, tokens, check)
    ensures HasRoom(Pruned(b, check), tokens) ==> BucketInv(Consumed(Pruned(b, check), tokens, take))
  {
    PrunedInv(b, check);
    if HasRoom(Pruned(b, check), tokens) {
      ConsumedInv(Pruned(b, check), tokens, take);
    }
  }

  datatype Request = Request(tokens: int, readings: Readings)

  predicate RequestsInOrder(requests: seq<Request>, from: real) {
    requests != [] ==> InOrder(requests[0].readings, from) && RequestsInOrder(requests[1..], requests[0].readings.take3)
  }

  function ReserveAll(s: KeyState, requests: seq<Request>): KeyState
    decreases |requests|
  {
    if requests == [] then s
    else ReserveAll(Reserve(s, requests[0].tokens, requests[0].readings).0, requests[1..])
  }

  /**
   Over every sequence of reservations under a nondecreasing clock, no window of any of the
   three buckets ever holds more grants than its capacity, and each stored list is the full
   grant history filtered to the cutoff of the last pruning.
   */
  lemma {:induction false} ReservationsStayWithinBudget(s: KeyState, requests: seq<Request>, clock: real)
    requires KeyInv(s, clock) && RequestsInOrder(requests, clock)
    ensures var t := ReserveAll(s, requests);
            && SameShape(t, s)
            && WindowsBounded(t.tpm.granted, s.tpm.capacity, s.tpm.window)
            && WindowsBounded(t.rpm.granted, s.rpm.capacity, s.rpm.window)
            && WindowsBounded(t.rpd.granted, s.rpd.capacity, s.rpd.window)
            && t.tpm.timestamps == After(t.tpm.granted, t.tpm.cutoff)
            && t.rpm.timestamps == After(t.rpm.granted, t.rpm.cutoff)
            && t.rpd.timestamps == After(t.rpd.granted, t.rpd.cutoff)
    decreases |requests|
  {
    if requests != [] {
      var first := requests[0];
      ReserveStep(s, first.tokens, first.readings, clock);
      ReservationsStayWithinBudget(Reserve(s, first.tokens, first.readings).0, requests[1..], first.readings.take3);
    }
  }

  // ---- what registering a key promises ----

  /** The requests that were granted, in order. */
  function Granted(s: KeyState, requests: seq<Request>): seq<Request>
    decreases |requests|
  {
    if requests == [] then []
    else
      var (after, ok) := Reserve(s, requests[0].tokens, requests[0].readings);
      if ok then [requests[0]] + Granted(after, requests[1..]) else Granted(after, requests[1..])
  }

  /** The tokens of the requests granted in (start, start + width]. */
  function TokensIn(granted: seq<Request>, start: real, width: real): nat {
    if granted == [] then 0
    else
      var first := granted[0];
      (if start < first.readings.take1 <= start + width && first.tokens > 0 then first.tokens else 0)
      + TokensIn(granted[1..], start, width)
  }

  /** The number of requests granted in (start, start + width], by the clock of the minute or of the day. */
  function RequestsIn(granted: seq<Request>, daily: bool, start: real, width: real): nat {
    if granted == [] then 0
    else
      var moment := if daily then granted[0].readings.take3 else granted[0].readings.take2;
      (if start < moment <= start + width then 1 else 0) + RequestsIn(granted[1..], daily, start, width)
  }

  function EndOf(requests: seq<Request>, clock: real): real {
    if requests == [] then clock else requests[|requests| - 1].readings.take3
  }

  lemma {:induction false} ReserveAllKeepsInv(s: KeyState, requests: seq<Request>, clock: real)
    requires KeyInv(s, clock) && RequestsInOrder(requests, clock)
    ensures KeyInv(ReserveAll(s, requests), EndOf(requests, clock)) && SameShape(ReserveAll(s, requests), s)
    decreases |requests|
  {
    if requests != [] {
      var first := requests[0];
      ReserveStep(s, first.tokens, first.readings, clock);
      ReserveAllKeepsInv(Reserve(s, first.tokens, first.readings).0, requests[1..], first.readings.take3);
    }
  }

  lemma AppendCounted(stamps: seq<real>, stamp: real, start: real, width: real)
    ensures InWindow(stamps + [stamp], start, width)
         == InWindow(stamps, start, width) + if start < stamp <= start + width then 1 else 0
  {
    InWindowConcat(stamps, [stamp], start, width);
    assert [stamp][1..] == [];
  }

  lemma OneGrantCounted(s: KeyState, request: Request, clock: real, start: real, width: real)
    requires KeyInv(s, clock) && InOrder(request.readings, clock)
    ensures var (t, ok) := Reserve(s, request.tokens, request.readings);
            var one := if ok then [request] else [];
            && InWindow(t.tpm.granted, start, width) == InWindow(s.tpm.granted, start, width) + TokensIn(one, start, width)
            && InWindow(t.rpm.granted, start, width) == InWindow(s.rpm.granted, start, width) + RequestsIn(one, false, start, width)
            && InWindow(t.rpd.granted, start, width) == InWindow(s.rpd.granted, start, width) + RequestsIn(one, true, start, width)
  {
    var r := request.readings;
    ReserveStep(s, request.tokens, r, clock);
    InWindowConcat(s.tpm.granted, Repeat(r.take1, request.tokens), start, width);
    InWindowRepeat(r.take1, request.tokens, start, width);
    AppendCounted(s.rpm.granted, r.take2, start, width);
    AppendCounted(s.rpd.granted, r.take3, start, width);
    assert [request][1..] == [];
  }

  lemma {:induction false} GrantsCounted(s: KeyState, requests: seq<Request>, clock: real, start: real, width: real)
    requires KeyInv(s, clock) && RequestsInOrder(requests, clock)
    ensures var t, granted := ReserveAll(s, requests), Granted(s, requests);
            && InWindow(t.tpm.granted, start, width) == InWindow(s.tpm.granted, start, width) + TokensIn(granted, start, width)
            && InWindow(t.rpm.granted, start, width) == InWindow(s.rpm.granted, start, width) + RequestsIn(granted, false, start, width)
            && InWindow(t.rpd.granted, start, width) == InWindow(s.rpd.granted, start, width) + RequestsIn(granted, true, start, width)
    decreases |requests|
  {
    if requests != [] {
      var first := requests[0];
      var (after, ok) := Reserve(s, first.tokens, first.readings);
      OneGrantCounted(s, first, clock, start, width);
      ReserveStep(s, first.tokens, first.readings, clock);
      GrantsCounted(after, requests[1..], first.readings.take3, start, width);
      if ok {
        OneMoreGranted(first, Granted(after, requests[1..]), start, width);
      }
    }
  }

  lemma OneMoreGranted(first: Request, granted: seq<Request>, start: real, width: real)
    ensures TokensIn([first] + granted, start, width) == TokensIn([first], start, width) + TokensIn(granted, start, width)
    ensures forall daily: bool ::
              RequestsIn([first] + granted, daily, start, width)
              == RequestsIn([first], daily, start, width) + RequestsIn(granted, daily, start, width)
  {
    assert ([first] + granted)[1..] == granted && [first][1..] == [];
  }

  /**
   What `register_key` promises, in the caller's own terms: over every ordered sequence of
   requests, at most `tpm` tokens and at most `rpm` requests are granted in any 60 seconds, and at
   most `rpd` requests in any 86400 seconds. Zero stands for 1000000 tokens, 1500 and 1500 requests.
   */
  lemma RegisteredLimitsHold(tpm: nat, rpm: nat, rpd: nat, registered: real, requests: seq<Request>, start: real)
    requires RequestsInOrder(requests, registered)
    ensures var granted := Granted(NewKey(tpm, rpm, rpd, registered), requests);
            && TokensIn(granted, start, 60.0) <= (if tpm == 0 then 1_000_000 else tpm)
            && RequestsIn(granted, false, start, 60.0) <= (if rpm == 0 then 1_500 else rpm)
            && RequestsIn(granted, true, start, 86_400.0) <= (if rpd == 0 then 1_500 else rpd)
  {
    var s := NewKey(tpm, rpm, rpd, registered);
    NewKeyInv(tpm, rpm, rpd, registered);
    ReservationsStayWithinBudget(s, requests, registered);
    GrantsCounted(s, requests, registered, start, 60.0);
    GrantsCounted(s, requests, registered, start, 86_400.0);
    var t := ReserveAll(s, requests);
    assert InWindow(t.tpm.granted, start, 60.0) <= s.tpm.capacity;
    assert InWindow(t.rpm.granted, start, 60.0) <= s.rpm.capacity;
    assert InWindow(t.rpd.granted, start, 86_400.0) <= s.rpd.capacity;
  }

  lemma {:induction false} AfterIsWindow(stamps: seq<real>, at: real, width: real)
    requires forall i :: 0 <= i < |stamps| ==> stamps[i] <= at
    ensures |After(stamps, at - width)| == InWindow(stamps, at - width, width)
  {
    if stamps != [] {
      AfterIsWindow(stamps[1..], at, width);
    }
  }

  lemma RoomIsWindow(b: Bucket, tokens: int, at: real)
    requires BucketInv(b) && b.clock <= at
    ensures RoomInHistory(b, tokens, at) <==> InWindow(b.granted, at - b.window, b.window) + tokens <= b.capacity
  {
    AfterIsWindow(b.granted, at, b.window);
  }

  lemma GrantedIffRoomInWindows(t: KeyState, tokens: int, r: Readings, clock: real)
    requires KeyInv(t, clock) && InOrder(r, clock)
    ensures Reserve(t, tokens, r).1 <==>
              && InWindow(t.tpm.granted, r.check1 - t.tpm.window, t.tpm.window) + tokens <= t.tpm.capacity
              && InWindow(t.rpm.granted, r.check2 - t.rpm.window, t.rpm.window) + 1 <= t.rpm.capacity
              && InWindow(t.rpd.granted, r.check3 - t.rpd.window, t.rpd.window) + 1 <= t.rpd.capacity
  {
    ReserveStep(t, tokens, r, clock);
    RoomIsWindow(t.tpm, tokens, r.check1);
    RoomIsWindow(t.rpm, 1, r.check2);
    RoomIsWindow(t.rpd, 1, r.check3);
  }

  /**
   And nothing is refused that the limits allow: after any requests, the next is granted exactly
   when its tokens and itself fit beside what the last minute and the last day were granted.
   */
  lemma RefusedOnlyOverLimit(tpm: nat, rpm: nat, rpd: nat, registered: real, requests: seq<Request>, next: Request)
    requires RequestsInOrder(requests, registered) && InOrder(next.readings, EndOf(requests, registered))
    ensures var s, r := NewKey(tpm, rpm, rpd, registered), next.readings;
            var granted := Granted(s, requests);
            Reserve(ReserveAll(s, requests), next.tokens, r).1 <==>
              && TokensIn(granted, r.check1 - 60.0, 60.0) + next.tokens <= (if tpm == 0 then 1_000_000 else tpm)
              && RequestsIn(granted, false, r.check2 - 60.0, 60.0) + 1 <= (if rpm == 0 then 1_500 else rpm)
              && RequestsIn(granted, true, r.check3 - 86_400.0, 86_400.0) + 1 <= (if rpd == 0 then 1_500 else rpd)
  {
    var s, r := NewKey(tpm, rpm, rpd, registered), next.readings;
    NewKeyInv(tpm, rpm, rpd, registered);
    ReserveAllKeepsInv(s, requests, registered);
    GrantedIffRoomInWindows(ReserveAll(s, requests), next.tokens, r, EndOf(requests, registered));
    GrantsCounted(s, requests, registered, r.check1 - 60.0, 60.0);
    GrantsCounted(s, requests, registered, r.check2 - 60.0, 60.0);
    GrantsCounted(s, requests, registered, r.check3 - 86_400.0, 86_400.0);
  }

  /** What the scheduler's `estimated_wait` answers once the three buckets have been pruned. */
  function LongestWait(s: KeyState, tokens: int): real {
    Max(Wait(s.tpm, tokens), Max(Wait(s.rpm, 1), Wait(s.rpd, 1)))
  }

  /** No less than each of the three waits, and no more than the longest of them. */
  lemma LongestWaitIsOneOfThem(s: KeyState, tokens: int)
    ensures var wait := LongestWait(s, tokens);
            && wait >= Wait(s.tpm, tokens) && wait >= Wait(s.rpm, 1) && wait >= Wait(s.rpd, 1)
            && (wait == Wait(s.tpm, tokens) || wait == Wait(s.rpm, 1) || wait == Wait(s.rpd, 1))
  {
  }

  predicate JustPruned(b: Bucket, now: real) {
    b.clock == now && b.cutoff == now - b.window
  }

  /** A bucket whose wait is over, and from which nothing else was consumed, has room. */
  lemma WaitedLongEnough(b: Bucket, tokens: int, now: real, at: real)
    requires BucketInv(b) && JustPruned(b, now) && tokens <= b.capacity && now + Wait(b, tokens) <= at
    ensures RoomInHistory(b, tokens, at)
  {
    WaitIsLeast(b, tokens);
  }

  /** A request that the three buckets can hold at all. */
  predicate Fits(s: KeyState, tokens: int) {
    tokens <= s.tpm.capacity && 1 <= s.rpm.capacity && 1 <= s.rpd.capacity
  }

  /** The three clock readings of one `estimated_wait`, one for each bucket in turn. */
  datatype WaitReadings = WaitReadings(tpm: real, rpm: real, rpd: real)

  predicate WaitsInOrder(w: WaitReadings, from: real) {
    from <= w.tpm <= w.rpm <= w.rpd
  }

  function PrunedEach(s: KeyState, w: WaitReadings): KeyState {
    KeyState(Pruned(s.tpm, w.tpm), Pruned(s.rpm, w.rpm), Pruned(s.rpd, w.rpd))
  }

  /**
   The longest of the three waits is sound for `reserve`: if nothing else is consumed, a
   reservation whose checks all happen that long after the last of the three readings is granted.
   */
  lemma LongestWaitSuffices(s: KeyState, tokens: int, w: WaitReadings, wait: real, r: Readings)
    requires KeyInv(s, w.rpd) && w.tpm <= w.rpm <= w.rpd
    requires JustPruned(s.tpm, w.tpm) && JustPruned(s.rpm, w.rpm) && JustPruned(s.rpd, w.rpd)
    requires Fits(s, tokens)
    requires wait == LongestWait(s, tokens) && InOrder(r, w.rpd + wait)
    ensures wait >= 0.0 && Reserve(s, tokens, r).1
  {
    WaitIsLeast(s.tpm, tokens);
    assert wait >= Wait(s.tpm, tokens) >= 0.0;
    WaitedLongEnough(s.tpm, tokens, w.tpm, r.check1);
    WaitedLongEnough(s.rpm, 1, w.rpm, r.check2);
    WaitedLongEnough(s.rpd, 1, w.rpd, r.check3);
    ReserveStep(s, tokens, r, w.rpd);
  }

  /** From time `from` on, a reservation that fits is granted if nothing else is consumed. */
  ghost predicate WaitedReservationGranted(s: KeyState, tokens: int, from: real) {
    Fits(s, tokens) ==> forall r: Readings :: InOrder(r, from) ==> Reserve(s, tokens, r).1
  }

  /**
   The same from whatever state the key is in: read the clock three times, prune each bucket at
   its own reading, take the longest wait; the reservation after it is granted, and the pruning
   is invisible to every bound.
   */
  lemma WaitingGetsTheReservation(s: KeyState, tokens: int, w: WaitReadings, clock: real, r: Readings)
    requires KeyInv(s, clock) && WaitsInOrder(w, clock)
    requires Fits(s, tokens)
    requires InOrder(r, w.rpd + LongestWait(PrunedEach(s, w), tokens))
    ensures KeyInv(PrunedEach(s, w), w.rpd) && SameGrants(PrunedEach(s, w), s)
    ensures Reserve(PrunedEach(s, w), tokens, r).1
  {
    PrunedInv(s.tpm, w.tpm);
    PrunedInv(s.rpm, w.rpm);
    PrunedInv(s.rpd, w.rpd);
    var t := PrunedEach(s, w);
    LongestWaitSuffices(t, tokens, w, LongestWait(t, tokens), r);
  }

  /** The source's key: provider, model and a digest of the API key. */
  type Key = (string, string, string)

  datatype KeyBuckets = KeyBuckets(tpm: TokenBucket, rpm: TokenBucket, rpd: TokenBucket) {
    ghost function Objects(): set<TokenBucket> { {tpm, rpm, rpd} }

    ghost function Model(): KeyState
      reads Objects()
    {
      KeyState(tpm.Model(), rpm.Model(), rpd.Model())
    }
  }

  method ReserveFrom(b: KeyBuckets, tokens: int, r: Readings) returns (ok: bool)
    requires b.tpm != b.rpm && b.tpm != b.rpd && b.rpm != b.rpd
    modifies b.Objects()
    ensures (b.Model(), ok) == Reserve(old(b.Model()), tokens, r)
  {
    ok := b.tpm.HasCapacity(tokens, r.check1);
    if !ok { return; }
    ok := b.rpm.HasCapacity(1, r.check2);
    if !ok { return; }
    ok := b.rpd.HasCapacity(1, r.check3);
    if !ok { return; }
    b.tpm.Consume(tokens, r.take1);
    b.rpm.Consume(1, r.take2);
    b.rpd.Consume(1, r.take3);
  }

  class RateLimitScheduler {
    var buckets: map<Key, KeyBuckets>

    ghost function Objects(): set<TokenBucket>
      reads this
    {
      set k, o | k in buckets && o in buckets[k].Objects() :: o
    }

    /** No bucket is shared, within a key or between keys. */
    ghost predicate Separate()
      reads this
    {
      && (forall k :: k in buckets ==> var b := buckets[k]; b.tpm != b.rpm && b.tpm != b.rpd && b.rpm != b.rpd)
      && (forall k, l :: k in buckets && l in buckets && k != l ==> buckets[k].Objects() !! buckets[l].Objects())
    }

    constructor ()
      ensures Separate() && buckets == map[]
    {
      buckets := map[];
    }

    method RegisterKey(key: Key, tpm: int, rpm: int, rpd: int, ghost now: real)
      requires Separate()
      modifies this
      ensures Separate()
      ensures key in buckets && buckets == old(buckets)[key := buckets[key]]
      ensures fresh(buckets[key].Objects())
      ensures buckets[key].Model() == NewKey(tpm, rpm, rpd, now)
    {
      var t := new TokenBucket(OrDefault(tpm, DEFAULT_TPM), 60.0, now);
      var m := new TokenBucket(OrDefault(rpm, DEFAULT_RPM), 60.0, now);
      var d := new TokenBucket(OrDefault(rpd, DEFAULT_RPD), 86400.0, now);
      var b := KeyBuckets(t, m, d);
      assert forall k :: k in buckets ==> buckets[k].Objects() !! b.Objects();
      buckets := buckets[key := b];
    }

    /** Try to reserve; an unknown key is first registered with the default limits. */
    method TryReserve(key: Key, tokens: int, r: Readings) returns (ok: bool)
      requires Separate()
      modifies this, Objects()
      ensures Separate()
      ensures key in buckets && buckets == old(buckets)[key := buckets[key]]
      ensures forall k :: k in old(buckets) && k != key ==> buckets[k].Model() == old(buckets[k].Model())
      ensures (buckets[key].Model(), ok)
           == Reserve(if key in old(buckets) then old(buckets[key].Model()) else NewKey(0, 0, 0, r.check1), tokens, r)
    {
      if key !in buckets {
        RegisterKey(key, 0, 0, 0, r.check1);
      } else {
        assert buckets[key].Objects() <= Objects();
      }
      ok := ReserveFrom(buckets[key], tokens, r);
    }

    /** The longest of the three waits; an unknown key need not wait. */
    method EstimatedWait(key: Key, tokens: int, w: WaitReadings) returns (wait: real)
      requires Separate()
      requires key in buckets ==> KeyInv(buckets[key].Model(), w.tpm) && w.tpm <= w.rpm <= w.rpd
      modifies Objects()
      ensures key !in buckets ==> wait == 0.0
      ensures key in buckets ==>
                var s := buckets[key].Model();
                && s == PrunedEach(old(buckets[key].Model()), w)
                && wait == LongestWait(s, tokens)
                && WaitedReservationGranted(s, tokens, w.rpd + wait)
      ensures forall k :: k in buckets && k != key ==> buckets[k].Model() == old(buckets[k].Model())
    {
      if key !in buckets {
        return 0.0;
      }
      assert buckets[key].Objects() <= Objects();
      var b := buckets[key];
      assert b.tpm in b.Objects() && b.rpm in b.Objects() && b.rpd in b.Objects();
      ghost var before := b.Model();
      var w1 := b.tpm.EstimatedWait(tokens, w.tpm);
      var w2 := b.rpm.EstimatedWait(1, w.rpm);
      var w3 := b.rpd.EstimatedWait(1, w.rpd);
      wait := Max(w1, Max(w2, w3));
      forall r: Readings | InOrder(r, w.rpd + wait) && Fits(before, tokens)
        ensures Reserve(b.Model(), tokens, r).1
      {
        WaitingGetsTheReservation(before, tokens, w, w.tpm, r);
      }
    }
  }
}
