/**
 The tamper-evident audit chain (serving/app/services/audit.py).

 The digest is an arbitrary function `h` from hashed payloads to strings. Nothing is assumed of
 it: instead of requiring that it never collides, the theorems return the colliding pair, taken
 from the very payloads of the chains at hand.
 */
module AuditChain {
  import opened Wrappers

  type Uuid = n: nat | n < 0x1_0000_0000_0000_0000_0000_0000_0000_0000

  /** A JSON value of `details`; a number is kept as its text. */
  datatype Detail =
    | Null
    | Flag(flag: bool)
    | Number(number: string)
    | Text(text: string)
    | Items(items: seq<Detail>)
    | Fields(fields: map<string, Detail>)

  type Details = map<string, Detail>

  /** Everything hashed, after `None`, `""` and `{}` have been identified. */
  datatype Payload = Payload(
    action: string, details: Details, ipAddress: string, occurredAt: int, previousHash: string,
    requestId: string, resourceId: string, resourceType: string, tenantId: Uuid, userId: Option<Uuid>)

  /** What the caller of `record_audit_event` supplies, and the clock reading. */
  datatype Content = Content(
    userId: Option<Uuid>, action: string, resourceType: string, resourceId: string,
    details: Option<Details>, ipAddress: Option<string>, requestId: Option<string>, occurredAt: int)

  datatype Event = Event(id: int, tenantId: Uuid, content: Content, prevHash: Option<string>, chainHash: string)

  type Digest = Payload -> string

  /** The signed 64-bit lock key: the first eight bytes, in two's complement. */
  function AdvisoryLockKey(tenantId: Uuid): int {
    var value := tenantId / 0x1_0000_0000_0000_0000;
    if value >= 0x8000_0000_0000_0000 then value - 0x1_0000_0000_0000_0000 else value
  }

  /** Keys fit a signed 64-bit integer; two tenants share one exactly when their first eight bytes agree. */
  lemma LockKeyIsFirstEightBytes(a: Uuid, b: Uuid)
    ensures -0x8000_0000_0000_0000 <= AdvisoryLockKey(a) < 0x8000_0000_0000_0000
    ensures AdvisoryLockKey(a) == AdvisoryLockKey(b) <==> a / 0x1_0000_0000_0000_0000 == b / 0x1_0000_0000_0000_0000
  {
  }

  function PayloadOf(previousHash: Option<string>, tenantId: Uuid, c: Content): Payload {
    Payload(c.action, c.details.GetOr(map[]), c.ipAddress.GetOr(""), c.occurredAt, previousHash.GetOr(""),
            c.requestId.GetOr(""), c.resourceId, c.resourceType, tenantId, c.userId)
  }

  function Recorded(h: Digest, id: int, tenantId: Uuid, c: Content, previousHash: Option<string>): Event {
    Event(id, tenantId, c, previousHash, h(PayloadOf(previousHash, tenantId, c)))
  }

  // ---- verification ----

  /** The link an event should continue: the hash of the event before it, nothing for the first. */
  function LinkBefore(events: seq<Event>, k: nat): Option<string>
    requires k <= |events|
  {
    if k == 0 then None else Some(events[k - 1].chainHash)
  }

  function Head(events: seq<Event>): Option<string> {
    LinkBefore(events, |events|)
  }

  function HashedAt(events: seq<Event>, k: nat): Payload
    requires k < |events|
  {
    PayloadOf(LinkBefore(events, k), events[k].tenantId, events[k].content)
  }

  predicate LinkedAt(h: Digest, events: seq<Event>, k: nat)
    requires k < |events|
  {
    events[k].prevHash == LinkBefore(events, k) && events[k].chainHash == h(HashedAt(events, k))
  }

  /** The chain is sound: every event continues the one before it and carries its own hash. */
  predicate Chained(h: Digest, events: seq<Event>) {
    forall k :: 0 <= k < |events| ==> LinkedAt(h, events, k)
  }

  /** In a sound chain the first event has no link and every later one carries the hash before it. */
  lemma ChainedLinks(h: Digest, events: seq<Event>, k: nat)
    requires Chained(h, events) && k < |events|
    ensures events[k].prevHash == if k == 0 then None else Some(events[k - 1].chainHash)
    ensures events[k].chainHash == h(PayloadOf(events[k].prevHash, events[k].tenantId, events[k].content))
  {
    assert LinkedAt(h, events, k);
  }

  /** The first event out of place, if any. */
  method VerifyAuditChain(h: Digest, events: seq<Event>) returns (invalid: Option<int>)
    ensures invalid.None? <==> Chained(h, events)
    ensures invalid.Some? ==>
              exists k :: 0 <= k < |events| && events[k].id == invalid.value && FirstBreak(h, events, k)
  {
    var previousHash: Option<string> := None;
    var k := 0;
    while k < |events|
      invariant 0 <= k <= |events|
      invariant previousHash == LinkBefore(events, k)
      invariant forall i :: 0 <= i < k ==> LinkedAt(h, events, i)
    {
      var event := events[k];
      var expected := h(PayloadOf(previousHash, event.tenantId, event.content));
      if event.prevHash != previousHash || event.chainHash != expected {
        assert !LinkedAt(h, events, k);
        return Some(event.id);
      }
      previousHash := Some(event.chainHash);
      k := k + 1;
    }
    return None;
  }

  predicate FirstBreak(h: Digest, events: seq<Event>, k: nat) {
    k < |events| && !LinkedAt(h, events, k) && forall i :: 0 <= i < k ==> LinkedAt(h, events, i)
  }

  /** There is at most one first break, so the reported event is determined. */
  lemma FirstBreakIsUnique(h: Digest, events: seq<Event>, k: nat, l: nat)
    requires FirstBreak(h, events, k) && FirstBreak(h, events, l)
    ensures k == l
  {
  }

  // ---- what the digest tells apart ----

  predicate NoDetails(d: Option<Details>) {
    d.None? || d.value == map[]
  }

  predicate NoText(t: Option<string>) {
    t.None? || t.value == ""
  }

  /** The contents differ at most in whether an empty field is missing or empty. */
  predicate SameContent(a: Content, b: Content) {
    && a.userId == b.userId && a.action == b.action
    && a.resourceType == b.resourceType && a.resourceId == b.resourceId && a.occurredAt == b.occurredAt
    && (a.details == b.details || (NoDetails(a.details) && NoDetails(b.details)))
    && (a.ipAddress == b.ipAddress || (NoText(a.ipAddress) && NoText(b.ipAddress)))
    && (a.requestId == b.requestId || (NoText(a.requestId) && NoText(b.requestId)))
  }

  /** The hashed payload tells apart links, tenants and contents, field by field, and nothing else. */
  lemma PayloadTellsContents(link: Option<string>, s: Uuid, a: Content, link': Option<string>, t: Uuid, b: Content)
    ensures PayloadOf(link, s, a) == PayloadOf(link', t, b)
       <==> s == t && SameContent(a, b) && (link == link' || (NoText(link) && NoText(link')))
  {
  }

  // ---- what the head hash commits to ----

  /** The two histories hold the same contents, event by event and field by field. */
  predicate SameHistory(a: seq<Event>, b: seq<Event>) {
    |a| == |b| && forall k :: 0 <= k < |a| ==>
      && a[k].tenantId == b[k].tenantId && SameContent(a[k].content, b[k].content)
      && a[k].prevHash == b[k].prevHash && a[k].chainHash == b[k].chainHash
  }

  /** Two of the hashed payloads collide, or one of them hashes to the empty string. */
  predicate DigestBroken(h: Digest, a: seq<Event>, b: seq<Event>) {
    || (exists i, j :: 0 <= i < |a| && 0 <= j < |b| && Collide(h, HashedAt(a, i), HashedAt(b, j)))
    || (exists i :: 0 <= i < |a| && h(HashedAt(a, i)) == "")
    || (exists j :: 0 <= j < |b| && h(HashedAt(b, j)) == "")
  }

  predicate Collide(h: Digest, p: Payload, q: Payload) {
    p != q && h(p) == h(q)
  }

  lemma PrefixKeepsPayloads(a: seq<Event>, n: nat)
    requires n <= |a|
    ensures forall k :: 0 <= k < n ==> HashedAt(a[..n], k) == HashedAt(a, k)
    ensures LinkBefore(a[..n], n) == LinkBefore(a, n)
  {
  }

  /** Any suffix can be cut off unnoticed: verification accepts every prefix of a sound chain. */
  lemma TruncationIsNotDetected(h: Digest, a: seq<Event>, n: nat)
    requires Chained(h, a) && n <= |a|
    ensures Chained(h, a[..n])
  {
    forall k | 0 <= k < n ensures LinkedAt(h, a[..n], k) {
      assert LinkedAt(h, a, k);
    }
  }

  lemma BrokenInPrefix(h: Digest, a: seq<Event>, b: seq<Event>, m: nat, n: nat)
    requires m <= |a| && n <= |b| && DigestBroken(h, a[..m], b[..n])
    ensures DigestBroken(h, a, b)
  {
    PrefixKeepsPayloads(a, m);
    PrefixKeepsPayloads(b, n);
    var a', b' := a[..m], b[..n];
    if i, j :| 0 <= i < |a'| && 0 <= j < |b'| && Collide(h, HashedAt(a', i), HashedAt(b', j)) {
      assert Collide(h, HashedAt(a, i), HashedAt(b, j));
    } else if i :| 0 <= i < |a'| && h(HashedAt(a', i)) == "" {
      assert h(HashedAt(a, i)) == "";
    } else {
      var j :| 0 <= j < |b'| && h(HashedAt(b', j)) == "";
      assert h(HashedAt(b, j)) == "";
    }
  }

  lemma OneMoreSame(a: seq<Event>, b: seq<Event>)
    requires a != [] && b != [] && SameHistory(a[..|a| - 1], b[..|b| - 1])
    requires var e, f := a[|a| - 1], b[|b| - 1];
             && e.tenantId == f.tenantId && SameContent(e.content, f.content)
             && e.prevHash == f.prevHash && e.chainHash == f.chainHash
    ensures SameHistory(a, b)
  {
    forall k | 0 <= k < |a| - 1
      ensures a[k].tenantId == b[k].tenantId && SameContent(a[k].content, b[k].content)
      ensures a[k].prevHash == b[k].prevHash && a[k].chainHash == b[k].chainHash
    {
      assert a[..|a| - 1][k] == a[k] && b[..|b| - 1][k] == b[k];
    }
  }

  /**
   The head commits to the whole history. Two sound chains that end in the same hash have the
   same length and hold the same tenant, user, action, resource, time, details, address and
   request at every position; otherwise two of their own payloads collide. Insertions,
   deletions, reorderings and edits are all covered.
   */
  lemma {:induction false} HeadCommitsToHistory(h: Digest, a: seq<Event>, b: seq<Event>)
    requires Chained(h, a) && Chained(h, b) && Head(a) == Head(b)
    ensures SameHistory(a, b) || DigestBroken(h, a, b)
    decreases |a|
  {
    if a != [] && b != [] {
      var m, n := |a| - 1, |b| - 1;
      assert LinkedAt(h, a, m) && LinkedAt(h, b, n);
      PayloadTellsContents(LinkBefore(a, m), a[m].tenantId, a[m].content, LinkBefore(b, n), b[n].tenantId, b[n].content);
      if HashedAt(a, m) != HashedAt(b, n) {
        assert Collide(h, HashedAt(a, m), HashedAt(b, n));
      } else {
        // equal payloads name the same previous hash
        var before, before' := LinkBefore(a, m), LinkBefore(b, n);
        assert before.GetOr("") == before'.GetOr("");
        if before == before' {
          TruncationIsNotDetected(h, a, m);
          TruncationIsNotDetected(h, b, n);
          PrefixKeepsPayloads(a, m);
          PrefixKeepsPayloads(b, n);
          HeadCommitsToHistory(h, a[..m], b[..n]);
          if DigestBroken(h, a[..m], b[..n]) {
            BrokenInPrefix(h, a, b, m, n);
          } else {
            OneMoreSame(a, b);
          }
        } else if before.Some? {
          assert LinkedAt(h, a, m - 1);
          assert h(HashedAt(a, m - 1)) == "";
        } else {
          assert LinkedAt(h, b, n - 1);
          assert h(HashedAt(b, n - 1)) == "";
        }
      }
    }
  }

  // ---- altering one event ----

  lemma AlterationKeepsOthers(a: seq<Event>, k: nat, e: Event)
    requires k < |a| && e.chainHash == a[k].chainHash
    ensures forall i :: 0 <= i < |a| && i != k ==> HashedAt(a[k := e], i) == HashedAt(a, i)
    ensures forall i :: 0 <= i <= |a| ==> LinkBefore(a[k := e], i) == LinkBefore(a, i)
  {
  }

  /** The event of another tenant, or with other contents than a missing field written as an empty one. */
  predicate Differs(e: Event, f: Event) {
    e.tenantId != f.tenantId || !SameContent(e.content, f.content)
  }

  /**
   Replacing one event of a sound chain, its two hashes kept, by one that differs in tenant,
   user, action, resource, time, details, address or request is reported at that very event,
   unless the two payloads collide. Replacing it by one that differs in none of these is not
   reported at all.
   */
  lemma AlteredEventIsReported(h: Digest, a: seq<Event>, k: nat, e: Event)
    requires Chained(h, a) && k < |a|
    requires e.chainHash == a[k].chainHash && e.prevHash == a[k].prevHash
    ensures Differs(e, a[k]) ==> FirstBreak(h, a[k := e], k) || Collide(h, HashedAt(a, k), HashedAt(a[k := e], k))
    ensures !Differs(e, a[k]) ==> Chained(h, a[k := e])
  {
    var b := a[k := e];
    AlterationKeepsOthers(a, k, e);
    PayloadTellsContents(LinkBefore(a, k), a[k].tenantId, a[k].content, LinkBefore(a, k), e.tenantId, e.content);
    forall i | 0 <= i < |a| && i != k ensures LinkedAt(h, b, i) {
      assert LinkedAt(h, a, i);
    }
    assert LinkedAt(h, a, k);
    assert LinkedAt(h, b, k) <==> h(HashedAt(b, k)) == h(HashedAt(a, k));
  }

  /**
   Recomputing the altered event's own hash only moves the report to the next event: the
   rewritten hash no longer matches the link stored there.
   */
  lemma RehashedEventIsReportedNext(h: Digest, a: seq<Event>, k: nat, tenantId: Uuid, c: Content, id: int)
    requires Chained(h, a) && k + 1 < |a|
    requires tenantId != a[k].tenantId || !SameContent(c, a[k].content)
    ensures var e := Recorded(h, id, tenantId, c, LinkBefore(a, k));
            FirstBreak(h, a[k := e], k + 1) || Collide(h, HashedAt(a, k), HashedAt(a[k := e], k))
  {
    var e := Recorded(h, id, tenantId, c, LinkBefore(a, k));
    var b := a[k := e];
    assert LinkedAt(h, a, k) && LinkedAt(h, a, k + 1);
    PayloadTellsContents(LinkBefore(a, k), a[k].tenantId, a[k].content, LinkBefore(a, k), tenantId, c);
    assert HashedAt(b, k) == PayloadOf(LinkBefore(a, k), tenantId, c);
    forall i | 0 <= i < k ensures LinkedAt(h, b, i) {
      assert LinkedAt(h, a, i);
    }
    assert LinkedAt(h, b, k);
    if e.chainHash != a[k].chainHash {
      assert !LinkedAt(h, b, k + 1);
    }
  }

  /** Appending what `record_audit_event` builds keeps a sound chain sound. */
  lemma RecordingKeepsChain(h: Digest, a: seq<Event>, id: int, tenantId: Uuid, c: Content)
    requires Chained(h, a)
    ensures Chained(h, a + [Recorded(h, id, tenantId, c, Head(a))])
  {
    var b := a + [Recorded(h, id, tenantId, c, Head(a))];
    forall k | 0 <= k < |b| ensures LinkedAt(h, b, k) {
      if k < |a| {
        assert LinkedAt(h, a, k);
      }
    }
  }

  // ---- the stored log ----

  function TenantEvents(events: seq<Event>, tenantId: Uuid): seq<Event> {
    if events == [] then []
    else
      var last := events[|events| - 1];
      var before := TenantEvents(events[..|events| - 1], tenantId);
      if last.tenantId == tenantId then before + [last] else before
  }

  predicate IsLatest(events: seq<Event>, tenantId: Uuid, i: int) {
    && 0 <= i < |events| && events[i].tenantId == tenantId
    && forall j :: i < j < |events| ==> events[j].tenantId != tenantId
  }

  class AuditLog {
    const h: Digest
    var events: seq<Event>
    var nextId: int

    predicate Valid()
      reads this
    {
      && (forall i, j :: 0 <= i < j < |events| ==> events[i].id < events[j].id)
      && (forall i :: 0 <= i < |events| ==> events[i].id < nextId)
    }

    ghost predicate AllChained()
      reads this
    {
      forall tenantId: Uuid :: Chained(h, TenantEvents(events, tenantId))
    }

    constructor (h: Digest)
      ensures this.h == h && events == [] && Valid() && AllChained()
    {
      this.h := h;
      events := [];
      nextId := 1;
    }

    /** The hash of the tenant's latest event. */
    method LastHash(tenantId: Uuid) returns (previous: Option<string>)
      ensures previous == Head(TenantEvents(events, tenantId))
      ensures previous.None? <==> forall i :: 0 <= i < |events| ==> events[i].tenantId != tenantId
      ensures previous.Some? ==> exists i :: IsLatest(events, tenantId, i) && events[i].chainHash == previous.value
    {
      var i := |events|;
      assert events[..i] == events;
      while i > 0
        invariant 0 <= i <= |events|
        invariant TenantEvents(events, tenantId) == TenantEvents(events[..i], tenantId)
        invariant forall j :: i <= j < |events| ==> events[j].tenantId != tenantId
      {
        assert events[..i][..i - 1] == events[..i - 1];
        if events[i - 1].tenantId == tenantId {
          assert IsLatest(events, tenantId, i - 1);
          return Some(events[i - 1].chainHash);
        }
        i := i - 1;
      }
      return None;
    }

    /** Append one event to the tenant's chain; every tenant's chain stays sound. */
    method RecordAuditEvent(tenantId: Uuid, content: Content) returns (event: Event)
      requires Valid()
      modifies this
      ensures Valid()
      ensures events == old(events) + [event]
      ensures event == Recorded(h, old(nextId), tenantId, content, Head(TenantEvents(old(events), tenantId)))
      ensures event.id == old(nextId) && event.tenantId == tenantId && event.content == content
      ensures event.prevHash == Head(TenantEvents(old(events), tenantId))
      ensures old(AllChained()) ==> AllChained()
    {
      var previous := LastHash(tenantId);
      event := Recorded(h, nextId, tenantId, content, previous);
      if AllChained() {
        var added := events + [event];
        assert added[..|added| - 1] == events;
        forall t: Uuid ensures Chained(h, TenantEvents(added, t)) {
          assert Chained(h, TenantEvents(events, t));
          if t == tenantId {
            RecordingKeepsChain(h, TenantEvents(events, t), nextId, tenantId, content);
          }
        }
      }
      events := events + [event];
      nextId := nextId + 1;
    }
  }
}
