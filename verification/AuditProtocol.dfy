/**
 Concurrent recording under advisory locks (serving/app/services/audit.py, `record_audit_event`).

 Transactions of many tenants interleave at the granularity of the source's statements: take the
 tenant's advisory lock, read the tenant's last visible event, insert the new one, commit or
 roll back. A transaction sees committed rows and its own. Locks are held to the end of the
 transaction, and two tenants may share a lock key.
 */
module AuditProtocol {
  import opened Wrappers
  import opened AuditChain

  type TxId = nat

  datatype Row = Row(event: Event, tx: TxId, committed: bool)

  /** Where a transaction stands inside `record_audit_event`. */
  datatype Phase = Idle | Locked(tenantId: Uuid) | HasRead(tenantId: Uuid, previous: Option<string>)

  datatype State = State(rows: seq<Row>, nextId: int, locks: map<int, TxId>, phases: map<TxId, Phase>)

  datatype Step =
    | TakeLock(tx: TxId, tenantId: Uuid)
    | ReadLast(tx: TxId)
    | Append(tx: TxId, content: Content)
    | Commit(tx: TxId)
    | Rollback(tx: TxId)

  const START := State([], 1, map[], map[])

  function PhaseOf(s: State, tx: TxId): Phase {
    if tx in s.phases then s.phases[tx] else Idle
  }

  function RowsOf(rows: seq<Row>, tenantId: Uuid): seq<Row> {
    if rows == [] then []
    else if rows[0].event.tenantId == tenantId then [rows[0]] + RowsOf(rows[1..], tenantId)
    else RowsOf(rows[1..], tenantId)
  }

  function Events(rows: seq<Row>): seq<Event> {
    seq(|rows|, i requires 0 <= i < |rows| => rows[i].event)
  }

  function Committed(rows: seq<Row>): seq<Row> {
    if rows == [] then []
    else if rows[0].committed then [rows[0]] + Committed(rows[1..])
    else Committed(rows[1..])
  }

  predicate Visible(r: Row, tx: TxId) {
    r.committed || r.tx == tx
  }

  function VisibleTo(rows: seq<Row>, tx: TxId): seq<Row> {
    if rows == [] then []
    else if Visible(rows[0], tx) then [rows[0]] + VisibleTo(rows[1..], tx)
    else VisibleTo(rows[1..], tx)
  }

  function LastVisible(s: State, tx: TxId, tenantId: Uuid): Option<string> {
    Head(Events(VisibleTo(RowsOf(s.rows, tenantId), tx)))
  }

  /** The rows left when a transaction rolls back. */
  function Without(rows: seq<Row>, tx: TxId): seq<Row> {
    if rows == [] then []
    else if rows[0].tx == tx && !rows[0].committed then Without(rows[1..], tx)
    else [rows[0]] + Without(rows[1..], tx)
  }

  function CommittedBy(rows: seq<Row>, tx: TxId): seq<Row> {
    seq(|rows|, i requires 0 <= i < |rows| => if rows[i].tx == tx then rows[i].(committed := true) else rows[i])
  }

  function Unlocked(locks: map<int, TxId>, tx: TxId): map<int, TxId> {
    map k | k in locks && locks[k] != tx :: locks[k]
  }

  predicate Enabled(s: State, step: Step) {
    match step
    case TakeLock(tx, tenantId) =>
      PhaseOf(s, tx).Idle? && (AdvisoryLockKey(tenantId) in s.locks ==> s.locks[AdvisoryLockKey(tenantId)] == tx)
    case ReadLast(tx) => PhaseOf(s, tx).Locked?
    case Append(tx, _) => PhaseOf(s, tx).HasRead?
    case Commit(tx) => PhaseOf(s, tx).Idle?
    case Rollback(tx) => true
  }

  function Next(h: Digest, s: State, step: Step): State
    requires Enabled(s, step)
  {
    match step
    case TakeLock(tx, tenantId) =>
      s.(locks := s.locks[AdvisoryLockKey(tenantId) := tx], phases := s.phases[tx := Locked(tenantId)])
    case ReadLast(tx) =>
      var tenantId := PhaseOf(s, tx).tenantId;
      s.(phases := s.phases[tx := HasRead(tenantId, LastVisible(s, tx, tenantId))])
    case Append(tx, content) =>
      var HasRead(tenantId, previous) := PhaseOf(s, tx);
      s.(rows := s.rows + [Row(Recorded(h, s.nextId, tenantId, content, previous), tx, false)],
         nextId := s.nextId + 1,
         phases := s.phases[tx := Idle])
    case Commit(tx) => s.(rows := CommittedBy(s.rows, tx), locks := Unlocked(s.locks, tx))
    case Rollback(tx) =>
      s.(rows := Without(s.rows, tx), locks := Unlocked(s.locks, tx), phases := s.phases[tx := Idle])
  }

  // ---- the invariant ----

  predicate HoldsLock(s: State, tx: TxId, tenantId: Uuid) {
    AdvisoryLockKey(tenantId) in s.locks && s.locks[AdvisoryLockKey(tenantId)] == tx
  }

  /** Uncommitted rows come after committed ones and belong to the lock holder. */
  predicate PendingLast(rows: seq<Row>) {
    forall i, j :: 0 <= i < j < |rows| && !rows[i].committed ==> !rows[j].committed
  }

  predicate TenantInv(h: Digest, s: State, tenantId: Uuid) {
    var rows := RowsOf(s.rows, tenantId);
    && PendingLast(rows)
    && (forall i :: 0 <= i < |rows| && !rows[i].committed ==> HoldsLock(s, rows[i].tx, tenantId))
    && Chained(h, Events(rows))
  }

  predicate PhaseInv(s: State, tx: TxId) {
    match PhaseOf(s, tx)
    case Idle => true
    case Locked(tenantId) => HoldsLock(s, tx, tenantId)
    case HasRead(tenantId, previous) =>
      HoldsLock(s, tx, tenantId) && previous == Head(Events(RowsOf(s.rows, tenantId)))
  }

  predicate IdsAscend(s: State) {
    && (forall i, j :: 0 <= i < j < |s.rows| ==> s.rows[i].event.id < s.rows[j].event.id)
    && (forall i :: 0 <= i < |s.rows| ==> s.rows[i].event.id < s.nextId)
  }

  ghost predicate Inv(h: Digest, s: State) {
    && IdsAscend(s)
    && (forall tenantId: Uuid :: TenantInv(h, s, tenantId))
    && (forall tx: TxId :: PhaseInv(s, tx))
  }

  // ---- filters ----

  lemma {:induction false} RowsOfAppend(rows: seq<Row>, r: Row, tenantId: Uuid)
    ensures RowsOf(rows + [r], tenantId) == RowsOf(rows, tenantId) + if r.event.tenantId == tenantId then [r] else []
  {
    if rows != [] {
      assert (rows + [r])[1..] == rows[1..] + [r];
      RowsOfAppend(rows[1..], r, tenantId);
    }
  }

  lemma {:induction false} RowsOfCommitted(rows: seq<Row>, tx: TxId, tenantId: Uuid)
    ensures RowsOf(CommittedBy(rows, tx), tenantId) == CommittedBy(RowsOf(rows, tenantId), tx)
  {
    if rows != [] {
      assert CommittedBy(rows, tx)[1..] == CommittedBy(rows[1..], tx);
      RowsOfCommitted(rows[1..], tx, tenantId);
    }
  }

  lemma {:induction false} RowsOfWithout(rows: seq<Row>, tx: TxId, tenantId: Uuid)
    ensures RowsOf(Without(rows, tx), tenantId) == Without(RowsOf(rows, tenantId), tx)
  {
    if rows != [] {
      RowsOfWithout(rows[1..], tx, tenantId);
      assert ([rows[0]] + RowsOf(rows[1..], tenantId))[1..] == RowsOf(rows[1..], tenantId);
      assert ([rows[0]] + Without(rows[1..], tx))[1..] == Without(rows[1..], tx);
    }
  }

  lemma {:induction false} RowsOfTenant(rows: seq<Row>, tenantId: Uuid)
    ensures forall i :: 0 <= i < |RowsOf(rows, tenantId)| ==>
              RowsOf(rows, tenantId)[i] in rows && RowsOf(rows, tenantId)[i].event.tenantId == tenantId
  {
    if rows != [] {
      RowsOfTenant(rows[1..], tenantId);
    }
  }

  lemma {:induction false} VisibleToAll(rows: seq<Row>, tx: TxId)
    requires forall i :: 0 <= i < |rows| ==> Visible(rows[i], tx)
    ensures VisibleTo(rows, tx) == rows
  {
    if rows != [] {
      VisibleToAll(rows[1..], tx);
    }
  }

  lemma {:induction false} WithoutAll(rows: seq<Row>, tx: TxId)
    requires forall i :: 0 <= i < |rows| ==> rows[i].tx == tx && !rows[i].committed
    ensures Without(rows, tx) == []
  {
    if rows != [] {
      WithoutAll(rows[1..], tx);
    }
  }

  /** With the pending rows last and all of one transaction, rolling one back keeps a prefix. */
  lemma {:induction false} WithoutIsPrefix(rows: seq<Row>, tx: TxId) returns (n: nat)
    requires PendingLast(rows)
    requires forall i, j :: 0 <= i < j < |rows| && !rows[i].committed ==> rows[i].tx == rows[j].tx
    ensures n <= |rows| && Without(rows, tx) == rows[..n]
    ensures forall i :: n <= i < |rows| ==> !rows[i].committed && rows[i].tx == tx
    ensures forall i :: 0 <= i < n ==> rows[i].committed || rows[i].tx != tx
  {
    if rows == [] {
      n := 0;
    } else if rows[0].tx == tx && !rows[0].committed {
      WithoutAll(rows, tx);
      n := 0;
    } else {
      var m := WithoutIsPrefix(rows[1..], tx);
      n := m + 1;
    }
  }

  lemma {:induction false} CommittedNone(rows: seq<Row>)
    requires forall i :: 0 <= i < |rows| ==> !rows[i].committed
    ensures Committed(rows) == []
  {
    if rows != [] {
      CommittedNone(rows[1..]);
    }
  }

  lemma {:induction false} CommittedIsPrefix(rows: seq<Row>) returns (n: nat)
    requires PendingLast(rows)
    ensures n <= |rows| && Committed(rows) == rows[..n]
  {
    if rows == [] {
      n := 0;
    } else if rows[0].committed {
      var m := CommittedIsPrefix(rows[1..]);
      n := m + 1;
    } else {
      CommittedNone(rows);
      n := 0;
    }
  }

  // ---- every step keeps the invariant ----

  lemma StartInv(h: Digest)
    ensures Inv(h, START)
  {
  }

  /** Two transactions never hold the lock of one tenant. */
  lemma OneHolder(h: Digest, s: State, tenantId: Uuid)
    requires TenantInv(h, s, tenantId)
    ensures var rows := RowsOf(s.rows, tenantId);
            forall i, j :: 0 <= i < j < |rows| && !rows[i].committed ==> rows[i].tx == rows[j].tx
  {
  }

  lemma TakeLockKeepsInv(h: Digest, s: State, tx: TxId, tenantId: Uuid)
    requires Inv(h, s) && Enabled(s, TakeLock(tx, tenantId))
    ensures Inv(h, Next(h, s, TakeLock(tx, tenantId)))
  {
    var t := Next(h, s, TakeLock(tx, tenantId));
    forall u: Uuid ensures TenantInv(h, t, u) {
      assert TenantInv(h, s, u);
    }
    forall x: TxId ensures PhaseInv(t, x) {
      assert PhaseInv(s, x);
    }
  }

  lemma ReadLastKeepsInv(h: Digest, s: State, tx: TxId)
    requires Inv(h, s) && Enabled(s, ReadLast(tx))
    ensures Inv(h, Next(h, s, ReadLast(tx)))
  {
    var t := Next(h, s, ReadLast(tx));
    var tenantId := PhaseOf(s, tx).tenantId;
    assert PhaseInv(s, tx);
    assert TenantInv(h, s, tenantId);
    VisibleToAll(RowsOf(s.rows, tenantId), tx);
    forall u: Uuid ensures TenantInv(h, t, u) {
      assert TenantInv(h, s, u);
    }
    forall x: TxId ensures PhaseInv(t, x) {
      assert PhaseInv(s, x);
    }
  }

  lemma AppendKeepsInv(h: Digest, s: State, tx: TxId, content: Content)
    requires Inv(h, s) && Enabled(s, Append(tx, content))
    ensures Inv(h, Next(h, s, Append(tx, content)))
  {
    var t := Next(h, s, Append(tx, content));
    var HasRead(tenantId, previous) := PhaseOf(s, tx);
    var added := t.rows[|s.rows|];
    assert PhaseInv(s, tx);
    forall u: Uuid ensures TenantInv(h, t, u) {
      assert TenantInv(h, s, u);
      RowsOfAppend(s.rows, added, u);
      if u == tenantId {
        var rows := RowsOf(s.rows, u);
        RecordingKeepsChain(h, Events(rows), s.nextId, tenantId, content);
        assert added.event == Recorded(h, s.nextId, tenantId, content, Head(Events(rows)));
        assert Events(rows + [added]) == Events(rows) + [added.event];
      } else {
        assert RowsOf(t.rows, u) == RowsOf(s.rows, u);
      }
    }
    forall x: TxId ensures PhaseInv(t, x) {
      assert PhaseInv(s, x);
      if x != tx && PhaseOf(s, x).HasRead? {
        RowsOfAppend(s.rows, added, PhaseOf(s, x).tenantId);
      }
    }
  }

  lemma CommitKeepsInv(h: Digest, s: State, tx: TxId)
    requires Inv(h, s) && Enabled(s, Commit(tx))
    ensures Inv(h, Next(h, s, Commit(tx)))
  {
    var t := Next(h, s, Commit(tx));
    forall u: Uuid ensures TenantInv(h, t, u) {
      assert TenantInv(h, s, u);
      OneHolder(h, s, u);
      RowsOfCommitted(s.rows, tx, u);
      assert Events(RowsOf(t.rows, u)) == Events(RowsOf(s.rows, u));
    }
    forall x: TxId ensures PhaseInv(t, x) {
      assert PhaseInv(s, x);
      if PhaseOf(s, x).HasRead? {
        RowsOfCommitted(s.rows, tx, PhaseOf(s, x).tenantId);
        assert Events(RowsOf(t.rows, PhaseOf(s, x).tenantId)) == Events(RowsOf(s.rows, PhaseOf(s, x).tenantId));
      }
    }
  }

  lemma RollbackTenant(h: Digest, s: State, tx: TxId, tenantId: Uuid)
    requires TenantInv(h, s, tenantId)
    ensures TenantInv(h, Next(h, s, Rollback(tx)), tenantId)
    ensures (forall y :: HoldsLock(s, y, tenantId) ==> y != tx) ==>
              RowsOf(Without(s.rows, tx), tenantId) == RowsOf(s.rows, tenantId)
  {
    OneHolder(h, s, tenantId);
    var rows := RowsOf(s.rows, tenantId);
    RowsOfWithout(s.rows, tx, tenantId);
    var n := WithoutIsPrefix(rows, tx);
    PrefixChained(h, rows, n);
    if n < |rows| {
      assert HoldsLock(s, rows[n].tx, tenantId) && rows[n].tx == tx;
    } else {
      assert rows[..n] == rows;
    }
  }

  lemma PrefixChained(h: Digest, rows: seq<Row>, n: nat)
    requires n <= |rows| && Chained(h, Events(rows))
    ensures Chained(h, Events(rows[..n]))
  {
    TruncationIsNotDetected(h, Events(rows), n);
    assert Events(rows[..n]) == Events(rows)[..n];
  }

  lemma {:induction false} WithoutAscends(rows: seq<Row>, tx: TxId)
    requires forall i, j :: 0 <= i < j < |rows| ==> rows[i].event.id < rows[j].event.id
    ensures forall i, j :: 0 <= i < j < |Without(rows, tx)| ==> Without(rows, tx)[i].event.id < Without(rows, tx)[j].event.id
    ensures forall i :: 0 <= i < |Without(rows, tx)| ==> Without(rows, tx)[i] in rows
  {
    if rows != [] {
      WithoutAscends(rows[1..], tx);
    }
  }

  lemma RollbackKeepsInv(h: Digest, s: State, tx: TxId)
    requires Inv(h, s)
    ensures Inv(h, Next(h, s, Rollback(tx)))
  {
    var t := Next(h, s, Rollback(tx));
    WithoutAscends(s.rows, tx);
    forall u: Uuid ensures TenantInv(h, t, u) {
      assert TenantInv(h, s, u);
      RollbackTenant(h, s, tx, u);
    }
    forall x: TxId ensures PhaseInv(t, x) {
      assert PhaseInv(s, x);
      if x != tx && PhaseOf(s, x).HasRead? {
        var u := PhaseOf(s, x).tenantId;
        assert TenantInv(h, s, u);
        RollbackTenant(h, s, tx, u);
      }
    }
  }

  // ---- every interleaving ----

  predicate Runs(h: Digest, s: State, steps: seq<Step>)
    decreases |steps|
  {
    steps != [] ==> Enabled(s, steps[0]) && Runs(h, Next(h, s, steps[0]), steps[1..])
  }

  function RunAll(h: Digest, s: State, steps: seq<Step>): State
    requires Runs(h, s, steps)
    decreases |steps|
  {
    if steps == [] then s else RunAll(h, Next(h, s, steps[0]), steps[1..])
  }

  lemma {:induction false} RunKeepsInv(h: Digest, s: State, steps: seq<Step>)
    requires Inv(h, s) && Runs(h, s, steps)
    ensures Inv(h, RunAll(h, s, steps))
    decreases |steps|
  {
    if steps != [] {
      match steps[0] {
        case TakeLock(tx, tenantId) => TakeLockKeepsInv(h, s, tx, tenantId);
        case ReadLast(tx) => ReadLastKeepsInv(h, s, tx);
        case Append(tx, content) => AppendKeepsInv(h, s, tx, content);
        case Commit(tx) => CommitKeepsInv(h, s, tx);
        case Rollback(tx) => RollbackKeepsInv(h, s, tx);
      }
      RunKeepsInv(h, Next(h, s, steps[0]), steps[1..]);
    }
  }

  /**
   Whatever the interleaving of transactions over whatever tenants, shared lock keys included,
   the committed events of every tenant in id order verify at every moment.
   */
  lemma CommittedChainsAlwaysVerify(h: Digest, steps: seq<Step>, tenantId: Uuid)
    requires Runs(h, START, steps)
    ensures var rows := RunAll(h, START, steps).rows;
            && Chained(h, Events(Committed(RowsOf(rows, tenantId))))
            && (forall i, j :: 0 <= i < j < |rows| ==> rows[i].event.id < rows[j].event.id)
  {
    StartInv(h);
    RunKeepsInv(h, START, steps);
    var s := RunAll(h, START, steps);
    assert TenantInv(h, s, tenantId);
    var rows := RowsOf(s.rows, tenantId);
    var n := CommittedIsPrefix(rows);
    PrefixChained(h, rows, n);
  }

  // ---- what a transaction stores ----

  /**
   A transaction that can take the lock can record and commit. The event it stores is the last
   one, with the tenant and the content it was given and the next id, after the last event of
   the tenant that it saw; what others stored stays as it was.
   */
  lemma RecordingIsStored(h: Digest, s: State, tx: TxId, tenantId: Uuid, content: Content)
    requires Inv(h, s) && Enabled(s, TakeLock(tx, tenantId))
    ensures var s1 := Next(h, s, TakeLock(tx, tenantId));
            && Enabled(s1, ReadLast(tx))
            && var s2 := Next(h, s1, ReadLast(tx));
               && Enabled(s2, Append(tx, content))
               && var s3 := Next(h, s2, Append(tx, content));
                  && Enabled(s3, Commit(tx))
                  && var s4, n := Next(h, s3, Commit(tx)), |s.rows|;
                     && |s4.rows| == n + 1
                     && (forall i :: 0 <= i < n ==> s4.rows[i].event == s.rows[i].event)
                     && (forall i :: 0 <= i < n && s.rows[i].tx != tx ==> s4.rows[i] == s.rows[i])
                     && (forall i :: 0 <= i <= n && s4.rows[i].tx == tx ==> s4.rows[i].committed)
                     && s4.rows[n].tx == tx && s4.rows[n].event.id == s.nextId
                     && s4.rows[n].event.tenantId == tenantId && s4.rows[n].event.content == content
                     && s4.rows[n].event.prevHash == Head(Events(RowsOf(s.rows, tenantId)))
                     && (forall k :: k in s4.locks ==> s4.locks[k] != tx)
  {
    TakeLockKeepsInv(h, s, tx, tenantId);
    var s1 := Next(h, s, TakeLock(tx, tenantId));
    ReadLastKeepsInv(h, s1, tx);
    var s2 := Next(h, s1, ReadLast(tx));
    assert PhaseInv(s2, tx);
  }

  /** A rollback removes what the transaction had not committed and nothing else. */
  lemma {:induction false} RollbackRemovesOwn(rows: seq<Row>, tx: TxId)
    ensures forall r :: r in Without(rows, tx) <==> r in rows && (r.committed || r.tx != tx)
  {
    if rows != [] {
      RollbackRemovesOwn(rows[1..], tx);
      assert rows == [rows[0]] + rows[1..];
    }
  }
}
