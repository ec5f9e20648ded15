/**
 Durable Gmail checkpoints: one row per user with a lease, an optimistic version and a history cursor.

 Every operation is one step.  `advanceCheckpoint` reads the row and later writes it conditionally, so
 its step carries what was read; the writer is fenced by the version alone.  `held` records what each
 worker believes: the expiry of the last lease granted to it and not given back.
 */
module LeaseModel {
  import opened Wrappers

  type UserId = string
  type WorkerId = string
  type BatchId = string

  const LEASE_MS := 5 * 60 * 1000

  datatype Status = Idle | Syncing | Failed

  datatype Checkpoint = Checkpoint(currentHistoryId: Option<string>, pendingHistoryId: Option<string>,
                                   pageToken: Option<string>, version: nat, status: Status,
                                   leaseOwner: Option<WorkerId>, leaseExpiresAt: Option<int>,
                                   lastError: Option<string>)

  datatype BatchStatus = Pending | Processing | Completed | CompletedWithFailures

  datatype Batch = Batch(userId: UserId, historyId: string, status: BatchStatus, failedCount: nat)

  datatype System = System(now: int, rows: map<UserId, Checkpoint>, batches: map<BatchId, Batch>,
                           held: map<(UserId, WorkerId), int>)

  function Initial(): System {
    System(0, map[], map[], map[])
  }

  /** What the read half of `advanceCheckpoint` carries to its write half. */
  datatype ReadContext = ReadContext(batchId: BatchId, userId: UserId, version: nat,
                                     leaseOwner: Option<WorkerId>, failedCount: nat)

  function ReadFor(s: System, batchId: BatchId): Option<ReadContext> {
    if batchId !in s.batches || s.batches[batchId].userId !in s.rows then None
    else
      var b := s.batches[batchId];
      var row := s.rows[b.userId];
      Some(ReadContext(batchId, b.userId, row.version, row.leaseOwner, b.failedCount))
  }

  datatype Step =
    | Initialize(userId: UserId, worker: WorkerId, historyId: string, pageToken: Option<string>, newBatch: BatchId)
    | Advance(writer: WorkerId, context: ReadContext, newHistoryId: string, nextPageToken: Option<string>)
    | Refresh(userId: UserId, worker: WorkerId)
    | Release(userId: UserId, worker: WorkerId)
    | Recover
    | CompareAndSet(userId: UserId, expected: nat, data: Checkpoint)
    | Tick(to: int)

  predicate Stale(row: Checkpoint, now: int) {
    row.leaseExpiresAt.Some? && row.leaseExpiresAt.value < now
  }

  /** Whether `claimCheckpoint` grants the lease. */
  predicate Claims(row: Option<Checkpoint>, now: int, worker: WorkerId) {
    row == None
    || row.value.status != Syncing
    || Stale(row.value, now)
    || row.value.leaseOwner == Some(worker)
  }

  function RowOf(s: System, u: UserId): Option<Checkpoint> {
    if u in s.rows then Some(s.rows[u]) else None
  }

  predicate Enabled(s: System, step: Step) {
    match step
    case Initialize(_, _, _, _, newBatch) => newBatch !in s.batches
    case Advance(_, context, _, _) => context.batchId in s.batches
    case Tick(to) => s.now <= to
    case _ => true
  }

  /** A versioned write to the user's row that takes effect. */
  predicate Commits(s: System, step: Step, u: UserId) {
    match step
    case Initialize(x, w, _, _, _) => x == u && Claims(RowOf(s, x), s.now, w)
    case Advance(_, context, _, _) => context.userId == u && u in s.rows && s.rows[u].version == context.version
    case CompareAndSet(x, expected, _) => x == u && u in s.rows && s.rows[u].version == expected
    case _ => false
  }

  function InitializedRow(prior: Option<Checkpoint>, now: int, worker: WorkerId, historyId: string, pageToken: Option<string>): Checkpoint {
    Checkpoint(if prior == None then None else prior.value.currentHistoryId, Some(historyId), pageToken,
               if prior == None then 1 else prior.value.version + 1,
               Syncing, Some(worker), Some(now + LEASE_MS),
               if prior == None then None else prior.value.lastError)
  }

  function AdvancedRow(row: Checkpoint, now: int, context: ReadContext, newHistoryId: string, next: Option<string>): Checkpoint {
    Checkpoint(Some(newHistoryId), if next.Some? then Some(newHistoryId) else None, next, row.version + 1,
               if next.Some? then Syncing else Idle,
               if next.Some? then context.leaseOwner else None,
               if next.Some? then Some(now + LEASE_MS) else None,
               None)
  }

  function RecoveredRows(rows: map<UserId, Checkpoint>, now: int): map<UserId, Checkpoint> {
    map u | u in rows ::
      if rows[u].status == Syncing && Stale(rows[u], now)
      then rows[u].(status := Idle, leaseOwner := None, leaseExpiresAt := None, lastError := Some("Stale lease recovered"))
      else rows[u]
  }

  function ClosedBatch(b: Batch, failedCount: nat): Batch {
    b.(status := if failedCount > 0 then CompletedWithFailures else Completed)
  }

  /** A refused or fenced operation throws and its transaction leaves everything as it was. */
  function Apply(s: System, step: Step): System
    requires Enabled(s, step)
  {
    match step
    case Initialize(u, w, historyId, pageToken, newBatch) =>
      if !Commits(s, step, u) then s
      else s.(rows := s.rows[u := InitializedRow(RowOf(s, u), s.now, w, historyId, pageToken)],
           batches := s.batches[newBatch := Batch(u, historyId, Pending, 0)],
           held := s.held[(u, w) := s.now + LEASE_MS])
    case Advance(writer, context, newHistoryId, next) =>
      var u := context.userId;
      if !Commits(s, step, u) then s
      else s.(rows := s.rows[u := AdvancedRow(s.rows[u], s.now, context, newHistoryId, next)],
           batches := s.batches[context.batchId := ClosedBatch(s.batches[context.batchId], context.failedCount)],
           held := if next.Some? then s.held[(u, writer) := s.now + LEASE_MS] else s.held - {(u, writer)})
    case Refresh(u, w) =>
      if u in s.rows && s.rows[u].leaseOwner == Some(w) && s.rows[u].status == Syncing
      then s.(rows := s.rows[u := s.rows[u].(leaseExpiresAt := Some(s.now + LEASE_MS))],
           held := s.held[(u, w) := s.now + LEASE_MS])
      else s
    case Release(u, w) =>
      s.(rows := if u in s.rows && s.rows[u].leaseOwner == Some(w)
                 then s.rows[u := s.rows[u].(leaseOwner := None, leaseExpiresAt := None)]
                 else s.rows,
      held := s.held - {(u, w)})
    case Recover =>
      s.(rows := RecoveredRows(s.rows, s.now))
    case CompareAndSet(u, _, data) =>
      if Commits(s, step, u) then s.(rows := s.rows[u := data.(version := s.rows[u].version + 1)]) else s
    case Tick(to) =>
      s.(now := to)
  }

  ghost predicate ValidRun(s: System, steps: seq<Step>)
    decreases steps, 0
  {
    steps == [] ||
    (var n := |steps| - 1; ValidRun(s, steps[..n]) && Enabled(Exec(s, steps[..n]), steps[n]))
  }

  ghost function Exec(s: System, steps: seq<Step>): System
    requires ValidRun(s, steps)
    decreases steps, 1
  {
    if steps == [] then s
    else (var n := |steps| - 1; Apply(Exec(s, steps[..n]), steps[n]))
  }

  lemma Snoc(s: System, steps: seq<Step>, step: Step)
    requires ValidRun(s, steps) && Enabled(Exec(s, steps), step)
    ensures ValidRun(s, steps + [step])
    ensures Exec(s, steps + [step]) == Apply(Exec(s, steps), step)
  {
    assert (steps + [step])[..|steps|] == steps;
  }
}
