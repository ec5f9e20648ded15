/** The durable checkpoint service: each method performs the steps of the lease model in place. */
module LeaseService {
  import opened Wrappers
  import opened LeaseModel

  datatype SyncError = LockedBy(owner: Option<WorkerId>) | BatchNotFound | CheckpointNotFound | ConcurrentModification

  class DurableCheckpointService {
    var now: int
    var rows: map<UserId, Checkpoint>
    var batches: map<BatchId, Batch>
    ghost var held: map<(UserId, WorkerId), int>

    ghost function State(): System
      reads this
    {
      System(now, rows, batches, held)
    }

    constructor ()
      ensures State() == Initial()
    {
      now, rows, batches, held := 0, map[], map[], map[];
    }

    method ClaimCheckpoint(userId: UserId, workerId: WorkerId) returns (claimed: bool)
      ensures claimed <==> Claims(RowOf(State(), userId), now, workerId)
    {
      if userId !in rows {
        return true;
      }
      var row := rows[userId];
      var isStale := row.leaseExpiresAt.Some? && row.leaseExpiresAt.value < now;
      if row.status == Syncing && !isStale {
        return row.leaseOwner == Some(workerId);
      }
      return true;
    }

    method InitializeSyncOp(userId: UserId, historyId: string, workerId: WorkerId, pageToken: Option<string>, newBatch: BatchId)
      returns (r: Result<BatchId, SyncError>)
      requires newBatch !in batches
      modifies this
      ensures State() == Apply(old(State()), Initialize(userId, workerId, historyId, pageToken, newBatch))
      ensures r == if Claims(RowOf(old(State()), userId), old(now), workerId) then Ok(newBatch)
                   else Err(LockedBy(old(rows)[userId].leaseOwner))
    {
      var claimed := ClaimCheckpoint(userId, workerId);
      if !claimed {
        return Err(LockedBy(rows[userId].leaseOwner));
      }
      batches := batches[newBatch := Batch(userId, historyId, Pending, 0)];
      var expires := Some(now + LEASE_MS);
      if userId in rows {
        var row := rows[userId];
        rows := rows[userId := row.(pendingHistoryId := Some(historyId), pageToken := pageToken,
                     version := row.version + 1, status := Syncing,
                     leaseOwner := Some(workerId), leaseExpiresAt := expires)];
      } else {
        rows := rows[userId := Checkpoint(None, Some(historyId), pageToken, 1, Syncing, Some(workerId), expires, None)];
      }
      held := held[(userId, workerId) := now + LEASE_MS];
      return Ok(newBatch);
    }

    /** The read half of `advanceCheckpoint`. */
    method ReadForAdvance(batchId: BatchId) returns (r: Result<ReadContext, SyncError>)
      ensures r == if batchId !in batches then Err(BatchNotFound)
                   else if ReadFor(State(), batchId) == None then Err(CheckpointNotFound)
                   else Ok(ReadFor(State(), batchId).value)
    {
      if batchId !in batches {
        return Err(BatchNotFound);
      }
      var batch := batches[batchId];
      if batch.userId !in rows {
        return Err(CheckpointNotFound);
      }
      var row := rows[batch.userId];
      return Ok(ReadContext(batchId, batch.userId, row.version, row.leaseOwner, batch.failedCount));
    }

    /** The conditional write half of `advanceCheckpoint`; `writer` is whoever calls it. */
    method WriteAdvance(ghost writer: WorkerId, context: ReadContext, newHistoryId: string, nextPageToken: Option<string>)
      returns (r: Result<nat, SyncError>)
      requires context.batchId in batches
      modifies this
      ensures State() == Apply(old(State()), Advance(writer, context, newHistoryId, nextPageToken))
      ensures r == if Commits(old(State()), Advance(writer, context, newHistoryId, nextPageToken), context.userId)
                   then Ok(context.version + 1) else Err(ConcurrentModification)
    {
      var u := context.userId;
      if u !in rows || rows[u].version != context.version {
        return Err(ConcurrentModification);
      }
      var more := nextPageToken.Some?;
      rows := rows[u := Checkpoint(Some(newHistoryId), if more then Some(newHistoryId) else None, nextPageToken,
                                   rows[u].version + 1, if more then Syncing else Idle,
                                   if more then context.leaseOwner else None,
                                   if more then Some(now + LEASE_MS) else None, None)];
      batches := batches[context.batchId := batches[context.batchId].(
      status := if context.failedCount > 0 then CompletedWithFailures else Completed)];
      held := if more then held[(u, writer) := now + LEASE_MS] else held - {(u, writer)};
      return Ok(context.version + 1);
    }

    method RefreshLease(userId: UserId, workerId: WorkerId) returns (refreshed: bool)
      modifies this
      ensures State() == Apply(old(State()), Refresh(userId, workerId))
      ensures refreshed <==> userId in old(rows) && old(rows)[userId].leaseOwner == Some(workerId)
                             && old(rows)[userId].status == Syncing
    {
      refreshed := userId in rows && rows[userId].leaseOwner == Some(workerId) && rows[userId].status == Syncing;
      if refreshed {
        rows := rows[userId := rows[userId].(leaseExpiresAt := Some(now + LEASE_MS))];
        held := held[(userId, workerId) := now + LEASE_MS];
      }
    }

    method ReleaseLease(userId: UserId, workerId: WorkerId)
      modifies this
      ensures State() == Apply(old(State()), Release(userId, workerId))
    {
      if userId in rows && rows[userId].leaseOwner == Some(workerId) {
        rows := rows[userId := rows[userId].(leaseOwner := None, leaseExpiresAt := None)];
      }
      held := held - {(userId, workerId)};
    }

    /** Idles every syncing row whose lease has run out, and counts them. */
    method RecoverStaleLeases() returns (count: nat)
      modifies this
      ensures State() == Apply(old(State()), Recover)
      ensures count == |set u | u in old(rows) && old(rows)[u].status == Syncing && Stale(old(rows)[u], now)|
    {
      var stale := set u | u in rows && rows[u].status == Syncing && Stale(rows[u], now);
      count := |stale|;
      var todo := stale;
      ghost var before := rows;
      while todo != {}
        invariant todo <= stale && rows.Keys == before.Keys
        invariant now == old(now) && batches == old(batches) && held == old(held)
        invariant forall u :: u in before && (u !in stale || u in todo) ==> rows[u] == before[u]
        invariant forall u :: u in stale && u !in todo ==> rows[u] == RecoveredRows(before, now)[u]
        decreases todo
      {
        var u :| u in todo;
        rows := rows[u := rows[u].(status := Idle, leaseOwner := None, leaseExpiresAt := None,
                     lastError := Some("Stale lease recovered"))];
        todo := todo - {u};
      }
      assert rows == RecoveredRows(before, now);
    }

    method CompareAndSetVersion(userId: UserId, expectedVersion: nat, data: Checkpoint) returns (updated: bool)
      modifies this
      ensures State() == Apply(old(State()), CompareAndSet(userId, expectedVersion, data))
      ensures updated <==> Commits(old(State()), CompareAndSet(userId, expectedVersion, data), userId)
    {
      updated := userId in rows && rows[userId].version == expectedVersion;
      if updated {
        rows := rows[userId := data.(version := rows[userId].version + 1)];
      }
    }
  }
}
