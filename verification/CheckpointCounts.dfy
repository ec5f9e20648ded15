/**
 What the batch checkpoint counts: a batch's columns over every run, and, read off the reports alone, when
 a completion moves the cursor.
 */
module CheckpointCounts {
  import opened Wrappers
  import opened LegacyCheckpoint

  /** How many emails of the batch were reported with this outcome. */
  function Marks(steps: seq<Step>, b: BatchId, succeeded: bool): nat {
    if steps == [] then 0
    else
      var n := |steps| - 1;
      Marks(steps[..n], b, succeeded) + if steps[n] == MarkEmail(b, succeeded) then 1 else 0
  }

  /** The total last set for the batch. */
  function LastTotal(steps: seq<Step>, b: BatchId): Option<nat> {
    if steps == [] then None
    else
      var n := |steps| - 1;
      if steps[n].SetTotal? && steps[n].batchId == b then Some(steps[n].totalEmails) else LastTotal(steps[..n], b)
  }

  /** No report or total reaches a batch before it starts. */
  lemma {:induction false} UnknownIsUnreported(s: Store, steps: seq<Step>, b: BatchId)
    requires ValidRun(s, steps) && b !in Exec(s, steps).batches
    ensures Marks(steps, b, true) == 0 && Marks(steps, b, false) == 0 && LastTotal(steps, b) == None
  {
    if steps != [] {
      var n := |steps| - 1;
      BatchesKeep(Exec(s, steps[..n]), steps[n], b);
      UnknownIsUnreported(s, steps[..n], b);
    }
  }

  lemma CountsMove(s: Store, step: Step, b: BatchId)
    requires Enabled(s, step) && b in s.batches
    ensures var row, row' := s.batches[b], Apply(s, step).batches[b];
            && row'.processedCount == row.processedCount + (if step == MarkEmail(b, true) then 1 else 0)
            && row'.failedCount == row.failedCount + (if step == MarkEmail(b, false) then 1 else 0)
            && row'.totalEmails == if step.SetTotal? && step.batchId == b then Some(step.totalEmails) else row.totalEmails
  {
  }

  /** Over every run, a batch's counters are its reports and its total is the last one set. */
  lemma {:induction false} BatchCountsMarks(checkpoints: map<UserId, Checkpoint>, steps: seq<Step>, b: BatchId)
    requires ValidRun(Store(checkpoints, map[]), steps) && b in Exec(Store(checkpoints, map[]), steps).batches
    ensures var row := Exec(Store(checkpoints, map[]), steps).batches[b];
            && row.processedCount == Marks(steps, b, true)
            && row.failedCount == Marks(steps, b, false)
            && row.totalEmails == LastTotal(steps, b)
  {
    if steps != [] {
      var n := |steps| - 1;
      var before := Exec(Store(checkpoints, map[]), steps[..n]);
      BatchesKeep(before, steps[n], b);
      if b in before.batches {
        BatchCountsMarks(checkpoints, steps[..n], b);
        CountsMove(before, steps[n], b);
      } else {
        UnknownIsUnreported(Store(checkpoints, map[]), steps[..n], b);
      }
    }
  }

  // ----- Completion -----

  /** Every email of the batch, as far as a total says, was reported, and none failed. */
  predicate AllSucceeded(steps: seq<Step>, b: BatchId) {
    && Marks(steps, b, false) == 0
    && (LastTotal(steps, b).Some? ==> Marks(steps, b, true) >= LastTotal(steps, b).value)
  }

  /** Every email was reported, but some failed. */
  predicate SomeFailed(steps: seq<Step>, b: BatchId) {
    && Marks(steps, b, false) > 0
    && (LastTotal(steps, b).Some? ==> Marks(steps, b, true) + Marks(steps, b, false) >= LastTotal(steps, b).value)
  }

  /**
   After any run, completing a batch moves its user's cursor to the pending id if and only if all its emails
   succeeded; fails batch and checkpoint, cursor and pending id untouched, if all were reported and some
   failed; and changes nothing while reports are missing.
   */
  lemma CompletionOutcome(checkpoints: map<UserId, Checkpoint>, steps: seq<Step>, b: BatchId)
    requires ValidRun(Store(checkpoints, map[]), steps) && Enabled(Exec(Store(checkpoints, map[]), steps), CompleteBatch(b))
    ensures var s := Exec(Store(checkpoints, map[]), steps);
            var s' := Apply(s, CompleteBatch(b));
            var u := s.batches[b].userId;
            var c, c' := s.checkpoints[u], s'.checkpoints[u];
            && (AllSucceeded(steps, b) ==>
                  && c'.currentHistoryId == c.pendingHistoryId && c'.pendingHistoryId == None && c'.status == Idle
                  && s'.batches[b].status == Completed)
            && (SomeFailed(steps, b) ==>
                  && c'.currentHistoryId == c.currentHistoryId && c'.pendingHistoryId == c.pendingHistoryId
                  && c'.status == CheckpointFailed && s'.batches[b].status == Failed)
            && (!AllSucceeded(steps, b) && !SomeFailed(steps, b) ==> s' == s)
            && (Succeeds(s, CompleteBatch(b)) <==> AllSucceeded(steps, b))
  {
    BatchCountsMarks(checkpoints, steps, b);
  }

  /** A step changes a user's cursor only by completing a batch of the user whose counters are complete and clean. */
  lemma CursorChangesOnlyBy(s: Store, step: Step, u: UserId)
    requires Enabled(s, step) && Cursor(Apply(s, step), u) != Cursor(s, u)
    ensures step.CompleteBatch? && step.batchId in s.batches
    ensures var row := s.batches[step.batchId];
            && row.userId == u && row.failedCount == 0
            && (row.totalEmails.Some? ==> row.processedCount >= row.totalEmails.value)
  {
  }

  /** Whenever a run moves a cursor, the batch it completes had no failed report and as many successful ones as its total. */
  lemma MovedCursorIsComplete(checkpoints: map<UserId, Checkpoint>, steps: seq<Step>, step: Step, u: UserId)
    requires ValidRun(Store(checkpoints, map[]), steps) && Enabled(Exec(Store(checkpoints, map[]), steps), step)
    requires var s := Exec(Store(checkpoints, map[]), steps); Cursor(Apply(s, step), u) != Cursor(s, u)
    ensures step.CompleteBatch? && AllSucceeded(steps, step.batchId)
    ensures Exec(Store(checkpoints, map[]), steps).batches[step.batchId].userId == u
  {
    CursorChangesOnlyBy(Exec(Store(checkpoints, map[]), steps), step, u);
    BatchCountsMarks(checkpoints, steps, step.batchId);
  }

  // ----- The other steps -----

  /** A start makes its history id pending, keeps the cursor, and leaves other users and batches alone. */
  lemma StartMakesPending(s: Store, u: UserId, h: string, b: BatchId, v: UserId)
    requires b !in s.batches
    ensures var s' := Apply(s, StartBatch(u, h, b));
            && u in s'.checkpoints && s'.checkpoints[u].pendingHistoryId == Some(h) && s'.checkpoints[u].status == Syncing
            && Cursor(s', u) == Cursor(s, u)
            && s'.batches == s.batches[b := Batch(u, h, None, 0, 0, Pending)]
            && (v != u && v in s.checkpoints ==> v in s'.checkpoints && s'.checkpoints[v] == s.checkpoints[v])
  {
  }

  /** A report raises its own counter and sets the batch processing; a total is only noted. */
  lemma ReportsOnlyCount(s: Store, b: BatchId, succeeded: bool, n: nat)
    requires b in s.batches
    ensures var row := s.batches[b];
            && Apply(s, MarkEmail(b, succeeded))
               == Store(s.checkpoints,
                        s.batches[b := if succeeded then row.(processedCount := row.processedCount + 1, status := Processing)
                                       else row.(failedCount := row.failedCount + 1, status := Processing)])
            && Apply(s, SetTotal(b, n)) == Store(s.checkpoints, s.batches[b := row.(totalEmails := Some(n))])
  {
  }

  /** A failed batch marks itself and the checkpoint failed and keeps everything else, the pending id included. */
  lemma FailureKeepsProgress(s: Store, b: BatchId)
    requires Enabled(s, FailBatch(b))
    ensures var s', u := Apply(s, FailBatch(b)), s.batches[b].userId;
            && s'.batches == s.batches[b := s.batches[b].(status := Failed)]
            && s'.checkpoints == s.checkpoints[u := s.checkpoints[u].(status := CheckpointFailed)]
  {
  }
}
