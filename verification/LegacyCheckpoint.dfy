/**
 The batch-level Gmail checkpoint: the history cursor moves only when a batch completes with no
 failure and everything processed, and then to that batch's own history id.
 */
module LegacyCheckpoint {
  import opened Wrappers

  type UserId = string
  type BatchId = string

  datatype CheckpointStatus = Idle | Syncing | CheckpointFailed

  datatype Checkpoint = Checkpoint(currentHistoryId: Option<string>, pendingHistoryId: Option<string>,
                                   status: CheckpointStatus)

  datatype BatchStatus = Pending | Processing | Completed | Failed

  datatype Batch = Batch(userId: UserId, historyId: string, totalEmails: Option<nat>,
                         processedCount: nat, failedCount: nat, status: BatchStatus)

  datatype Store = Store(checkpoints: map<UserId, Checkpoint>, batches: map<BatchId, Batch>)

  datatype Step =
    | StartBatch(userId: UserId, historyId: string, newBatch: BatchId)
    | MarkEmail(batchId: BatchId, succeeded: bool)
    | SetTotal(batchId: BatchId, totalEmails: nat)
    | CompleteBatch(batchId: BatchId)
    | FailBatch(batchId: BatchId)

  predicate Enabled(s: Store, step: Step) {
    match step
    case StartBatch(_, _, b) => b !in s.batches
    case MarkEmail(b, _) => b in s.batches
    case SetTotal(b, _) => b in s.batches
    case _ => step.batchId in s.batches && s.batches[step.batchId].userId in s.checkpoints
  }

  predicate AllProcessed(b: Batch) {
    b.processedCount + b.failedCount >= if b.totalEmails.Some? then b.totalEmails.value else 0
  }

  /** The completion that moves the cursor. */
  predicate Succeeds(s: Store, step: Step) {
    step.CompleteBatch? && step.batchId in s.batches
    && AllProcessed(s.batches[step.batchId]) && s.batches[step.batchId].failedCount == 0
  }

  function Apply(s: Store, step: Step): Store
    requires Enabled(s, step)
  {
    match step
    case StartBatch(u, historyId, b) =>
      var current := if u in s.checkpoints then s.checkpoints[u].currentHistoryId else None;
      Store(s.checkpoints[u := Checkpoint(current, Some(historyId), Syncing)],
            s.batches[b := Batch(u, historyId, None, 0, 0, Pending)])
    case MarkEmail(b, succeeded) =>
      var row := s.batches[b];
      s.(batches := s.batches[b := row.(processedCount := row.processedCount + (if succeeded then 1 else 0),
                                   failedCount := row.failedCount + (if succeeded then 0 else 1), status := Processing)])
    case SetTotal(b, n) =>
      s.(batches := s.batches[b := s.batches[b].(totalEmails := Some(n))])
    case CompleteBatch(b) =>
      var row := s.batches[b];
      var c := s.checkpoints[row.userId];
      if !AllProcessed(row) then s
      else if row.failedCount == 0 then
        Store(s.checkpoints[row.userId := Checkpoint(c.pendingHistoryId, None, Idle)],
              s.batches[b := row.(status := Completed)])
      else
        Store(s.checkpoints[row.userId := c.(status := CheckpointFailed)], s.batches[b := row.(status := Failed)])
    case FailBatch(b) =>
      var row := s.batches[b];
      Store(s.checkpoints[row.userId := s.checkpoints[row.userId].(status := CheckpointFailed)],
            s.batches[b := row.(status := Failed)])
  }

  ghost predicate ValidRun(s: Store, steps: seq<Step>)
    decreases steps, 0
  {
    steps == [] ||
    (var n := |steps| - 1; ValidRun(s, steps[..n]) && Enabled(Exec(s, steps[..n]), steps[n]))
  }

  ghost function Exec(s: Store, steps: seq<Step>): Store
    requires ValidRun(s, steps)
    decreases steps, 1
  {
    if steps == [] then s
    else (var n := |steps| - 1; Apply(Exec(s, steps[..n]), steps[n]))
  }

  lemma Snoc(s: Store, steps: seq<Step>, step: Step)
    requires ValidRun(s, steps) && Enabled(Exec(s, steps), step)
    ensures ValidRun(s, steps + [step])
    ensures Exec(s, steps + [step]) == Apply(Exec(s, steps), step)
  {
  }

  // ----- Checkpoint truth -----

  /** The history id of the user's last successful batch. */
  ghost function LastSuccess(s: Store, steps: seq<Step>, u: UserId): Option<string>
    requires ValidRun(s, steps)
  {
    if steps == [] then None
    else
      var n := |steps| - 1;
      var before := Exec(s, steps[..n]);
      if SucceedsFor(before, steps[n], u) then Some(before.batches[steps[n].batchId].historyId)
      else LastSuccess(s, steps[..n], u)
  }

  predicate SucceedsFor(s: Store, step: Step, u: UserId) {
    Succeeds(s, step) && s.batches[step.batchId].userId == u
  }

  function Cursor(s: Store, u: UserId): Option<string> {
    if u in s.checkpoints then s.checkpoints[u].currentHistoryId else None
  }

  /** The cursor is its initial value or the history id of the last successful batch. */
  ghost predicate Truthful(s: Store, steps: seq<Step>, u: UserId)
    requires ValidRun(s, steps)
  {
    Cursor(Exec(s, steps), u) == if LastSuccess(s, steps, u).Some? then LastSuccess(s, steps, u) else Cursor(s, u)
  }

  /** It is so after every prefix of the run. */
  ghost predicate AlwaysTruthful(s: Store, steps: seq<Step>, u: UserId)
    requires ValidRun(s, steps)
  {
    Truthful(s, steps, u) && (steps != [] ==> AlwaysTruthful(s, steps[..|steps| - 1], u))
  }

  /** The history id of the user's last started batch, unless a batch of the user has succeeded since. */
  ghost function Waiting(s: Store, steps: seq<Step>, u: UserId): Option<string>
    requires ValidRun(s, steps)
  {
    if steps == [] then None
    else
      var n := |steps| - 1;
      if steps[n].StartBatch? && steps[n].userId == u then Some(steps[n].historyId)
      else if SucceedsFor(Exec(s, steps[..n]), steps[n], u) then None
      else Waiting(s, steps[..n], u)
  }

  /** Every success of the user finds a waiting batch with the completed batch's own history id. */
  ghost predicate Awaited(s: Store, steps: seq<Step>, u: UserId)
    requires ValidRun(s, steps)
  {
    steps == [] ||
    (var n := |steps| - 1;
     var before := Exec(s, steps[..n]);
     && Awaited(s, steps[..n], u)
     && (SucceedsFor(before, steps[n], u) ==>
           Waiting(s, steps[..n], u) == Some(before.batches[steps[n].batchId].historyId)))
  }

  /** A user with a batch has a checkpoint, and its pending id is the waiting batch's. */
  ghost predicate PendingIs(s: Store, u: UserId, waiting: Option<string>) {
    (exists b :: b in s.batches && s.batches[b].userId == u) ==>
      u in s.checkpoints && s.checkpoints[u].pendingHistoryId == waiting
  }

  /** A step keeps every batch with its user and history id, and only a start adds one. */
  lemma BatchesKeep(s: Store, step: Step, b: BatchId)
    requires Enabled(s, step)
    ensures b in s.batches ==> b in Apply(s, step).batches
                               && Apply(s, step).batches[b].userId == s.batches[b].userId
                               && Apply(s, step).batches[b].historyId == s.batches[b].historyId
    ensures b in Apply(s, step).batches ==> b in s.batches || (step.StartBatch? && step.newBatch == b)
  {
  }

  lemma StepKeepsPending(s: Store, step: Step, u: UserId, waiting: Option<string>)
    requires PendingIs(s, u, waiting) && Enabled(s, step)
    ensures PendingIs(Apply(s, step), u,
                      if step.StartBatch? && step.userId == u then Some(step.historyId)
                      else if SucceedsFor(s, step, u) then None
                      else waiting)
  {
    var s' := Apply(s, step);
    if b :| b in s'.batches && s'.batches[b].userId == u {
      BatchesKeep(s, step, b);
      if step.CompleteBatch? || step.FailBatch? {
        assert s.batches[step.batchId].userId == u ==> PendingIs(s, u, waiting);
      }
    }
  }

  lemma {:induction false} PendingIsWaiting(checkpoints: map<UserId, Checkpoint>, steps: seq<Step>, u: UserId)
    requires ValidRun(Store(checkpoints, map[]), steps)
    ensures PendingIs(Exec(Store(checkpoints, map[]), steps), u, Waiting(Store(checkpoints, map[]), steps, u))
  {
    if steps != [] {
      var n := |steps| - 1;
      PendingIsWaiting(checkpoints, steps[..n], u);
      StepKeepsPending(Exec(Store(checkpoints, map[]), steps[..n]), steps[n], u, Waiting(Store(checkpoints, map[]), steps[..n], u));
    }
  }

  /** Only a success moves the cursor. */
  lemma CursorMoves(s: Store, step: Step, u: UserId)
    requires Enabled(s, step)
    ensures Cursor(Apply(s, step), u) == if SucceedsFor(s, step, u) then s.checkpoints[u].pendingHistoryId else Cursor(s, u)
  {
  }

  /** In any run, a success moves the cursor to its batch's own history id exactly when that batch's id waits. */
  lemma CompletionIsTruthfulIff(checkpoints: map<UserId, Checkpoint>, steps: seq<Step>, b: BatchId)
    requires ValidRun(Store(checkpoints, map[]), steps)
    requires var s := Exec(Store(checkpoints, map[]), steps);
             Enabled(s, CompleteBatch(b)) && Succeeds(s, CompleteBatch(b))
    ensures var s := Exec(Store(checkpoints, map[]), steps);
            var u, h := s.batches[b].userId, s.batches[b].historyId;
            Cursor(Apply(s, CompleteBatch(b)), u) == Some(h) <==> Waiting(Store(checkpoints, map[]), steps, u) == Some(h)
  {
    var s := Exec(Store(checkpoints, map[]), steps);
    PendingIsWaiting(checkpoints, steps, s.batches[b].userId);
    CursorMoves(s, CompleteBatch(b), s.batches[b].userId);
  }

  /**
   Checkpoint truth: whatever is marked, totalled, failed or completed, and in whatever order, the cursor is
   truthful after every prefix of a run exactly when every success is awaited.
   */
  lemma {:induction false} CursorIsTruthfulIff(checkpoints: map<UserId, Checkpoint>, steps: seq<Step>, u: UserId)
    requires ValidRun(Store(checkpoints, map[]), steps)
    ensures AlwaysTruthful(Store(checkpoints, map[]), steps, u) <==> Awaited(Store(checkpoints, map[]), steps, u)
  {
    if steps != [] {
      var n := |steps| - 1;
      var start := Store(checkpoints, map[]);
      CursorIsTruthfulIff(checkpoints, steps[..n], u);
      CursorMoves(Exec(start, steps[..n]), steps[n], u);
      PendingIsWaiting(checkpoints, steps[..n], u);
    }
  }

  // ----- Batches one at a time -----

  /** The step completes the batch, with success or failures, or fails it. */
  predicate Ends(s: Store, step: Step, b: BatchId) {
    || step == FailBatch(b)
    || (step == CompleteBatch(b) && b in s.batches && AllProcessed(s.batches[b]))
  }

  ghost predicate Ended(s: Store, steps: seq<Step>, b: BatchId)
    requires ValidRun(s, steps)
  {
    steps != []
    && (var n := |steps| - 1; Ends(Exec(s, steps[..n]), steps[n], b) || Ended(s, steps[..n], b))
  }

  /** A user's next batch starts when the others have ended, and a batch succeeds only before it has ended. */
  ghost predicate Sequential(s: Store, steps: seq<Step>)
    requires ValidRun(s, steps)
  {
    steps == [] ||
    (var n := |steps| - 1;
     var before := Exec(s, steps[..n]);
     && Sequential(s, steps[..n])
     && match steps[n]
        case StartBatch(u, _, _) =>
          forall b :: b in before.batches && before.batches[b].userId == u ==> Ended(s, steps[..n], b)
        case CompleteBatch(b) => Succeeds(before, steps[n]) ==> !Ended(s, steps[..n], b)
        case _ => true)
  }

  /** A batch that has not ended is its user's only such batch, and its id waits. */
  ghost predicate UnendedWaits(s: Store, steps: seq<Step>)
    requires ValidRun(s, steps)
  {
    var now := Exec(s, steps);
    && (forall b :: b in now.batches && !Ended(s, steps, b) ==>
                      Waiting(s, steps, now.batches[b].userId) == Some(now.batches[b].historyId))
    && (forall b, d ::
          b in now.batches && d in now.batches && !Ended(s, steps, b) && !Ended(s, steps, d)
          && now.batches[b].userId == now.batches[d].userId
          ==> b == d)
  }

  lemma UnknownHasNotEnded(s: Store, steps: seq<Step>, b: BatchId)
    requires ValidRun(s, steps) && b !in Exec(s, steps).batches
    ensures !Ended(s, steps, b)
  {
    if steps != [] {
      var n := |steps| - 1;
      BatchesKeep(Exec(s, steps[..n]), steps[n], b);
      UnknownHasNotEnded(s, steps[..n], b);
    }
  }

  lemma {:induction false} UnendedAlwaysWaits(checkpoints: map<UserId, Checkpoint>, steps: seq<Step>)
    requires ValidRun(Store(checkpoints, map[]), steps) && Sequential(Store(checkpoints, map[]), steps)
    ensures UnendedWaits(Store(checkpoints, map[]), steps)
  {
    if steps != [] {
      var n := |steps| - 1;
      var start := Store(checkpoints, map[]);
      var before, now := Exec(start, steps[..n]), Exec(start, steps);
      UnendedAlwaysWaits(checkpoints, steps[..n]);
      forall b | b in now.batches && !Ended(start, steps, b)
        ensures Waiting(start, steps, now.batches[b].userId) == Some(now.batches[b].historyId)
      {
        BatchesKeep(before, steps[n], b);
      }
      forall b, d | b in now.batches && d in now.batches && !Ended(start, steps, b) && !Ended(start, steps, d)
                    && now.batches[b].userId == now.batches[d].userId
        ensures b == d
      {
        BatchesKeep(before, steps[n], b);
        BatchesKeep(before, steps[n], d);
      }
    }
  }

  lemma {:induction false} SequentialIsAwaited(checkpoints: map<UserId, Checkpoint>, steps: seq<Step>, u: UserId)
    requires ValidRun(Store(checkpoints, map[]), steps) && Sequential(Store(checkpoints, map[]), steps)
    ensures Awaited(Store(checkpoints, map[]), steps, u)
  {
    if steps != [] {
      var n := |steps| - 1;
      SequentialIsAwaited(checkpoints, steps[..n], u);
      UnendedAlwaysWaits(checkpoints, steps[..n]);
    }
  }

  /** With batches one at a time, each succeeding once, the cursor is truthful throughout; marks and totals may come late. */
  lemma CursorIsTruthful(checkpoints: map<UserId, Checkpoint>, steps: seq<Step>, u: UserId)
    requires ValidRun(Store(checkpoints, map[]), steps) && Sequential(Store(checkpoints, map[]), steps)
    ensures AlwaysTruthful(Store(checkpoints, map[]), steps, u)
  {
    SequentialIsAwaited(checkpoints, steps, u);
    CursorIsTruthfulIff(checkpoints, steps, u);
  }

  // ----- Runs that are not truthful -----

  /** Overlapping batches: completing the first moves the cursor to the history id of the unfinished second. */
  lemma OverlapMisreports(checkpoints: map<UserId, Checkpoint>, u: UserId, h1: string, b1: BatchId, h2: string, b2: BatchId)
    returns (steps: seq<Step>)
    requires b1 != b2
    ensures steps == [StartBatch(u, h1, b1), StartBatch(u, h2, b2), CompleteBatch(b1)]
    ensures ValidRun(Store(checkpoints, map[]), steps)
    ensures Cursor(Exec(Store(checkpoints, map[]), steps), u) == Some(h2)
    ensures LastSuccess(Store(checkpoints, map[]), steps, u) == Some(h1)
  {
    var s := Store(checkpoints, map[]);
    Snoc(s, [], StartBatch(u, h1, b1));
    var s1 := [] + [StartBatch(u, h1, b1)];
    Snoc(s, s1, StartBatch(u, h2, b2));
    var s2 := s1 + [StartBatch(u, h2, b2)];
    Snoc(s, s2, CompleteBatch(b1));
    steps := s2 + [CompleteBatch(b1)];
    assert steps[..2] == s2;
  }

  /** A batch without a total whose every email is marked and followed by a completion, as its callers do. */
  function EmailRun(u: UserId, h: string, b: BatchId, n: nat): seq<Step> {
    if n == 0 then [StartBatch(u, h, b)] else EmailRun(u, h, b, n - 1) + [MarkEmail(b, true)] + [CompleteBatch(b)]
  }

  function Marked(h: string, u: UserId, n: nat): Batch {
    Batch(u, h, None, n, 0, if n == 0 then Pending else Completed)
  }

  lemma MarkAndComplete(s: Store, b: BatchId)
    requires b in s.batches && s.batches[b].userId in s.checkpoints
    requires s.batches[b].totalEmails == None && s.batches[b].failedCount == 0
    ensures Enabled(s, MarkEmail(b, true)) && Enabled(Apply(s, MarkEmail(b, true)), CompleteBatch(b))
    ensures !Succeeds(s, MarkEmail(b, true)) && Succeeds(Apply(s, MarkEmail(b, true)), CompleteBatch(b))
    ensures var t, row := Apply(Apply(s, MarkEmail(b, true)), CompleteBatch(b)), s.batches[b];
            && t.batches == s.batches[b := row.(processedCount := row.processedCount + 1, status := Completed)]
            && t.checkpoints == s.checkpoints[row.userId := Checkpoint(s.checkpoints[row.userId].pendingHistoryId, None, Idle)]
  {
  }

  lemma OneMore(s: Store, before: seq<Step>, b: BatchId) returns (steps: seq<Step>)
    requires ValidRun(s, before)
    requires var t := Exec(s, before);
             b in t.batches && t.batches[b].userId in t.checkpoints
             && t.batches[b].totalEmails == None && t.batches[b].failedCount == 0
    ensures steps == before + [MarkEmail(b, true)] + [CompleteBatch(b)] && ValidRun(s, steps)
    ensures var t := Exec(s, before);
            && Exec(s, steps).batches == t.batches[b := t.batches[b].(processedCount := t.batches[b].processedCount + 1, status := Completed)]
            && Exec(s, steps).checkpoints
               == t.checkpoints[t.batches[b].userId := Checkpoint(t.checkpoints[t.batches[b].userId].pendingHistoryId, None, Idle)]
            && LastSuccess(s, steps, t.batches[b].userId) == Some(t.batches[b].historyId)
  {
    MarkAndComplete(Exec(s, before), b);
    Snoc(s, before, MarkEmail(b, true));
    var marked := before + [MarkEmail(b, true)];
    Snoc(s, marked, CompleteBatch(b));
    steps := marked + [CompleteBatch(b)];
    assert steps[..|marked|] == marked;
  }

  lemma Started(s: Store, u: UserId, h: string, b: BatchId) returns (steps: seq<Step>)
    requires s.batches == map[]
    ensures steps == [StartBatch(u, h, b)] && ValidRun(s, steps)
    ensures Exec(s, steps).batches == map[b := Marked(h, u, 0)] && LastSuccess(s, steps, u) == None
    ensures Exec(s, steps).checkpoints == s.checkpoints[u := Checkpoint(Cursor(s, u), Some(h), Syncing)]
  {
    Snoc(s, [], StartBatch(u, h, b));
    steps := [] + [StartBatch(u, h, b)];
    assert steps[..0] == [];
  }

  /** The store after n marked and completed emails of the batch. */
  ghost predicate AfterEmails(s: Store, t: Store, u: UserId, h: string, b: BatchId, n: nat) {
    && t.batches == map[b := Marked(h, u, n)] && u in t.checkpoints
    && t.checkpoints[u].pendingHistoryId == (if n == 0 then Some(h) else None)
    && Cursor(t, u) == (if n == 0 then Cursor(s, u) else if n == 1 then Some(h) else None)
  }

  lemma AnotherEmail(s: Store, t: Store, t': Store, u: UserId, h: string, b: BatchId, n: nat)
    requires n > 0 && AfterEmails(s, t, u, h, b, n - 1)
    requires t'.batches == t.batches[b := Marked(h, u, n - 1).(processedCount := n, status := Completed)]
    requires t'.checkpoints == t.checkpoints[u := Checkpoint(t.checkpoints[u].pendingHistoryId, None, Idle)]
    ensures AfterEmails(s, t', u, h, b, n)
  {
  }

  /**
   Completing after every email: the first completion makes the cursor the batch's history id, and every
   further one erases it, although the last successful batch is the same.
   */
  lemma {:induction false} DoubleCompletionForgets(checkpoints: map<UserId, Checkpoint>, u: UserId, h: string, b: BatchId, n: nat)
    returns (steps: seq<Step>)
    ensures steps == EmailRun(u, h, b, n) && ValidRun(Store(checkpoints, map[]), steps)
    ensures var s := Store(checkpoints, map[]);
            AfterEmails(s, Exec(s, steps), u, h, b, n) && LastSuccess(s, steps, u) == if n == 0 then None else Some(h)
  {
    var s := Store(checkpoints, map[]);
    if n == 0 {
      steps := Started(s, u, h, b);
    } else {
      var before := DoubleCompletionForgets(checkpoints, u, h, b, n - 1);
      steps := OneMore(s, before, b);
      AnotherEmail(s, Exec(s, before), Exec(s, steps), u, h, b, n);
    }
  }

  class GmailCheckpointService {
    var checkpoints: map<UserId, Checkpoint>
    var batches: map<BatchId, Batch>

    ghost function State(): Store
      reads this
    {
      Store(checkpoints, batches)
    }

    constructor (checkpoints: map<UserId, Checkpoint>)
      ensures State() == Store(checkpoints, map[])
    {
      this.checkpoints, this.batches := checkpoints, map[];
    }

    method Start(userId: UserId, newHistoryId: string, newBatch: BatchId)
      requires newBatch !in batches
      modifies this
      ensures State() == Apply(old(State()), StartBatch(userId, newHistoryId, newBatch))
    {
      batches := batches[newBatch := Batch(userId, newHistoryId, None, 0, 0, Pending)];
      if userId in checkpoints {
        checkpoints := checkpoints[userId := checkpoints[userId].(pendingHistoryId := Some(newHistoryId), status := Syncing)];
      } else {
        checkpoints := checkpoints[userId := Checkpoint(None, Some(newHistoryId), Syncing)];
      }
    }

    method MarkEmailProcessed(batchId: BatchId, succeeded: bool) returns (found: bool)
      modifies this
      ensures found <==> Enabled(old(State()), MarkEmail(batchId, succeeded))
      ensures State() == if found then Apply(old(State()), MarkEmail(batchId, succeeded)) else old(State())
    {
      if batchId !in batches {
        return false;
      }
      found := true;
      var b := batches[batchId];
      if succeeded {
        batches := batches[batchId := b.(processedCount := b.processedCount + 1, status := Processing)];
      } else {
        batches := batches[batchId := b.(failedCount := b.failedCount + 1, status := Processing)];
      }
    }

    method SetBatchTotal(batchId: BatchId, totalEmails: nat) returns (found: bool)
      modifies this
      ensures found <==> Enabled(old(State()), SetTotal(batchId, totalEmails))
      ensures State() == if found then Apply(old(State()), SetTotal(batchId, totalEmails)) else old(State())
    {
      if batchId !in batches {
        return false;
      }
      found := true;
      batches := batches[batchId := batches[batchId].(totalEmails := Some(totalEmails))];
    }

    /** Every update of a missing row throws. This one returns quietly when the batch is incomplete. */
    method Complete(batchId: BatchId) returns (found: bool)
      modifies this
      ensures found <==> Enabled(old(State()), CompleteBatch(batchId))
      ensures found ==> State() == Apply(old(State()), CompleteBatch(batchId))
      ensures !found ==> State() == old(State())
    {
      if batchId !in batches || batches[batchId].userId !in checkpoints {
        return false;
      }
      found := true;
      var b := batches[batchId];
      var totalEmails := if b.totalEmails.Some? then b.totalEmails.value else 0;
      if b.processedCount + b.failedCount < totalEmails {
        return;
      }
      var c := checkpoints[b.userId];
      if b.failedCount == 0 {
        checkpoints := checkpoints[b.userId := Checkpoint(c.pendingHistoryId, None, Idle)];
      } else {
        checkpoints := checkpoints[b.userId := c.(status := CheckpointFailed)];
      }
      batches := batches[batchId := b.(status := if b.failedCount == 0 then Completed else Failed)];
    }

    method Fail(batchId: BatchId) returns (found: bool)
      modifies this
      ensures found <==> Enabled(old(State()), FailBatch(batchId))
      ensures State() == if found then Apply(old(State()), FailBatch(batchId)) else old(State())
    {
      if batchId !in batches || batches[batchId].userId !in checkpoints {
        return false;
      }
      found := true;
      var b := batches[batchId];
      batches := batches[batchId := b.(status := Failed)];
      checkpoints := checkpoints[b.userId := checkpoints[b.userId].(status := CheckpointFailed)];
    }
  }
}
