/**
 The dispatcher, the fast-path publisher and the queue worker as methods over the shared table.
 Each write is one step of the state machine, and `Interference` between writes stands for any number
 of steps by anybody else, so every theorem about runs applies to the object.
 */
module OutboxService {
  import opened Wrappers
  import opened OutboxModel
  import opened OutboxSafety

  datatype Outcome = Dispatched | WillRetry | Lost

  /** Every mapped event reported as dispatched has a submission made since `start`. */
  ghost predicate Accounted(submitted: seq<Submission>, claimed: seq<Snapshot>, outcomes: seq<Outcome>, start: nat)
    requires |outcomes| <= |claimed|
  {
    forall i :: 0 <= i < |outcomes| && outcomes[i] == Dispatched && Route(claimed[i].event.eventType).Some? ==>
                  SubmittedSince(submitted, claimed[i].id, start)
  }

  ghost predicate SubmittedSince(submitted: seq<Submission>, id: EventId, start: nat) {
    exists k :: start <= k < |submitted| && submitted[k].origin == id
  }

  /** One more outcome, with its submission, is accounted for. */
  lemma AccountedGrows(before: seq<Submission>, submitted: seq<Submission>, claimed: seq<Snapshot>, outcomes: seq<Outcome>,
                       outcome: Outcome, start: nat)
    requires |outcomes| < |claimed| && Accounted(before, claimed, outcomes, start)
    requires start <= |before| && before <= submitted
    requires var event := claimed[|outcomes|];
             outcome == Dispatched && Route(event.event.eventType).Some? ==> SubmittedSince(submitted, event.id, |before|)
    ensures Accounted(submitted, claimed, outcomes + [outcome], start)
  {
    assert forall id :: SubmittedSince(before, id, start) ==> SubmittedSince(submitted, id, start);
  }

  class OutboxDispatcher {
    const config: Config
    const dispatcherId: string
    var now: int
    var rows: map<EventId, Row>
    var submitted: seq<Submission>
    ghost var fast: multiset<EventId>
    ghost var runs: map<RunId, BatchRun>
    ghost var log: seq<Step>

    ghost function State(): System
      reads this
    {
      System(now, rows, submitted, fast, runs)
    }

    ghost predicate Valid()
      reads this
    {
      ValidRun(config, log) && State() == Exec(config, log)
    }

    constructor (config: Config, dispatcherId: string)
      ensures Valid() && State() == Initial() && this.config == config
    {
      this.config, this.dispatcherId := config, dispatcherId;
      now, rows, submitted := 0, map[], [];
      fast, runs, log := multiset{}, map[], [];
    }

    /** Any steps of other parties; they cannot advance this batch run. */
    method Interference(ghost run: RunId)
      requires Valid()
      modifies this
      ensures Valid() && old(log) <= log && Extends(old(State()), State())
      ensures old(now) <= now
      ensures run in runs <==> run in old(runs)
      ensures run in runs ==> runs[run] == old(runs)[run]
    {
    }

    /** The oldest event of a nonempty pool. */
    method Oldest(pool: set<EventId>) returns (id: EventId)
      requires pool != {} && pool <= rows.Keys
      ensures id in pool
      ensures forall x :: x in pool ==> rows[id].event.createdAt <= rows[x].event.createdAt
    {
      id :| id in pool;
      var rest := pool - {id};
      while rest != {}
        invariant rest <= pool && id in pool
        invariant forall x :: x in pool && x !in rest ==> rows[id].event.createdAt <= rows[x].event.createdAt
        decreases rest
      {
        var x :| x in rest;
        if rows[x].event.createdAt < rows[id].event.createdAt {
          id := x;
        }
        rest := rest - {x};
      }
    }

    /** The claim query: skip locked rows, oldest first, up to the batch size. */
    method SelectClaimable(locked: set<EventId>) returns (ids: seq<EventId>)
      ensures Selects(config, now, rows, locked, ids)
    {
      var pool := set id | id in rows && id !in locked && Claimable(config, now, rows[id]);
      ghost var all := pool;
      ids := [];
      while |ids| < config.batchSize && pool != {}
        invariant |ids| <= config.batchSize && pool <= all
        invariant forall i :: 0 <= i < |ids| ==> ids[i] in all && ids[i] !in pool
        invariant forall i, j :: 0 <= i < j < |ids| ==> ids[i] != ids[j]
        invariant forall i, j :: 0 <= i < j < |ids| ==> rows[ids[i]].event.createdAt <= rows[ids[j]].event.createdAt
        invariant forall i, x :: 0 <= i < |ids| && x in pool ==>
                                   rows[ids[i]].event.createdAt <= rows[x].event.createdAt
        invariant forall x :: x in all && x !in pool ==> x in ids
        decreases pool
      {
        var id := Oldest(pool);
        ids := ids + [id];
        pool := pool - {id};
      }
    }

    /** Run `run` is at the start of its first claimed event. */
    ghost predicate AtStartOf(run: RunId, event: Snapshot)
      reads this
    {
      run in runs && runs[run].claimed != [] && runs[run].claimed[0] == event && runs[run].phase == Ready
    }

    /** Run `run` has left the first event of `before` behind. */
    ghost predicate MovedOn(run: RunId, before: BatchRun)
      reads this
    {
      if |before.claimed| <= 1 then run !in runs
      else run in runs && runs[run] == BatchRun(before.claimed[1..], Ready)
    }

    method ClaimBatch(ghost run: RunId, base: int, locked: set<EventId>) returns (claimed: seq<Snapshot>)
      requires Valid() && run !in runs && base <= now
      modifies this
      ensures Valid() && old(log) <= log && Extends(old(State()), State())
      ensures claimed == [] ==> log == old(log) && run !in runs
      ensures claimed != [] ==> run in runs && runs[run] == BatchRun(claimed, Ready)
      ensures claimed != [] ==>
                exists ids :: log == old(log) + [Claim(run, dispatcherId, base, locked, ids)]
                              && Selects(config, old(now), old(rows), locked, ids)
                              && claimed == Snapshots(old(rows), ids)
      ensures |claimed| <= config.batchSize
      ensures forall i :: 0 <= i < |claimed| ==> claimed[i].id in rows
    {
      var ids := SelectClaimable(locked);
      claimed := [];
      if ids != [] {
        claimed := WriteClaim(run, base, locked, ids);
      }
    }

    /** The claiming UPDATE of the selected rows. */
    method WriteClaim(ghost run: RunId, base: int, ghost locked: set<EventId>, ids: seq<EventId>) returns (claimed: seq<Snapshot>)
      requires Valid() && run !in runs && base <= now && ids != []
      requires Selects(config, now, rows, locked, ids)
      modifies this
      ensures Valid() && Extends(old(State()), State())
      ensures log == old(log) + [Claim(run, dispatcherId, base, locked, ids)]
      ensures claimed == Snapshots(old(rows), ids) && run in runs && runs[run] == BatchRun(claimed, Ready)
      ensures forall i :: 0 <= i < |claimed| ==> claimed[i].id in rows
      ensures rows.Keys == old(rows).Keys
      ensures forall id :: id in rows ==>
                             rows[id] == if id !in ids then old(rows)[id]
                                         else old(rows)[id].(status := Processing, leaseOwner := Some(dispatcherId),
                                         leaseExpiresAt := Some(base + config.leaseTtlMs), error := None)
    {
      ghost var step := Claim(run, dispatcherId, base, locked, ids);
      Snoc(config, log, step);
      StepExtends(config, State(), step);
      claimed := Snapshots(rows, ids);
      rows := ClaimRows(rows, ids, dispatcherId, base + config.leaseTtlMs);
      runs := runs[run := BatchRun(claimed, Ready)];
      log := log + [step];
    }

    /** The queue submission of `dispatchEvent`; the queue may refuse. */
    method AddJob(ghost run: RunId, event: Snapshot) returns (accepted: bool)
      requires Valid() && AtStartOf(run, event)
      modifies this
      ensures Valid() && Extends(old(State()), State())
      ensures !accepted ==> log == old(log) && runs == old(runs)
      ensures accepted ==> log == old(log) + [Enqueue(run)]
                           && runs == old(runs)[run := old(runs)[run].(phase := Enqueued)]
      ensures accepted && Route(event.event.eventType).Some? ==>
                |submitted| == |old(submitted)| + 1 && submitted[|old(submitted)|].origin == event.id
    {
      accepted := *;
      if accepted {
        Snoc(config, log, Enqueue(run));
        StepExtends(config, State(), Enqueue(run));
        submitted := Submit(submitted, event.id, event.event, false);
        runs := runs[run := runs[run].(phase := Enqueued)];
        log := log + [Enqueue(run)];
      }
    }

    method MarkProcessed(ghost run: RunId, id: EventId) returns (written: bool)
      requires Valid() && run in runs && runs[run].claimed != [] && runs[run].phase == Enqueued
      requires runs[run].claimed[0].id == id && id in rows
      modifies this
      ensures Valid() && Extends(old(State()), State())
      ensures !written ==> log == old(log) && runs == old(runs)
      ensures written ==> log == old(log) + [Settle(run)] && MovedOn(run, old(runs)[run])
      ensures now == old(now)
      ensures written ==> rows == old(rows)[id := old(rows)[id].(status := Processed, processedAt := Some(now),
                                             leaseOwner := None, leaseExpiresAt := None)]
    {
      written := *;
      if written {
        Snoc(config, log, Settle(run));
        StepExtends(config, State(), Settle(run));
        rows := rows[id := rows[id].(status := Processed, processedAt := Some(now), leaseOwner := None, leaseExpiresAt := None)];
        runs := PopHead(runs, run);
        log := log + [Settle(run)];
      }
    }

    /** The read half of `markFailed`. */
    method ReadRetryCount(ghost run: RunId, id: EventId) returns (newRetryCount: Pos)
      requires Valid() && run in runs && runs[run].claimed != [] && !runs[run].phase.RetryRead?
      requires runs[run].claimed[0].id == id && id in rows
      modifies this
      ensures Valid() && Extends(old(State()), State()) && log == old(log) + [ReadRetry(run)]
      ensures newRetryCount == old(rows)[id].retryCount + 1
      ensures runs == old(runs)[run := old(runs)[run].(phase := RetryRead(newRetryCount))]
    {
      newRetryCount := rows[id].retryCount + 1;
      Snoc(config, log, ReadRetry(run));
      runs := runs[run := runs[run].(phase := RetryRead(newRetryCount))];
      log := log + [ReadRetry(run)];
    }

    /** The write half of `markFailed`; when it throws, the rest of the batch is lost. */
    method WriteVerdict(ghost run: RunId, id: EventId, newRetryCount: Pos, error: string) returns (written: bool)
      requires Valid() && run in runs && runs[run].claimed != [] && runs[run].phase == RetryRead(newRetryCount)
      requires runs[run].claimed[0].id == id && id in rows
      modifies this
      ensures Valid() && Extends(old(State()), State())
      ensures written ==> log == old(log) + [WriteFailure(run, error)] && MovedOn(run, old(runs)[run])
      ensures now == old(now)
      ensures written && newRetryCount >= config.maxRetries ==>
                rows == old(rows)[id := old(rows)[id].(status := Dlq, error := Some(error), retryCount := newRetryCount,
                             nextAttemptAt := None, leaseOwner := None, leaseExpiresAt := None)]
      ensures written && newRetryCount < config.maxRetries ==>
                rows == old(rows)[id := old(rows)[id].(status := Failed, error := Some(error), retryCount := newRetryCount,
                             nextAttemptAt := Some(now + BackoffMs(newRetryCount)), leaseOwner := None, leaseExpiresAt := None)]
      ensures !written ==> log == old(log) + [Step.Abandon(run)] && run !in runs
    {
      written := *;
      if written {
        Snoc(config, log, WriteFailure(run, error));
        StepExtends(config, State(), WriteFailure(run, error));
        var shouldDlq := newRetryCount >= config.maxRetries;
        rows := rows[id := rows[id].(status := if shouldDlq then Dlq else Failed, error := Some(error), retryCount := newRetryCount,
                     nextAttemptAt := if shouldDlq then None else Some(now + BackoffMs(newRetryCount)),
                     leaseOwner := None, leaseExpiresAt := None)];
        runs := PopHead(runs, run);
        log := log + [WriteFailure(run, error)];
      } else {
        GiveUp(run);
      }
    }

    /** What a lost batch run leaves: its rows as they are. */
    ghost method GiveUp(run: RunId)
      requires Valid() && run in runs
      modifies this
      ensures Valid() && log == old(log) + [Step.Abandon(run)] && runs == old(runs) - {run}
      ensures now == old(now) && rows == old(rows) && submitted == old(submitted) && fast == old(fast)
    {
      Snoc(config, log, Step.Abandon(run));
      runs := runs - {run};
      log := log + [Step.Abandon(run)];
    }

    method MarkFailed(ghost run: RunId, id: EventId, error: string) returns (written: bool)
      requires Valid() && run in runs && runs[run].claimed != [] && !runs[run].phase.RetryRead?
      requires runs[run].claimed[0].id == id && id in rows
      modifies this
      ensures Valid() && old(log) <= log && Extends(old(State()), State())
      ensures written ==> MovedOn(run, old(runs)[run]) && id in rows && (rows[id].status == Failed || rows[id].status == Dlq)
      ensures !written ==> run !in runs
    {
      var newRetryCount := ReadRetryCount(run, id);
      Interference(run);
      written := WriteVerdict(run, id, newRetryCount, error);
    }

    /** Submit the job, and mark the event processed. */
    method SubmitAndMark(ghost run: RunId, event: Snapshot) returns (done: bool)
      requires Valid() && AtStartOf(run, event) && event.id in rows
      modifies this
      ensures Valid() && old(log) <= log && Extends(old(State()), State())
      ensures done ==> MovedOn(run, old(runs)[run])
      ensures done && Route(event.event.eventType).Some? ==>
                SubmittedSince(submitted, event.id, |old(submitted)|)
      ensures done ==> event.id in rows && rows[event.id].status == Processed && rows[event.id].processedAt == Some(now)
      ensures !done ==> run in runs && runs[run].claimed == old(runs)[run].claimed && !runs[run].phase.RetryRead?
    {
      ghost var position := |submitted|;
      done := AddJob(run, event);
      if done {
        Interference(run);
        done := MarkProcessed(run, event.id);
        assert done && Route(event.event.eventType).Some? ==> submitted[position].origin == event.id;
      }
    }

    method DispatchEvent(ghost run: RunId, event: Snapshot) returns (outcome: Outcome)
      requires Valid() && AtStartOf(run, event) && event.id in rows
      modifies this
      ensures Valid() && old(log) <= log && Extends(old(State()), State())
      ensures outcome == Lost ==> run !in runs
      ensures outcome != Lost ==> MovedOn(run, old(runs)[run])
      ensures outcome == Dispatched && Route(event.event.eventType).Some? ==>
                SubmittedSince(submitted, event.id, |old(submitted)|)
      ensures event.id in rows
      ensures outcome == Dispatched ==> rows[event.id].status == Processed && rows[event.id].processedAt == Some(now)
      ensures outcome == WillRetry ==> rows[event.id].status == Failed || rows[event.id].status == Dlq
    {
      var done := SubmitAndMark(run, event);
      if done {
        return Dispatched;
      }
      var written := MarkFailed(run, event.id, "dispatch failed");
      outcome := if written then WillRetry else Lost;
    }

    /** The dispatch loop over a claimed batch, given up when a failure write is lost. */
    method DispatchAll(ghost run: RunId, claimed: seq<Snapshot>) returns (outcomes: seq<Outcome>)
      requires Valid() && (forall j :: 0 <= j < |claimed| ==> claimed[j].id in rows)
      requires claimed == [] ==> run !in runs
      requires claimed != [] ==> run in runs && runs[run] == BatchRun(claimed, Ready)
      modifies this
      ensures Valid() && old(log) <= log && Extends(old(State()), State())
      ensures run !in runs && |outcomes| <= |claimed|
      ensures |outcomes| < |claimed| ==> outcomes != [] && outcomes[|outcomes| - 1] == Lost
      ensures Accounted(submitted, claimed, outcomes, |old(submitted)|)
    {
      outcomes := [];
      var i := 0;
      while i < |claimed|
        invariant 0 <= i == |outcomes| <= |claimed|
        invariant Valid() && old(log) <= log && Extends(old(State()), State())
        invariant i < |claimed| ==> run in runs && runs[run] == BatchRun(claimed[i..], Ready)
        invariant i == |claimed| ==> run !in runs
        invariant Accounted(submitted, claimed, outcomes, |old(submitted)|)
      {
        ghost var before := submitted;
        var outcome := DispatchEvent(run, claimed[i]);
        AccountedGrows(before, submitted, claimed, outcomes, outcome, |old(submitted)|);
        outcomes := outcomes + [outcome];
        assert claimed[i..][1..] == claimed[i + 1..];
        if outcome == Lost {
          return;
        }
        i := i + 1;
      }
    }

    /** One batch run: claim, then dispatch in order until done or until a failure write is lost. */
    method DispatchBatch(ghost run: RunId, locked: set<EventId>) returns (claimed: seq<Snapshot>, outcomes: seq<Outcome>)
      requires Valid() && run !in runs
      modifies this
      ensures Valid() && old(log) <= log && Extends(old(State()), State())
      ensures run !in runs && |outcomes| <= |claimed| <= config.batchSize
      ensures |outcomes| < |claimed| ==> outcomes != [] && outcomes[|outcomes| - 1] == Lost
      ensures Accounted(submitted, claimed, outcomes, |old(submitted)|)
    {
      var base := now;
      Interference(run);
      claimed := ClaimBatch(run, base, locked);
      ghost var start := |submitted|;
      outcomes := DispatchAll(run, claimed);
      assert Accounted(submitted, claimed, outcomes, start);
    }

    /** Inserts a pending event as part of the caller's transaction. */
    method PublishInTransaction(id: EventId, event: Event)
      requires Valid() && id !in rows && id != ""
      modifies this
      ensures Valid() && log == old(log) + [Insert(id, event)]
      ensures rows == old(rows)[id := Row(event, Pending, 0, None, None, None, None, None)]
    {
      Snoc(config, log, Insert(id, event));
      rows := rows[id := Row(event, Pending, 0, None, None, None, None, None)];
      log := log + [Insert(id, event)];
    }

    /** The queue half of the fast path. */
    method DispatchToQueue(id: EventId) returns (accepted: bool)
      requires Valid() && id in rows
      modifies this
      ensures Valid() && Extends(old(State()), State()) && rows == old(rows)
      ensures accepted ==> log == old(log) + [FastEnqueue(id)] && id in fast && Delivered(State(), id)
      ensures !accepted ==> log == old(log)
    {
      accepted := *;
      if accepted {
        Snoc(config, log, FastEnqueue(id));
        StepExtends(config, State(), FastEnqueue(id));
        submitted := Submit(submitted, id, rows[id].event, true);
        fast := fast + multiset{id};
        log := log + [FastEnqueue(id)];
        assert Route(rows[id].event.eventType).Some? ==> submitted[|submitted| - 1].origin == id;
      }
    }

    /** The status half of the fast path; when the write throws, the row stays as it is. */
    method MarkPublished(id: EventId) returns (written: bool)
      requires Valid() && id in rows && id in fast
      modifies this
      ensures Valid() && Extends(old(State()), State()) && submitted == old(submitted)
      ensures written ==> log == old(log) + [FastMark(id)]
                          && rows == old(rows)[id := old(rows)[id].(status := Processed, processedAt := Some(now))]
      ensures !written ==> log == old(log) + [FastAbort(id)] && rows == old(rows)
    {
      written := *;
      if written {
        Snoc(config, log, FastMark(id));
        StepExtends(config, State(), FastMark(id));
        rows := rows[id := rows[id].(status := Processed, processedAt := Some(now))];
        fast := fast - multiset{id};
        log := log + [FastMark(id)];
      } else {
        Snoc(config, log, FastAbort(id));
        fast := fast - multiset{id};
        log := log + [FastAbort(id)];
      }
    }

    /** Any steps of other parties; they cannot finish a publication in progress. */
    method OthersAct() returns (ghost between: seq<Step>)
      requires Valid()
      modifies this
      ensures Valid() && log == old(log) + between && Extends(old(State()), State())
      ensures old(now) <= now && old(fast) <= fast
    {
      between := [];
    }

    /**
     Fast path: submit, then mark processed, with any steps of others in between. Its own steps are the
     submission and then the mark, or giving up; a row it does not mark is left to the dispatcher.
     */
    method PublishFromEvent(id: EventId) returns (published: bool, ghost accepted: bool, ghost between: seq<Step>)
      requires Valid() && id in rows
      modifies this
      ensures Valid() && Extends(old(State()), State())
      ensures accepted ==> Delivered(State(), id)
      ensures log == if accepted then old(log) + [FastEnqueue(id)] + between + [if published then FastMark(id) else FastAbort(id)]
                     else old(log)
      ensures published ==> accepted && rows[id].status == Processed
    {
      between := [];
      published := DispatchToQueue(id);
      accepted := published;
      if published {
        between := OthersAct();
        published := MarkPublished(id);
      }
    }

    method BumpRetryCount(id: EventId)
      requires Valid() && id in rows && HasJobFor(State(), id)
      modifies this
      ensures Valid() && Extends(old(State()), State()) && log == old(log) + [WorkerBump(id)]
      ensures submitted == old(submitted)
      ensures rows == old(rows)[id := old(rows)[id].(retryCount := old(rows)[id].retryCount + 1)]
    {
      Snoc(config, log, WorkerBump(id));
      StepExtends(config, State(), WorkerBump(id));
      rows := rows[id := rows[id].(retryCount := rows[id].retryCount + 1)];
      log := log + [WorkerBump(id)];
    }

    method ReportResult(id: EventId, succeeded: bool, permanent: bool, error: string)
      requires Valid() && id in rows && HasJobFor(State(), id)
      modifies this
      ensures Valid() && Extends(old(State()), State()) && id in rows
      ensures succeeded ==> log == old(log) + [WorkerDone(id)]
      ensures !succeeded ==> log == old(log) + [WorkerFail(id, permanent, error)]
      ensures rows[id].status == if succeeded then Processed else if permanent then Dlq else Failed
      ensures rows[id].leaseOwner == old(rows)[id].leaseOwner && rows[id].leaseExpiresAt == old(rows)[id].leaseExpiresAt
    {
      ghost var step := if succeeded then WorkerDone(id) else WorkerFail(id, permanent, error);
      Snoc(config, log, step);
      StepExtends(config, State(), step);
      if succeeded {
        rows := rows[id := rows[id].(status := Processed, processedAt := Some(now))];
      } else {
        rows := rows[id := rows[id].(status := if permanent then Dlq else Failed, error := Some(error))];
      }
      log := log + [step];
    }

    /** One attempt at a job of a known event, with any steps of others while the processor runs. */
    method Attempt(id: EventId, bump: bool, permanent: bool) returns (succeeded: bool, ghost between: seq<Step>)
      requires Valid() && id in rows && HasJobFor(State(), id)
      modifies this
      ensures Valid() && Extends(old(State()), State())
      ensures log == old(log) + (if bump then [WorkerBump(id)] else []) + between
                     + [if succeeded then WorkerDone(id) else WorkerFail(id, permanent, "job failed")]
      ensures id in rows && rows[id].status == if succeeded then Processed else if permanent then Dlq else Failed
    {
      ghost var before := State();
      if bump {
        BumpRetryCount(id);
        JobStays(before, State(), id);
      }
      between := OthersAct();
      JobStays(before, State(), id);
      succeeded := *;
      ReportResult(id, succeeded, permanent, "job failed");
    }

    /** The worker's status writes around one attempt at a job; the last attempt's failure is permanent. */
    method WithEventLifecycle(position: nat, attemptsMade: nat, attempts: nat) returns (succeeded: bool, ghost between: seq<Step>)
      requires Valid() && position < |submitted|
      modifies this
      ensures Valid() && Extends(old(State()), State())
      ensures var report := ReportsTo(old(submitted)[position].job);
              if report == None then log == old(log)
              else if report.value !in old(rows) then !succeeded && log == old(log)
              else
                var id, permanent := report.value, attemptsMade + 1 >= if attempts == 0 then 3 else attempts;
                && log == old(log) + (if attemptsMade > 0 then [WorkerBump(id)] else []) + between
                          + [if succeeded then WorkerDone(id) else WorkerFail(id, permanent, "job failed")]
                && id in rows && rows[id].status == if succeeded then Processed else if permanent then Dlq else Failed
    {
      between := [];
      succeeded := *;
      var report := ReportsTo(submitted[position].job);
      if report == None {
        return;
      }
      if report.value !in rows {
        return false, [];
      }
      succeeded, between := Attempt(report.value, attemptsMade > 0, attemptsMade >= (if attempts == 0 then 3 else attempts) - 1);
    }

    /** Whatever the row's status; a missing row throws. */
    method RequeueDlqEvent(id: EventId) returns (found: bool)
      requires Valid()
      modifies this
      ensures Valid() && (found <==> id in old(rows))
      ensures found ==> log == old(log) + [Requeue(id)]
      ensures found ==> rows == old(rows)[id := old(rows)[id].(status := Pending, retryCount := 0, error := None,
                                           nextAttemptAt := None, leaseOwner := None, leaseExpiresAt := None)]
      ensures !found ==> log == old(log) && State() == old(State())
    {
      found := id in rows;
      if !found {
        return;
      }
      Snoc(config, log, Requeue(id));
      rows := rows[id := rows[id].(status := Pending, retryCount := 0, error := None, nextAttemptAt := None,
                   leaseOwner := None, leaseExpiresAt := None)];
      log := log + [Requeue(id)];
    }
  }
}
