/**
 What becomes of claimed events: a processing row is always somebody's or was dropped by somebody, and
 every write leaves its row settled, scheduled, dead or claimable as it should.
 */
module OutboxOutcomes {
  import opened Wrappers
  import opened Powers
  import opened OutboxModel
  import opened OutboxSafety
  import opened OutboxExclusivity
  import opened OutboxRetries

  // ----- Nothing is left processing but what a lost run dropped -----

  ghost predicate Holds(s: System, run: RunId, id: EventId) {
    run in s.runs && exists i :: 0 <= i < |s.runs[run].claimed| && s.runs[run].claimed[i].id == id
  }

  /** Since the event was last claimed, a batch run was abandoned with the event in its hands. */
  ghost predicate Dropped(c: Config, steps: seq<Step>, id: EventId)
    requires ValidRun(c, steps)
  {
    steps != []
    && (var n := |steps| - 1;
        match steps[n]
        case Claim(_, _, _, _, ids) => id !in ids && Dropped(c, steps[..n], id)
        case Abandon(run) => Holds(Exec(c, steps[..n]), run, id) || Dropped(c, steps[..n], id)
        case _ => Dropped(c, steps[..n], id))
  }

  /** Only a claim makes a row processing, and a settled or failed dispatch leaves no row so. */
  lemma ProcessingIsClaimed(c: Config, s: System, step: Step, id: EventId)
    requires Enabled(c, s, step) && id in Apply(c, s, step).rows && Apply(c, s, step).rows[id].status == Processing
    ensures !Settles(s, step, id)
    ensures (step.Claim? && id in step.ids) || (id in s.rows && s.rows[id].status == Processing)
  {
  }

  lemma ClaimedIsInFlight(c: Config, s: System, step: Step, id: EventId)
    requires Enabled(c, s, step) && step.Claim? && id in step.ids
    ensures InFlight(Apply(c, s, step), id)
  {
    var i :| 0 <= i < |step.ids| && step.ids[i] == id;
    assert Apply(c, s, step).runs[step.run].claimed[i].id == id;
  }

  lemma AbandonDrops(c: Config, s: System, run: RunId, id: EventId)
    requires Enabled(c, s, Abandon(run)) && InFlight(s, id)
    ensures InFlight(Apply(c, s, Abandon(run)), id) || Holds(s, run, id)
  {
    var r, i :| r in s.runs && 0 <= i < |s.runs[r].claimed| && s.runs[r].claimed[i].id == id;
    if r != run {
      assert Apply(c, s, Abandon(run)).runs[r].claimed[i].id == id;
    }
  }

  /** In every run: a row that is processing is held by a batch run, or one was lost with it in hand. */
  lemma {:induction false} ProcessingIsHeldOrDropped(c: Config, steps: seq<Step>, id: EventId)
    requires ValidRun(c, steps) && id in Exec(c, steps).rows && Exec(c, steps).rows[id].status == Processing
    ensures InFlight(Exec(c, steps), id) || Dropped(c, steps, id)
  {
    if steps != [] {
      var n := |steps| - 1;
      var s, step := Exec(c, steps[..n]), steps[n];
      ProcessingIsClaimed(c, s, step, id);
      if step.Claim? && id in step.ids {
        ClaimedIsInFlight(c, s, step, id);
      } else {
        ProcessingIsHeldOrDropped(c, steps[..n], id);
        if InFlight(s, id) {
          if step.Abandon? {
            AbandonDrops(c, s, step.run, id);
          } else {
            StaysInFlight(c, s, step, id);
          }
        }
      }
    }
  }

  ghost predicate NothingAbandoned(steps: seq<Step>) {
    forall k :: 0 <= k < |steps| ==> !steps[k].Abandon?
  }

  lemma {:induction false} NothingDropped(c: Config, steps: seq<Step>, id: EventId)
    requires ValidRun(c, steps) && NothingAbandoned(steps)
    ensures !Dropped(c, steps, id)
  {
    if steps != [] {
      NothingDropped(c, steps[..|steps| - 1], id);
    }
  }

  /** As long as no batch run is lost, whatever is not in flight is pending, processed, failed or dead. */
  lemma NothingIsStuck(c: Config, steps: seq<Step>, id: EventId)
    requires ValidRun(c, steps) && NothingAbandoned(steps)
    requires id in Exec(c, steps).rows && !InFlight(Exec(c, steps), id)
    ensures Exec(c, steps).rows[id].status != Processing
  {
    if Exec(c, steps).rows[id].status == Processing {
      ProcessingIsHeldOrDropped(c, steps, id);
      NothingDropped(c, steps, id);
    }
  }

  // ----- What each write leaves -----

  /** No step but an insert touches a row other than its own. */
  ghost predicate OthersKept(s: System, s': System, id: EventId) {
    s'.rows.Keys == s.rows.Keys && forall x :: x in s.rows && x != id ==> s'.rows[x] == s.rows[x]
  }

  /** A settled event is processed now, free of its lease, and nothing else about it or any other row changes. */
  lemma SettleFinishes(c: Config, s: System, run: RunId)
    requires Enabled(c, s, Settle(run))
    ensures var s', id := Apply(c, s, Settle(run)), Head(s, run).id;
            var r, r' := s.rows[id], s'.rows[id];
            && r'.status == Processed && r'.processedAt == Some(s.now)
            && r'.leaseOwner == None && r'.leaseExpiresAt == None
            && r'.event == r.event && r'.retryCount == r.retryCount && r'.nextAttemptAt == r.nextAttemptAt && r'.error == r.error
            && OthersKept(s, s', id) && s'.submitted == s.submitted && s'.now == s.now
  {
  }

  /** A failed dispatch with retries left is claimable exactly from its due time on; without, it never is. */
  lemma FailureIsScheduled(c: Config, s: System, run: RunId, error: string)
    requires Enabled(c, s, WriteFailure(run, error))
    ensures var s', id, n := Apply(c, s, WriteFailure(run, error)), Head(s, run).id, s.runs[run].phase.newRetryCount;
            var r' := s'.rows[id];
            && r'.retryCount == n && r'.error == Some(error) && r'.event == s.rows[id].event
            && r'.processedAt == s.rows[id].processedAt
            && OthersKept(s, s', id) && s'.submitted == s.submitted
            && (n < c.maxRetries ==>
                  r'.status == Failed && forall t :: Claimable(c, t, r') <==> t >= s.now + BackoffMs(n))
            && (n >= c.maxRetries ==> r'.status == Dlq && forall t :: !Claimable(c, t, r'))
  {
  }

  /** A requeued event is up for a claim at once and for good, with all its retries. */
  lemma RequeueIsClaimable(c: Config, s: System, id: EventId)
    requires Enabled(c, s, Requeue(id))
    ensures var s' := Apply(c, s, Requeue(id));
            var r, r' := s.rows[id], s'.rows[id];
            && r'.status == Pending && r'.retryCount == 0 && r'.error == None && r'.nextAttemptAt == None
            && r'.leaseOwner == None && r'.leaseExpiresAt == None
            && r'.event == r.event && r'.processedAt == r.processedAt
            && OthersKept(s, s', id) && s'.submitted == s.submitted && s'.runs == s.runs
            && (forall t :: Claimable(c, t, r') <==> c.maxRetries > 0)
  {
  }

  /** A claim takes exactly its events: processing, leased to its owner until a lease from its start, error cleared. */
  lemma ClaimTakes(c: Config, s: System, step: Step, id: EventId)
    requires Enabled(c, s, step) && step.Claim? && id in s.rows
    ensures var s' := Apply(c, s, step);
            var r, r' := s.rows[id], s'.rows[id];
            && s'.rows.Keys == s.rows.Keys && s'.submitted == s.submitted
            && (id !in step.ids ==> r' == r)
            && (id in step.ids ==>
                  && r'.status == Processing && r'.leaseOwner == Some(step.owner)
                  && r'.leaseExpiresAt == Some(step.base + c.leaseTtlMs) && r'.error == None
                  && r'.event == r.event && r'.retryCount == r.retryCount && r'.nextAttemptAt == r.nextAttemptAt
                  && r'.processedAt == r.processedAt)
  {
  }

  /** Nothing is claimed before it is due, under somebody's live lease, without retries left, or twice at once. */
  lemma ClaimsAreDue(c: Config, s: System, step: Step, id: EventId)
    requires Enabled(c, s, step) && step.Claim? && id in step.ids
    ensures && id in s.rows && id !in step.locked
            && s.rows[id].retryCount < c.maxRetries
            && (s.rows[id].status == Pending || s.rows[id].status == Failed)
            && (s.rows[id].status == Failed && s.rows[id].nextAttemptAt.Some? ==> s.rows[id].nextAttemptAt.value <= s.now)
            && (s.rows[id].status == Failed && s.rows[id].leaseOwner.Some? ==>
                  s.rows[id].leaseExpiresAt.Some? && s.rows[id].leaseExpiresAt.value < s.now)
  {
  }

  /** Unlocked claimable events are claimed oldest first: none is passed over for a younger one. */
  lemma OldestIsClaimed(c: Config, s: System, step: Step, id: EventId, younger: EventId)
    requires Enabled(c, s, step) && step.Claim?
    requires id in s.rows && id !in step.locked && Claimable(c, s.now, s.rows[id])
    requires younger in step.ids && s.rows[id].event.createdAt < s.rows[younger].event.createdAt
    ensures id in step.ids
  {
  }

  /** A claim stops short of the batch size only when nothing claimable is left. */
  lemma ClaimsFillTheBatch(c: Config, s: System, step: Step)
    requires Enabled(c, s, step) && step.Claim?
    ensures |step.ids| <= c.batchSize
    ensures |step.ids| < c.batchSize ==>
              forall id :: id in s.rows && id !in step.locked && Claimable(c, s.now, s.rows[id]) ==> id in step.ids
  {
  }

  /** The fast path's mark and a worker's report of success write status and time, and leave even a lease alone. */
  lemma ReportsFinish(c: Config, s: System, step: Step)
    requires Enabled(c, s, step) && (step.FastMark? || step.WorkerDone?)
    ensures var s' := Apply(c, s, step);
            var r, r' := s.rows[step.id], s'.rows[step.id];
            && r'.status == Processed && r'.processedAt == Some(s.now)
            && r'.leaseOwner == r.leaseOwner && r'.leaseExpiresAt == r.leaseExpiresAt
            && r'.event == r.event && r'.retryCount == r.retryCount && r'.nextAttemptAt == r.nextAttemptAt && r'.error == r.error
            && OthersKept(s, s', step.id) && s'.submitted == s.submitted && s'.runs == s.runs
  {
  }

  /** The delay starts at a second and doubles with every retry until it reaches a minute. */
  lemma BackoffDoubles(n: Pos)
    ensures BackoffMs(1) == 1000
    ensures BackoffMs(n + 1) == if 2 * BackoffMs(n) < 60000 then 2 * BackoffMs(n) else 60000
  {
  }

  // ----- In which order and to which queue -----

  /** The claimed events are the table's, each once, in order of creation. */
  ghost predicate InOrder(s: System, b: BatchRun) {
    && (forall i :: 0 <= i < |b.claimed| ==>
          b.claimed[i].id in s.rows && s.rows[b.claimed[i].id].event == b.claimed[i].event)
    && (forall i, j :: 0 <= i < j < |b.claimed| ==>
          b.claimed[i].id != b.claimed[j].id && b.claimed[i].event.createdAt <= b.claimed[j].event.createdAt)
  }

  ghost predicate RoutedJob(s: System, sub: Submission) {
    sub.origin in s.rows && FaithfulJob(sub.origin, s.rows[sub.origin].event, sub.job)
  }

  ghost predicate DispatchInv(s: System) {
    && (forall r :: r in s.runs ==> InOrder(s, s.runs[r]))
    && (forall k :: 0 <= k < |s.submitted| ==> RoutedJob(s, s.submitted[k]))
  }

  lemma OrderFollows(s: System, s': System, step: Step, r: RunId, b: BatchRun)
    requires Extends(s, s') && RunMoves(s, step, r, b) && (r in s.runs ==> InOrder(s, s.runs[r]))
    requires step.Claim? ==>
               forall i, j :: 0 <= i < j < |step.ids| ==>
                                && step.ids[i] in s.rows && step.ids[j] in s.rows && step.ids[i] != step.ids[j]
                                && s.rows[step.ids[i]].event.createdAt <= s.rows[step.ids[j]].event.createdAt
    ensures InOrder(s', b)
  {
  }

  lemma RunStaysInOrder(c: Config, s: System, step: Step, r: RunId)
    requires DispatchInv(s) && Enabled(c, s, step) && r in Apply(c, s, step).runs
    ensures InOrder(Apply(c, s, step), Apply(c, s, step).runs[r])
  {
    var s' := Apply(c, s, step);
    StepExtends(c, s, step);
    StepMovesRuns(c, s, step);
    OrderFollows(s, s', step, r, s'.runs[r]);
  }

  lemma JobsStayRouted(c: Config, s: System, step: Step)
    requires DispatchInv(s) && Enabled(c, s, step)
    ensures forall k :: 0 <= k < |Apply(c, s, step).submitted| ==> RoutedJob(Apply(c, s, step), Apply(c, s, step).submitted[k])
  {
    StepExtends(c, s, step);
    assert step.Enqueue? ==> InOrder(s, s.runs[step.run]);
  }

  lemma {:induction false} DispatchHolds(c: Config, steps: seq<Step>)
    requires ValidRun(c, steps)
    ensures DispatchInv(Exec(c, steps))
  {
    if steps != [] {
      var n := |steps| - 1;
      var s := Exec(c, steps[..n]);
      DispatchHolds(c, steps[..n]);
      forall r | r in Exec(c, steps).runs
        ensures InOrder(Exec(c, steps), Exec(c, steps).runs[r])
      {
        RunStaysInOrder(c, s, steps[n], r);
      }
      JobsStayRouted(c, s, steps[n]);
    }
  }

  /** In every run, a batch run has its events before it in order of creation, none twice. */
  lemma OldestIsDispatchedFirst(c: Config, steps: seq<Step>, run: RunId, i: nat, j: nat)
    requires ValidRun(c, steps) && run in Exec(c, steps).runs
    requires i < j < |Exec(c, steps).runs[run].claimed|
    ensures var s := Exec(c, steps);
            var x, y := s.runs[run].claimed[i].id, s.runs[run].claimed[j].id;
            x != y && x in s.rows && y in s.rows && s.rows[x].event.createdAt <= s.rows[y].event.createdAt
  {
    DispatchHolds(c, steps);
    assert InOrder(Exec(c, steps), Exec(c, steps).runs[run]);
  }

  /**
   In every run, whichever path submitted it and whatever its payload says: uploads are scanned, clean
   ones parsed, all else goes to intelligence as a match or an embedding, and unknown types go nowhere.
   */
  lemma EachTypeHasItsQueue(c: Config, steps: seq<Step>, k: nat)
    requires ValidRun(c, steps) && k < |Exec(c, steps).submitted|
    ensures var s := Exec(c, steps);
            var sub := s.submitted[k];
            && sub.origin in s.rows
            && var t, job := s.rows[sub.origin].event.eventType, sub.job;
               && !t.Other?
               && (job.queue == MalwareScan <==> t == ResumeUploaded)
               && (job.queue == ResumeParsing <==> t == ResumeCleaned)
               && (job.queue == Intelligence ==>
                     "type" in job.data && job.data["type"] == if t == ResumeParsed then "MATCH_RESUME" else "GENERATE_EMBEDDING")
  {
    DispatchHolds(c, steps);
    assert RoutedJob(Exec(c, steps), Exec(c, steps).submitted[k]);
  }
}
