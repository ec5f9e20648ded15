/**
 What the outbox does not give: rows left `processing` are never claimed again, and none of the
 assumptions of the exclusivity and retry results can be dropped.
 */
module OutboxLimits {
  import opened Wrappers
  import opened OutboxModel
  import opened OutboxExclusivity
  import opened OutboxRetries

  /** The steps that may rewrite the status of an event no batch run holds. */
  predicate Touches(step: Step, id: EventId) {
    match step
    case FastMark(x) => x == id
    case WorkerDone(x) => x == id
    case WorkerFail(x, _, _) => x == id
    case Requeue(x) => x == id
    case _ => false
  }

  /** Whatever its lease says and however much time passes, a `processing` row is not claimable. */
  lemma {:induction false} AbandonedStaysProcessing(c: Config, steps: seq<Step>, m: nat, id: EventId)
    requires m <= |steps| && ValidRun(c, steps) && ValidRun(c, steps[..m])
    requires id in Exec(c, steps[..m]).rows && Exec(c, steps[..m]).rows[id].status == Processing
    requires !InFlight(Exec(c, steps[..m]), id)
    requires forall k :: m <= k < |steps| ==> !Touches(steps[k], id)
    ensures var s := Exec(c, steps);
            id in s.rows && s.rows[id].status == Processing && !InFlight(s, id)
  {
    var n := |steps| - 1;
    if m <= n {
      assert steps[..n][..m] == steps[..m];
      AbandonedStaysProcessing(c, steps[..n], m, id);
      NobodyPicksItUp(c, Exec(c, steps[..n]), steps[n], id);
    } else {
      assert steps[..m] == steps;
    }
  }

  lemma NobodyPicksItUp(c: Config, s: System, step: Step, id: EventId)
    requires Enabled(c, s, step) && !Touches(step, id)
    requires id in s.rows && s.rows[id].status == Processing && !InFlight(s, id)
    ensures var s' := Apply(c, s, step);
            id in s'.rows && s'.rows[id].status == Processing && !InFlight(s', id)
  {
    FlightOrigin(c, s, step, id);
    assert !Settles(s, step, id);
  }

  // ----- Runs over a table of one row -----

  /** A row of the event that no dispatcher has a hold on. */
  function Free(e: Event, status: Status, error: Option<string>, processedAt: Option<int>): Row {
    Row(e, status, 0, None, None, None, error, processedAt)
  }

  /** The table holds this row alone. */
  ghost predicate OnlyRow(s: System, id: EventId, row: Row) {
    s.rows == map[id := row]
  }

  /** Adding a possible, timely step to a timely run. */
  lemma SnocTimely(c: Config, steps: seq<Step>, step: Step)
    requires ValidRun(c, steps) && Timely(c, steps)
    requires Enabled(c, Exec(c, steps), step) && TimelyStep(Exec(c, steps), step)
    ensures ValidRun(c, steps + [step]) && Timely(c, steps + [step])
    ensures Exec(c, steps + [step]) == Apply(c, Exec(c, steps), step)
  {
    Snoc(c, steps, step);
    assert (steps + [step])[..|steps|] == steps;
  }

  /** Claiming the only row. */
  lemma ClaimOnlyRow(c: Config, s: System, run: RunId, id: EventId, row: Row)
    requires c.batchSize > 0 && Claimable(c, s.now, row) && OnlyRow(s, id, row) && run !in s.runs
    ensures Enabled(c, s, Claim(run, "d", s.now, {}, [id]))
    ensures Apply(c, s, Claim(run, "d", s.now, {}, [id]))
            == s.(rows := map[id := Claimed(row, "d", s.now + c.leaseTtlMs)],
                  runs := s.runs[run := BatchRun([Snapshot(id, row.event)], Ready)])
  {
    assert Selects(c, s.now, s.rows, {}, [id]);
    assert Snapshots(s.rows, [id]) == [Snapshot(id, row.event)];
    assert ClaimRows(s.rows, [id], "d", s.now + c.leaseTtlMs) == map[id := Claimed(row, "d", s.now + c.leaseTtlMs)];
  }

  function FailedByWorker(row: Row): Row {
    row.(status := Failed, error := Some("boom"))
  }

  /** A worker failing the only row. */
  lemma FailOnlyRow(c: Config, s: System, id: EventId, row: Row)
    requires OnlyRow(s, id, row) && HasJobFor(s, id)
    ensures Enabled(c, s, WorkerFail(id, false, "boom"))
    ensures Apply(c, s, WorkerFail(id, false, "boom")) == s.(rows := map[id := FailedByWorker(row)])
    ensures s.runs == map[] || LeaseCovers(row, s.now) ==> TimelyStep(s, WorkerFail(id, false, "boom"))
  {
  }

  lemma BumpOnlyRow(c: Config, s: System, id: EventId, row: Row)
    requires OnlyRow(s, id, row) && HasJobFor(s, id)
    ensures Enabled(c, s, WorkerBump(id))
    ensures Apply(c, s, WorkerBump(id)) == s.(rows := map[id := row.(retryCount := row.retryCount + 1)])
  {
  }

  /** A failed row whose lease is over is up for a claim. */
  lemma FailedIsClaimable(c: Config, e: Event, now: int)
    requires c.maxRetries > 0 && now > c.leaseTtlMs
    ensures Claimable(c, now, FailedByWorker(Claimed(Free(e, Pending, None, None), "d", c.leaseTtlMs)))
  {
  }

  lemma InsertOnly(c: Config, id: EventId, e: Event) returns (steps: seq<Step>)
    requires id != ""
    ensures steps == [Insert(id, e)] && ValidRun(c, steps) && Timely(c, steps)
    ensures Exec(c, steps) == Initial().(rows := map[id := Free(e, Pending, None, None)])
  {
    SnocTimely(c, [], Insert(id, e));
    steps := [] + [Insert(id, e)];
  }

  /** An event whose fast path submitted a job and then lost its status write. */
  lemma SubmitOnly(c: Config, id: EventId, e: Event) returns (steps: seq<Step>)
    requires id != "" && Route(e.eventType).Some?
    ensures steps == [Insert(id, e), FastEnqueue(id)] && ValidRun(c, steps) && Timely(c, steps)
    ensures var s := Exec(c, steps);
            OnlyRow(s, id, Free(e, Pending, None, None)) && s.runs == map[] && s.now == 0 && HasJobFor(s, id)
  {
    var inserted := InsertOnly(c, id, e);
    SnocTimely(c, inserted, FastEnqueue(id));
    steps := inserted + [FastEnqueue(id)];
    assert ReportsTo(Exec(c, steps).submitted[0].job) == Some(id);
  }

  // ----- What failing workers do to the accounting -----

  /** The run is timely, requeues nothing and counts no retry of a worker. */
  ghost predicate Plain(c: Config, steps: seq<Step>) {
    ValidRun(c, steps) && Timely(c, steps) && NoRequeues(steps)
    && forall k :: 0 <= k < |steps| ==> !steps[k].WorkerBump?
  }

  /** The only row rests with nobody, after k claims and f failure reports. */
  ghost predicate Resting(c: Config, steps: seq<Step>, id: EventId, row: Row, k: nat, f: nat) {
    && Plain(c, steps) && Claims(steps, id) == k && Failures(steps, id) == f
    && var s := Exec(c, steps);
       OnlyRow(s, id, row) && s.runs == map[] && HasJobFor(s, id)
  }

  /** The row is up for a claim once due, with m retries counted, as long as that leaves any. */
  predicate Waiting(c: Config, row: Row, e: Event, m: nat) {
    && row.event == e && row.retryCount == m && row.leaseOwner == None
    && (m < c.maxRetries ==> row.status == Pending || row.status == Failed)
  }

  lemma RestingStart(c: Config, id: EventId, e: Event) returns (steps: seq<Step>)
    requires id != "" && Route(e.eventType).Some?
    ensures Resting(c, steps, id, Free(e, Pending, None, None), 0, 0) && Exec(c, steps).now == 0
  {
    steps := SubmitOnly(c, id, e);
    CountsAfter([], Insert(id, e), id);
    CountsAfter([Insert(id, e)], FastEnqueue(id), id);
    assert [] + [Insert(id, e)] == [Insert(id, e)] && [Insert(id, e)] + [FastEnqueue(id)] == steps;
  }

  /** A fast-path job whose worker fails leaves `failed` with no retry counted and no due time. */
  lemma WorkersBypassAccounting(c: Config, id: EventId, e: Event) returns (steps: seq<Step>)
    requires id != "" && Route(e.eventType).Some?
    ensures Resting(c, steps, id, Free(e, Failed, Some("boom"), None), 0, 1) && Exec(c, steps).now == 0
  {
    var queued := RestingStart(c, id, e);
    FailOnlyRow(c, Exec(c, queued), id, Free(e, Pending, None, None));
    SnocPlain(c, queued, WorkerFail(id, false, "boom"), id);
    steps := queued + [WorkerFail(id, false, "boom")];
    JobStays(Exec(c, queued), Exec(c, steps), id);
  }

  /** One dispatch that succeeds: claim, submit, settle. */
  lemma DispatchOnlyRow(c: Config, s: System, id: EventId, row: Row) returns (t: System)
    requires c.batchSize > 0 && Claimable(c, s.now, row) && OnlyRow(s, id, row) && s.runs == map[]
    requires Route(row.event.eventType).Some?
    ensures Leads(c, s, Claim(0, "d", s.now, {}, [id]), Enqueue(0), Settle(0), t)
    ensures OnlyRow(t, id, SettledRow(Claimed(row, "d", s.now + c.leaseTtlMs), s.now))
    ensures t.runs == map[] && s.submitted <= t.submitted
  {
    ClaimOnlyRow(c, s, 0, id, row);
    var claimed := Apply(c, s, Claim(0, "d", s.now, {}, [id]));
    var queued := Apply(c, claimed, Enqueue(0));
    assert queued.runs == map[0 := BatchRun([Snapshot(id, row.event)], Enqueued)];
    t := Apply(c, queued, Settle(0));
    assert t.runs == map[];
  }

  lemma SnocPlain(c: Config, steps: seq<Step>, step: Step, id: EventId)
    requires Plain(c, steps) && Enabled(c, Exec(c, steps), step) && TimelyStep(Exec(c, steps), step)
    requires !step.Requeue? && !step.WorkerBump?
    ensures Plain(c, steps + [step]) && Exec(c, steps + [step]) == Apply(c, Exec(c, steps), step)
    ensures Claims(steps + [step], id) == Claims(steps, id) + if step.Claim? && id in step.ids then 1 else 0
    ensures Failures(steps + [step], id)
            == Failures(steps, id) + if step.WorkerFail? && step.id == id && !step.permanent then 1 else 0
  {
    SnocTimely(c, steps, step);
    CountsAfter(steps, step, id);
  }

  /** A step of a batch run, which every run may take at any time. */
  predicate OfBatch(step: Step) {
    step.Enqueue? || step.Settle? || step.ReadRetry? || step.WriteFailure?
  }

  /** From s, claiming the event and two more steps of its batch run are possible and lead to t. */
  ghost predicate Leads(c: Config, s: System, claim: Step, second: Step, third: Step, t: System) {
    && claim.Claim? && OfBatch(second) && OfBatch(third)
    && Enabled(c, s, claim)
    && Enabled(c, Apply(c, s, claim), second)
    && Enabled(c, Apply(c, Apply(c, s, claim), second), third)
    && t == Apply(c, Apply(c, Apply(c, s, claim), second), third)
  }

  lemma OneClaim(c: Config, before: seq<Step>, claim: Step, second: Step, third: Step, t: System, id: EventId) returns (steps: seq<Step>)
    requires Plain(c, before) && Leads(c, Exec(c, before), claim, second, third, t) && id in claim.ids
    ensures Plain(c, steps) && Exec(c, steps) == t
    ensures Claims(steps, id) == Claims(before, id) + 1 && Failures(steps, id) == Failures(before, id)
  {
    SnocPlain(c, before, claim, id);
    SnocPlain(c, before + [claim], second, id);
    SnocPlain(c, before + [claim] + [second], third, id);
    steps := before + [claim] + [second] + [third];
  }

  /** One claim later the row rests again. */
  lemma RestsAgain(c: Config, before: seq<Step>, second: Step, third: Step, t: System, id: EventId, row: Row, next: Row, k: nat, f: nat)
    returns (steps: seq<Step>)
    requires Resting(c, before, id, row, k, f)
    requires var s := Exec(c, before);
             Leads(c, s, Claim(0, "d", s.now, {}, [id]), second, third, t) && s.submitted <= t.submitted
    requires OnlyRow(t, id, next) && t.runs == map[]
    ensures Resting(c, steps, id, next, k + 1, f)
  {
    var s := Exec(c, before);
    JobStays(s, t, id);
    steps := OneClaim(c, before, Claim(0, "d", s.now, {}, [id]), second, third, t, id);
  }

  lemma FailedRun(c: Config, before: seq<Step>, id: EventId, row: Row, k: nat, f: nat) returns (steps: seq<Step>)
    requires Resting(c, before, id, row, k, f)
    ensures Resting(c, steps, id, FailedByWorker(row), k, f + 1) && Exec(c, steps).now == Exec(c, before).now
  {
    FailOnlyRow(c, Exec(c, before), id, row);
    SnocPlain(c, before, WorkerFail(id, false, "boom"), id);
    steps := before + [WorkerFail(id, false, "boom")];
    JobStays(Exec(c, before), Exec(c, steps), id);
  }

  /** Once around: the row is claimed and dispatched, and its worker fails. */
  lemma DispatchAndFail(c: Config, before: seq<Step>, id: EventId, row: Row, k: nat, f: nat) returns (steps: seq<Step>, failed: Row)
    requires c.batchSize > 0 && Route(row.event.eventType).Some? && Resting(c, before, id, row, k, f)
    requires Claimable(c, Exec(c, before).now, row)
    ensures Resting(c, steps, id, failed, k + 1, f + 1)
    ensures failed.nextAttemptAt == row.nextAttemptAt && Waiting(c, failed, row.event, row.retryCount)
  {
    var now := Exec(c, before).now;
    var done := SettledRow(Claimed(row, "d", now + c.leaseTtlMs), now);
    var t := DispatchOnlyRow(c, Exec(c, before), id, row);
    var settled := RestsAgain(c, before, Enqueue(0), Settle(0), t, id, row, done, k, f);
    steps := FailedRun(c, settled, id, done, k + 1, f);
    failed := FailedByWorker(done);
    FailedWaits(c, row, now);
  }

  lemma FailedWaits(c: Config, row: Row, now: int)
    ensures var failed := FailedByWorker(SettledRow(Claimed(row, "d", now + c.leaseTtlMs), now));
            failed.nextAttemptAt == row.nextAttemptAt && Waiting(c, failed, row.event, row.retryCount)
  {
  }

  lemma {:induction false} UncountedRun(c: Config, id: EventId, e: Event, k: nat) returns (steps: seq<Step>, row: Row)
    requires c.batchSize > 0 && c.maxRetries > 0 && id != "" && Route(e.eventType).Some?
    ensures Resting(c, steps, id, row, k, k) && Waiting(c, row, e, 0) && row.nextAttemptAt == None
  {
    if k == 0 {
      steps := RestingStart(c, id, e);
      row := Free(e, Pending, None, None);
    } else {
      var before, waiting := UncountedRun(c, id, e, k - 1);
      steps, row := DispatchAndFail(c, before, id, waiting, k - 1, k - 1);
    }
  }

  /** With failing workers there is no fixed budget: for every k, k dispatches without requeue and no retry counted. */
  lemma NoBudgetWithFailures(c: Config, id: EventId, e: Event, k: nat) returns (steps: seq<Step>)
    requires c.batchSize > 0 && c.maxRetries > 0 && id != "" && Route(e.eventType).Some?
    ensures ValidRun(c, steps) && Timely(c, steps) && NoRequeues(steps)
    ensures Claims(steps, id) == k && id in Exec(c, steps).rows && Exec(c, steps).rows[id].retryCount == 0
  {
    var row;
    steps, row := UncountedRun(c, id, e, k);
  }

  /** One dispatch that fails: claim, read the retry count, write the failure. */
  lemma AbortOnlyRow(c: Config, s: System, id: EventId, row: Row) returns (t: System)
    requires c.batchSize > 0 && Claimable(c, s.now, row) && OnlyRow(s, id, row) && s.runs == map[]
    ensures Leads(c, s, Claim(0, "d", s.now, {}, [id]), ReadRetry(0), WriteFailure(0, "boom"), t)
    ensures OnlyRow(t, id, FailedRow(c, Claimed(row, "d", s.now + c.leaseTtlMs), row.retryCount + 1, s.now, "boom"))
    ensures t.runs == map[] && t.submitted == s.submitted
  {
    ClaimOnlyRow(c, s, 0, id, row);
    var claimed := Apply(c, s, Claim(0, "d", s.now, {}, [id]));
    var asked := Apply(c, claimed, ReadRetry(0));
    assert asked.runs == map[0 := BatchRun([Snapshot(id, row.event)], RetryRead(row.retryCount + 1))];
    t := Apply(c, asked, WriteFailure(0, "boom"));
    assert t.runs == map[];
  }

  lemma WaitedRun(c: Config, before: seq<Step>, id: EventId, row: Row, k: nat, f: nat, t: int) returns (steps: seq<Step>)
    requires Resting(c, before, id, row, k, f) && t >= Exec(c, before).now
    ensures Resting(c, steps, id, row, k, f) && Exec(c, steps).now == t
  {
    SnocPlain(c, before, Tick(t), id);
    steps := before + [Tick(t)];
    JobStays(Exec(c, before), Exec(c, steps), id);
  }

  /** The waiting row comes due and its dispatch fails, which costs one claim and one retry. */
  lemma CountedFailure(c: Config, before: seq<Step>, id: EventId, row: Row, e: Event, k: nat, f: nat) returns (steps: seq<Step>, failed: Row)
    requires c.batchSize > 0 && Resting(c, before, id, row, k, f)
    requires Waiting(c, row, e, row.retryCount) && row.retryCount < c.maxRetries
    ensures Resting(c, steps, id, failed, k + 1, f) && Waiting(c, failed, e, row.retryCount + 1)
  {
    var due := WaitedRun(c, before, id, row, k, f, DueBy(row, Exec(c, before).now));
    var now := Exec(c, due).now;
    failed := FailedRow(c, Claimed(row, "d", now + c.leaseTtlMs), row.retryCount + 1, now, "boom");
    var t := AbortOnlyRow(c, Exec(c, due), id, row);
    steps := RestsAgain(c, due, ReadRetry(0), WriteFailure(0, "boom"), t, id, row, failed, k, f);
  }

  lemma {:induction false} CountedRun(c: Config, id: EventId, e: Event, f: nat, m: nat) returns (steps: seq<Step>, row: Row)
    requires c.batchSize > 0 && m <= c.maxRetries && c.maxRetries > 0 && id != "" && Route(e.eventType).Some?
    ensures Resting(c, steps, id, row, f + m, f) && Waiting(c, row, e, m)
  {
    if m == 0 {
      steps, row := UncountedRun(c, id, e, f);
    } else {
      var before, waiting := CountedRun(c, id, e, f, m - 1);
      steps, row := CountedFailure(c, before, id, waiting, e, f + m - 1, f);
    }
  }

  /** The budget is used up exactly: for every f, a run with f failure reports and `maxRetries` + f claims. */
  lemma BudgetIsTight(c: Config, id: EventId, e: Event, f: nat) returns (steps: seq<Step>)
    requires c.batchSize > 0 && c.maxRetries > 0 && id != "" && Route(e.eventType).Some?
    ensures ValidRun(c, steps) && Timely(c, steps) && NoRequeues(steps)
    ensures Failures(steps, id) == f && Claims(steps, id) == c.maxRetries + f
  {
    var row;
    steps, row := CountedRun(c, id, e, f, c.maxRetries);
  }

  /** Retries that workers count are nobody's claims: for every k, a retry count of k with no dispatch at all. */
  lemma {:induction false} BumpsAreNotClaims(c: Config, id: EventId, e: Event, k: nat) returns (steps: seq<Step>)
    requires id != "" && Route(e.eventType).Some?
    ensures ValidRun(c, steps) && Timely(c, steps) && NoRequeues(steps) && Claims(steps, id) == 0
    ensures var s := Exec(c, steps);
            HasJobFor(s, id) && OnlyRow(s, id, Free(e, Pending, None, None).(retryCount := k))
  {
    if k == 0 {
      steps := SubmitOnly(c, id, e);
      assert steps[..1][..0] == [];
      assert Claims(steps[..1], id) == 0;
    } else {
      var before := BumpsAreNotClaims(c, id, e, k - 1);
      BumpOnlyRow(c, Exec(c, before), id, Free(e, Pending, None, None).(retryCount := k - 1));
      SnocTimely(c, before, WorkerBump(id));
      steps := before + [WorkerBump(id)];
      JobStays(Exec(c, before), Exec(c, steps), id);
      ClaimsAfter(before, WorkerBump(id), id);
    }
  }

  /** A worker's permanent failure leaves a dead row with no retry counted. */
  lemma PermanentFailureIsUncounted(c: Config, id: EventId, e: Event) returns (steps: seq<Step>)
    requires id != "" && Route(e.eventType).Some?
    ensures ValidRun(c, steps) && Timely(c, steps) && NoRequeues(steps) && NoRetryableFailures(steps)
    ensures OnlyRow(Exec(c, steps), id, Free(e, Dlq, Some("boom"), None))
  {
    var queued := SubmitOnly(c, id, e);
    SnocTimely(c, queued, WorkerFail(id, true, "boom"));
    steps := queued + [WorkerFail(id, true, "boom")];
  }

  // ----- Every half of the timeliness is needed -----

  /** A claimed event with a job in the queue. */
  lemma ClaimedWithJob(c: Config, id: EventId, e: Event) returns (steps: seq<Step>)
    requires c.batchSize > 0 && c.maxRetries > 0 && id != "" && Route(e.eventType).Some?
    ensures ValidRun(c, steps) && Timely(c, steps) && NoRequeues(steps)
    ensures var s := Exec(c, steps);
            && OnlyRow(s, id, Claimed(Free(e, Pending, None, None), "d", c.leaseTtlMs))
            && s.runs == map[0 := BatchRun([Snapshot(id, e)], Ready)] && s.now == 0 && HasJobFor(s, id)
  {
    var queued := SubmitOnly(c, id, e);
    var s := Exec(c, queued);
    ClaimOnlyRow(c, s, 0, id, s.rows[id]);
    SnocTimely(c, queued, Claim(0, "d", 0, {}, [id]));
    steps := queued + [Claim(0, "d", 0, {}, [id])];
    assert Exec(c, steps).submitted == s.submitted;
  }

  /** A second run claims the event that run 0 still holds. */
  lemma SecondClaimShares(c: Config, steps: seq<Step>, id: EventId, row: Row) returns (shared: seq<Step>)
    requires c.batchSize > 0 && ValidRun(c, steps)
    requires var s := Exec(c, steps);
             OnlyRow(s, id, row) && Claimable(c, s.now, row) && s.runs == map[0 := BatchRun([Snapshot(id, row.event)], Ready)]
    ensures shared == steps + [Claim(1, "d", Exec(c, steps).now, {}, [id])]
    ensures ValidRun(c, shared) && !Exclusive(Exec(c, shared))
  {
    var s := Exec(c, steps);
    assert s.runs[0].claimed[0].id == id && s.rows.Keys - {id} == {};
    HeldClaimableIsShared(c, s, 1, id);
    Snoc(c, steps, Claim(1, "d", s.now, {}, [id]));
    shared := steps + [Claim(1, "d", s.now, {}, [id])];
  }

  /** A claimed event that its worker failed. */
  lemma FailedInFlight(c: Config, id: EventId, e: Event) returns (steps: seq<Step>)
    requires c.batchSize > 0 && c.maxRetries > 0 && id != "" && Route(e.eventType).Some?
    ensures ValidRun(c, steps) && Timely(c, steps) && NoRequeues(steps)
    ensures var s := Exec(c, steps);
            && OnlyRow(s, id, FailedByWorker(Claimed(Free(e, Pending, None, None), "d", c.leaseTtlMs)))
            && s.runs == map[0 := BatchRun([Snapshot(id, e)], Ready)] && s.now == 0
  {
    var held := ClaimedWithJob(c, id, e);
    FailOnlyRow(c, Exec(c, held), id, Claimed(Free(e, Pending, None, None), "d", c.leaseTtlMs));
    SnocTimely(c, held, WorkerFail(id, false, "boom"));
    steps := held + [WorkerFail(id, false, "boom")];
  }

  /** A failed event in flight whose lease then runs out is shared: only the tick is not timely. */
  lemma OverstayedLeaseIsShared(c: Config, id: EventId, e: Event) returns (timely: seq<Step>, steps: seq<Step>)
    requires c.batchSize > 0 && c.maxRetries > 0 && id != "" && Route(e.eventType).Some?
    ensures ValidRun(c, timely) && Timely(c, timely) && NoRequeues(timely)
    ensures steps == timely + [Tick(c.leaseTtlMs + 1), Claim(1, "d", c.leaseTtlMs + 1, {}, [id])]
    ensures ValidRun(c, steps) && !Exclusive(Exec(c, steps))
  {
    timely := FailedInFlight(c, id, e);
    Snoc(c, timely, Tick(c.leaseTtlMs + 1));
    FailedIsClaimable(c, e, c.leaseTtlMs + 1);
    steps := SecondClaimShares(c, timely + [Tick(c.leaseTtlMs + 1)], id,
                               FailedByWorker(Claimed(Free(e, Pending, None, None), "d", c.leaseTtlMs)));
  }

  lemma ExpiredInFlight(c: Config, id: EventId, e: Event) returns (steps: seq<Step>)
    requires c.batchSize > 0 && c.maxRetries > 0 && id != "" && Route(e.eventType).Some?
    ensures ValidRun(c, steps) && Timely(c, steps) && NoRequeues(steps)
    ensures var s := Exec(c, steps);
            && OnlyRow(s, id, Claimed(Free(e, Pending, None, None), "d", c.leaseTtlMs)) && HasJobFor(s, id)
            && s.runs == map[0 := BatchRun([Snapshot(id, e)], Ready)] && s.now == c.leaseTtlMs + 1
  {
    var held := ClaimedWithJob(c, id, e);
    SnocTimely(c, held, Tick(c.leaseTtlMs + 1));
    steps := held + [Tick(c.leaseTtlMs + 1)];
    JobStays(Exec(c, held), Exec(c, steps), id);
  }

  /** An event in flight that a worker fails after its lease ran out is shared: only the failure is not timely. */
  lemma LateFailureIsShared(c: Config, id: EventId, e: Event) returns (timely: seq<Step>, steps: seq<Step>)
    requires c.batchSize > 0 && c.maxRetries > 0 && id != "" && Route(e.eventType).Some?
    ensures ValidRun(c, timely) && Timely(c, timely) && NoRequeues(timely)
    ensures steps == timely + [WorkerFail(id, false, "boom"), Claim(1, "d", c.leaseTtlMs + 1, {}, [id])]
    ensures ValidRun(c, steps) && !Exclusive(Exec(c, steps))
  {
    timely := ExpiredInFlight(c, id, e);
    var row := Claimed(Free(e, Pending, None, None), "d", c.leaseTtlMs);
    FailOnlyRow(c, Exec(c, timely), id, row);
    Snoc(c, timely, WorkerFail(id, false, "boom"));
    FailedIsClaimable(c, e, c.leaseTtlMs + 1);
    steps := SecondClaimShares(c, timely + [WorkerFail(id, false, "boom")], id, FailedByWorker(row));
  }

  /** A claimed event that was requeued in flight. */
  lemma RequeuedInFlight(c: Config, id: EventId, e: Event) returns (timely: seq<Step>, steps: seq<Step>)
    requires c.batchSize > 0 && c.maxRetries > 0 && id != ""
    ensures ValidRun(c, timely) && Timely(c, timely) && NoWorkerFailures(timely) && NoRequeues(timely)
    ensures steps == timely + [Requeue(id)] && ValidRun(c, steps)
    ensures var s := Exec(c, steps);
            && OnlyRow(s, id, Free(e, Pending, None, None)) && s.now == 0
            && s.runs == map[0 := BatchRun([Snapshot(id, e)], Ready)]
  {
    var inserted := InsertOnly(c, id, e);
    var s := Exec(c, inserted);
    ClaimOnlyRow(c, s, 0, id, s.rows[id]);
    SnocTimely(c, inserted, Claim(0, "d", 0, {}, [id]));
    timely := inserted + [Claim(0, "d", 0, {}, [id])];
    Snoc(c, timely, Requeue(id));
    steps := timely + [Requeue(id)];
  }

  /** An event requeued in flight is shared, without any worker. */
  lemma InFlightRequeueIsShared(c: Config, id: EventId, e: Event) returns (timely: seq<Step>, steps: seq<Step>)
    requires c.batchSize > 0 && c.maxRetries > 0 && id != ""
    ensures ValidRun(c, timely) && Timely(c, timely) && NoWorkerFailures(timely) && NoRequeues(timely)
    ensures steps == timely + [Requeue(id), Claim(1, "d", 0, {}, [id])]
    ensures ValidRun(c, steps) && !Exclusive(Exec(c, steps))
  {
    var requeued;
    timely, requeued := RequeuedInFlight(c, id, e);
    steps := SecondClaimShares(c, requeued, id, Free(e, Pending, None, None));
  }

  /** And it breaks the accounting: its old run still counts a retry, so a retry stands against no claim. */
  lemma InFlightRequeueMiscounts(c: Config, id: EventId, e: Event) returns (timely: seq<Step>, steps: seq<Step>)
    requires c.batchSize > 0 && c.maxRetries > 0 && id != ""
    ensures ValidRun(c, timely) && Timely(c, timely) && NoWorkerFailures(timely) && NoRequeues(timely)
    ensures steps == timely + [Requeue(id), ReadRetry(0), WriteFailure(0, "boom")]
    ensures ValidRun(c, steps) && Claims(steps, id) == 0
    ensures var s := Exec(c, steps); id in s.rows && s.rows[id].retryCount == 1 && !InFlight(s, id)
  {
    var requeued;
    timely, requeued := RequeuedInFlight(c, id, e);
    RequeueForgets(timely, id);
    var s := Exec(c, requeued);
    CountOnlyRow(c, s, id, e);
    Snoc(c, requeued, ReadRetry(0));
    var read := requeued + [ReadRetry(0)];
    ClaimsAfter(requeued, ReadRetry(0), id);
    Snoc(c, read, WriteFailure(0, "boom"));
    steps := read + [WriteFailure(0, "boom")];
    ClaimsAfter(read, WriteFailure(0, "boom"), id);
  }

  lemma RequeueForgets(steps: seq<Step>, id: EventId)
    ensures Claims(steps + [Requeue(id)], id) == 0
  {
  }

  lemma CountOnlyRow(c: Config, s: System, id: EventId, e: Event)
    requires OnlyRow(s, id, Free(e, Pending, None, None)) && s.runs == map[0 := BatchRun([Snapshot(id, e)], Ready)]
    ensures Enabled(c, s, ReadRetry(0)) && Enabled(c, Apply(c, s, ReadRetry(0)), WriteFailure(0, "boom"))
    ensures var s' := Apply(c, Apply(c, s, ReadRetry(0)), WriteFailure(0, "boom"));
            s'.rows.Keys == {id} && s'.rows[id].retryCount == 1 && s'.runs == map[]
  {
    assert Apply(c, s, ReadRetry(0)).runs == map[0 := BatchRun([Snapshot(id, e)], RetryRead(1))];
  }
}
