/**
 Retry accounting: a dispatch attempt is a claim, and between requeues an event is claimed at most
 `maxRetries` times plus once for every retryable failure its workers report. While no worker fails or
 counts a retry itself, every retry count is exact.
 */
module OutboxRetries {
  import opened Wrappers
  import opened Powers
  import opened OutboxModel
  import opened OutboxExclusivity

  /** How often the event was claimed since it was last requeued. */
  function Claims(steps: seq<Step>, id: EventId): nat {
    if steps == [] then 0
    else
      var n := |steps| - 1;
      match steps[n]
      case Requeue(x) => if x == id then 0 else Claims(steps[..n], id)
      case Claim(_, _, _, _, ids) => Claims(steps[..n], id) + if id in ids then 1 else 0
      case _ => Claims(steps[..n], id)
  }

  /** What a row's retry count and status say about the number of claims. */
  ghost predicate RowAccounts(c: Config, r: Row, inFlight: bool, claims: nat) {
    && r.retryCount <= c.maxRetries
    && claims <= c.maxRetries
    && (inFlight ==>
          claims == r.retryCount + 1 && (r.status == Processing || r.status == Processed))
    && (!inFlight && (r.status == Pending || r.status == Failed || r.status == Dlq) ==>
          claims == r.retryCount)
    && (!inFlight ==> claims <= r.retryCount + 1)
    && (r.status == Failed ==> 0 < r.retryCount < c.maxRetries && r.nextAttemptAt.Some?)
    && (r.status == Dlq ==> r.retryCount == c.maxRetries && r.nextAttemptAt == None)
  }

  ghost predicate ReadsAreFresh(s: System) {
    forall r :: ActiveRun(s, r) && s.runs[r].phase.RetryRead? ==>
                  Head(s, r).id in s.rows
                  && s.runs[r].phase.newRetryCount == s.rows[Head(s, r).id].retryCount + 1
  }

  ghost predicate Accounted(c: Config, s: System, steps: seq<Step>) {
    && ReadsAreFresh(s)
    && (forall id :: id in s.rows ==> RowAccounts(c, s.rows[id], InFlight(s, id), Claims(steps, id)))
    && (forall id :: id !in s.rows ==> Claims(steps, id) == 0)
  }

  /** An event enters flight by a claim and leaves it by being settled or abandoned. */
  lemma FlightChanges(c: Config, s: System, step: Step, id: EventId)
    requires Enabled(c, s, step) && AllGuarded(s) && Exclusive(s)
    ensures var s' := Apply(c, s, step);
            var claimed := step.Claim? && id in step.ids;
            && (claimed ==> !InFlight(s, id) && InFlight(s', id))
            && (InFlight(s', id) ==> InFlight(s, id) || claimed)
            && (Settles(s, step, id) ==> InFlight(s, id) && !InFlight(s', id))
            && (InFlight(s, id) && !InFlight(s', id) ==> Settles(s, step, id) || step.Abandon?)
  {
    var s' := Apply(c, s, step);
    if step.Claim? && id in step.ids {
      var i :| 0 <= i < |step.ids| && step.ids[i] == id;
      assert s'.runs[step.run].claimed[i].id == id;
    }
    FlightOrigin(c, s, step, id);
    if Settles(s, step, id) {
      LeavesFlight(c, s, step, id);
    }
    if InFlight(s, id) && !Settles(s, step, id) && !step.Abandon? {
      StaysInFlight(c, s, step, id);
    }
  }

  lemma LeavesFlight(c: Config, s: System, step: Step, id: EventId)
    requires Enabled(c, s, step) && Exclusive(s) && Settles(s, step, id)
    ensures !InFlight(Apply(c, s, step), id)
  {
  }

  lemma StaysInFlight(c: Config, s: System, step: Step, id: EventId)
    requires Enabled(c, s, step) && InFlight(s, id) && !Settles(s, step, id) && !step.Abandon?
    ensures InFlight(Apply(c, s, step), id)
  {
    var s' := Apply(c, s, step);
    var r, i :| r in s.runs && 0 <= i < |s.runs[r].claimed| && s.runs[r].claimed[i].id == id;
    if (step.Settle? || step.WriteFailure?) && step.run == r {
      assert s'.runs[r].claimed[i - 1].id == id;
    } else {
      assert s'.runs[r].claimed[i].id == id;
    }
  }

  /** Unless a worker fails, only a failure write or a requeue touches a retry count. */
  lemma RetryCountChanges(c: Config, s: System, step: Step, id: EventId)
    requires Enabled(c, s, step) && !IsWorkerFailure(step) && id in s.rows
    ensures var s' := Apply(c, s, step);
            id in s'.rows
            && (s'.rows[id].retryCount == s.rows[id].retryCount
                || step == Requeue(id)
                || (step.WriteFailure? && Settles(s, step, id)))
  {
  }

  lemma StepKeepsReads(c: Config, s: System, step: Step)
    requires Enabled(c, s, step) && TimelyStep(s, step) && !IsWorkerFailure(step)
    requires AllGuarded(s) && Exclusive(s) && ReadsAreFresh(s)
    ensures ReadsAreFresh(Apply(c, s, step))
  {
    var s' := Apply(c, s, step);
    forall r | ActiveRun(s', r) && s'.runs[r].phase.RetryRead?
      ensures Head(s', r).id in s'.rows
              && s'.runs[r].phase.newRetryCount == s'.rows[Head(s', r).id].retryCount + 1
    {
      var id := Head(s', r).id;
      assert s'.runs[r].claimed == s.runs[r].claimed;
      assert Guarded(s, s.runs[r].claimed[0]);
      RetryCountChanges(c, s, step, id);
      assert InFlight(s, id);
      if Settles(s, step, id) {
        assert s.runs[step.run].claimed[0].id == s.runs[r].claimed[0].id;
      }
    }
  }

  lemma StepKeepsRow(c: Config, s: System, steps: seq<Step>, step: Step, id: EventId)
    requires Enabled(c, s, step) && TimelyStep(s, step) && !IsWorkerFailure(step)
    requires AllGuarded(s) && Exclusive(s) && Accounted(c, s, steps) && id in Apply(c, s, step).rows
    ensures var s' := Apply(c, s, step);
            RowAccounts(c, s'.rows[id], InFlight(s', id), Claims(steps + [step], id))
  {
    var s' := Apply(c, s, step);
    assert (steps + [step])[..|steps|] == steps;
    FlightChanges(c, s, step, id);
    if id !in s.rows {
      assert !InFlight(s, id);
    } else {
      assert RowAccounts(c, s.rows[id], InFlight(s, id), Claims(steps, id));
    }
  }

  lemma {:induction false} RetriesAreAccounted(c: Config, steps: seq<Step>)
    requires ValidRun(c, steps) && NoWorkerFailures(steps) && RequeuesIdle(c, steps)
    ensures Accounted(c, Exec(c, steps), steps)
  {
    if steps != [] {
      var n := |steps| - 1;
      var s, step := Exec(c, steps[..n]), steps[n];
      RetriesAreAccounted(c, steps[..n]);
      ExclusiveWithoutFailures(c, steps);
      ExclusiveWithoutFailures(c, steps[..n]);
      StepKeepsReads(c, s, step);
      assert steps[..n] + [step] == steps;
      forall id | id in Apply(c, s, step).rows
        ensures RowAccounts(c, Exec(c, steps).rows[id], InFlight(Exec(c, steps), id), Claims(steps, id))
      {
        StepKeepsRow(c, s, steps[..n], step, id);
      }
    }
  }

  /** While no worker fails, a row's status pins its retry count, and a dead row has used up its claims. */
  lemma StatusPinsRetries(c: Config, steps: seq<Step>, id: EventId)
    requires ValidRun(c, steps) && NoWorkerFailures(steps) && RequeuesIdle(c, steps) && id in Exec(c, steps).rows
    ensures var r := Exec(c, steps).rows[id];
            && (r.status == Failed ==> 0 < r.retryCount < c.maxRetries && r.nextAttemptAt.Some?)
            && (r.status == Dlq ==> r.retryCount == c.maxRetries == Claims(steps, id))
  {
    RetriesAreAccounted(c, steps);
  }

  // ----- The budget of claims, whatever workers do -----

  /** How often workers reported a retryable failure of the event since it was last requeued. */
  function Failures(steps: seq<Step>, id: EventId): nat {
    if steps == [] then 0
    else
      var n := |steps| - 1;
      match steps[n]
      case Requeue(x) => if x == id then 0 else Failures(steps[..n], id)
      case WorkerFail(x, permanent, _) => Failures(steps[..n], id) + if x == id && !permanent then 1 else 0
      case _ => Failures(steps[..n], id)
  }

  /** A row's claims against its retry count and its workers' failures. */
  predicate WithinBudget(c: Config, r: Row, claims: nat, failures: nat) {
    && claims <= c.maxRetries + failures
    && claims <= r.retryCount + 1 + failures
    && (r.status == Pending || r.status == Failed ==> claims <= r.retryCount + failures)
  }

  ghost predicate Budgeted(c: Config, s: System, steps: seq<Step>) {
    && (forall id :: id in s.rows ==> WithinBudget(c, s.rows[id], Claims(steps, id), Failures(steps, id)))
    && (forall r :: ActiveRun(s, r) && s.runs[r].phase.RetryRead? ==>
                      Claims(steps, Head(s, r).id) <= s.runs[r].phase.newRetryCount + Failures(steps, Head(s, r).id))
    && (forall id :: id !in s.rows ==> Claims(steps, id) == 0)
  }

  /** How one step changes the two counts. */
  lemma CountsAfter(steps: seq<Step>, step: Step, id: EventId)
    ensures Claims(steps + [step], id)
            == if step == Requeue(id) then 0 else Claims(steps, id) + if step.Claim? && id in step.ids then 1 else 0
    ensures Failures(steps + [step], id)
            == if step == Requeue(id) then 0
               else Failures(steps, id) + if step.WorkerFail? && step.id == id && !step.permanent then 1 else 0
  {
    assert (steps + [step])[..|steps|] == steps;
  }

  lemma StepKeepsBudget(c: Config, s: System, steps: seq<Step>, step: Step, id: EventId)
    requires Budgeted(c, s, steps) && Enabled(c, s, step) && id in Apply(c, s, step).rows
    ensures WithinBudget(c, Apply(c, s, step).rows[id], Claims(steps + [step], id), Failures(steps + [step], id))
  {
    CountsAfter(steps, step, id);
  }

  lemma StepKeepsReadBudget(c: Config, s: System, steps: seq<Step>, step: Step, r: RunId)
    requires Budgeted(c, s, steps) && Enabled(c, s, step) && TimelyStep(s, step) && AllGuarded(s) && Exclusive(s)
    requires var s' := Apply(c, s, step); ActiveRun(s', r) && s'.runs[r].phase.RetryRead?
    ensures var s' := Apply(c, s, step);
            Claims(steps + [step], Head(s', r).id)
            <= s'.runs[r].phase.newRetryCount + Failures(steps + [step], Head(s', r).id)
  {
    var s' := Apply(c, s, step);
    var id := Head(s', r).id;
    assert s'.runs[r].claimed == s.runs[r].claimed;
    CountsAfter(steps, step, id);
    assert Guarded(s, s.runs[r].claimed[0]);
    assert InFlight(s, id);
    GuardedIsNotClaimable(c, s, s.runs[r].claimed[0]);
  }

  lemma {:induction false} BudgetHolds(c: Config, steps: seq<Step>)
    requires ValidRun(c, steps) && Timely(c, steps)
    ensures Budgeted(c, Exec(c, steps), steps)
  {
    if steps != [] {
      var n := |steps| - 1;
      var s, step := Exec(c, steps[..n]), steps[n];
      var s' := Apply(c, s, step);
      BudgetHolds(c, steps[..n]);
      ClaimsAreExclusive(c, steps[..n]);
      assert steps[..n] + [step] == steps;
      forall id | id in s'.rows
        ensures WithinBudget(c, s'.rows[id], Claims(steps, id), Failures(steps, id))
      {
        StepKeepsBudget(c, s, steps[..n], step, id);
      }
      forall r | ActiveRun(s', r) && s'.runs[r].phase.RetryRead?
        ensures Claims(steps, Head(s', r).id) <= s'.runs[r].phase.newRetryCount + Failures(steps, Head(s', r).id)
      {
        StepKeepsReadBudget(c, s, steps[..n], step, r);
      }
      forall id | id !in s'.rows
        ensures Claims(steps, id) == 0
      {
        CountsAfter(steps[..n], step, id);
      }
    }
  }

  /** Between requeues an event is claimed at most `maxRetries` times, plus once per retryable worker failure. */
  lemma RetryBudget(c: Config, steps: seq<Step>, id: EventId)
    requires ValidRun(c, steps) && Timely(c, steps)
    ensures Claims(steps, id) <= c.maxRetries + Failures(steps, id)
  {
    BudgetHolds(c, steps);
  }

  lemma {:induction false} NoFailures(steps: seq<Step>, id: EventId)
    requires NoRetryableFailures(steps)
    ensures Failures(steps, id) == 0
  {
    if steps != [] {
      NoFailures(steps[..|steps| - 1], id);
    }
  }

  /** Without retryable failures, whatever else workers do and however old leases grow, `maxRetries` is the limit. */
  lemma PlainBudget(c: Config, steps: seq<Step>, id: EventId)
    requires ValidRun(c, steps) && NoRetryableFailures(steps) && RequeuesIdle(c, steps)
    ensures Claims(steps, id) <= c.maxRetries
  {
    ExclusiveWithoutFailures(c, steps);
    RetryBudget(c, steps, id);
    NoFailures(steps, id);
  }

  /** Successive delays never shrink and stay within one second and one minute. */
  lemma BackoffIsBounded(a: Pos, b: Pos)
    requires a <= b
    ensures BASE_RETRY_DELAY_MS <= BackoffMs(a) <= BackoffMs(b) <= MAX_RETRY_DELAY_MS
  {
    Pow2Monotone(a - 1, b - 1);
  }

  // ----- A run without requeues dispatches a bounded number of times -----

  function Inserted(steps: seq<Step>): seq<EventId> {
    if steps == [] then []
    else
      var n := |steps| - 1;
      Inserted(steps[..n]) + if steps[n].Insert? then [steps[n].id] else []
  }

  /** The number of dispatch attempts: one per event of every claim. */
  function Attempts(steps: seq<Step>): nat {
    if steps == [] then 0
    else
      var n := |steps| - 1;
      Attempts(steps[..n]) + if steps[n].Claim? then |steps[n].ids| else 0
  }

  function SumClaims(steps: seq<Step>, ids: seq<EventId>): nat {
    if ids == [] then 0 else SumClaims(steps, ids[..|ids| - 1]) + Claims(steps, ids[|ids| - 1])
  }

  ghost predicate Distinct(ids: seq<EventId>) {
    forall i, j :: 0 <= i < j < |ids| ==> ids[i] != ids[j]
  }

  function Members(ids: seq<EventId>): set<EventId> {
    set id | id in ids
  }

  lemma DistinctSize(ids: seq<EventId>)
    requires Distinct(ids)
    ensures |Members(ids)| == |ids|
  {
    if ids != [] {
      var n := |ids| - 1;
      DistinctSize(ids[..n]);
      assert ids == ids[..n] + [ids[n]];
      assert Members(ids) == Members(ids[..n]) + {ids[n]};
      assert ids[n] !in ids[..n];
    }
  }

  /** How many of the events are in a set. */
  function CountIn(ids: seq<EventId>, claimed: set<EventId>): nat {
    if ids == [] then 0
    else CountIn(ids[..|ids| - 1], claimed) + if ids[|ids| - 1] in claimed then 1 else 0
  }

  lemma {:induction false} CountInDistinct(ids: seq<EventId>, claimed: set<EventId>)
    requires Distinct(ids)
    ensures CountIn(ids, claimed) == |Members(ids) * claimed|
  {
    if ids != [] {
      var n := |ids| - 1;
      CountInDistinct(ids[..n], claimed);
      assert ids == ids[..n] + [ids[n]];
      assert ids[n] !in ids[..n];
      var before := Members(ids[..n]) * claimed;
      if ids[n] in claimed {
        assert Members(ids) * claimed == before + {ids[n]};
      } else {
        assert Members(ids) * claimed == before;
      }
    }
  }

  lemma ClaimsAfter(steps: seq<Step>, step: Step, id: EventId)
    requires !step.Requeue?
    ensures Claims(steps + [step], id) == Claims(steps, id) + if step.Claim? && id in Members(step.ids) then 1 else 0
  {
  }

  /** A claim adds one to each of its events and leaves the other events alone. */
  lemma {:induction false} SumAfter(steps: seq<Step>, step: Step, ids: seq<EventId>)
    requires !step.Requeue?
    ensures SumClaims(steps + [step], ids)
            == SumClaims(steps, ids) + if step.Claim? then CountIn(ids, Members(step.ids)) else 0
  {
    if ids != [] {
      var n := |ids| - 1;
      SumAfter(steps, step, ids[..n]);
      ClaimsAfter(steps, step, ids[n]);
    }
  }

  lemma RowsGrowByInserts(c: Config, s: System, step: Step)
    requires Enabled(c, s, step)
    ensures Apply(c, s, step).rows.Keys == s.rows.Keys + if step.Insert? then {step.id} else {}
  {
  }

  lemma {:induction false} InsertedAreRows(c: Config, steps: seq<Step>)
    requires ValidRun(c, steps)
    ensures Distinct(Inserted(steps)) && Members(Inserted(steps)) == Exec(c, steps).rows.Keys
  {
    if steps != [] {
      var n := |steps| - 1;
      InsertedAreRows(c, steps[..n]);
      RowsGrowByInserts(c, Exec(c, steps[..n]), steps[n]);
      if steps[n].Insert? {
        var ids := Inserted(steps[..n]);
        assert steps[n].id !in Members(ids);
        assert Members(ids + [steps[n].id]) == Members(ids) + {steps[n].id};
      }
    }
  }

  lemma {:induction false} FreshHasNoClaims(c: Config, steps: seq<Step>, id: EventId)
    requires ValidRun(c, steps) && id !in Exec(c, steps).rows
    ensures Claims(steps, id) == 0
  {
    if steps != [] {
      var n := |steps| - 1;
      FreshHasNoClaims(c, steps[..n], id);
    }
  }

  lemma InsertedAfter(steps: seq<Step>, step: Step)
    ensures Inserted(steps + [step]) == Inserted(steps) + if step.Insert? then [step.id] else []
    ensures Attempts(steps + [step]) == Attempts(steps) + if step.Claim? then |step.ids| else 0
  {
  }

  lemma ClaimsAreRows(c: Config, s: System, step: Step)
    requires Enabled(c, s, step) && step.Claim?
    ensures Distinct(step.ids) && Members(step.ids) <= s.rows.Keys
  {
  }

  lemma CountInAll(ids: seq<EventId>, some: seq<EventId>)
    requires Distinct(ids) && Distinct(some) && Members(some) <= Members(ids)
    ensures CountIn(ids, Members(some)) == |some|
  {
    CountInDistinct(ids, Members(some));
    DistinctSize(some);
    assert Members(ids) * Members(some) == Members(some);
  }

  lemma AttemptsAfterClaim(steps: seq<Step>, step: Step)
    requires step.Claim? && Attempts(steps) == SumClaims(steps, Inserted(steps))
    requires Distinct(Inserted(steps)) && Distinct(step.ids) && Members(step.ids) <= Members(Inserted(steps))
    ensures Attempts(steps + [step]) == SumClaims(steps + [step], Inserted(steps + [step]))
  {
    var ids := Inserted(steps);
    InsertedAfter(steps, step);
    SumAfter(steps, step, ids);
    assert Inserted(steps + [step]) == ids;
    CountInAll(ids, step.ids);
  }

  lemma AttemptsAfterInsert(steps: seq<Step>, step: Step)
    requires step.Insert? && Attempts(steps) == SumClaims(steps, Inserted(steps)) && Claims(steps, step.id) == 0
    ensures Attempts(steps + [step]) == SumClaims(steps + [step], Inserted(steps + [step]))
  {
    var ids := Inserted(steps);
    InsertedAfter(steps, step);
    SumAfter(steps, step, ids);
    ClaimsAfter(steps, step, step.id);
    SumOfMore(steps + [step], ids, step.id);
  }

  lemma SumOfMore(steps: seq<Step>, ids: seq<EventId>, id: EventId)
    ensures SumClaims(steps, ids + [id]) == SumClaims(steps, ids) + Claims(steps, id)
  {
  }

  lemma AttemptsAfterOther(steps: seq<Step>, step: Step)
    requires !step.Claim? && !step.Insert? && !step.Requeue? && Attempts(steps) == SumClaims(steps, Inserted(steps))
    ensures Attempts(steps + [step]) == SumClaims(steps + [step], Inserted(steps + [step]))
  {
    InsertedAfter(steps, step);
    SumAfter(steps, step, Inserted(steps));
    assert Inserted(steps + [step]) == Inserted(steps);
  }

  /** One more step keeps the count of attempts equal to the sum of claims. */
  lemma AttemptsStep(c: Config, steps: seq<Step>, step: Step)
    requires ValidRun(c, steps) && Enabled(c, Exec(c, steps), step) && !step.Requeue?
    requires Attempts(steps) == SumClaims(steps, Inserted(steps))
    ensures Attempts(steps + [step]) == SumClaims(steps + [step], Inserted(steps + [step]))
  {
    StepFacts(c, steps, step);
    if step.Claim? {
      AttemptsAfterClaim(steps, step);
    } else if step.Insert? {
      AttemptsAfterInsert(steps, step);
    } else {
      AttemptsAfterOther(steps, step);
    }
  }

  lemma {:induction false} AttemptsAreClaims(c: Config, steps: seq<Step>)
    requires ValidRun(c, steps) && NoRequeues(steps)
    ensures Attempts(steps) == SumClaims(steps, Inserted(steps))
  {
    if steps != [] {
      var n := |steps| - 1;
      AttemptsAreClaims(c, steps[..n]);
      AttemptsStep(c, steps[..n], steps[n]);
      assert steps[..n] + [steps[n]] == steps;
    }
  }

  lemma StepFacts(c: Config, steps: seq<Step>, step: Step)
    requires ValidRun(c, steps) && Enabled(c, Exec(c, steps), step)
    ensures Distinct(Inserted(steps))
    ensures step.Claim? ==> Distinct(step.ids) && Members(step.ids) <= Members(Inserted(steps))
    ensures step.Insert? ==> Claims(steps, step.id) == 0
  {
    InsertedAreRows(c, steps);
    if step.Claim? {
      ClaimsAreRows(c, Exec(c, steps), step);
    } else if step.Insert? {
      FreshHasNoClaims(c, steps, step.id);
    }
  }

  function SumFailures(steps: seq<Step>, ids: seq<EventId>): nat {
    if ids == [] then 0 else SumFailures(steps, ids[..|ids| - 1]) + Failures(steps, ids[|ids| - 1])
  }

  /** The number of retryable failures that workers reported. */
  function FailureReports(steps: seq<Step>): nat {
    if steps == [] then 0
    else
      var n := |steps| - 1;
      FailureReports(steps[..n]) + if steps[n].WorkerFail? && !steps[n].permanent then 1 else 0
  }

  /** A failure counts for one event at most. */
  lemma {:induction false} SumFailuresAfter(steps: seq<Step>, step: Step, ids: seq<EventId>)
    requires !step.Requeue?
    ensures SumFailures(steps + [step], ids)
            == SumFailures(steps, ids) + if step.WorkerFail? && !step.permanent then CountIn(ids, {step.id}) else 0
  {
    if ids != [] {
      SumFailuresAfter(steps, step, ids[..|ids| - 1]);
      CountsAfter(steps, step, ids[|ids| - 1]);
    }
  }

  lemma {:induction false} NothingToSum(ids: seq<EventId>)
    ensures SumFailures([], ids) == 0
  {
    if ids != [] {
      NothingToSum(ids[..|ids| - 1]);
    }
  }

  lemma {:induction false} SumFailuresBounded(steps: seq<Step>, ids: seq<EventId>)
    requires NoRequeues(steps) && Distinct(ids)
    ensures SumFailures(steps, ids) <= FailureReports(steps)
  {
    if steps == [] {
      NothingToSum(ids);
    } else {
      var n := |steps| - 1;
      SumFailuresBounded(steps[..n], ids);
      SumFailuresAfter(steps[..n], steps[n], ids);
      assert steps[..n] + [steps[n]] == steps;
      if steps[n].WorkerFail? {
        CountInDistinct(ids, {steps[n].id});
        assert Members(ids) * {steps[n].id} <= {steps[n].id};
        SubsetSize(Members(ids) * {steps[n].id}, {steps[n].id});
      }
    }
  }

  lemma SubsetSize(a: set<EventId>, b: set<EventId>)
    requires a <= b
    ensures |a| <= |b|
  {
    assert b == a + (b - a);
  }

  lemma {:induction false} SumIsBounded(c: Config, steps: seq<Step>, ids: seq<EventId>)
    requires forall i :: 0 <= i < |ids| ==> Claims(steps, ids[i]) <= c.maxRetries + Failures(steps, ids[i])
    ensures SumClaims(steps, ids) <= |ids| * c.maxRetries + SumFailures(steps, ids)
  {
    if ids != [] {
      SumIsBounded(c, steps, ids[..|ids| - 1]);
      assert |ids| * c.maxRetries == (|ids| - 1) * c.maxRetries + c.maxRetries;
    }
  }

  /** Without requeues, n events cause at most n * maxRetries dispatch attempts plus one per failure report. */
  lemma DispatchesAreBounded(c: Config, steps: seq<Step>)
    requires ValidRun(c, steps) && Timely(c, steps) && NoRequeues(steps)
    ensures Attempts(steps) <= |Exec(c, steps).rows| * c.maxRetries + FailureReports(steps)
  {
    var ids := Inserted(steps);
    AttemptsAreClaims(c, steps);
    InsertedAreRows(c, steps);
    DistinctSize(ids);
    forall i | 0 <= i < |ids|
      ensures Claims(steps, ids[i]) <= c.maxRetries + Failures(steps, ids[i])
    {
      RetryBudget(c, steps, ids[i]);
    }
    SumIsBounded(c, steps, ids);
    SumFailuresBounded(steps, ids);
  }

  lemma {:induction false} NoReports(steps: seq<Step>)
    requires NoRetryableFailures(steps)
    ensures FailureReports(steps) == 0
  {
    if steps != [] {
      NoReports(steps[..|steps| - 1]);
    }
  }

  lemma {:induction false} NoRequeuesAreIdle(c: Config, steps: seq<Step>)
    requires ValidRun(c, steps) && NoRequeues(steps)
    ensures RequeuesIdle(c, steps)
  {
    if steps != [] {
      NoRequeuesAreIdle(c, steps[..|steps| - 1]);
    }
  }

  /** Termination measure: however long the run, n events cause at most n * maxRetries dispatch attempts. */
  lemma DispatchTerminates(c: Config, steps: seq<Step>)
    requires ValidRun(c, steps) && NoRetryableFailures(steps) && NoRequeues(steps)
    ensures Attempts(steps) <= |Exec(c, steps).rows| * c.maxRetries
  {
    NoRequeuesAreIdle(c, steps);
    ExclusiveWithoutFailures(c, steps);
    DispatchesAreBounded(c, steps);
    NoReports(steps);
  }
}
