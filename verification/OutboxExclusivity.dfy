/**
 Claim exclusivity: no two batch runs ever hold the same event, whatever publishers and workers write to
 the status column and however old the leases, exactly as long as every held event stays guarded: it is not
 requeued, and once a worker has marked it failed its lease lasts.
 */
module OutboxExclusivity {
  import opened Wrappers
  import opened OutboxModel

  /** A held event is not up for a first claim, and if it failed it is still leased. */
  ghost predicate Guarded(s: System, h: Snapshot) {
    && h.id in s.rows
    && s.rows[h.id].leaseOwner.Some? && s.rows[h.id].leaseExpiresAt.Some?
    && s.rows[h.id].status != Pending
    && (s.rows[h.id].status == Failed ==> LeaseCovers(s.rows[h.id], s.now))
  }

  ghost predicate AllGuarded(s: System) {
    forall r, i :: r in s.runs && 0 <= i < |s.runs[r].claimed| ==> Guarded(s, s.runs[r].claimed[i])
  }

  /** The claimed sets are pairwise disjoint and no run holds an event twice. */
  ghost predicate Exclusive(s: System) {
    forall r1, i, r2, j ::
      r1 in s.runs && 0 <= i < |s.runs[r1].claimed| && r2 in s.runs && 0 <= j < |s.runs[r2].claimed|
      && s.runs[r1].claimed[i].id == s.runs[r2].claimed[j].id
      ==> r1 == r2 && i == j
  }

  /** A guarded event cannot be selected by the claim query. */
  lemma GuardedIsNotClaimable(c: Config, s: System, h: Snapshot)
    requires Guarded(s, h)
    ensures !Claimable(c, s.now, s.rows[h.id])
  {
  }

  predicate Settles(s: System, step: Step, id: EventId) {
    (step.Settle? || step.WriteFailure?) && ActiveRun(s, step.run) && Head(s, step.run).id == id
  }

  /** Publishers and workers leave leases alone; only these steps change one. */
  lemma LeaseChanges(c: Config, s: System, step: Step, id: EventId)
    requires Enabled(c, s, step) && id in s.rows
    ensures var s' := Apply(c, s, step);
            && id in s'.rows
            && (|| step == Requeue(id)
                || Settles(s, step, id)
                || (&& step.Claim? && id in step.ids
                    && s'.rows[id].leaseOwner == Some(step.owner)
                    && s'.rows[id].leaseExpiresAt == Some(step.base + c.leaseTtlMs)
                    && s'.rows[id].status == Processing)
                || (&& s'.rows[id].leaseOwner == s.rows[id].leaseOwner
                    && s'.rows[id].leaseExpiresAt == s.rows[id].leaseExpiresAt))
  {
  }

  /** Only an insert or requeue makes a row pending, and only a failure report or failure write makes it failed. */
  lemma StatusChanges(c: Config, s: System, step: Step, id: EventId)
    requires Enabled(c, s, step) && id in s.rows
    ensures var s' := Apply(c, s, step);
            && id in s'.rows
            && (s'.rows[id].status == Pending ==> s.rows[id].status == Pending || step == Requeue(id))
            && (s'.rows[id].status == Failed ==>
                  s.rows[id].status == Failed || Settles(s, step, id) || (step.WorkerFail? && step.id == id && !step.permanent))
  {
  }

  /** Position `i` of run `r` after the step was claimed just now, or held before at some position. */
  ghost predicate HeldBefore(s: System, step: Step, s': System, r: RunId, i: nat, i0: nat)
    requires r in s'.runs && i < |s'.runs[r].claimed|
  {
    && r in s.runs && i0 < |s.runs[r].claimed|
    && s'.runs[r].claimed[i] == s.runs[r].claimed[i0]
    && (i0 == i || i0 == i + 1)
    && (i0 == i + 1 <==> (step.Settle? || step.WriteFailure?) && step.run == r)
  }

  ghost predicate JustClaimed(s: System, step: Step, s': System, r: RunId, i: nat)
    requires r in s'.runs && i < |s'.runs[r].claimed|
  {
    step.Claim? && step.run == r && r !in s.runs && i < |step.ids| && s'.runs[r].claimed[i].id == step.ids[i]
  }

  lemma Origin(c: Config, s: System, step: Step, r: RunId, i: nat) returns (i0: nat)
    requires Enabled(c, s, step)
    requires r in Apply(c, s, step).runs && i < |Apply(c, s, step).runs[r].claimed|
    ensures var s' := Apply(c, s, step);
            JustClaimed(s, step, s', r, i) || HeldBefore(s, step, s', r, i, i0)
  {
    i0 := if (step.Settle? || step.WriteFailure?) && step.run == r then i + 1 else i;
  }

  /** An event in flight after a step was in flight before it or has just been claimed. */
  lemma FlightOrigin(c: Config, s: System, step: Step, id: EventId)
    requires Enabled(c, s, step)
    ensures InFlight(Apply(c, s, step), id) ==> InFlight(s, id) || (step.Claim? && id in step.ids)
    ensures Settles(s, step, id) ==> InFlight(s, id)
  {
  }

  lemma StepKeepsExclusive(c: Config, s: System, step: Step)
    requires AllGuarded(s) && Exclusive(s) && Enabled(c, s, step)
    ensures Exclusive(Apply(c, s, step))
  {
    var s' := Apply(c, s, step);
    forall r1, i: nat, r2, j: nat |
      r1 in s'.runs && i < |s'.runs[r1].claimed| && r2 in s'.runs && j < |s'.runs[r2].claimed|
      && s'.runs[r1].claimed[i].id == s'.runs[r2].claimed[j].id
      ensures r1 == r2 && i == j
    {
      var i0 := Origin(c, s, step, r1, i);
      var j0 := Origin(c, s, step, r2, j);
      if HeldBefore(s, step, s', r1, i, i0) {
        GuardedIsNotClaimable(c, s, s.runs[r1].claimed[i0]);
      }
      if HeldBefore(s, step, s', r2, j, j0) {
        GuardedIsNotClaimable(c, s, s.runs[r2].claimed[j0]);
      }
    }
  }

  lemma StepKeepsGuards(c: Config, s: System, step: Step)
    requires AllGuarded(s) && Exclusive(s) && Enabled(c, s, step) && TimelyStep(s, step)
    ensures AllGuarded(Apply(c, s, step))
  {
    var s' := Apply(c, s, step);
    forall r, i: nat | r in s'.runs && i < |s'.runs[r].claimed|
      ensures Guarded(s', s'.runs[r].claimed[i])
    {
      var i0 := Origin(c, s, step, r, i);
      var h := s'.runs[r].claimed[i];
      LeaseChanges(c, s, step, h.id);
      if HeldBefore(s, step, s', r, i, i0) {
        assert Guarded(s, s.runs[r].claimed[i0]);
        assert InFlight(s, h.id);
        KeepsGuard(c, s, step, h);
      }
    }
  }

  lemma KeepsGuard(c: Config, s: System, step: Step, h: Snapshot)
    requires Guarded(s, h) && InFlight(s, h.id) && Enabled(c, s, step) && TimelyStep(s, step)
    requires !Settles(s, step, h.id)
    ensures Guarded(Apply(c, s, step), h)
  {
    GuardedIsNotClaimable(c, s, h);
    LeaseChanges(c, s, step, h.id);
    StatusChanges(c, s, step, h.id);
  }

  /** The step takes the guard off an event in flight. */
  ghost predicate Exposes(s: System, step: Step, id: EventId) {
    && id in s.rows && InFlight(s, id)
    && match step
       case Tick(to) => s.rows[id].status == Failed && !LeaseCovers(s.rows[id], to)
       case WorkerFail(x, permanent, _) => x == id && !permanent && !LeaseCovers(s.rows[id], s.now)
       case Requeue(x) => x == id
       case _ => false
  }

  lemma TimelyExposesNothing(c: Config, s: System, step: Step)
    requires Enabled(c, s, step)
    ensures TimelyStep(s, step) <==> forall id :: !Exposes(s, step, id)
  {
    if step.Tick? && !TimelyStep(s, step) {
      var id :| id in s.rows && InFlight(s, id) && s.rows[id].status == Failed && !LeaseCovers(s.rows[id], step.to);
      assert Exposes(s, step, id);
    } else if !TimelyStep(s, step) {
      assert Exposes(s, step, step.id);
    }
  }

  lemma StillInFlight(c: Config, s: System, step: Step, id: EventId)
    requires Enabled(c, s, step) && Exposes(s, step, id)
    ensures InFlight(Apply(c, s, step), id)
  {
    var r, i :| r in s.runs && 0 <= i < |s.runs[r].claimed| && s.runs[r].claimed[i].id == id;
    assert Apply(c, s, step).runs[r].claimed[i].id == id;
  }

  lemma ExposedIsUnguarded(c: Config, s: System, step: Step, id: EventId)
    requires Enabled(c, s, step) && Exposes(s, step, id)
    ensures !AllGuarded(Apply(c, s, step))
  {
    var s' := Apply(c, s, step);
    StillInFlight(c, s, step, id);
    var r, i :| r in s'.runs && 0 <= i < |s'.runs[r].claimed| && s'.runs[r].claimed[i].id == id;
    assert !Guarded(s', s'.runs[r].claimed[i]);
  }

  /** A step keeps every held event guarded exactly when it is timely. */
  lemma StepKeepsGuardsIff(c: Config, s: System, step: Step)
    requires AllGuarded(s) && Exclusive(s) && Enabled(c, s, step)
    ensures AllGuarded(Apply(c, s, step)) <==> TimelyStep(s, step)
  {
    TimelyExposesNothing(c, s, step);
    if TimelyStep(s, step) {
      StepKeepsGuards(c, s, step);
    } else {
      var id :| Exposes(s, step, id);
      ExposedIsUnguarded(c, s, step, id);
    }
  }

  /** Held events are guarded after every prefix of the run. */
  ghost predicate AlwaysGuarded(c: Config, steps: seq<Step>)
    requires ValidRun(c, steps)
  {
    AllGuarded(Exec(c, steps)) && (steps != [] ==> AlwaysGuarded(c, steps[..|steps| - 1]))
  }

  /** A run keeps every held event guarded throughout exactly when it is timely. */
  lemma {:induction false} TimelyIff(c: Config, steps: seq<Step>)
    requires ValidRun(c, steps)
    ensures Timely(c, steps) <==> AlwaysGuarded(c, steps)
  {
    if steps != [] {
      var n := |steps| - 1;
      TimelyIff(c, steps[..n]);
      if Timely(c, steps[..n]) {
        ClaimsAreExclusive(c, steps[..n]);
        StepKeepsGuardsIff(c, Exec(c, steps[..n]), steps[n]);
      }
    }
  }

  // ----- An unguarded event is shared -----

  /** In any state: a held event that the claim query accepts can be claimed by any new run. */
  lemma HeldClaimableIsShared(c: Config, s: System, run: RunId, id: EventId)
    requires c.batchSize > 0 && id in s.rows && InFlight(s, id) && Claimable(c, s.now, s.rows[id]) && run !in s.runs
    ensures var claim := Claim(run, "d", s.now, s.rows.Keys - {id}, [id]);
            Enabled(c, s, claim) && !Exclusive(Apply(c, s, claim))
  {
    var claim := Claim(run, "d", s.now, s.rows.Keys - {id}, [id]);
    var r, i :| r in s.runs && 0 <= i < |s.runs[r].claimed| && s.runs[r].claimed[i].id == id;
    var s' := Apply(c, s, claim);
    assert s'.runs[r].claimed[i].id == id && s'.runs[run].claimed[0].id == id;
  }

  /** The time by which a row is due. */
  function DueBy(r: Row, now: int): int {
    if r.nextAttemptAt.Some? && r.nextAttemptAt.value > now then r.nextAttemptAt.value else now
  }

  /** A failed row with retries left becomes claimable once its lease and its due time have passed. */
  lemma FailedBecomesClaimable(c: Config, r: Row, now: int)
    requires r.status == Failed && r.leaseExpiresAt.Some? && r.retryCount < c.maxRetries && !LeaseCovers(r, now)
    ensures forall t :: t >= DueBy(r, now) ==> Claimable(c, t, r)
  {
  }

  /** What exposing an event leaves: it is pending, or failed with its lease over. */
  lemma ExposedRow(c: Config, s: System, step: Step, id: EventId)
    requires AllGuarded(s) && Enabled(c, s, step) && Exposes(s, step, id)
    ensures var s' := Apply(c, s, step);
            && id in s'.rows
            && (s'.rows[id].status == Pending
                || (s'.rows[id].status == Failed && s'.rows[id].leaseExpiresAt.Some? && !LeaseCovers(s'.rows[id], s'.now)))
  {
    var r, i :| r in s.runs && 0 <= i < |s.runs[r].claimed| && s.runs[r].claimed[i].id == id;
    assert Guarded(s, s.runs[r].claimed[i]);
  }

  /**
   After any run with guarded events, a step that exposes one with retries left loses exclusivity: the
   event waits for its due time at most, and any new run can claim it beside its holder.
   */
  lemma ExposedIsShared(c: Config, steps: seq<Step>, step: Step, id: EventId, run: RunId) returns (t: int, shared: seq<Step>)
    requires c.batchSize > 0 && ValidRun(c, steps) && AllGuarded(Exec(c, steps)) && run !in Exec(c, steps).runs
    requires var s := Exec(c, steps);
             && Enabled(c, s, step) && Exposes(s, step, id)
             && id in Apply(c, s, step).rows && Apply(c, s, step).rows[id].retryCount < c.maxRetries
    ensures t >= Apply(c, Exec(c, steps), step).now
    ensures shared == steps + [step] + [Tick(t)] + [Claim(run, "d", t, Exec(c, steps).rows.Keys - {id}, [id])]
    ensures ValidRun(c, shared) && !Exclusive(Exec(c, shared))
  {
    var s := Exec(c, steps);
    var s1 := Apply(c, s, step);
    Snoc(c, steps, step);
    ExposedRow(c, s, step, id);
    StillInFlight(c, s, step, id);
    t := DueBy(s1.rows[id], s1.now);
    if s1.rows[id].status == Failed {
      FailedBecomesClaimable(c, s1.rows[id], s1.now);
    }
    Snoc(c, steps + [step], Tick(t));
    WaitKeepsFlight(c, s1, t, id);
    var s2 := Apply(c, s1, Tick(t));
    assert s2.rows.Keys == s.rows.Keys;
    HeldClaimableIsShared(c, s2, run, id);
    var claim := Claim(run, "d", t, s2.rows.Keys - {id}, [id]);
    Snoc(c, steps + [step] + [Tick(t)], claim);
    shared := steps + [step] + [Tick(t)] + [claim];
  }

  lemma WaitKeepsFlight(c: Config, s: System, t: int, id: EventId)
    requires s.now <= t && InFlight(s, id)
    ensures InFlight(Apply(c, s, Tick(t)), id) && Apply(c, s, Tick(t)).rows == s.rows
  {
    var r, i :| r in s.runs && 0 <= i < |s.runs[r].claimed| && s.runs[r].claimed[i].id == id;
    assert Apply(c, s, Tick(t)).runs[r].claimed[i].id == id;
  }

  /** Claim exclusivity over every timely run, including overlapping runs of one process. */
  lemma {:induction false} ClaimsAreExclusive(c: Config, steps: seq<Step>)
    requires ValidRun(c, steps) && Timely(c, steps)
    ensures Exclusive(Exec(c, steps)) && AllGuarded(Exec(c, steps))
  {
    if steps != [] {
      var n := |steps| - 1;
      ClaimsAreExclusive(c, steps[..n]);
      StepKeepsExclusive(c, Exec(c, steps[..n]), steps[n]);
      StepKeepsGuards(c, Exec(c, steps[..n]), steps[n]);
    }
  }

  // ----- Without failing workers the leases do not matter -----

  /** No worker reports a failure that could be retried. */
  ghost predicate NoRetryableFailures(steps: seq<Step>) {
    forall k :: 0 <= k < |steps| && steps[k].WorkerFail? ==> steps[k].permanent
  }

  ghost predicate NoneFailed(s: System) {
    forall id :: id in s.rows && InFlight(s, id) ==> s.rows[id].status != Failed
  }

  lemma StepKeepsNoneFailed(c: Config, s: System, step: Step)
    requires AllGuarded(s) && Exclusive(s) && NoneFailed(s) && Enabled(c, s, step)
    requires step.WorkerFail? ==> step.permanent
    ensures NoneFailed(Apply(c, s, step))
  {
    var s' := Apply(c, s, step);
    forall r, i: nat | r in s'.runs && i < |s'.runs[r].claimed| && s'.runs[r].claimed[i].id in s'.rows
      ensures s'.rows[s'.runs[r].claimed[i].id].status != Failed
    {
      var i0 := Origin(c, s, step, r, i);
      var id := s'.runs[r].claimed[i].id;
      LeaseChanges(c, s, step, id);
      if HeldBefore(s, step, s', r, i, i0) {
        assert Guarded(s, s.runs[r].claimed[i0]);
        assert InFlight(s, id);
        StatusChanges(c, s, step, id);
        assert !Settles(s, step, id);
      }
    }
  }

  /** Leases may be of any age: exclusivity needs only that workers report no retryable failure. */
  lemma {:induction false} ExclusiveWithoutFailures(c: Config, steps: seq<Step>)
    requires ValidRun(c, steps) && NoRetryableFailures(steps) && RequeuesIdle(c, steps)
    ensures Timely(c, steps) && NoneFailed(Exec(c, steps))
    ensures Exclusive(Exec(c, steps)) && AllGuarded(Exec(c, steps))
  {
    if steps != [] {
      var n := |steps| - 1;
      ExclusiveWithoutFailures(c, steps[..n]);
      StepKeepsExclusive(c, Exec(c, steps[..n]), steps[n]);
      StepKeepsGuards(c, Exec(c, steps[..n]), steps[n]);
      StepKeepsNoneFailed(c, Exec(c, steps[..n]), steps[n]);
    }
  }
}
