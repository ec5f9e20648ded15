/** Version fencing and lease mutual exclusion over every run of the durable checkpoint service. */
module LeaseSafety {
  import opened Wrappers
  import opened LeaseModel

  // ----- Version fencing -----

  /** The number of versioned writes to the user's row that took effect during the run. */
  ghost function CommitCount(s: System, steps: seq<Step>, u: UserId): nat
    requires ValidRun(s, steps)
  {
    if steps == [] then 0
    else
      var n := |steps| - 1;
      CommitCount(s, steps[..n], u) + if Commits(Exec(s, steps[..n]), steps[n], u) then 1 else 0
  }

  lemma StepMovesVersion(s: System, step: Step, u: UserId)
    requires Enabled(s, step) && u in s.rows
    ensures u in Apply(s, step).rows
    ensures Apply(s, step).rows[u].version == s.rows[u].version + if Commits(s, step, u) then 1 else 0
  {
  }

  /** Versioned writes form one chain: the version counts exactly the writes that took effect. */
  lemma {:induction false} VersionCountsCommits(s: System, steps: seq<Step>, u: UserId)
    requires ValidRun(s, steps) && u in s.rows
    ensures u in Exec(s, steps).rows
    ensures Exec(s, steps).rows[u].version == s.rows[u].version + CommitCount(s, steps, u)
  {
    if steps != [] {
      var n := |steps| - 1;
      VersionCountsCommits(s, steps[..n], u);
      StepMovesVersion(Exec(s, steps[..n]), steps[n], u);
    }
  }

  lemma {:induction false} BatchesStay(s: System, steps: seq<Step>, b: BatchId)
    requires ValidRun(s, steps) && b in s.batches
    ensures b in Exec(s, steps).batches
  {
    if steps != [] {
      BatchesStay(s, steps[..|steps| - 1], b);
    }
  }

  /**
   An advance that read the row before `between` and writes after it takes effect exactly when no
   initialise, advance or compare-and-set took effect in between; otherwise it changes nothing.
   */
  lemma AdvanceIsFenced(s: System, between: seq<Step>, writer: WorkerId, batchId: BatchId, h: string, next: Option<string>)
    requires ValidRun(s, between) && ReadFor(s, batchId).Some?
    ensures var context := ReadFor(s, batchId).value;
            var write := Advance(writer, context, h, next);
            var s' := Exec(s, between);
            && Enabled(s', write)
            && (Commits(s', write, context.userId) <==> CommitCount(s, between, context.userId) == 0)
            && (!Commits(s', write, context.userId) ==> Apply(s', write) == s')
            && (Commits(s', write, context.userId) ==>
                  Apply(s', write).rows[context.userId].version == context.version + 1
                  && Apply(s', write).rows[context.userId].currentHistoryId == Some(h))
  {
    VersionCountsCommits(s, between, ReadFor(s, batchId).value.userId);
    BatchesStay(s, between, batchId);
  }

  /**
   Lease writes carry no version: whatever stale row is recovered between the read and the write of an
   advance, the advance does not notice, and with another page it puts the old owner back for a full lease.
   */
  lemma RecoveryIsNotFenced(s: System, writer: WorkerId, batchId: BatchId, h: string, page: string)
    requires ReadFor(s, batchId).Some?
    requires var row := s.rows[ReadFor(s, batchId).value.userId]; row.status == Syncing && Stale(row, s.now)
    ensures var context := ReadFor(s, batchId).value;
            var write := Advance(writer, context, h, Some(page));
            var u, recovered := context.userId, Apply(s, Recover);
            && recovered.rows[u].status == Idle && recovered.rows[u].leaseOwner == None
            && Enabled(recovered, write) && Commits(recovered, write, u)
            && Apply(recovered, write).rows[u].status == Syncing
            && Apply(recovered, write).rows[u].leaseOwner == s.rows[u].leaseOwner
            && Apply(recovered, write).rows[u].leaseExpiresAt == Some(s.now + LEASE_MS)
  {
  }

  // ----- Lease mutual exclusion -----

  predicate Holds(s: System, u: UserId, w: WorkerId) {
    (u, w) in s.held && s.now <= s.held[(u, w)]
  }

  ghost predicate HeldByOther(s: System, u: UserId, w: WorkerId) {
    exists x :: x != w && Holds(s, u, x)
  }

  /**
   An advance that takes effect, with whatever was read earlier, finds no other holder, and with another
   page the owner it read is its caller; a compare-and-set writes a holder's own lease back.
   */
  ghost predicate LeaseDiscipline(s: System, step: Step) {
    match step
    case Advance(writer, context, _, next) =>
      Commits(s, step, context.userId) ==>
        !HeldByOther(s, context.userId, writer) && (next.Some? ==> context.leaseOwner == Some(writer))
    case CompareAndSet(u, _, data) =>
      Commits(s, step, u) ==>
        forall w :: Holds(s, u, w) ==>
                      data.status == Syncing && data.leaseOwner == Some(w) && data.leaseExpiresAt == Some(s.held[(u, w)])
    case _ => true
  }

  ghost predicate Disciplined(s: System, steps: seq<Step>)
    requires ValidRun(s, steps)
  {
    steps == [] ||
    (var n := |steps| - 1; Disciplined(s, steps[..n]) && LeaseDiscipline(Exec(s, steps[..n]), steps[n]))
  }

  /** A worker with an unexpired lease is the owner on record until exactly that expiry. */
  ghost predicate LeaseInv(s: System) {
    forall u, w :: Holds(s, u, w) ==>
                     && u in s.rows
                     && s.rows[u].status == Syncing
                     && s.rows[u].leaseOwner == Some(w)
                     && s.rows[u].leaseExpiresAt == Some(s.held[(u, w)])
  }

  lemma StepKeepsLeases(s: System, step: Step)
    requires LeaseInv(s) && Enabled(s, step) && LeaseDiscipline(s, step)
    ensures LeaseInv(Apply(s, step))
  {
    var s' := Apply(s, step);
    forall u, w | Holds(s', u, w)
      ensures && u in s'.rows
              && s'.rows[u].status == Syncing
              && s'.rows[u].leaseOwner == Some(w)
              && s'.rows[u].leaseExpiresAt == Some(s'.held[(u, w)])
    {
      if (u, w) in s.held && s.held[(u, w)] == s'.held[(u, w)] {
        assert Holds(s, u, w);
      }
    }
  }

  lemma UndisciplinedAdvance(s: System, step: Step)
    requires LeaseInv(s) && Enabled(s, step) && step.Advance? && !LeaseDiscipline(s, step)
    ensures !LeaseInv(Apply(s, step))
  {
    var u, s' := step.context.userId, Apply(s, step);
    if HeldByOther(s, u, step.writer) {
      var x :| x != step.writer && Holds(s, u, x);
      assert Holds(s', u, x);
      if step.nextPageToken.Some? {
        assert Holds(s', u, step.writer);
      }
    } else {
      assert Holds(s', u, step.writer);
    }
  }

  lemma UndisciplinedSet(s: System, step: Step)
    requires LeaseInv(s) && Enabled(s, step) && step.CompareAndSet? && !LeaseDiscipline(s, step)
    ensures !LeaseInv(Apply(s, step))
  {
    var w :| Holds(s, step.userId, w)
             && !(step.data.status == Syncing && step.data.leaseOwner == Some(w)
                  && step.data.leaseExpiresAt == Some(s.held[(step.userId, w)]));
    assert Holds(Apply(s, step), step.userId, w);
  }

  /** A step keeps every holder on record exactly when it is disciplined. */
  lemma StepKeepsLeasesIff(s: System, step: Step)
    requires LeaseInv(s) && Enabled(s, step)
    ensures LeaseInv(Apply(s, step)) <==> LeaseDiscipline(s, step)
  {
    if LeaseDiscipline(s, step) {
      StepKeepsLeases(s, step);
    } else if step.Advance? {
      UndisciplinedAdvance(s, step);
    } else {
      UndisciplinedSet(s, step);
    }
  }

  /**
   For an advance that is not interrupted: with another page the row must name its caller as owner, which
   is what a refresh checks; as the last one it must find no other holder.
   */
  lemma AtomicAdvanceKeepsLeasesIff(s: System, writer: WorkerId, batchId: BatchId, h: string, next: Option<string>)
    requires LeaseInv(s) && ReadFor(s, batchId).Some?
    ensures var context := ReadFor(s, batchId).value;
            LeaseInv(Apply(s, Advance(writer, context, h, next)))
            <==> if next.Some? then s.rows[context.userId].leaseOwner == Some(writer)
                 else !HeldByOther(s, context.userId, writer)
  {
    StepKeepsLeasesIff(s, Advance(writer, ReadFor(s, batchId).value, h, next));
  }

  /** A holder's own advance is always disciplined. */
  lemma HolderMayAdvance(s: System, writer: WorkerId, batchId: BatchId, h: string, next: Option<string>)
    requires LeaseInv(s) && ReadFor(s, batchId).Some? && Holds(s, ReadFor(s, batchId).value.userId, writer)
    ensures LeaseDiscipline(s, Advance(writer, ReadFor(s, batchId).value, h, next))
  {
  }

  lemma {:induction false} LeasesAreRecorded(steps: seq<Step>)
    requires ValidRun(Initial(), steps) && Disciplined(Initial(), steps)
    ensures LeaseInv(Exec(Initial(), steps))
  {
    if steps != [] {
      var n := |steps| - 1;
      LeasesAreRecorded(steps[..n]);
      StepKeepsLeases(Exec(Initial(), steps[..n]), steps[n]);
    }
  }

  /** At most one worker ever holds an unexpired lease on a user's checkpoint. */
  lemma LeaseIsExclusive(steps: seq<Step>, u: UserId, w1: WorkerId, w2: WorkerId)
    requires ValidRun(Initial(), steps) && Disciplined(Initial(), steps)
    requires Holds(Exec(Initial(), steps), u, w1) && Holds(Exec(Initial(), steps), u, w2)
    ensures w1 == w2
  {
    LeasesAreRecorded(steps);
  }

  /** Every holder stays on record throughout a run exactly when all its steps are disciplined. */
  lemma {:induction false} LeasesAreRecordedIff(steps: seq<Step>)
    requires ValidRun(Initial(), steps)
    ensures Disciplined(Initial(), steps) <==> forall m :: 0 <= m <= |steps| && ValidRun(Initial(), steps[..m]) ==> LeaseInv(Exec(Initial(), steps[..m]))
  {
    if Disciplined(Initial(), steps) {
      forall m | 0 <= m <= |steps| && ValidRun(Initial(), steps[..m])
        ensures LeaseInv(Exec(Initial(), steps[..m]))
      {
        PrefixIsDisciplined(steps, m);
        LeasesAreRecorded(steps[..m]);
      }
    } else {
      var n := |steps| - 1;
      LeasesAreRecordedIff(steps[..n]);
      if Disciplined(Initial(), steps[..n]) {
        LeasesAreRecorded(steps[..n]);
        StepKeepsLeasesIff(Exec(Initial(), steps[..n]), steps[n]);
        assert steps[..|steps|] == steps;
      } else {
        var m :| 0 <= m <= n && ValidRun(Initial(), steps[..n][..m]) && !LeaseInv(Exec(Initial(), steps[..n][..m]));
        assert steps[..n][..m] == steps[..m];
      }
    }
  }

  lemma {:induction false} PrefixIsDisciplined(steps: seq<Step>, m: nat)
    requires m <= |steps| && ValidRun(Initial(), steps) && Disciplined(Initial(), steps)
    ensures ValidRun(Initial(), steps[..m]) && Disciplined(Initial(), steps[..m])
  {
    var n := |steps| - 1;
    if m <= n {
      assert steps[..n][..m] == steps[..m];
      PrefixIsDisciplined(steps[..n], m);
    } else {
      assert steps[..m] == steps;
    }
  }

  /** The takeover before the late advance: "b" initialises once the lease of "a" is stale. */
  lemma TakenOver(u: UserId, a: WorkerId, b: WorkerId, x: BatchId, y: BatchId, h: string) returns (steps: seq<Step>)
    requires a != b && x != y
    ensures steps == [Initialize(u, a, h, None, x), Tick(LEASE_MS + 1), Initialize(u, b, h, None, y)]
    ensures ValidRun(Initial(), steps) && Disciplined(Initial(), steps)
    ensures var s := Exec(Initial(), steps);
            && s == System(LEASE_MS + 1, map[u := Checkpoint(None, Some(h), None, 2, Syncing, Some(b), Some(2 * LEASE_MS + 1), None)],
                           map[x := Batch(u, h, Pending, 0), y := Batch(u, h, Pending, 0)],
                           map[(u, a) := LEASE_MS, (u, b) := 2 * LEASE_MS + 1])
  {
    var i := Initial();
    Snoc(i, [], Initialize(u, a, h, None, x));
    var s1 := [] + [Initialize(u, a, h, None, x)];
    assert Exec(i, s1) == System(0, map[u := Checkpoint(None, Some(h), None, 1, Syncing, Some(a), Some(LEASE_MS), None)],
                                 map[x := Batch(u, h, Pending, 0)], map[(u, a) := LEASE_MS]);
    Snoc(i, s1, Tick(LEASE_MS + 1));
    var s2 := s1 + [Tick(LEASE_MS + 1)];
    Snoc(i, s2, Initialize(u, b, h, None, y));
    steps := s2 + [Initialize(u, b, h, None, y)];
    assert s1[..0] == [] && s2[..1] == s1 && steps[..2] == s2;
    assert Disciplined(i, s1) && Disciplined(i, s2);
  }

  /** A run in which the last advance of "a", made after "b" took over, lets "c" in beside "b". */
  lemma LateAdvanceBreaksExclusion(u: UserId, a: WorkerId, b: WorkerId, d: WorkerId, x: BatchId, y: BatchId, z: BatchId, h: string)
    returns (before: seq<Step>, steps: seq<Step>)
    requires a != b && b != d && x != y && x != z && y != z
    ensures ValidRun(Initial(), before) && Disciplined(Initial(), before) && ReadFor(Exec(Initial(), before), x).Some?
    ensures steps == before + [Advance(a, ReadFor(Exec(Initial(), before), x).value, h, None), Initialize(u, d, h, None, z)]
    ensures ValidRun(Initial(), steps)
    ensures Holds(Exec(Initial(), steps), u, b) && Holds(Exec(Initial(), steps), u, d)
  {
    before := TakenOver(u, a, b, x, y, h);
    var s := Exec(Initial(), before);
    var late := Advance(a, ReadFor(s, x).value, h, None);
    Snoc(Initial(), before, late);
    var advanced := before + [late];
    Snoc(Initial(), advanced, Initialize(u, d, h, None, z));
    steps := advanced + [Initialize(u, d, h, None, z)];
  }

  // ----- A crashed holder does not block for ever -----

  /** Leases are given back only once the row is no longer syncing, and a compare-and-set leaves the lease alone. */
  predicate KeepsExpiry(s: System, step: Step) {
    match step
    case Release(u, w) => u in s.rows && s.rows[u].leaseOwner == Some(w) ==> s.rows[u].status != Syncing
    case CompareAndSet(u, _, data) =>
      Commits(s, step, u) ==> data.status == s.rows[u].status && data.leaseOwner == s.rows[u].leaseOwner
                              && data.leaseExpiresAt == s.rows[u].leaseExpiresAt
    case _ => true
  }

  ghost predicate ExpiriesKept(s: System, steps: seq<Step>)
    requires ValidRun(s, steps)
  {
    steps == [] ||
    (var n := |steps| - 1; ExpiriesKept(s, steps[..n]) && KeepsExpiry(Exec(s, steps[..n]), steps[n]))
  }

  /** A syncing row is somebody's, and its expiry is the one granted to that worker, at most a lease from now. */
  ghost predicate ExpiryInv(s: System) {
    forall u :: u in s.rows && s.rows[u].status == Syncing ==>
                  && s.rows[u].leaseOwner.Some? && (u, s.rows[u].leaseOwner.value) in s.held
                  && s.rows[u].leaseExpiresAt == Some(s.held[(u, s.rows[u].leaseOwner.value)])
                  && s.rows[u].leaseExpiresAt.value <= s.now + LEASE_MS
  }

  lemma {:induction false} SyncingRowsExpire(steps: seq<Step>)
    requires ValidRun(Initial(), steps) && Disciplined(Initial(), steps) && ExpiriesKept(Initial(), steps)
    ensures ExpiryInv(Exec(Initial(), steps)) && LeaseInv(Exec(Initial(), steps))
  {
    if steps != [] {
      var n := |steps| - 1;
      SyncingRowsExpire(steps[..n]);
      StepKeepsExpiry(Exec(Initial(), steps[..n]), steps[n]);
      StepKeepsLeases(Exec(Initial(), steps[..n]), steps[n]);
    }
  }

  lemma StepKeepsExpiry(s: System, step: Step)
    requires ExpiryInv(s) && Enabled(s, step) && LeaseDiscipline(s, step) && KeepsExpiry(s, step)
    ensures ExpiryInv(Apply(s, step))
  {
  }

  /** The crashed worker's doings on the row: it starts, advances and refreshes nothing any more. */
  predicate Acts(step: Step, u: UserId, w: WorkerId) {
    match step
    case Initialize(x, v, _, _, _) => x == u && v == w
    case Advance(v, context, _, _) => context.userId == u && v == w
    case Refresh(x, v) => x == u && v == w
    case _ => false
  }

  /** If the worker still owns the syncing row, its expiry is bounded by what it was when it crashed. */
  ghost predicate OwnedUntil(s: System, u: UserId, w: WorkerId, bound: int) {
    u in s.rows && s.rows[u].status == Syncing && s.rows[u].leaseOwner == Some(w) ==>
      s.rows[u].leaseExpiresAt.Some? && s.rows[u].leaseExpiresAt.value <= bound
  }

  lemma StepKeepsBound(s: System, step: Step, u: UserId, w: WorkerId, bound: int)
    requires ExpiryInv(s) && OwnedUntil(s, u, w, bound) && Enabled(s, step) && !Acts(step, u, w)
    requires LeaseDiscipline(s, step) && KeepsExpiry(s, step)
    ensures OwnedUntil(Apply(s, step), u, w, bound)
  {
  }

  lemma {:induction false} BoundIsKept(steps: seq<Step>, m: nat, u: UserId, w: WorkerId)
    requires ValidRun(Initial(), steps) && Disciplined(Initial(), steps) && ExpiriesKept(Initial(), steps)
    requires m <= |steps| && ValidRun(Initial(), steps[..m])
    requires forall k :: m <= k < |steps| ==> !Acts(steps[k], u, w)
    ensures OwnedUntil(Exec(Initial(), steps), u, w, Exec(Initial(), steps[..m]).now + LEASE_MS)
  {
    var n := |steps| - 1;
    if m <= n {
      assert steps[..n][..m] == steps[..m];
      BoundIsKept(steps[..n], m, u, w);
      SyncingRowsExpire(steps[..n]);
      StepKeepsBound(Exec(Initial(), steps[..n]), steps[n], u, w, Exec(Initial(), steps[..m]).now + LEASE_MS);
    } else {
      assert steps[..m] == steps;
      SyncingRowsExpire(steps);
    }
  }

  /**
   A holder that crashed after m steps blocks nobody longer than the lease, whatever everybody else does
   meanwhile: then any worker may claim, unless another worker holds an unexpired lease.
   */
  lemma CrashBlocksAtMostOneLease(steps: seq<Step>, m: nat, u: UserId, crashed: WorkerId)
    requires ValidRun(Initial(), steps) && Disciplined(Initial(), steps) && ExpiriesKept(Initial(), steps)
    requires m <= |steps| && ValidRun(Initial(), steps[..m])
    requires forall k :: m <= k < |steps| ==> !Acts(steps[k], u, crashed)
    requires Exec(Initial(), steps).now > Exec(Initial(), steps[..m]).now + LEASE_MS
    ensures var end := Exec(Initial(), steps);
            || (forall w :: Claims(RowOf(end, u), end.now, w))
            || HeldByOther(end, u, crashed)
  {
    BoundIsKept(steps, m, u, crashed);
    SyncingRowsExpire(steps);
    var end := Exec(Initial(), steps);
    if w :| !Claims(RowOf(end, u), end.now, w) {
      assert Holds(end, u, end.rows[u].leaseOwner.value);
    }
  }

  /** A row nobody touches refuses a worker for ever exactly when it syncs without an expiry for another owner. */
  lemma BlockedForeverIff(row: Checkpoint, now: int, w: WorkerId)
    ensures (forall t :: t >= now ==> !Claims(Some(row), t, w))
            <==> row.status == Syncing && row.leaseExpiresAt == None && row.leaseOwner != Some(w)
  {
    if forall t :: t >= now ==> !Claims(Some(row), t, w) {
      assert !Claims(Some(row), now, w);
      if row.leaseExpiresAt.Some? {
        var later := if row.leaseExpiresAt.value < now then now else row.leaseExpiresAt.value + 1;
        assert Claims(Some(row), later, w);
      }
    }
  }

  /** Releasing a lease in mid-sync makes exactly such a row. */
  lemma EarlyReleaseBlocks(s: System, u: UserId, w: WorkerId, other: WorkerId, t: int)
    requires u in s.rows && s.rows[u].status == Syncing && s.rows[u].leaseOwner == Some(w)
    ensures !Claims(RowOf(Apply(s, Release(u, w)), u), t, other)
  {
  }
}
