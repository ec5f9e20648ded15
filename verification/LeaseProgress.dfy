/** What the durable checkpoint remembers: its cursor and resume point over every run, and what each write does. */
module LeaseProgress {
  import opened Wrappers
  import opened LeaseModel
  import opened LeaseSafety

  // ----- The cursor and the resume point -----

  /** The history id of the last advance that took effect, or what a later compare-and-set put, or the start's. */
  ghost function LastAdvanced(s: System, steps: seq<Step>, u: UserId): Option<string>
    requires ValidRun(s, steps)
  {
    if steps == [] then (if u in s.rows then s.rows[u].currentHistoryId else None)
    else
      var n := |steps| - 1;
      if !Commits(Exec(s, steps[..n]), steps[n], u) then LastAdvanced(s, steps[..n], u)
      else
        match steps[n]
        case Advance(_, _, newHistoryId, _) => Some(newHistoryId)
        case CompareAndSet(_, _, data) => data.currentHistoryId
        case _ => LastAdvanced(s, steps[..n], u)
  }

  /** How a step changes the cursor: only an advance or a compare-and-set that takes effect does. */
  lemma CursorMoves(s: System, step: Step, u: UserId)
    requires Enabled(s, step)
    ensures u in s.rows ==> u in Apply(s, step).rows
    ensures u in s.rows && (step.Initialize? || !Commits(s, step, u)) ==>
              Apply(s, step).rows[u].currentHistoryId == s.rows[u].currentHistoryId
    ensures u !in s.rows && u in Apply(s, step).rows ==> Commits(s, step, u) && Apply(s, step).rows[u].currentHistoryId == None
    ensures Commits(s, step, u) && step.Advance? ==> Apply(s, step).rows[u].currentHistoryId == Some(step.newHistoryId)
    ensures Commits(s, step, u) && step.CompareAndSet? ==> Apply(s, step).rows[u].currentHistoryId == step.data.currentHistoryId
  {
  }

  lemma {:induction false} RowsStay(s: System, steps: seq<Step>, u: UserId)
    requires ValidRun(s, steps) && u !in Exec(s, steps).rows
    ensures u !in s.rows && LastAdvanced(s, steps, u) == None
  {
    if steps != [] {
      var n := |steps| - 1;
      CursorMoves(Exec(s, steps[..n]), steps[n], u);
      RowsStay(s, steps[..n], u);
    }
  }

  /**
   Over every run, the cursor is the history id of the last advance that took effect, or its initial value:
   starting, refreshing, releasing, recovering and refused operations never lose it.
   */
  lemma {:induction false} CursorIsLastAdvanced(s: System, steps: seq<Step>, u: UserId)
    requires ValidRun(s, steps) && u in Exec(s, steps).rows
    ensures Exec(s, steps).rows[u].currentHistoryId == LastAdvanced(s, steps, u)
  {
    if steps != [] {
      var n := |steps| - 1;
      CursorMoves(Exec(s, steps[..n]), steps[n], u);
      if u in Exec(s, steps[..n]).rows {
        CursorIsLastAdvanced(s, steps[..n], u);
      } else {
        RowsStay(s, steps[..n], u);
      }
    }
  }

  /** Where a sync would go on: the pending history id and the page token. */
  datatype Resume = Resume(pendingHistoryId: Option<string>, pageToken: Option<string>)

  /** The last initialise, advance or compare-and-set that took effect says where. */
  ghost function ResumePoint(s: System, steps: seq<Step>, u: UserId): Resume
    requires ValidRun(s, steps)
  {
    if steps == [] then
      if u in s.rows then Resume(s.rows[u].pendingHistoryId, s.rows[u].pageToken) else Resume(None, None)
    else
      var n := |steps| - 1;
      if !Commits(Exec(s, steps[..n]), steps[n], u) then ResumePoint(s, steps[..n], u)
      else
        match steps[n]
        case Initialize(_, _, historyId, pageToken, _) => Resume(Some(historyId), pageToken)
        case Advance(_, _, newHistoryId, next) => Resume(if next.Some? then Some(newHistoryId) else None, next)
        case CompareAndSet(_, _, data) => Resume(data.pendingHistoryId, data.pageToken)
        case _ => ResumePoint(s, steps[..n], u)
  }

  lemma ResumeMoves(s: System, step: Step, u: UserId)
    requires Enabled(s, step) && u in Apply(s, step).rows
    ensures var r := Apply(s, step).rows[u];
            && (!Commits(s, step, u) ==> u in s.rows && r.pendingHistoryId == s.rows[u].pendingHistoryId
                                         && r.pageToken == s.rows[u].pageToken)
            && (Commits(s, step, u) && step.Initialize? ==>
                  r.pendingHistoryId == Some(step.historyId) && r.pageToken == step.pageToken)
            && (Commits(s, step, u) && step.Advance? ==>
                  r.pageToken == step.nextPageToken
                  && r.pendingHistoryId == if step.nextPageToken.Some? then Some(step.newHistoryId) else None)
            && (Commits(s, step, u) && step.CompareAndSet? ==>
                  r.pendingHistoryId == step.data.pendingHistoryId && r.pageToken == step.data.pageToken)
  {
  }

  /** Over every run, the row resumes where the last operation that took effect said. */
  lemma {:induction false} ResumeIsLastSaid(s: System, steps: seq<Step>, u: UserId)
    requires ValidRun(s, steps) && u in Exec(s, steps).rows
    ensures var r := Exec(s, steps).rows[u];
            Resume(r.pendingHistoryId, r.pageToken) == ResumePoint(s, steps, u)
  {
    if steps != [] {
      var n := |steps| - 1;
      ResumeMoves(Exec(s, steps[..n]), steps[n], u);
      if u in Exec(s, steps[..n]).rows {
        ResumeIsLastSaid(s, steps[..n], u);
      }
    }
  }

  // ----- What the lease operations give -----

  /** A syncing owner's refresh keeps everybody else out for a full lease from now, and changes nothing else. */
  lemma RefreshExtends(s: System, u: UserId, w: WorkerId, other: WorkerId, t: int)
    requires u in s.rows && s.rows[u].leaseOwner == Some(w) && s.rows[u].status == Syncing
    requires other != w && s.now <= t <= s.now + 300_000
    ensures var s' := Apply(s, Refresh(u, w));
            && Holds(Apply(s', Tick(t)), u, w) && !Claims(RowOf(s', u), t, other)
            && s'.rows == s.rows[u := s.rows[u].(leaseExpiresAt := Some(s.now + 300_000))]
  {
  }

  /** A refresh by anybody but the owner of a syncing row changes nothing. */
  lemma OnlyOwnersRefresh(s: System, u: UserId, w: WorkerId)
    requires u !in s.rows || s.rows[u].leaseOwner != Some(w) || s.rows[u].status != Syncing
    ensures Apply(s, Refresh(u, w)) == s
  {
  }

  /** The owner may always start over; others only on a missing, settled or stale row. */
  lemma ClaimsIff(row: Checkpoint, now: int, w: WorkerId)
    ensures Claims(None, now, w)
    ensures Claims(Some(row), now, w)
            <==> row.leaseOwner == Some(w) || row.status == Idle || row.status == Failed
                 || (row.leaseExpiresAt.Some? && row.leaseExpiresAt.value < now)
  {
  }

  /** A start that is granted hands out a lease of full length; a refused one changes nothing. */
  lemma InitializeGrants(s: System, u: UserId, w: WorkerId, h: string, page: Option<string>, b: BatchId)
    requires b !in s.batches
    ensures var s' := Apply(s, Initialize(u, w, h, page, b));
            && (!Claims(RowOf(s, u), s.now, w) ==> s' == s)
            && (Claims(RowOf(s, u), s.now, w) ==>
                  && u in s'.rows && s'.rows[u].status == Syncing && s'.rows[u].leaseOwner == Some(w)
                  && s'.rows[u].leaseExpiresAt == Some(s.now + 300_000)
                  && s'.rows[u].lastError == (if u in s.rows then s.rows[u].lastError else None)
                  && s'.batches == s.batches[b := Batch(u, h, Pending, 0)]
                  && forall x :: x != u && x in s.rows ==> x in s'.rows && s'.rows[x] == s.rows[x])
  {
  }

  /**
   An advance that takes effect closes its batch, with failures exactly if it counted some, clears the last
   error and goes on syncing exactly when there is another page.
   */
  lemma AdvanceCloses(s: System, writer: WorkerId, batchId: BatchId, h: string, next: Option<string>)
    requires ReadFor(s, batchId).Some?
    ensures var context := ReadFor(s, batchId).value;
            var u, s' := context.userId, Apply(s, Advance(writer, context, h, next));
            && s'.batches == s.batches[batchId := s.batches[batchId].(status :=
                             if s.batches[batchId].failedCount > 0 then CompletedWithFailures else Completed)]
            && u in s'.rows && s'.rows[u].lastError == None
            && s'.rows[u].status == (if next.Some? then Syncing else Idle)
            && s'.rows[u].leaseOwner == (if next.Some? then s.rows[u].leaseOwner else None)
            && s'.rows[u].leaseExpiresAt == (if next.Some? then Some(s.now + 300_000) else None)
            && forall x :: x != u && x in s.rows ==> x in s'.rows && s'.rows[x] == s.rows[x]
  {
  }

  /** A release by the owner frees the row and keeps all else; by anybody else it leaves the table as it is. */
  lemma ReleaseFrees(s: System, u: UserId, w: WorkerId)
    ensures var s' := Apply(s, Release(u, w));
            && s'.now == s.now && s'.batches == s.batches
            && s'.rows == if u in s.rows && s.rows[u].leaseOwner == Some(w)
                          then s.rows[u := s.rows[u].(leaseOwner := None, leaseExpiresAt := None)] else s.rows
  {
  }

  /** A compare-and-set on the row's version puts its data under the next one; on any other it changes nothing. */
  lemma CompareAndSetPuts(s: System, u: UserId, expected: nat, data: Checkpoint)
    ensures var s' := Apply(s, CompareAndSet(u, expected, data));
            if u in s.rows && s.rows[u].version == expected
            then s' == s.(rows := s.rows[u := data.(version := expected + 1)]) else s' == s
  {
  }

  /** A recovery idles the stale syncing rows, notes why, keeps their progress, and touches no other row. */
  lemma RecoveryFrees(s: System, u: UserId)
    requires u in s.rows
    ensures var r, r' := s.rows[u], Apply(s, Recover).rows[u];
            if r.status == Syncing && r.leaseExpiresAt.Some? && r.leaseExpiresAt.value < s.now
            then && r'.status == Idle && r'.leaseOwner == None && r'.leaseExpiresAt == None
                 && r'.lastError == Some("Stale lease recovered") && r'.version == r.version
                 && r'.currentHistoryId == r.currentHistoryId && r'.pendingHistoryId == r.pendingHistoryId
                 && r'.pageToken == r.pageToken
            else r' == r
  {
  }
}
