/** Per-email accounting of a sync batch: `trackEmailJob` over any sequence of calls. */
module EmailJobs {
  import opened Wrappers

  type BatchId = string
  type EmailId = string

  datatype JobStatus = Processed | Skipped | Failed | Retryable | PermanentlyFailed

  datatype JobRow = JobRow(batchId: BatchId, emailId: EmailId, status: JobStatus, attempts: nat, lastError: Option<string>)

  datatype Counters = Counters(processedCount: nat, failedCount: nat, started: bool)

  datatype Call = Call(batchId: BatchId, emailId: EmailId, status: JobStatus, error: Option<string>)

  datatype Store = Store(jobs: seq<JobRow>, batches: map<BatchId, Counters>)

  /** The counter a status goes to, if any. */
  datatype Class = Done | Bad | Open

  function ClassOf(s: JobStatus): Class {
    match s
    case Processed => Done
    case Skipped => Done
    case Failed => Bad
    case PermanentlyFailed => Bad
    case Retryable => Open
  }

  predicate IsRow(j: JobRow, b: BatchId, e: EmailId) {
    j.batchId == b && j.emailId == e
  }

  /** The first row of an email, or the number of rows. */
  function Find(jobs: seq<JobRow>, b: BatchId, e: EmailId): (i: nat)
    ensures i <= |jobs|
    ensures i < |jobs| ==> IsRow(jobs[i], b, e)
    ensures forall k :: 0 <= k < i ==> !IsRow(jobs[k], b, e)
  {
    if jobs == [] then 0
    else if IsRow(jobs[0], b, e) then 0
    else
      var i := Find(jobs[1..], b, e);
      assert forall k :: 0 < k < i + 1 ==> jobs[k] == jobs[1..][k - 1];
      i + 1
  }

  function Count(c: Counters, s: JobStatus): Counters {
    match ClassOf(s)
    case Done => Counters(c.processedCount + 1, c.failedCount, true)
    case Bad => Counters(c.processedCount, c.failedCount + 1, true)
    case Open => c
  }

  /** A row tracked again: one attempt more, and an omitted error keeps the last one. */
  function Retracked(j: JobRow, c: Call): JobRow {
    JobRow(c.batchId, c.emailId, c.status, j.attempts + 1, if c.error.Some? then c.error else j.lastError)
  }

  /** A call for an unknown batch fails on the foreign key and changes nothing. */
  function Track(s: Store, c: Call): Store {
    if c.batchId !in s.batches then s
    else
      var i := Find(s.jobs, c.batchId, c.emailId);
      Store(if i < |s.jobs| then s.jobs[i := Retracked(s.jobs[i], c)]
            else s.jobs + [JobRow(c.batchId, c.emailId, c.status, 1, c.error)],
            s.batches[c.batchId := Count(s.batches[c.batchId], c.status)])
  }

  function TrackAll(s: Store, calls: seq<Call>): Store {
    if calls == [] then s else Track(TrackAll(s, calls[..|calls| - 1]), calls[|calls| - 1])
  }

  // ----- What is counted -----

  function Attempts(jobs: seq<JobRow>, b: BatchId): nat {
    if jobs == [] then 0
    else Attempts(jobs[..|jobs| - 1], b) + if jobs[|jobs| - 1].batchId == b then jobs[|jobs| - 1].attempts else 0
  }

  function RowsIn(jobs: seq<JobRow>, b: BatchId, k: Class): nat {
    if jobs == [] then 0
    else RowsIn(jobs[..|jobs| - 1], b, k)
         + if jobs[|jobs| - 1].batchId == b && ClassOf(jobs[|jobs| - 1].status) == k then 1 else 0
  }

  function CallsTo(calls: seq<Call>, b: BatchId): nat {
    if calls == [] then 0
    else CallsTo(calls[..|calls| - 1], b) + if calls[|calls| - 1].batchId == b then 1 else 0
  }

  function SettledCalls(calls: seq<Call>, b: BatchId): nat {
    if calls == [] then 0
    else SettledCalls(calls[..|calls| - 1], b)
         + if calls[|calls| - 1].batchId == b && ClassOf(calls[|calls| - 1].status) != Open then 1 else 0
  }

  /** Whether the call hits an email whose row is already counted in class `k`. */
  predicate Hits(s: Store, c: Call, k: Class) {
    c.batchId in s.batches
    && var i := Find(s.jobs, c.batchId, c.emailId);
       i < |s.jobs| && ClassOf(s.jobs[i].status) == k
  }

  /** How often an email of the batch was tracked again after it had been counted in class `k`. */
  function Repeats(s: Store, calls: seq<Call>, b: BatchId, k: Class): nat {
    if calls == [] then 0
    else
      var n := |calls| - 1;
      Repeats(s, calls[..n], b, k)
      + if calls[n].batchId == b && Hits(TrackAll(s, calls[..n]), calls[n], k) then 1 else 0
  }

  function Counter(c: Counters, k: Class): nat {
    match k
    case Done => c.processedCount
    case Bad => c.failedCount
    case Open => 0
  }

  // ----- Proofs -----

  lemma {:induction false} UpdateCounts(jobs: seq<JobRow>, i: nat, r: JobRow, b: BatchId, k: Class)
    requires i < |jobs| && r.batchId == jobs[i].batchId
    ensures RowsIn(jobs[i := r], b, k) + (if r.batchId == b && ClassOf(jobs[i].status) == k then 1 else 0)
            == RowsIn(jobs, b, k) + if r.batchId == b && ClassOf(r.status) == k then 1 else 0
    ensures Attempts(jobs[i := r], b) + (if r.batchId == b then jobs[i].attempts else 0)
            == Attempts(jobs, b) + if r.batchId == b then r.attempts else 0
  {
    var n := |jobs| - 1;
    if i < n {
      UpdateCounts(jobs[..n], i, r, b, k);
      assert jobs[i := r][..n] == jobs[..n][i := r];
    } else {
      assert jobs[i := r][..n] == jobs[..n];
    }
  }

  ghost predicate OneRowEach(jobs: seq<JobRow>) {
    forall i, j :: 0 <= i < j < |jobs| ==> !(jobs[i].batchId == jobs[j].batchId && jobs[i].emailId == jobs[j].emailId)
  }

  /** What one call does to the rows: one attempt more, and a row enters its new class and leaves its old one. */
  lemma RowsStep(s: Store, c: Call, b: BatchId, k: Class)
    requires c.batchId in s.batches && OneRowEach(s.jobs)
    ensures var t := Track(s, c);
            && OneRowEach(t.jobs)
            && Attempts(t.jobs, b) == Attempts(s.jobs, b) + (if c.batchId == b then 1 else 0)
            && RowsIn(t.jobs, b, k) + (if c.batchId == b && Hits(s, c, k) then 1 else 0)
               == RowsIn(s.jobs, b, k) + if c.batchId == b && ClassOf(c.status) == k then 1 else 0
  {
    var i, t := Find(s.jobs, c.batchId, c.emailId), Track(s, c);
    if i < |s.jobs| {
      UpdateCounts(s.jobs, i, Retracked(s.jobs[i], c), b, k);
    } else {
      AppendCounts(s.jobs, JobRow(c.batchId, c.emailId, c.status, 1, c.error), b, k);
    }
  }

  lemma AppendCounts(jobs: seq<JobRow>, r: JobRow, b: BatchId, k: Class)
    ensures RowsIn(jobs + [r], b, k) == RowsIn(jobs, b, k) + if r.batchId == b && ClassOf(r.status) == k then 1 else 0
    ensures Attempts(jobs + [r], b) == Attempts(jobs, b) + if r.batchId == b then r.attempts else 0
  {
  }

  lemma TrackStep(s: Store, c: Call, b: BatchId, k: Class)
    requires b in s.batches && OneRowEach(s.jobs) && k != Open
    ensures var t := Track(s, c);
            && OneRowEach(t.jobs) && t.batches.Keys == s.batches.Keys
            && Attempts(t.jobs, b) == Attempts(s.jobs, b) + (if c.batchId == b then 1 else 0)
            && Counter(t.batches[b], k)
               == Counter(s.batches[b], k) + (if c.batchId == b && ClassOf(c.status) == k then 1 else 0)
            && Counter(t.batches[b], k) + RowsIn(s.jobs, b, k)
               == Counter(s.batches[b], k) + RowsIn(t.jobs, b, k)
                  + if c.batchId == b && Hits(s, c, k) then 1 else 0
  {
    if c.batchId in s.batches {
      RowsStep(s, c, b, k);
    }
  }

  /** The books of one batch after any calls, starting from a batch without rows. */
  lemma {:induction false} BooksBalance(batches: map<BatchId, Counters>, calls: seq<Call>, b: BatchId, k: Class)
    requires b in batches && k != Open
    ensures var s, t := Store([], batches), TrackAll(Store([], batches), calls);
            && b in t.batches && t.batches.Keys == batches.Keys && OneRowEach(t.jobs)
            && Attempts(t.jobs, b) == CallsTo(calls, b)
            && Counter(t.batches[b], k) == Counter(batches[b], k) + RowsIn(t.jobs, b, k) + Repeats(s, calls, b, k)
  {
    if calls != [] {
      var n := |calls| - 1;
      BooksBalance(batches, calls[..n], b, k);
      TrackStep(TrackAll(Store([], batches), calls[..n]), calls[n], b, k);
    }
  }

  /** Both counters together count exactly the non-retryable calls. */
  lemma {:induction false} CountersCountSettledCalls(batches: map<BatchId, Counters>, calls: seq<Call>, b: BatchId)
    requires b in batches
    ensures var t := TrackAll(Store([], batches), calls);
            b in t.batches
            && t.batches[b].processedCount + t.batches[b].failedCount
               == batches[b].processedCount + batches[b].failedCount + SettledCalls(calls, b)
  {
    if calls != [] {
      CountersCountSettledCalls(batches, calls[..|calls| - 1], b);
    }
  }

  /** Email-job accounting: a counter is never below its rows, and equals them iff no email was counted twice. */
  lemma CountersBoundRows(batches: map<BatchId, Counters>, calls: seq<Call>, b: BatchId, k: Class)
    requires b in batches && k != Open && Counter(batches[b], k) == 0
    ensures var t := TrackAll(Store([], batches), calls);
            && b in t.batches
            && RowsIn(t.jobs, b, k) <= Counter(t.batches[b], k)
            && (RowsIn(t.jobs, b, k) == Counter(t.batches[b], k) <==> Repeats(Store([], batches), calls, b, k) == 0)
  {
    BooksBalance(batches, calls, b, k);
  }

  // ----- Each counter and each row apart -----

  predicate CountsAsProcessed(c: Call) {
    c.status == Processed || c.status == Skipped
  }

  predicate CountsAsFailed(c: Call) {
    c.status == Failed || c.status == PermanentlyFailed
  }

  /** How many of the batch's calls report such a status. */
  function CallsWith(calls: seq<Call>, b: BatchId, test: Call -> bool): nat {
    if calls == [] then 0
    else CallsWith(calls[..|calls| - 1], b, test)
         + if calls[|calls| - 1].batchId == b && test(calls[|calls| - 1]) then 1 else 0
  }

  /**
   Processed and skipped emails raise the one counter, failed and given-up ones the other, retryable ones
   neither; a batch has started as soon as either was raised.
   */
  lemma {:induction false} EachCounterApart(batches: map<BatchId, Counters>, calls: seq<Call>, b: BatchId)
    requires b in batches
    ensures var row, t := batches[b], TrackAll(Store([], batches), calls);
            && b in t.batches
            && t.batches[b].processedCount == row.processedCount + CallsWith(calls, b, CountsAsProcessed)
            && t.batches[b].failedCount == row.failedCount + CallsWith(calls, b, CountsAsFailed)
            && (t.batches[b].started <==>
                  row.started || CallsWith(calls, b, CountsAsProcessed) + CallsWith(calls, b, CountsAsFailed) > 0)
  {
    if calls != [] {
      EachCounterApart(batches, calls[..|calls| - 1], b);
    }
  }

  /** The email's status as last reported, how often it was reported, and the last error that was given. */
  datatype Report = Report(status: JobStatus, attempts: nat, lastError: Option<string>)

  function Reported(batches: map<BatchId, Counters>, calls: seq<Call>, b: BatchId, e: EmailId): Option<Report> {
    if calls == [] then None
    else
      var call := calls[|calls| - 1];
      var before := Reported(batches, calls[..|calls| - 1], b, e);
      if call.batchId != b || call.emailId != e || b !in batches then before
      else if before == None then Some(Report(call.status, 1, call.error))
      else Some(Report(call.status, before.value.attempts + 1,
                       if call.error.Some? then call.error else before.value.lastError))
  }

  /** The row of an email, if it has one. */
  function RowFor(jobs: seq<JobRow>, b: BatchId, e: EmailId): Option<Report> {
    var i := Find(jobs, b, e);
    if i == |jobs| then None else Some(Report(jobs[i].status, jobs[i].attempts, jobs[i].lastError))
  }

  lemma FindIs(jobs: seq<JobRow>, b: BatchId, e: EmailId, i: nat)
    requires i <= |jobs| && (forall k :: 0 <= k < i ==> !IsRow(jobs[k], b, e)) && (i < |jobs| ==> IsRow(jobs[i], b, e))
    ensures Find(jobs, b, e) == i
  {
  }

  lemma TrackReports(s: Store, c: Call, b: BatchId, e: EmailId)
    requires c.batchId in s.batches
    ensures RowFor(Track(s, c).jobs, b, e)
            == if c.batchId != b || c.emailId != e then RowFor(s.jobs, b, e)
               else
                 match RowFor(s.jobs, b, e)
                 case None => Some(Report(c.status, 1, c.error))
                 case Some(r) => Some(Report(c.status, r.attempts + 1, if c.error.Some? then c.error else r.lastError))
  {
    var i, j, t := Find(s.jobs, c.batchId, c.emailId), Find(s.jobs, b, e), Track(s, c);
    if c.batchId == b && c.emailId == e {
      FindIs(t.jobs, b, e, i);
    } else if j < |s.jobs| {
      FindIs(t.jobs, b, e, j);
    } else {
      FindIs(t.jobs, b, e, |t.jobs|);
    }
  }

  /** Over any calls, every email's row is its last report: status, number of attempts, last error given. */
  lemma {:induction false} RowsAreLastReports(batches: map<BatchId, Counters>, calls: seq<Call>, b: BatchId, e: EmailId)
    ensures TrackAll(Store([], batches), calls).batches.Keys == batches.Keys
    ensures RowFor(TrackAll(Store([], batches), calls).jobs, b, e) == Reported(batches, calls, b, e)
  {
    if calls != [] {
      var n := |calls| - 1;
      RowsAreLastReports(batches, calls[..n], b, e);
      if calls[n].batchId in batches {
        TrackReports(TrackAll(Store([], batches), calls[..n]), calls[n], b, e);
      }
    }
  }

  class EmailJobTracker {
    var jobs: seq<JobRow>
    var batches: map<BatchId, Counters>

    ghost function State(): Store
      reads this
    {
      Store(jobs, batches)
    }

    constructor (batches: map<BatchId, Counters>)
      ensures State() == Store([], batches)
    {
      this.jobs, this.batches := [], batches;
    }

    method FindFirst(b: BatchId, e: EmailId) returns (i: nat)
      ensures i == Find(jobs, b, e)
    {
      i := 0;
      while i < |jobs| && !IsRow(jobs[i], b, e)
        invariant i <= |jobs|
        invariant forall k :: 0 <= k < i ==> !IsRow(jobs[k], b, e)
      {
        i := i + 1;
      }
    }

    method TrackEmailJob(batchId: BatchId, emailId: EmailId, status: JobStatus, error: Option<string>) returns (ok: bool)
      modifies this
      ensures State() == Track(old(State()), Call(batchId, emailId, status, error))
      ensures ok <==> batchId in old(batches)
    {
      ok := batchId in batches;
      if !ok {
        return;
      }
      var i := FindFirst(batchId, emailId);
      if i < |jobs| {
        jobs := jobs[i := jobs[i].(status := status, lastError := if error.Some? then error else jobs[i].lastError, attempts := jobs[i].attempts + 1)];
      } else {
        jobs := jobs + [JobRow(batchId, emailId, status, 1, error)];
      }
      var incrementProcessed := if status == Processed || status == Skipped then 1 else 0;
      var incrementFailed := if status == Failed || status == PermanentlyFailed then 1 else 0;
      if incrementProcessed > 0 || incrementFailed > 0 {
        var c := batches[batchId];
        batches := batches[batchId := Counters(c.processedCount + incrementProcessed, c.failedCount + incrementFailed, true)];
      }
    }
  }
}
