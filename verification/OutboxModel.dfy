/**
 The transactional outbox as a state machine.

 The `events` table is a map, the job queue is the sequence of everything ever submitted to it, and a
 batch run is the list of events one `dispatchBatch` call has claimed and not yet settled.  Every step
 is one atomic database write or queue submission, so a sequence of steps is one interleaving of
 batch runs, fast-path publishers, queue workers and manual requeues.
 */
module OutboxModel {
  import opened Wrappers
  import opened Powers

  type EventId = string
  type RunId = nat
  type Pos = n: nat | n > 0 witness 1

  datatype EventType =
    | ResumeUploaded | ResumeCleaned | ResumeParsed
    | OpportunityResolved | OpportunityObserved | SkillObserved | PredictionGenerated
    | ActionRecorded | OutcomeRecorded | ApplicationCreated | ApplicationSubmitted
    | Other(name: string)

  datatype Queue = MalwareScan | ResumeParsing | Intelligence

  datatype Target = Target(queue: Queue, tag: Option<string>)

  /** The queue mapping; both the dispatcher's switch and the fast path's switch spell it out. */
  function Route(t: EventType): Option<Target> {
    match t
    case ResumeUploaded => Some(Target(MalwareScan, None))
    case ResumeCleaned => Some(Target(ResumeParsing, None))
    case ResumeParsed => Some(Target(Intelligence, Some("MATCH_RESUME")))
    case Other(_) => None
    case _ => Some(Target(Intelligence, Some("GENERATE_EMBEDDING")))
  }

  /** The columns of an event row that no step of the outbox may change. */
  datatype Event = Event(eventType: EventType, userId: string, cellId: string, correlationId: string,
                         payload: map<string, string>, createdAt: int)

  datatype Status = Pending | Processing | Processed | Failed | Dlq

  datatype Row = Row(event: Event, status: Status, retryCount: nat, nextAttemptAt: Option<int>,
                     leaseOwner: Option<string>, leaseExpiresAt: Option<int>,
                     error: Option<string>, processedAt: Option<int>)

  datatype Job = Job(queue: Queue, data: map<string, string>)

  /** A job together with the event whose dispatch submitted it. */
  datatype Submission = Submission(origin: EventId, job: Job)

  function TypeTag(t: Target): map<string, string> {
    match t.tag
    case None => map[]
    case Some(name) => map["type" := name]
  }

  /** The dispatcher spreads the payload AFTER the envelope, so payload keys override envelope keys. */
  function OutboxJob(id: EventId, e: Event, t: Target): Job {
    Job(t.queue,
        map["eventId" := id, "correlationId" := e.correlationId, "userId" := e.userId, "cellId" := e.cellId]
        + e.payload + TypeTag(t))
  }

  /** The fast path spreads the payload FIRST and adds neither user nor cell. */
  function FastPathJob(id: EventId, e: Event, t: Target): Job {
    Job(t.queue, e.payload + TypeTag(t) + map["eventId" := id, "correlationId" := e.correlationId])
  }

  /** The event a worker reports to: an absent or empty `eventId` means the job has no event. */
  function ReportsTo(j: Job): Option<EventId> {
    if "eventId" in j.data && j.data["eventId"] != "" then Some(j.data["eventId"]) else None
  }

  datatype Config = Config(batchSize: nat, leaseTtlMs: nat, maxRetries: nat)

  const BASE_RETRY_DELAY_MS := 1000
  const MAX_RETRY_DELAY_MS := 60000

  function BackoffMs(retry: Pos): nat
  {
    var delay := BASE_RETRY_DELAY_MS * Pow2(retry - 1);
    if delay < MAX_RETRY_DELAY_MS then delay else MAX_RETRY_DELAY_MS
  }

  /** The claim query's WHERE clause; a comparison with NULL is not true. */
  predicate Claimable(c: Config, now: int, r: Row) {
    && (|| r.status == Pending
        || (&& r.status == Failed
            && (r.nextAttemptAt == None || r.nextAttemptAt.value <= now)
            && (r.leaseOwner == None || (r.leaseExpiresAt.Some? && r.leaseExpiresAt.value < now))))
    && r.retryCount < c.maxRetries
  }

  /** The row as read by the claiming SELECT; the dispatcher keeps working from this copy. */
  datatype Snapshot = Snapshot(id: EventId, event: Event)

  /** Progress of the first claimed event: nothing done, job submitted, or retry count read. */
  datatype Phase = Ready | Enqueued | RetryRead(newRetryCount: Pos)

  datatype BatchRun = BatchRun(claimed: seq<Snapshot>, phase: Phase)

  datatype System = System(now: int, rows: map<EventId, Row>, submitted: seq<Submission>,
                           fast: multiset<EventId>, runs: map<RunId, BatchRun>)

  function Initial(): System {
    System(0, map[], [], multiset{}, map[])
  }

  datatype Step =
    | Insert(id: EventId, event: Event)
    | FastEnqueue(id: EventId)
    | FastMark(id: EventId)
    | FastAbort(id: EventId)
    | Claim(run: RunId, owner: string, base: int, locked: set<EventId>, ids: seq<EventId>)
    | Enqueue(run: RunId)
    | Settle(run: RunId)
    | ReadRetry(run: RunId)
    | WriteFailure(run: RunId, error: string)
    | Abandon(run: RunId)
    | WorkerBump(id: EventId)
    | WorkerDone(id: EventId)
    | WorkerFail(id: EventId, permanent: bool, error: string)
    | Requeue(id: EventId)
    | Tick(to: int)

  /** What the claim query may return: the oldest claimable rows nobody else has locked, up to the limit. */
  ghost predicate Selects(c: Config, now: int, rows: map<EventId, Row>, locked: set<EventId>, ids: seq<EventId>) {
    && (forall i :: 0 <= i < |ids| ==> ids[i] in rows && ids[i] !in locked && Claimable(c, now, rows[ids[i]]))
    && (forall i, j :: 0 <= i < j < |ids| ==> ids[i] != ids[j])
    && (forall i, j :: 0 <= i < j < |ids| ==> rows[ids[i]].event.createdAt <= rows[ids[j]].event.createdAt)
    && |ids| <= c.batchSize
    && (forall id :: id in rows && id !in locked && Claimable(c, now, rows[id]) && id !in ids ==>
          |ids| == c.batchSize
          && forall i :: 0 <= i < |ids| ==> rows[ids[i]].event.createdAt <= rows[id].event.createdAt)
  }

  predicate ActiveRun(s: System, run: RunId) {
    run in s.runs && s.runs[run].claimed != []
  }

  function Head(s: System, run: RunId): Snapshot
    requires ActiveRun(s, run)
  {
    s.runs[run].claimed[0]
  }

  ghost predicate HasJobFor(s: System, id: EventId) {
    exists k :: 0 <= k < |s.submitted| && ReportsTo(s.submitted[k].job) == Some(id)
  }

  lemma JobStays(s: System, s': System, id: EventId)
    requires HasJobFor(s, id) && s.submitted <= s'.submitted
    ensures HasJobFor(s', id)
  {
    var k :| 0 <= k < |s.submitted| && ReportsTo(s.submitted[k].job) == Some(id);
    assert s'.submitted[k] == s.submitted[k];
  }

  ghost predicate Enabled(c: Config, s: System, step: Step) {
    match step
    case Insert(id, e) => id !in s.rows && id != ""
    case FastEnqueue(id) => id in s.rows
    case FastMark(id) => id in s.fast && id in s.rows
    case FastAbort(id) => id in s.fast
    case Claim(run, owner, base, locked, ids) =>
      run !in s.runs && base <= s.now && ids != [] && Selects(c, s.now, s.rows, locked, ids)
    case Enqueue(run) => ActiveRun(s, run) && s.runs[run].phase == Ready
    case Settle(run) => ActiveRun(s, run) && s.runs[run].phase == Enqueued && Head(s, run).id in s.rows
    case ReadRetry(run) => ActiveRun(s, run) && !s.runs[run].phase.RetryRead?
    case WriteFailure(run, _) => ActiveRun(s, run) && s.runs[run].phase.RetryRead? && Head(s, run).id in s.rows
    case Abandon(run) => run in s.runs
    case WorkerBump(id) => HasJobFor(s, id) && id in s.rows
    case WorkerDone(id) => HasJobFor(s, id) && id in s.rows
    case WorkerFail(id, _, _) => HasJobFor(s, id) && id in s.rows
    case Requeue(id) => id in s.rows
    case Tick(to) => s.now <= to
  }

  function Claimed(r: Row, owner: string, expires: int): Row {
    r.(status := Processing, leaseOwner := Some(owner), leaseExpiresAt := Some(expires), error := None)
  }

  function ClaimRows(rows: map<EventId, Row>, ids: seq<EventId>, owner: string, expires: int): map<EventId, Row> {
    map id | id in rows :: if id in ids then Claimed(rows[id], owner, expires) else rows[id]
  }

  function Snapshots(rows: map<EventId, Row>, ids: seq<EventId>): seq<Snapshot>
    requires forall i :: 0 <= i < |ids| ==> ids[i] in rows
  {
    seq(|ids|, i requires 0 <= i < |ids| => Snapshot(ids[i], rows[ids[i]].event))
  }

  /** Queue submission for a claimed or published event; unmapped types submit nothing. */
  function Submit(submitted: seq<Submission>, id: EventId, e: Event, fast: bool): seq<Submission> {
    match Route(e.eventType)
    case None => submitted
    case Some(t) => submitted + [Submission(id, if fast then FastPathJob(id, e, t) else OutboxJob(id, e, t))]
  }

  function SettledRow(r: Row, now: int): Row {
    r.(status := Processed, processedAt := Some(now), leaseOwner := None, leaseExpiresAt := None)
  }

  function FailedRow(c: Config, r: Row, newRetryCount: Pos, now: int, error: string): Row
  {
    var dead := newRetryCount >= c.maxRetries;
    r.(status := if dead then Dlq else Failed,
    error := Some(error),
    retryCount := newRetryCount,
    nextAttemptAt := if dead then None else Some(now + BackoffMs(newRetryCount)),
    leaseOwner := None,
    leaseExpiresAt := None)
  }

  function RequeuedRow(r: Row): Row {
    r.(status := Pending, retryCount := 0, error := None, nextAttemptAt := None,
    leaseOwner := None, leaseExpiresAt := None)
  }

  /** The run after its first event is settled; the run ends with its last event. */
  function PopHead(runs: map<RunId, BatchRun>, run: RunId): map<RunId, BatchRun>
    requires run in runs && runs[run].claimed != []
  {
    if |runs[run].claimed| == 1 then runs - {run}
    else runs[run := BatchRun(runs[run].claimed[1..], Ready)]
  }

  ghost function Apply(c: Config, s: System, step: Step): System
    requires Enabled(c, s, step)
  {
    match step
    case Insert(id, e) =>
      s.(rows := s.rows[id := Row(e, Pending, 0, None, None, None, None, None)])
    case FastEnqueue(id) =>
      s.(submitted := Submit(s.submitted, id, s.rows[id].event, true), fast := s.fast + multiset{id})
    case FastMark(id) =>
      s.(rows := s.rows[id := s.rows[id].(status := Processed, processedAt := Some(s.now))],
      fast := s.fast - multiset{id})
    case FastAbort(id) =>
      s.(fast := s.fast - multiset{id})
    case Claim(run, owner, base, locked, ids) =>
      s.(rows := ClaimRows(s.rows, ids, owner, base + c.leaseTtlMs),
      runs := s.runs[run := BatchRun(Snapshots(s.rows, ids), Ready)])
    case Enqueue(run) =>
      var h := Head(s, run);
      s.(submitted := Submit(s.submitted, h.id, h.event, false),
      runs := s.runs[run := s.runs[run].(phase := Enqueued)])
    case Settle(run) =>
      var id := Head(s, run).id;
      s.(rows := s.rows[id := SettledRow(s.rows[id], s.now)], runs := PopHead(s.runs, run))
    case ReadRetry(run) =>
      var id := Head(s, run).id;
      var read := if id in s.rows then s.rows[id].retryCount else 0;
      s.(runs := s.runs[run := s.runs[run].(phase := RetryRead(read + 1))])
    case WriteFailure(run, error) =>
      var id := Head(s, run).id;
      var n := s.runs[run].phase.newRetryCount;
      s.(rows := s.rows[id := FailedRow(c, s.rows[id], n, s.now, error)],
      runs := PopHead(s.runs, run))
    case Abandon(run) =>
      s.(runs := s.runs - {run})
    case WorkerBump(id) =>
      s.(rows := s.rows[id := s.rows[id].(retryCount := s.rows[id].retryCount + 1)])
    case WorkerDone(id) =>
      s.(rows := s.rows[id := s.rows[id].(status := Processed, processedAt := Some(s.now))])
    case WorkerFail(id, permanent, error) =>
      s.(rows := s.rows[id := s.rows[id].(status := if permanent then Dlq else Failed, error := Some(error))])
    case Requeue(id) =>
      s.(rows := s.rows[id := RequeuedRow(s.rows[id])])
    case Tick(to) =>
      s.(now := to)
  }

  /** Every step of the run is possible when its turn comes. */
  ghost predicate ValidRun(c: Config, steps: seq<Step>)
    decreases steps, 0
  {
    steps == [] ||
    (var n := |steps| - 1; ValidRun(c, steps[..n]) && Enabled(c, Exec(c, steps[..n]), steps[n]))
  }

  ghost function Exec(c: Config, steps: seq<Step>): System
    requires ValidRun(c, steps)
    decreases steps, 1
  {
    if steps == [] then Initial()
    else (var n := |steps| - 1; Apply(c, Exec(c, steps[..n]), steps[n]))
  }

  lemma Snoc(c: Config, steps: seq<Step>, step: Step)
    requires ValidRun(c, steps) && Enabled(c, Exec(c, steps), step)
    ensures ValidRun(c, steps + [step])
    ensures Exec(c, steps + [step]) == Apply(c, Exec(c, steps), step)
  {
  }

  // ----- Assumptions some results need, stated on the run -----

  /** The payload's `eventId`, if it has one and any queue will see it, is empty or the event's own. */
  predicate Harmless(id: EventId, e: Event) {
    Route(e.eventType) == None || ("eventId" in e.payload ==> e.payload["eventId"] == "" || e.payload["eventId"] == id)
  }

  ghost predicate HarmlessPayloads(steps: seq<Step>) {
    forall k :: 0 <= k < |steps| && steps[k].Insert? ==> Harmless(steps[k].id, steps[k].event)
  }

  ghost predicate InFlight(s: System, id: EventId) {
    exists r, i :: r in s.runs && 0 <= i < |s.runs[r].claimed| && s.runs[r].claimed[i].id == id
  }

  predicate LeaseCovers(r: Row, now: int) {
    r.leaseExpiresAt.Some? && now <= r.leaseExpiresAt.value
  }

  /** The events in flight that a worker has marked failed are still leased at the given time. */
  ghost predicate FailuresLeased(s: System, now: int) {
    forall id :: id in s.rows && InFlight(s, id) && s.rows[id].status == Failed ==> LeaseCovers(s.rows[id], now)
  }

  /** While a worker has marked an event in flight as failed its lease lasts, and no event in flight is requeued. */
  ghost predicate TimelyStep(s: System, step: Step) {
    match step
    case Tick(to) => FailuresLeased(s, to)
    case WorkerFail(id, permanent, _) => id in s.rows && InFlight(s, id) && !permanent ==> LeaseCovers(s.rows[id], s.now)
    case Requeue(id) => !InFlight(s, id)
    case _ => true
  }

  ghost predicate Timely(c: Config, steps: seq<Step>)
    requires ValidRun(c, steps)
  {
    steps == [] ||
    (var n := |steps| - 1; Timely(c, steps[..n]) && TimelyStep(Exec(c, steps[..n]), steps[n]))
  }

  /** No event is requeued while a batch run holds it. */
  ghost predicate RequeuesIdle(c: Config, steps: seq<Step>)
    requires ValidRun(c, steps)
  {
    steps == [] ||
    (var n := |steps| - 1;
     RequeuesIdle(c, steps[..n]) && (steps[n].Requeue? ==> !InFlight(Exec(c, steps[..n]), steps[n].id)))
  }

  predicate IsWorkerFailure(step: Step) {
    step.WorkerBump? || step.WorkerFail?
  }

  /** Workers may finish jobs, but none reports a failure or counts a retry. */
  ghost predicate NoWorkerFailures(steps: seq<Step>) {
    forall k :: 0 <= k < |steps| ==> !IsWorkerFailure(steps[k])
  }

  ghost predicate NoRequeues(steps: seq<Step>) {
    forall k :: 0 <= k < |steps| ==> !steps[k].Requeue?
  }
}
