/**
 What every interleaving of the outbox keeps: events are never lost or altered, and nothing is marked
 processed without a job, as long as no payload names another event; and what a job carries of its event.
 */
module OutboxSafety {
  import opened Wrappers
  import opened OutboxModel

  // ----- Delivery -----

  /** A job for the event was submitted, or its type has no queue. */
  ghost predicate Delivered(s: System, id: EventId)
    requires id in s.rows
  {
    Route(s.rows[id].event.eventType) == None
    || exists k :: 0 <= k < |s.submitted| && s.submitted[k].origin == id
  }

  /** The job is what one of the two paths builds for the event. */
  ghost predicate FaithfulJob(id: EventId, e: Event, j: Job) {
    match Route(e.eventType)
    case None => false
    case Some(t) => j == OutboxJob(id, e, t) || j == FastPathJob(id, e, t)
  }

  ghost predicate ProcessedInv(s: System) {
    && (forall id :: id in s.rows && s.rows[id].status == Processed ==> Delivered(s, id))
    && (forall id :: id in s.rows ==> id != "" && Harmless(id, s.rows[id].event))
  }

  ghost predicate FastInv(s: System) {
    forall id :: id in s.fast ==> id in s.rows && Delivered(s, id)
  }

  ghost predicate QueueInv(s: System) {
    forall k :: 0 <= k < |s.submitted| ==> SoundSubmission(s, s.submitted[k])
  }

  ghost predicate SoundSubmission(s: System, sub: Submission) {
    && sub.origin in s.rows
    && FaithfulJob(sub.origin, s.rows[sub.origin].event, sub.job)
    && (ReportsTo(sub.job) == None || ReportsTo(sub.job) == Some(sub.origin))
  }

  ghost predicate RunsInv(s: System) {
    forall r :: r in s.runs ==> SoundBatch(s, s.runs[r])
  }

  ghost predicate SoundBatch(s: System, b: BatchRun) {
    && (forall i :: 0 <= i < |b.claimed| ==>
          b.claimed[i].id in s.rows && s.rows[b.claimed[i].id].event == b.claimed[i].event)
    && (b.claimed != [] && b.phase == Enqueued ==> Delivered(s, b.claimed[0].id))
  }

  ghost predicate DeliveryInv(s: System) {
    ProcessedInv(s) && FastInv(s) && QueueInv(s) && RunsInv(s)
  }

  /** Rows stay, their events stay, and submissions stay. */
  ghost predicate Extends(s: System, s': System) {
    && (forall id :: id in s.rows ==> id in s'.rows && s'.rows[id].event == s.rows[id].event)
    && s.submitted <= s'.submitted
  }

  lemma StepKeepsEvents(c: Config, s: System, step: Step)
    requires Enabled(c, s, step)
    ensures forall id :: id in s.rows ==> id in Apply(c, s, step).rows && Apply(c, s, step).rows[id].event == s.rows[id].event
  {
  }

  lemma StepExtends(c: Config, s: System, step: Step)
    requires Enabled(c, s, step)
    ensures Extends(s, Apply(c, s, step))
  {
    StepKeepsEvents(c, s, step);
  }

  lemma DeliveredStays(s: System, s': System)
    requires Extends(s, s')
    ensures forall id :: id in s.rows && Delivered(s, id) ==> Delivered(s', id)
    ensures forall sub :: SoundSubmission(s, sub) ==> SoundSubmission(s', sub)
    ensures forall b :: SoundBatch(s, b) ==> SoundBatch(s', b)
  {
  }

  /** Submitting for an event delivers it, with a sound job. */
  lemma SubmitDelivers(s: System, s': System, id: EventId, fast: bool)
    requires id in s.rows && Extends(s, s')
    requires s'.submitted == Submit(s.submitted, id, s.rows[id].event, fast)
    requires ProcessedInv(s) && QueueInv(s)
    ensures Delivered(s', id) && QueueInv(s')
  {
    DeliveredStays(s, s');
    if Route(s.rows[id].event.eventType).Some? {
      var last := |s.submitted|;
      assert s'.submitted[last].origin == id;
      assert SoundSubmission(s', s'.submitted[last]);
    }
  }

  /** A worker may only report on an event some submission belongs to. */
  lemma WorkerReportsOnDelivered(s: System, id: EventId)
    requires QueueInv(s) && HasJobFor(s, id) && id in s.rows
    ensures Delivered(s, id)
  {
  }

  /** Only the three status writes below turn a row processed. */
  lemma BecomesProcessed(c: Config, s: System, step: Step, id: EventId)
    requires Enabled(c, s, step) && id in Apply(c, s, step).rows
    requires Apply(c, s, step).rows[id].status == Processed
    ensures id in s.rows
    ensures || s.rows[id].status == Processed
            || step == FastMark(id)
            || step == WorkerDone(id)
            || (step.Settle? && Head(s, step.run).id == id && s.runs[step.run].phase == Enqueued)
  {
  }

  lemma StepKeepsProcessed(c: Config, s: System, step: Step)
    requires DeliveryInv(s) && Enabled(c, s, step)
    requires step.Insert? ==> Harmless(step.id, step.event)
    ensures ProcessedInv(Apply(c, s, step))
  {
    var s' := Apply(c, s, step);
    StepExtends(c, s, step);
    DeliveredStays(s, s');
    forall id | id in s'.rows && s'.rows[id].status == Processed
      ensures Delivered(s', id)
    {
      BecomesProcessed(c, s, step, id);
      if step.WorkerDone? && step.id == id {
        WorkerReportsOnDelivered(s, id);
      } else if step.Settle? {
        assert SoundBatch(s, s.runs[step.run]);
      }
      assert Delivered(s, id);
    }
    StepKeepsPayloads(c, s, step);
  }

  lemma StepKeepsPayloads(c: Config, s: System, step: Step)
    requires ProcessedInv(s) && Enabled(c, s, step)
    requires step.Insert? ==> Harmless(step.id, step.event)
    ensures forall id :: id in Apply(c, s, step).rows ==>
              id != "" && Harmless(id, Apply(c, s, step).rows[id].event)
  {
    StepExtends(c, s, step);
    assert !step.Insert? ==> Apply(c, s, step).rows.Keys == s.rows.Keys;
  }

  lemma StepKeepsQueue(c: Config, s: System, step: Step)
    requires DeliveryInv(s) && Enabled(c, s, step)
    ensures QueueInv(Apply(c, s, step))
  {
    var s' := Apply(c, s, step);
    StepExtends(c, s, step);
    DeliveredStays(s, s');
    match step
    case FastEnqueue(id) => SubmitDelivers(s, s', id, true);
    case Enqueue(run) => EnqueueDelivers(c, s, run);
    case _ =>
      assert s'.submitted == s.submitted;
  }

  lemma FastOrigin(c: Config, s: System, step: Step, id: EventId)
    requires Enabled(c, s, step) && id in Apply(c, s, step).fast
    ensures id in s.fast || step == FastEnqueue(id)
  {
  }

  lemma StepKeepsFast(c: Config, s: System, step: Step)
    requires DeliveryInv(s) && Enabled(c, s, step)
    ensures FastInv(Apply(c, s, step))
  {
    var s' := Apply(c, s, step);
    StepExtends(c, s, step);
    DeliveredStays(s, s');
    forall id | id in s'.fast
      ensures id in s'.rows && Delivered(s', id)
    {
      FastOrigin(c, s, step, id);
      if step == FastEnqueue(id) {
        SubmitDelivers(s, s', id, true);
      }
    }
  }

  /** A run is new, unchanged, one event shorter, or in its next phase. */
  ghost predicate RunMoves(s: System, step: Step, r: RunId, b: BatchRun) {
    || (r in s.runs && b == s.runs[r])
    || (step.Claim? && b.phase == Ready && (forall i :: 0 <= i < |step.ids| ==> step.ids[i] in s.rows)
        && b.claimed == Snapshots(s.rows, step.ids))
    || (r in s.runs && |s.runs[r].claimed| > 0 && b == BatchRun(s.runs[r].claimed[1..], Ready))
    || (r in s.runs && b.claimed == s.runs[r].claimed && b.phase.RetryRead?)
    || (step == Enqueue(r) && ActiveRun(s, r) && b == s.runs[r].(phase := Enqueued))
  }

  lemma StepMovesRuns(c: Config, s: System, step: Step)
    requires Enabled(c, s, step)
    ensures forall r :: r in Apply(c, s, step).runs ==> RunMoves(s, step, r, Apply(c, s, step).runs[r])
  {
  }

  lemma RunStaysSound(s: System, s': System, step: Step, r: RunId, b: BatchRun)
    requires Extends(s, s') && RunsInv(s) && RunMoves(s, step, r, b)
    requires step == Enqueue(r) && ActiveRun(s, r) ==> Delivered(s', Head(s, r).id)
    ensures SoundBatch(s', b)
  {
  }

  lemma StepKeepsRuns(c: Config, s: System, step: Step)
    requires DeliveryInv(s) && Enabled(c, s, step)
    ensures RunsInv(Apply(c, s, step))
  {
    var s' := Apply(c, s, step);
    StepExtends(c, s, step);
    StepMovesRuns(c, s, step);
    if step.Enqueue? {
      EnqueueDelivers(c, s, step.run);
    }
    forall r | r in s'.runs
      ensures SoundBatch(s', s'.runs[r])
    {
      RunStaysSound(s, s', step, r, s'.runs[r]);
    }
  }

  lemma EnqueueDelivers(c: Config, s: System, run: RunId)
    requires DeliveryInv(s) && Enabled(c, s, Enqueue(run))
    ensures var s' := Apply(c, s, Enqueue(run));
            Head(s, run).id in s'.rows && Delivered(s', Head(s, run).id) && QueueInv(s')
  {
    StepExtends(c, s, Enqueue(run));
    assert SoundBatch(s, s.runs[run]);
    SubmitDelivers(s, Apply(c, s, Enqueue(run)), Head(s, run).id, false);
  }

  lemma DeliveryStep(c: Config, s: System, step: Step)
    requires DeliveryInv(s) && Enabled(c, s, step)
    requires step.Insert? ==> Harmless(step.id, step.event)
    ensures DeliveryInv(Apply(c, s, step))
  {
    StepKeepsProcessed(c, s, step);
    StepKeepsQueue(c, s, step);
    StepKeepsFast(c, s, step);
    StepKeepsRuns(c, s, step);
  }

  lemma {:induction false} DeliveryHolds(c: Config, steps: seq<Step>)
    requires ValidRun(c, steps) && HarmlessPayloads(steps)
    ensures DeliveryInv(Exec(c, steps))
  {
    if steps != [] {
      var n := |steps| - 1;
      DeliveryHolds(c, steps[..n]);
      DeliveryStep(c, Exec(c, steps[..n]), steps[n]);
    }
  }

  /** The payload's own `eventId` is the empty string. */
  predicate BlankId(e: Event) {
    "eventId" in e.payload && e.payload["eventId"] == ""
  }

  /** In every interleaving, an event marked processed had a job of its own submitted, or needs none. */
  lemma ProcessedMeansSubmitted(c: Config, steps: seq<Step>, id: EventId)
    requires ValidRun(c, steps) && HarmlessPayloads(steps)
    requires id in Exec(c, steps).rows && Exec(c, steps).rows[id].status == Processed
    ensures var s := Exec(c, steps);
            Route(s.rows[id].event.eventType) == None
            || exists k :: 0 <= k < |s.submitted| && s.submitted[k].origin == id
                           && FaithfulJob(id, s.rows[id].event, s.submitted[k].job)
                           && (ReportsTo(s.submitted[k].job) == Some(id) || BlankId(s.rows[id].event))
  {
    DeliveryHolds(c, steps);
    var s := Exec(c, steps);
    if Route(s.rows[id].event.eventType).Some? {
      var k :| 0 <= k < |s.submitted| && s.submitted[k].origin == id;
      assert SoundSubmission(s, s.submitted[k]);
      NamesItself(id, s.rows[id].event, s.submitted[k].job);
    }
  }

  lemma NamesItself(id: EventId, e: Event, j: Job)
    requires id != "" && FaithfulJob(id, e, j) && Harmless(id, e)
    ensures ReportsTo(j) == Some(id) || BlankId(e)
  {
  }

  /** No event is dropped, and none has its type, owner, cell, payload or correlation id changed. */
  lemma {:induction false} EventsAreDurable(c: Config, steps: seq<Step>, m: nat)
    requires ValidRun(c, steps) && m <= |steps| && ValidRun(c, steps[..m])
    ensures Extends(Exec(c, steps[..m]), Exec(c, steps))
  {
    var n := |steps| - 1;
    if m <= n {
      assert steps[..n][..m] == steps[..m];
      EventsAreDurable(c, steps[..n], m);
      StepExtends(c, Exec(c, steps[..n]), steps[n]);
    } else {
      assert steps[..m] == steps;
    }
  }

  /** The outbox's job reports to its own event exactly when the payload does not say otherwise. */
  lemma OutboxJobReportsHome(id: EventId, e: Event, t: Target)
    requires id != ""
    ensures ReportsTo(OutboxJob(id, e, t)) == Some(id)
            <==> ("eventId" in e.payload ==> e.payload["eventId"] == id)
    ensures ReportsTo(FastPathJob(id, e, t)) == Some(id)
  {
  }

  /** Both paths submit the same job, apart from the user and cell only the outbox adds. */
  lemma PathsAgree(id: EventId, e: Event, t: Target, key: string)
    requires "eventId" !in e.payload && "correlationId" !in e.payload
    requires key != "userId" && key != "cellId"
    ensures var slow, fast := OutboxJob(id, e, t), FastPathJob(id, e, t);
            && slow.queue == fast.queue
            && (key in slow.data <==> key in fast.data)
            && (key in slow.data ==> slow.data[key] == fast.data[key])
  {
  }

  // ----- What a job carries of its event -----

  function EnvelopeOf(id: EventId, e: Event): map<string, string> {
    map["eventId" := id, "correlationId" := e.correlationId, "userId" := e.userId, "cellId" := e.cellId]
  }

  /** The payload does not contradict the envelope on this key. */
  predicate Agrees(id: EventId, e: Event, key: string)
    requires key in EnvelopeOf(id, e)
  {
    key in e.payload ==> e.payload[key] == EnvelopeOf(id, e)[key]
  }

  /** The dispatcher's job always has the whole envelope, each key the event's own exactly when the payload agrees. */
  lemma OutboxEnvelopeIff(id: EventId, e: Event, t: Target, key: string)
    requires key in EnvelopeOf(id, e)
    ensures var data := OutboxJob(id, e, t).data;
            key in data && (data[key] == EnvelopeOf(id, e)[key] <==> Agrees(id, e, key))
  {
  }

  /**
   The fast path's job always has the event's own id and correlation id, and its owner and cell exactly
   when the payload supplies them.
   */
  lemma FastPathEnvelopeIff(id: EventId, e: Event, t: Target, key: string)
    requires key in EnvelopeOf(id, e)
    ensures var data := FastPathJob(id, e, t).data;
            (key in data && data[key] == EnvelopeOf(id, e)[key])
            <==> key == "eventId" || key == "correlationId" || (key in e.payload && Agrees(id, e, key))
  {
  }

  /** The type tag of a job is its event's, whatever the payload says. */
  lemma TagIsKept(id: EventId, e: Event, t: Target)
    requires t.tag.Some?
    ensures "type" in OutboxJob(id, e, t).data && OutboxJob(id, e, t).data["type"] == t.tag.value
    ensures "type" in FastPathJob(id, e, t).data && FastPathJob(id, e, t).data["type"] == t.tag.value
  {
  }

  /** In every interleaving, every job of the queue whose event's payload agrees preserves the event's context. */
  lemma ContextIsPreserved(c: Config, steps: seq<Step>, k: nat, key: string)
    requires ValidRun(c, steps) && HarmlessPayloads(steps) && k < |Exec(c, steps).submitted|
    requires key in {"eventId", "correlationId", "userId", "cellId"}
    ensures var s := Exec(c, steps);
            var sub := s.submitted[k];
            && sub.origin in s.rows
            && var e := s.rows[sub.origin].event;
               Agrees(sub.origin, e, key) ==>
                 && (key in sub.job.data ==> sub.job.data[key] == EnvelopeOf(sub.origin, e)[key])
                 && (key == "eventId" || key == "correlationId" ==> key in sub.job.data)
  {
    DeliveryHolds(c, steps);
    var s := Exec(c, steps);
    var sub := s.submitted[k];
    assert SoundSubmission(s, sub);
    var e := s.rows[sub.origin].event;
    var t := Route(e.eventType).value;
    OutboxEnvelopeIff(sub.origin, e, t, key);
    FastPathEnvelopeIff(sub.origin, e, t, key);
  }

  // ----- Payloads that name another event -----

  /** Everything inserted is harmless, or is the one given event. */
  ghost predicate HarmlessBut(steps: seq<Step>, a: EventId, e: Event) {
    forall k :: 0 <= k < |steps| && steps[k].Insert? ==> steps[k] == Insert(a, e) || Harmless(steps[k].id, steps[k].event)
  }

  ghost predicate AllDelivered(s: System) {
    forall id :: id in s.rows && s.rows[id].status == Processed ==> Delivered(s, id)
  }

  function NewRow(e: Event): Row {
    Row(e, Pending, 0, None, None, None, None, None)
  }

  /** Inserting, claiming and submitting one event. */
  lemma SubmittedAlone(c: Config, a: EventId, e: Event) returns (steps: seq<Step>)
    requires c.batchSize > 0 && c.maxRetries > 0 && a != "" && Route(e.eventType).Some?
    ensures steps == [Insert(a, e), Claim(0, "d", 0, {}, [a]), Enqueue(0)] && ValidRun(c, steps)
    ensures Exec(c, steps).rows == map[a := Claimed(NewRow(e), "d", c.leaseTtlMs)]
    ensures Exec(c, steps).submitted == [Submission(a, OutboxJob(a, e, Route(e.eventType).value))]
  {
    Snoc(c, [], Insert(a, e));
    var s1 := [] + [Insert(a, e)];
    var s := Exec(c, s1);
    assert s == Initial().(rows := map[a := NewRow(e)]);
    assert Selects(c, 0, s.rows, {}, [a]);
    assert Snapshots(s.rows, [a]) == [Snapshot(a, e)];
    Snoc(c, s1, Claim(0, "d", 0, {}, [a]));
    var s2 := s1 + [Claim(0, "d", 0, {}, [a])];
    assert Exec(c, s2).runs == map[0 := BatchRun([Snapshot(a, e)], Ready)];
    assert Exec(c, s2).rows == map[a := Claimed(NewRow(e), "d", c.leaseTtlMs)];
    Snoc(c, s2, Enqueue(0));
    steps := s2 + [Enqueue(0)];
  }

  /** A job of event "a" that names another event "b" lets its worker mark "b", which nobody submitted. */
  lemma PayloadCanMisreport(c: Config, a: EventId, e: Event, b: EventId, e2: Event) returns (steps: seq<Step>)
    requires c.batchSize > 0 && c.maxRetries > 0 && a != "" && b != "" && a != b
    requires Route(e.eventType).Some? && Route(e2.eventType).Some?
    requires "eventId" in e.payload && e.payload["eventId"] == b
    ensures steps == [Insert(a, e), Claim(0, "d", 0, {}, [a]), Enqueue(0), Insert(b, e2), WorkerDone(b)]
    ensures ValidRun(c, steps)
    ensures var s := Exec(c, steps);
            b in s.rows && s.rows[b].status == Processed && !Delivered(s, b)
  {
    var alone := SubmittedAlone(c, a, e);
    var job := OutboxJob(a, e, Route(e.eventType).value);
    OutboxEnvelopeIff(a, e, Route(e.eventType).value, "eventId");
    assert ReportsTo(job) == Some(b);
    Snoc(c, alone, Insert(b, e2));
    var both := alone + [Insert(b, e2)];
    var s := Exec(c, both);
    assert s.submitted == [Submission(a, job)];
    assert HasJobFor(s, b) by {
      assert ReportsTo(s.submitted[0].job) == Some(b);
    }
    Snoc(c, both, WorkerDone(b));
    steps := both + [WorkerDone(b)];
    assert Exec(c, steps).submitted == [Submission(a, job)];
  }

  /** One event's payload endangers delivery exactly when a queue sees it name an event other than its own. */
  lemma DeliveryHoldsIff(c: Config, a: EventId, e: Event)
    requires c.batchSize > 0 && c.maxRetries > 0 && a != ""
    ensures Harmless(a, e) <==>
            forall steps :: ValidRun(c, steps) && HarmlessBut(steps, a, e) ==> AllDelivered(Exec(c, steps))
  {
    if Harmless(a, e) {
      forall steps | ValidRun(c, steps) && HarmlessBut(steps, a, e)
        ensures AllDelivered(Exec(c, steps))
      {
        DeliveryHolds(c, steps);
      }
    } else {
      var b, clean := e.payload["eventId"], e.(payload := map[]);
      var steps := PayloadCanMisreport(c, a, e, b, clean);
      assert HarmlessBut(steps, a, e);
      assert !AllDelivered(Exec(c, steps));
    }
  }
}
