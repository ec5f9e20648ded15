/**
 The dashboard summary behind its cache: grouped counts that equal direct ones, and how stale an
 answer can be.
 */
module Dashboard {
  import opened Wrappers
  import opened ApplicationStatus
  import opened Cache
  import Text

  datatype Summary = Summary(totalApplications: nat, activeApplications: int, interviews: nat, offers: nat,
                             rejections: nat, pendingAssessments: nat, responseRate: real)

  // ----- Direct counts -----

  function Count(apps: seq<Status>, test: Status -> bool): nat {
    if apps == [] then 0
    else Count(apps[..|apps| - 1], test) + if test(apps[|apps| - 1]) then 1 else 0
  }

  function Is(s: Status): Status -> bool {
    (t: Status) => t == s
  }

  predicate IsActive(s: Status) {
    s != REJECTED && s != WITHDRAWN
  }

  /** Everything but a saved or merely submitted application counts as a response. */
  predicate IsResponse(s: Status) {
    s != SAVED && s != APPLIED
  }

  /** The summary counted directly from an application list. */
  function Summarise(apps: seq<Status>): Summary {
    Summary(|apps|, Count(apps, IsActive), Count(apps, Is(INTERVIEW)), Count(apps, Is(OFFER)), Count(apps, Is(REJECTED)),
            Count(apps, Is(ASSESSMENT)), if apps == [] then 0.0 else Count(apps, IsResponse) as real / |apps| as real)
  }

  lemma CountGrows(apps: seq<Status>, s: Status, test: Status -> bool)
    ensures Count(apps + [s], test) == Count(apps, test) + if test(s) then 1 else 0
  {
    assert (apps + [s])[..|apps|] == apps;
  }

  /** What one more application does to each number of the summary. */
  lemma SummaryGrows(apps: seq<Status>, s: Status)
    ensures var r, r' := Summarise(apps), Summarise(apps + [s]);
            && r'.totalApplications == r.totalApplications + 1
            && r'.activeApplications == r.activeApplications + (if s == REJECTED || s == WITHDRAWN then 0 else 1)
            && r'.interviews == r.interviews + (if s == INTERVIEW then 1 else 0)
            && r'.offers == r.offers + (if s == OFFER then 1 else 0)
            && r'.rejections == r.rejections + (if s == REJECTED then 1 else 0)
            && r'.pendingAssessments == r.pendingAssessments + (if s == ASSESSMENT then 1 else 0)
  {
    CountGrows(apps, s, IsActive);
    CountGrows(apps, s, Is(INTERVIEW));
    CountGrows(apps, s, Is(OFFER));
    CountGrows(apps, s, Is(REJECTED));
    CountGrows(apps, s, Is(ASSESSMENT));
  }

  function WasAnswered(s: Status): nat {
    match s
    case SAVED => 0
    case APPLIED => 0
    case _ => 1
  }

  function Answered(apps: seq<Status>): nat {
    if apps == [] then 0 else Answered(apps[..|apps| - 1]) + WasAnswered(apps[|apps| - 1])
  }

  /** The response rate is the share of applications beyond saved and applied; without applications it is zero. */
  lemma {:induction false} ResponsesAreAnswered(apps: seq<Status>)
    ensures Count(apps, IsResponse) == Answered(apps) <= |apps|
    ensures Summarise(apps).responseRate == if apps == [] then 0.0 else Answered(apps) as real / |apps| as real
  {
    if apps != [] {
      ResponsesAreAnswered(apps[..|apps| - 1]);
    }
  }

  // ----- Counts by status, as the database groups them -----

  datatype Row = Row(status: Status, count: nat)

  /** The rows of a grouped count: each status that occurs, once, in any order. */
  ghost predicate Groups(rows: seq<Row>, apps: seq<Status>) {
    && (forall i, j :: 0 <= i < j < |rows| ==> rows[i].status != rows[j].status)
    && (forall i :: 0 <= i < |rows| ==> rows[i].count == Count(apps, Is(rows[i].status)))
    && (forall s :: s in apps ==> Listed(rows, s))
  }

  function CountsByStatus(rows: seq<Row>): map<Status, nat> {
    if rows == [] then map[]
    else
      var last := rows[|rows| - 1];
      CountsByStatus(rows[..|rows| - 1])[last.status := last.count]
  }

  function SumCounts(rows: seq<Row>, keep: Status -> bool): nat {
    if rows == [] then 0
    else
      var last := rows[|rows| - 1];
      SumCounts(rows[..|rows| - 1], keep) + if keep(last.status) then last.count else 0
  }

  function CountOr0(counts: map<Status, nat>, s: Status): nat {
    if s in counts then counts[s] else 0
  }

  function Always(s: Status): bool {
    true
  }

  const ResponseStatuses := {SCREENING, ASSESSMENT, INTERVIEW, OFFER, REJECTED, WITHDRAWN}

  predicate InResponseStatuses(s: Status) {
    s in ResponseStatuses
  }

  /** The summary arithmetic of the service. */
  function SummaryOfRows(rows: seq<Row>): Summary {
    var counts := CountsByStatus(rows);
    var total := SumCounts(rows, Always);
    var rejections := CountOr0(counts, REJECTED);
    var responses := SumCounts(rows, InResponseStatuses);
    Summary(total, total - rejections - CountOr0(counts, WITHDRAWN), CountOr0(counts, INTERVIEW), CountOr0(counts, OFFER),
            rejections, CountOr0(counts, ASSESSMENT), if total > 0 then responses as real / total as real else 0.0)
  }

  predicate Listed(rows: seq<Row>, s: Status) {
    exists i :: 0 <= i < |rows| && rows[i].status == s
  }

  /** Whether a kept status has a row. */
  function InRows(rows: seq<Row>, keep: Status -> bool): Status -> bool {
    (s: Status) => keep(s) && Listed(rows, s)
  }

  lemma {:induction false} CountSplits(apps: seq<Status>, whole: Status -> bool, part: Status -> bool, s: Status)
    requires forall t :: whole(t) <==> part(t) || t == s
    requires !part(s)
    ensures Count(apps, whole) == Count(apps, part) + Count(apps, Is(s))
  {
    if apps != [] {
      CountSplits(apps[..|apps| - 1], whole, part, s);
    }
  }

  lemma {:induction false} SameCount(apps: seq<Status>, f: Status -> bool, g: Status -> bool)
    requires forall s :: s in apps ==> (f(s) <==> g(s))
    ensures Count(apps, f) == Count(apps, g)
  {
    if apps != [] {
      SameCount(apps[..|apps| - 1], f, g);
    }
  }

  lemma {:induction false} NoneCounted(apps: seq<Status>, f: Status -> bool)
    requires forall s :: s in apps ==> !f(s)
    ensures Count(apps, f) == 0
  {
    if apps != [] {
      NoneCounted(apps[..|apps| - 1], f);
    }
  }

  /** Adding up rows that carry exact counts, each status once. */
  lemma {:induction false} SumIsCount(rows: seq<Row>, apps: seq<Status>, keep: Status -> bool)
    requires forall i, j :: 0 <= i < j < |rows| ==> rows[i].status != rows[j].status
    requires forall i :: 0 <= i < |rows| ==> rows[i].count == Count(apps, Is(rows[i].status))
    ensures SumCounts(rows, keep) == Count(apps, InRows(rows, keep))
  {
    if rows == [] {
      NoneCounted(apps, InRows(rows, keep));
    } else {
      var k := |rows| - 1;
      var last := rows[k];
      SumIsCount(rows[..k], apps, keep);
      forall t
        ensures Listed(rows, t) <==> t == last.status || Listed(rows[..k], t)
      {
        assert forall i :: 0 <= i < k ==> rows[..k][i] == rows[i];
      }
      if keep(last.status) {
        CountSplits(apps, InRows(rows, keep), InRows(rows[..k], keep), last.status);
      } else {
        SameCount(apps, InRows(rows, keep), InRows(rows[..k], keep));
      }
    }
  }

  lemma {:induction false} CountsAreLookups(rows: seq<Row>, s: Status)
    requires forall i, j :: 0 <= i < j < |rows| ==> rows[i].status != rows[j].status
    ensures s in CountsByStatus(rows) <==> Listed(rows, s)
    ensures forall i :: 0 <= i < |rows| && rows[i].status == s ==> CountOr0(CountsByStatus(rows), s) == rows[i].count
  {
    if rows != [] {
      CountsAreLookups(rows[..|rows| - 1], s);
      assert forall i :: 0 <= i < |rows| - 1 ==> rows[..|rows| - 1][i] == rows[i];
    }
  }

  lemma GroupedCount(rows: seq<Row>, apps: seq<Status>, s: Status)
    requires Groups(rows, apps)
    ensures CountOr0(CountsByStatus(rows), s) == Count(apps, Is(s))
  {
    CountsAreLookups(rows, s);
    if s !in CountsByStatus(rows) {
      NoneCounted(apps, Is(s));
    }
  }

  lemma GroupedSum(rows: seq<Row>, apps: seq<Status>, keep: Status -> bool)
    requires Groups(rows, apps)
    ensures SumCounts(rows, keep) == Count(apps, keep)
  {
    SumIsCount(rows, apps, keep);
    SameCount(apps, InRows(rows, keep), keep);
  }

  lemma {:induction false} CountAlways(apps: seq<Status>)
    ensures Count(apps, Always) == |apps|
  {
    if apps != [] {
      CountAlways(apps[..|apps| - 1]);
    }
  }

  lemma {:induction false} ActiveIsTheRest(apps: seq<Status>)
    ensures Count(apps, IsActive) == |apps| - Count(apps, Is(REJECTED)) - Count(apps, Is(WITHDRAWN))
  {
    if apps != [] {
      ActiveIsTheRest(apps[..|apps| - 1]);
    }
  }

  /** In whatever order the groups arrive, the summary equals the direct counts. */
  lemma GroupedSummaryIsDirect(rows: seq<Row>, apps: seq<Status>)
    requires Groups(rows, apps)
    ensures SummaryOfRows(rows) == Summarise(apps)
  {
    GroupedSum(rows, apps, Always);
    GroupedSum(rows, apps, InResponseStatuses);
    CountAlways(apps);
    SameCount(apps, InResponseStatuses, IsResponse);
    ActiveIsTheRest(apps);
    forall s
      ensures CountOr0(CountsByStatus(rows), s) == Count(apps, Is(s))
    {
      GroupedCount(rows, apps, s);
    }
  }

  // ----- Keys -----

  const SummaryTtlMs := 30_000

  function PageText(page: Option<int>): string {
    if page.Some? then Text.ToString(page.value) else "default"
  }

  function CacheKey(kind: string, userId: string, page: Option<int>, pageSize: Option<int>): string {
    userId + ":" + kind + ":" + PageText(page) + ":" + PageText(pageSize)
  }

  function SummaryKey(userId: string): string {
    CacheKey("summary", userId, None, None)
  }

  lemma NumberEnds(n: int)
    ensures var s := Text.ToString(n); s != "" && s[|s| - 1] != 't'
  {
  }

  /** A page of another list never takes a summary's place: its key ends in a digit. */
  lemma PagesAreNoSummaries(u: string, v: string, kind: string, page: int, pageSize: int)
    ensures CacheKey(kind, v, Some(page), Some(pageSize)) != SummaryKey(u)
  {
    var ending := ":summary:default:default";
    assert SummaryKey(u) == u + ending;
    NumberEnds(pageSize);
    var other, size := CacheKey(kind, v, Some(page), Some(pageSize)), Text.ToString(pageSize);
    assert other[|other| - 1] == size[|size| - 1];
    assert (u + ending)[|u + ending| - 1] == 't';
  }

  lemma UsersHaveTheirOwnKeys(u: string, v: string)
    ensures SummaryKey(u) == SummaryKey(v) <==> u == v
  {
    var ending := ":summary:default:default";
    assert SummaryKey(u) == u + ending && SummaryKey(v) == v + ending;
    if SummaryKey(u) == SummaryKey(v) {
      assert |u| == |v|;
      assert (u + ending)[..|u|] == u && (v + ending)[..|v|] == v;
    }
  }

  /** No page has a summary's key, and no two users share one. */
  lemma SummaryKeysAreDistinct(u: string, v: string, kind: string, page: int, pageSize: int)
    ensures SummaryKey(u) == SummaryKey(v) <==> u == v
    ensures CacheKey(kind, v, Some(page), Some(pageSize)) != SummaryKey(u)
  {
    PagesAreNoSummaries(u, v, kind, page, pageSize);
    UsersHaveTheirOwnKeys(u, v);
  }

  lemma OwnPrefix(u: string)
    ensures StartsWith(SummaryKey(u), u + ":")
  {
  }

  // ----- Runs -----

  /** What the cache holds: summaries, and pages of other lists. */
  datatype Value = SummaryValue(summary: Summary) | PageValue

  datatype State = State(entries: map<string, Entry<Value>>, apps: map<string, seq<Status>>, now: int)

  datatype Step =
    | GetDashboard(userId: string)
    | SetPage(kind: string, userId: string, page: int, pageSize: int, ttlMs: int)
    | GetPage(kind: string, userId: string, page: int, pageSize: int)
    | InvalidateUser(userId: string)
    | Clear
    | ChangeApplications(userId: string, apps: seq<Status>)
    | Wait(ms: nat)

  function AppsOf(s: State, userId: string): seq<Status> {
    if userId in s.apps then s.apps[userId] else []
  }

  /** Get or compute, as one step: the answer and the entries it leaves. */
  function Answer(entries: map<string, Entry<Value>>, userId: string, current: Summary, now: int): Value {
    match Live(entries, SummaryKey(userId), now)
    case Some(cached) => cached
    case None => SummaryValue(current)
  }

  function AfterAnswer(entries: map<string, Entry<Value>>, userId: string, current: Summary, now: int): map<string, Entry<Value>> {
    var key := SummaryKey(userId);
    if Live(entries, key, now).Some? then entries
    else AfterGet(entries, key, now)[key := Entry(SummaryValue(current), now + SummaryTtlMs)]
  }

  function Apply(s: State, step: Step): State {
    match step
    case GetDashboard(u) => s.(entries := AfterAnswer(s.entries, u, Summarise(AppsOf(s, u)), s.now))
    case SetPage(kind, u, page, size, ttl) =>
      s.(entries := s.entries[CacheKey(kind, u, Some(page), Some(size)) := Entry(PageValue, s.now + ttl)])
    case GetPage(kind, u, page, size) => s.(entries := AfterGet(s.entries, CacheKey(kind, u, Some(page), Some(size)), s.now))
    case InvalidateUser(u) => s.(entries := WithoutPrefix(s.entries, u + ":"))
    case Clear => s.(entries := map[])
    case ChangeApplications(u, apps) => s.(apps := s.apps[u := apps])
    case Wait(ms) => s.(now := s.now + ms)
  }

  function After(s: State, steps: seq<Step>): State {
    if steps == [] then s else Apply(After(s, steps[..|steps| - 1]), steps[|steps| - 1])
  }

  predicate Forgets(step: Step, userId: string) {
    step == Clear || step == InvalidateUser(userId)
  }

  /** The summary of the user's applications after i steps, with nothing forgotten since. */
  ghost predicate ComputedAt(s: State, steps: seq<Step>, userId: string, i: nat, value: Value, time: int) {
    && i <= |steps|
    && value == SummaryValue(Summarise(AppsOf(After(s, steps[..i]), userId)))
    && time == After(s, steps[..i]).now
    && forall j :: i <= j < |steps| ==> !Forgets(steps[j], userId)
  }

  /** Every cached summary was computed at some point of the run and expires a fixed time later. */
  ghost predicate Witnessed(s: State, steps: seq<Step>, userId: string) {
    var entries := After(s, steps).entries;
    SummaryKey(userId) in entries ==>
      var entry := entries[SummaryKey(userId)];
      exists i :: ComputedAt(s, steps, userId, i, entry.value, MadeAt(entry))
  }

  function MadeAt(entry: Entry<Value>): int {
    entry.expiresAt - SummaryTtlMs
  }

  /** An entry that a step leaves in place was not forgotten by it. */
  lemma KeptEntry(s: State, step: Step, userId: string)
    requires SummaryKey(userId) in Apply(s, step).entries
    requires step.GetDashboard? && step.userId == userId ==> Live(s.entries, SummaryKey(userId), s.now).Some?
    ensures !Forgets(step, userId)
    ensures SummaryKey(userId) in s.entries && Apply(s, step).entries[SummaryKey(userId)] == s.entries[SummaryKey(userId)]
  {
    var key := SummaryKey(userId);
    match step
    case GetDashboard(u) => SummaryKeysAreDistinct(userId, u, "", 0, 0);
    case SetPage(kind, u, page, size, ttl) => SummaryKeysAreDistinct(userId, u, kind, page, size);
    case GetPage(kind, u, page, size) => SummaryKeysAreDistinct(userId, u, kind, page, size);
    case InvalidateUser(u) => if u == userId { OwnPrefix(u); }
    case _ =>
  }

  lemma {:induction false} AllWitnessed(s: State, steps: seq<Step>, userId: string)
    requires s.entries == map[]
    ensures Witnessed(s, steps, userId)
  {
    var key, entries := SummaryKey(userId), After(s, steps).entries;
    if steps != [] && key in entries {
      var last := |steps| - 1;
      var before := After(s, steps[..last]);
      AllWitnessed(s, steps[..last], userId);
      if steps[last] == GetDashboard(userId) && Live(before.entries, key, before.now).None? {
        Recomputed(s, steps, userId);
      } else {
        KeptEntry(before, steps[last], userId);
        var entry := before.entries[key];
        var i :| ComputedAt(s, steps[..last], userId, i, entry.value, MadeAt(entry));
        StillComputed(s, steps, userId, i, entry.value, MadeAt(entry));
      }
    }
  }

  lemma Recomputed(s: State, steps: seq<Step>, userId: string)
    requires steps != [] && steps[|steps| - 1] == GetDashboard(userId)
    requires var before := After(s, steps[..|steps| - 1]); Live(before.entries, SummaryKey(userId), before.now).None?
    ensures var entry := After(s, steps).entries[SummaryKey(userId)];
            ComputedAt(s, steps, userId, |steps|, entry.value, MadeAt(entry))
  {
    assert steps[..|steps|] == steps;
  }

  lemma StillComputed(s: State, steps: seq<Step>, userId: string, i: nat, value: Value, time: int)
    requires steps != [] && ComputedAt(s, steps[..|steps| - 1], userId, i, value, time)
    requires !Forgets(steps[|steps| - 1], userId)
    ensures ComputedAt(s, steps, userId, i, value, time)
  {
    assert steps[..|steps| - 1][..i] == steps[..i];
    assert forall j :: i <= j < |steps| - 1 ==> steps[..|steps| - 1][j] == steps[j];
  }

  /**
   Whatever happened, an answer is the direct count of the user's applications as they stood at some
   instant less than thirty seconds ago and not before the user was last invalidated.
   */
  lemma StalenessIsBounded(s: State, steps: seq<Step>, userId: string) returns (i: nat)
    requires s.entries == map[]
    ensures i <= |steps|
    ensures var end := After(s, steps);
            ComputedAt(s, steps, userId, i, Answer(end.entries, userId, Summarise(AppsOf(end, userId)), end.now),
                       After(s, steps[..i]).now)
    ensures After(s, steps).now - 30_000 < After(s, steps[..i]).now <= After(s, steps).now
  {
    var end := After(s, steps);
    AllWitnessed(s, steps, userId);
    if Live(end.entries, SummaryKey(userId), end.now).Some? {
      var entry := end.entries[SummaryKey(userId)];
      i :| ComputedAt(s, steps, userId, i, entry.value, MadeAt(entry));
      ClockAdvances(s, steps, i);
    } else {
      i := |steps|;
      assert steps[..|steps|] == steps;
    }
  }

  lemma {:induction false} ClockAdvances(s: State, steps: seq<Step>, i: nat)
    requires i <= |steps|
    ensures After(s, steps[..i]).now <= After(s, steps).now
  {
    if i < |steps| {
      ClockAdvances(s, steps[..|steps| - 1], i);
      assert steps[..|steps| - 1][..i] == steps[..i];
    } else {
      assert steps[..i] == steps;
    }
  }

  /** Straight after an invalidation the answer is current. */
  lemma InvalidationIsImmediate(s: State, steps: seq<Step>, userId: string)
    requires s.entries == map[] && steps != [] && steps[|steps| - 1] == InvalidateUser(userId)
    ensures var end := After(s, steps);
            Answer(end.entries, userId, Summarise(AppsOf(end, userId)), end.now) == SummaryValue(Summarise(AppsOf(end, userId)))
  {
  }

  /** Among users without colons in their identifiers, an invalidation removes its own user's summary and no other. */
  lemma OthersAreSpared(s: State, u: string, v: string)
    requires ':' !in u && ':' !in v
    ensures var s' := Apply(s, InvalidateUser(u));
            && (SummaryKey(v) in s'.entries <==> SummaryKey(v) in s.entries && u != v)
            && (SummaryKey(v) in s'.entries ==> s'.entries[SummaryKey(v)] == s.entries[SummaryKey(v)])
  {
    var key := SummaryKey(v);
    OwnPrefix(v);
    if StartsWith(key, u + ":") {
      assert (u + ":")[|u|] == ':' && key[|u|] == ':';
      assert (v + ":")[|v|] == ':' && key[|v|] == ':';
      assert forall i :: 0 <= i < |u| ==> key[i] == u[i];
      assert forall i :: 0 <= i < |v| ==> key[i] == v[i];
      assert |u| == |v|;
      assert u == v;
    }
  }

  /** The bound is reached: a millisecond before expiry the old summary is still the answer. */
  lemma StalenessIsTight(userId: string, before: seq<Status>, after: seq<Status>)
    ensures var s := State(map[], map[userId := before], 0);
            var steps := [GetDashboard(userId), ChangeApplications(userId, after), Wait(SummaryTtlMs - 1)];
            var end := After(s, steps);
            Answer(end.entries, userId, Summarise(AppsOf(end, userId)), end.now) == SummaryValue(Summarise(before))
  {
    var s := State(map[], map[userId := before], 0);
    var steps := [GetDashboard(userId), ChangeApplications(userId, after), Wait(SummaryTtlMs - 1)];
    assert steps[..2][..1] == [GetDashboard(userId)] && steps[..2][..1][..0] == [];
    var one := After(s, steps[..2][..1]);
    assert After(s, []) == s;
    assert one == Apply(s, GetDashboard(userId));
    assert one.entries[SummaryKey(userId)] == Entry(SummaryValue(Summarise(before)), SummaryTtlMs);
  }

  // ----- The service -----

  class DashboardService {
    const cache: InMemoryCacheStore<Value>

    constructor (cache: InMemoryCacheStore<Value>)
      ensures this.cache == cache
    {
      this.cache := cache;
    }

    /** Rows are what the grouped count returns for the user's applications, in any order. */
    method GetDashboard(userId: string, rows: seq<Row>, now: int, ghost apps: seq<Status>) returns (answer: Value)
      requires Groups(rows, apps)
      modifies cache
      ensures answer == Answer(old(cache.entries), userId, Summarise(apps), now)
      ensures cache.entries == AfterAnswer(old(cache.entries), userId, Summarise(apps), now)
    {
      var cached := cache.Get(SummaryKey(userId), now);
      if cached.Some? {
        return cached.value;
      }
      GroupedSummaryIsDirect(rows, apps);
      var summary := SummaryOfRows(rows);
      cache.Set(SummaryKey(userId), SummaryValue(summary), SummaryTtlMs, now);
      return SummaryValue(summary);
    }

    method InvalidateUser(userId: string)
      modifies cache
      ensures cache.entries == WithoutPrefix(old(cache.entries), userId + ":")
      ensures SummaryKey(userId) !in cache.entries
    {
      OwnPrefix(userId);
      cache.DeletePrefix(userId + ":");
    }
  }
}
