/**
 The grouping loops behind the performance rows: exact counts per key, and which of them keep
 offers <= interviews <= applications.
 */
module Analytics {
  import opened Wrappers
  import opened ApplicationStatus
  import Wilson

  datatype Application = Application(id: string, status: Status, resumeVersionId: Option<string>,
                                     appliedDate: Option<int>, firstOutcome: Option<int>)

  datatype Counts = Counts(applications: nat, interviews: nat, offers: nat)

  const NoCounts := Counts(0, 0, 0)

  /** Seniority of a status: an offer counts as an interview, an interview as an application. */
  predicate IsInterview(s: Status) {
    s == INTERVIEW || s == ASSESSMENT || s == OFFER
  }

  predicate IsOffer(s: Status) {
    s == OFFER
  }

  function ResumeKey(a: Application): string {
    if a.resumeVersionId.Some? then a.resumeVersionId.value else "unlinked"
  }

  const DayMs := 86_400_000

  /** The timing bucket; without an outcome the delay is zero, without a date it counts from the epoch. */
  function TimingKey(a: Application): string {
    var diffMs := if a.firstOutcome.Some? then a.firstOutcome.value - (if a.appliedDate.Some? then a.appliedDate.value else 0) else 0;
    var diffDays := diffMs as real / DayMs as real;
    if diffDays <= 1.0 then "within_24h" else if diffDays <= 7.0 then "1_to_7d" else "over_7d"
  }

  const TimingKeys := ["within_24h", "1_to_7d", "over_7d"]

  // ----- What the loops count -----

  /** How many of the applications satisfy a test. */
  function CountIf(apps: seq<Application>, test: Application -> bool): nat {
    if apps == [] then 0
    else CountIf(apps[..|apps| - 1], test) + if test(apps[|apps| - 1]) then 1 else 0
  }

  function Under(keyOf: Application -> string, key: string): Application -> bool {
    (a: Application) => keyOf(a) == key
  }

  function InterviewUnder(keyOf: Application -> string, key: string): Application -> bool {
    (a: Application) => keyOf(a) == key && IsInterview(a.status)
  }

  function OfferUnder(keyOf: Application -> string, key: string): Application -> bool {
    (a: Application) => keyOf(a) == key && IsOffer(a.status)
  }

  function CountsOf(apps: seq<Application>, keyOf: Application -> string, key: string): Counts {
    Counts(CountIf(apps, Under(keyOf, key)), CountIf(apps, InterviewUnder(keyOf, key)), CountIf(apps, OfferUnder(keyOf, key)))
  }

  function AddApplication(c: Counts, s: Status): Counts {
    Counts(c.applications + 1, c.interviews + (if IsInterview(s) then 1 else 0), c.offers + if IsOffer(s) then 1 else 0)
  }

  lemma CountsGrow(apps: seq<Application>, a: Application, keyOf: Application -> string, key: string)
    ensures CountsOf(apps + [a], keyOf, key)
            == if keyOf(a) == key then AddApplication(CountsOf(apps, keyOf, key), a.status) else CountsOf(apps, keyOf, key)
  {
  }

  // ----- The loops -----

  predicate NoRepeats<T(==)>(xs: seq<T>) {
    forall i, j :: 0 <= i < j < |xs| ==> xs[i] != xs[j]
  }

  /** A table of counts whose keys are listed in insertion order. */
  ghost predicate Tabulates(keys: seq<string>, rows: map<string, Counts>, apps: seq<Application>, keyOf: Application -> string) {
    && NoRepeats(keys)
    && (forall key :: key in rows <==> key in keys)
    && (forall key :: key in rows ==> rows[key] == CountsOf(apps, keyOf, key))
    && (forall a :: a in apps ==> keyOf(a) in keys)
  }

  lemma TabulationGrows(keys: seq<string>, rows: map<string, Counts>, apps: seq<Application>, a: Application, keyOf: Application -> string)
    requires Tabulates(keys, rows, apps, keyOf)
    ensures keyOf(a) in rows ==>
              Tabulates(keys, rows[keyOf(a) := AddApplication(rows[keyOf(a)], a.status)], apps + [a], keyOf)
    ensures keyOf(a) !in rows ==>
              Tabulates(keys + [keyOf(a)], rows[keyOf(a) := AddApplication(NoCounts, a.status)], apps + [a], keyOf)
  {
    forall key
      ensures CountsOf(apps + [a], keyOf, key)
              == if keyOf(a) == key then AddApplication(CountsOf(apps, keyOf, key), a.status) else CountsOf(apps, keyOf, key)
    {
      CountsGrow(apps, a, keyOf, key);
    }
    if keyOf(a) !in rows {
      NothingUnder(apps, keyOf, keyOf(a));
    }
  }

  lemma {:induction false} NothingUnder(apps: seq<Application>, keyOf: Application -> string, key: string)
    requires forall a :: a in apps ==> keyOf(a) != key
    ensures CountsOf(apps, keyOf, key) == NoCounts
  {
    if apps != [] {
      NothingUnder(apps[..|apps| - 1], keyOf, key);
    }
  }

  function ResumeKeys(apps: seq<Application>): set<string> {
    set a | a in apps :: ResumeKey(a)
  }

  /** Rows by resume version, in order of first use. */
  method ResumePerformance(apps: seq<Application>) returns (keys: seq<string>, rows: map<string, Counts>)
    ensures Tabulates(keys, rows, apps, ResumeKey)
    ensures forall key :: key in keys ==> key in ResumeKeys(apps)
  {
    keys, rows := [], map[];
    for i := 0 to |apps|
      invariant Tabulates(keys, rows, apps[..i], ResumeKey)
      invariant forall key :: key in keys ==> key in ResumeKeys(apps[..i])
    {
      var application := apps[i];
      assert apps[..i + 1] == apps[..i] + [application];
      var key := ResumeKey(application);
      var row := if key in rows then rows[key] else NoCounts;
      TabulationGrows(keys, rows, apps[..i], application, ResumeKey);
      keys := if key in rows then keys else keys + [key];
      rows := rows[key := AddApplication(row, application.status)];
    }
    assert apps[..|apps|] == apps;
  }

  /** Rows by delay to the first outcome: always the three buckets. */
  method TimingPerformance(apps: seq<Application>) returns (rows: map<string, Counts>)
    ensures Tabulates(TimingKeys, rows, apps, TimingKey)
  {
    rows := map["within_24h" := NoCounts, "1_to_7d" := NoCounts, "over_7d" := NoCounts];
    BucketsDiffer();
    for i := 0 to |apps|
      invariant Tabulates(TimingKeys, rows, apps[..i], TimingKey)
    {
      var application := apps[i];
      assert apps[..i + 1] == apps[..i] + [application];
      var key := TimingKey(application);
      assert key in TimingKeys;
      TabulationGrows(TimingKeys, rows, apps[..i], application, TimingKey);
      rows := rows[key := AddApplication(rows[key], application.status)];
    }
    assert apps[..|apps|] == apps;
  }

  lemma BucketsDiffer()
    ensures NoRepeats(TimingKeys)
  {
  }

  // ----- What every row satisfies -----

  /** Every row of the application loops has offers <= interviews <= applications. */
  lemma {:induction false} RowsAreNested(apps: seq<Application>, keyOf: Application -> string, key: string)
    ensures var c := CountsOf(apps, keyOf, key);
            c.offers <= c.interviews <= c.applications
  {
    if apps != [] {
      RowsAreNested(apps[..|apps| - 1], keyOf, key);
    }
  }

  function SumApplications(keys: seq<string>, apps: seq<Application>, keyOf: Application -> string): nat {
    if keys == [] then 0
    else SumApplications(keys[..|keys| - 1], apps, keyOf) + CountsOf(apps, keyOf, keys[|keys| - 1]).applications
  }

  lemma {:induction false} SumGrows(keys: seq<string>, apps: seq<Application>, a: Application, keyOf: Application -> string)
    requires NoRepeats(keys)
    ensures SumApplications(keys, apps + [a], keyOf)
            == SumApplications(keys, apps, keyOf) + if keyOf(a) in keys then 1 else 0
  {
    if keys != [] {
      var last := |keys| - 1;
      SumGrows(keys[..last], apps, a, keyOf);
      CountsGrow(apps, a, keyOf, keys[last]);
      assert keys == keys[..last] + [keys[last]];
      assert keyOf(a) in keys <==> keyOf(a) in keys[..last] || keyOf(a) == keys[last];
    }
  }

  lemma {:induction false} NothingToSum(keys: seq<string>, keyOf: Application -> string)
    ensures SumApplications(keys, [], keyOf) == 0
  {
    if keys != [] {
      NothingToSum(keys[..|keys| - 1], keyOf);
    }
  }

  /** No application is lost or counted twice: the rows add up to the applications. */
  lemma {:induction false} RowsPartitionApplications(keys: seq<string>, apps: seq<Application>, keyOf: Application -> string)
    requires NoRepeats(keys) && forall a :: a in apps ==> keyOf(a) in keys
    ensures SumApplications(keys, apps, keyOf) == |apps|
  {
    if apps == [] {
      NothingToSum(keys, keyOf);
    } else {
      var last := |apps| - 1;
      RowsPartitionApplications(keys, apps[..last], keyOf);
      assert apps == apps[..last] + [apps[last]];
      SumGrows(keys, apps[..last], apps[last], keyOf);
    }
  }

  /** The reported rates of a row: both intervals lie in [0, 1] around their rates, and offers never outrank interviews. */
  lemma RatesAreOrdered(apps: seq<Application>, keyOf: Application -> string, key: string, rootI: real, rootO: real)
    requires var c := CountsOf(apps, keyOf, key);
             Wilson.RootFor(c.interviews, c.applications, rootI) && Wilson.RootFor(c.offers, c.applications, rootO)
    ensures var c := CountsOf(apps, keyOf, key);
            var interview, offer := Wilson.BuildRate(c.interviews, c.applications, rootI), Wilson.BuildRate(c.offers, c.applications, rootO);
            && 0.0 <= offer.lower <= offer.rate <= offer.upper <= 1.0
            && 0.0 <= interview.lower <= interview.rate <= interview.upper <= 1.0
            && offer.lower <= interview.lower && offer.upper <= interview.upper
  {
    var c := CountsOf(apps, keyOf, key);
    RowsAreNested(apps, keyOf, key);
    Wilson.RateIsEnclosed(c.interviews, c.applications, rootI);
    Wilson.RateIsEnclosed(c.offers, c.applications, rootO);
    Wilson.BoundsAreMonotone(c.offers, c.interviews, c.applications, rootO, rootI);
  }

  function AtStatus(keyOf: Application -> string, key: string, s: Status): Application -> bool {
    (a: Application) => keyOf(a) == key && a.status == s
  }

  /** Interviews are the applications at interview, assessment or offer; offers those at offer. */
  lemma {:induction false} RowsCountStatuses(apps: seq<Application>, keyOf: Application -> string, key: string)
    ensures var c := CountsOf(apps, keyOf, key);
            && c.interviews == CountIf(apps, AtStatus(keyOf, key, INTERVIEW)) + CountIf(apps, AtStatus(keyOf, key, ASSESSMENT))
                               + CountIf(apps, AtStatus(keyOf, key, OFFER))
            && c.offers == CountIf(apps, AtStatus(keyOf, key, OFFER))
  {
    if apps != [] {
      RowsCountStatuses(apps[..|apps| - 1], keyOf, key);
    }
  }

  function LinkedTo(key: Option<string>): Application -> bool {
    (a: Application) => a.resumeVersionId == key
  }

  lemma VersionOrUnlinked(a: Application, key: string)
    ensures !(LinkedTo(Some(key))(a) && LinkedTo(None)(a))
    ensures Under(ResumeKey, key)(a) <==> LinkedTo(Some(key))(a) || (key == "unlinked" && LinkedTo(None)(a))
  {
    assert Under(ResumeKey, key)(a) <==> ResumeKey(a) == key;
    assert LinkedTo(None)(a) <==> a.resumeVersionId == None;
    assert LinkedTo(Some(key))(a) <==> a.resumeVersionId.Some? && a.resumeVersionId.value == key;
  }

  /** A resume row counts the applications of its version, and the row "unlinked" those without one as well. */
  lemma {:induction false} RowsCountVersions(apps: seq<Application>, key: string)
    ensures CountsOf(apps, ResumeKey, key).applications
            == CountIf(apps, LinkedTo(Some(key))) + if key == "unlinked" then CountIf(apps, LinkedTo(None)) else 0
  {
    if apps != [] {
      var last := |apps| - 1;
      RowsCountVersions(apps[..last], key);
      VersionOrUnlinked(apps[last], key);
    }
  }

  /** The buckets in milliseconds: up to a day, up to a week, longer; without an outcome, the first. */
  lemma TimingBuckets(a: Application)
    ensures a.firstOutcome == None ==> TimingKey(a) == "within_24h"
    ensures a.firstOutcome.Some? ==>
              var ms := a.firstOutcome.value - if a.appliedDate.Some? then a.appliedDate.value else 0;
              TimingKey(a) == if ms <= 86_400_000 then "within_24h" else if ms <= 604_800_000 then "1_to_7d" else "over_7d"
  {
  }

  // ----- The per-action loop -----

  /** An action of some type, linked to an application with its current status, or to none. */
  datatype Action = Action(actionType: string, applicationId: Option<string>, status: Option<Status>)

  /** An application mentioned by an action. */
  datatype Mention = Mention(id: string, status: Status)

  datatype ActionRow = ActionRow(applications: set<string>, interviews: nat, offers: nat)

  /** The mention of an action; an empty identifier is no link. */
  function MentionOf(a: Action): Option<Mention> {
    if a.applicationId.Some? && a.applicationId.value != "" && a.status.Some?
    then Some(Mention(a.applicationId.value, a.status.value)) else None
  }

  /** The applications mentioned by the actions of one type, repeats included. */
  function MentionsIn(actions: seq<Action>, actionType: string): seq<Mention> {
    if actions == [] then []
    else
      var last := actions[|actions| - 1];
      MentionsIn(actions[..|actions| - 1], actionType)
      + if last.actionType == actionType && MentionOf(last).Some? then [MentionOf(last).value] else []
  }

  function Ids(ms: seq<Mention>): set<string> {
    set m | m in ms :: m.id
  }

  function CountMentions(ms: seq<Mention>, test: Status -> bool): nat {
    if ms == [] then 0
    else CountMentions(ms[..|ms| - 1], test) + if test(ms[|ms| - 1].status) then 1 else 0
  }

  function ActionRowOf(ms: seq<Mention>): ActionRow {
    ActionRow(Ids(ms), CountMentions(ms, IsInterview), CountMentions(ms, IsOffer))
  }

  function AddMention(row: ActionRow, m: Mention): ActionRow {
    ActionRow(row.applications + {m.id}, row.interviews + (if IsInterview(m.status) then 1 else 0),
              row.offers + if IsOffer(m.status) then 1 else 0)
  }

  lemma ActionRowGrows(ms: seq<Mention>, m: Mention)
    ensures ActionRowOf(ms + [m]) == AddMention(ActionRowOf(ms), m)
  {
  }

  lemma MentionsGrow(actions: seq<Action>, a: Action, t: string)
    ensures MentionsIn(actions + [a], t)
            == MentionsIn(actions, t) + if a.actionType == t && MentionOf(a).Some? then [MentionOf(a).value] else []
  {
  }

  function ActionTypes(actions: seq<Action>): set<string> {
    set a | a in actions :: a.actionType
  }

  ghost predicate TabulatesActions(rows: map<string, ActionRow>, actions: seq<Action>) {
    && rows.Keys == ActionTypes(actions)
    && (forall t :: t in rows ==> rows[t] == ActionRowOf(MentionsIn(actions, t)))
  }

  lemma {:induction false} NoActionNoMention(actions: seq<Action>, t: string)
    requires t !in ActionTypes(actions)
    ensures MentionsIn(actions, t) == []
  {
    if actions != [] {
      var last := |actions| - 1;
      assert actions[last].actionType != t;
      assert ActionTypes(actions[..last]) <= ActionTypes(actions);
      NoActionNoMention(actions[..last], t);
    }
  }

  lemma ActionRowChanges(actions: seq<Action>, a: Action)
    ensures var before, after := MentionsIn(actions, a.actionType), MentionsIn(actions + [a], a.actionType);
            ActionRowOf(after)
            == if MentionOf(a).Some? then AddMention(ActionRowOf(before), MentionOf(a).value) else ActionRowOf(before)
  {
    MentionsGrow(actions, a, a.actionType);
    var before := MentionsIn(actions, a.actionType);
    if MentionOf(a).Some? {
      ActionRowGrows(before, MentionOf(a).value);
    } else {
      assert before + [] == before;
    }
  }

  function RowFor(rows: map<string, ActionRow>, t: string): ActionRow {
    if t in rows then rows[t] else ActionRow({}, 0, 0)
  }

  lemma RowIsCurrent(rows: map<string, ActionRow>, actions: seq<Action>, t: string)
    requires TabulatesActions(rows, actions)
    ensures RowFor(rows, t) == ActionRowOf(MentionsIn(actions, t))
  {
    if t !in rows {
      NoActionNoMention(actions, t);
    }
  }

  lemma ActionTableGrows(rows: map<string, ActionRow>, actions: seq<Action>, a: Action)
    requires TabulatesActions(rows, actions)
    ensures TabulatesActions(rows[a.actionType := ActionRowOf(MentionsIn(actions + [a], a.actionType))], actions + [a])
  {
    forall other | other != a.actionType
      ensures MentionsIn(actions + [a], other) == MentionsIn(actions, other)
    {
      MentionsGrow(actions, a, other);
      assert MentionsIn(actions, other) + [] == MentionsIn(actions, other);
    }
    assert ActionTypes(actions + [a]) == ActionTypes(actions) + {a.actionType};
  }

  method ActionPerformance(actions: seq<Action>) returns (rows: map<string, ActionRow>)
    ensures TabulatesActions(rows, actions)
  {
    rows := map[];
    for i := 0 to |actions|
      invariant TabulatesActions(rows, actions[..i])
    {
      var action := actions[i];
      assert actions[..i + 1] == actions[..i] + [action];
      var row := RowFor(rows, action.actionType);
      var mention := MentionOf(action);
      if mention.Some? {
        row := AddMention(row, mention.value);
      }
      RowIsCurrent(rows, actions[..i], action.actionType);
      ActionRowChanges(actions[..i], action);
      ActionTableGrows(rows, actions[..i], action);
      rows := rows[action.actionType := row];
    }
    assert actions[..|actions|] == actions;
  }

  // ----- Applications are distinct, interviews are not -----

  /** Mentions of applications, with every application's status looked up. */
  function WithStatus(ids: seq<string>, statusOf: string -> Status): seq<Mention> {
    if ids == [] then []
    else WithStatus(ids[..|ids| - 1], statusOf) + [Mention(ids[|ids| - 1], statusOf(ids[|ids| - 1]))]
  }

  /** Whether a row of these mentions keeps offers <= interviews <= applications. */
  predicate Nested(ids: seq<string>, statusOf: string -> Status) {
    var row := ActionRowOf(WithStatus(ids, statusOf));
    row.offers <= row.interviews <= |row.applications|
  }

  lemma {:induction false} MentionCounts(ids: seq<string>, statusOf: string -> Status)
    ensures var row := ActionRowOf(WithStatus(ids, statusOf));
            row.offers <= row.interviews <= |ids| && row.applications == set id | id in ids
  {
    if ids != [] {
      var last := |ids| - 1;
      MentionCounts(ids[..last], statusOf);
      ActionRowGrows(WithStatus(ids[..last], statusOf), Mention(ids[last], statusOf(ids[last])));
      assert ids == ids[..last] + [ids[last]];
    }
  }

  lemma {:induction false} AllInterviewed(ids: seq<string>, statusOf: string -> Status)
    requires forall id :: statusOf(id) == INTERVIEW
    ensures ActionRowOf(WithStatus(ids, statusOf)).interviews == |ids|
  {
    if ids != [] {
      var last := |ids| - 1;
      AllInterviewed(ids[..last], statusOf);
      ActionRowGrows(WithStatus(ids[..last], statusOf), Mention(ids[last], statusOf(ids[last])));
    }
  }

  lemma {:induction false} DistinctCount(ids: seq<string>)
    ensures |set id | id in ids| <= |ids|
    ensures |set id | id in ids| == |ids| <==> NoRepeats(ids)
  {
    if ids != [] {
      var last := |ids| - 1;
      DistinctCount(ids[..last]);
      assert ids == ids[..last] + [ids[last]];
      var before := set id | id in ids[..last];
      assert (set id | id in ids) == before + {ids[last]};
      if ids[last] in before {
        assert before + {ids[last]} == before;
        assert exists i :: 0 <= i < last && ids[i] == ids[last];
      }
    }
  }

  /** The per-action rows are nested whatever the statuses exactly when no application is mentioned twice. */
  lemma ActionRowsAreNestedIff(ids: seq<string>)
    ensures (forall statusOf: string -> Status :: Nested(ids, statusOf)) <==> NoRepeats(ids)
  {
    DistinctCount(ids);
    forall statusOf: string -> Status | NoRepeats(ids)
      ensures Nested(ids, statusOf)
    {
      MentionCounts(ids, statusOf);
    }
    if !NoRepeats(ids) {
      var interviewed := (id: string) => INTERVIEW;
      MentionCounts(ids, interviewed);
      AllInterviewed(ids, interviewed);
      assert !Nested(ids, interviewed);
    }
  }

  predicate LinksTo(a: Action, t: string, id: string) {
    a.actionType == t && a.applicationId == Some(id) && id != "" && a.status.Some?
  }

  /** The applications of a row are the existing ones its actions are linked to; an empty link is none. */
  lemma {:induction false} MentionedAreLinked(actions: seq<Action>, t: string, id: string)
    ensures id in ActionRowOf(MentionsIn(actions, t)).applications
            <==> exists a :: a in actions && LinksTo(a, t, id)
  {
    if actions != [] {
      var last := |actions| - 1;
      MentionedAreLinked(actions[..last], t, id);
      assert actions == actions[..last] + [actions[last]];
      RowLinks(actions[..last], actions[last], t, id);
    }
  }

  lemma RowLinks(actions: seq<Action>, a: Action, t: string, id: string)
    ensures id in ActionRowOf(MentionsIn(actions + [a], t)).applications
            <==> id in ActionRowOf(MentionsIn(actions, t)).applications || LinksTo(a, t, id)
  {
    MentionsGrow(actions, a, t);
    if a.actionType == t && MentionOf(a).Some? {
      ActionRowGrows(MentionsIn(actions, t), MentionOf(a).value);
    } else {
      assert MentionsIn(actions + [a], t) == MentionsIn(actions, t);
    }
  }

  // ----- The table of the loop -----

  /** The applications that the actions of one type mention, in order, repeats included. */
  function MentionedIds(actions: seq<Action>, actionType: string): seq<string> {
    if actions == [] then []
    else
      var last := actions[|actions| - 1];
      MentionedIds(actions[..|actions| - 1], actionType)
      + if last.actionType == actionType && MentionOf(last).Some? then [MentionOf(last).value.id] else []
  }

  /** The same action when its application, if it has one, is at the looked-up status. */
  function Restated(a: Action, statusOf: string -> Status): Action {
    match MentionOf(a)
    case None => a
    case Some(m) => a.(status := Some(statusOf(m.id)))
  }

  function RestateAll(actions: seq<Action>, statusOf: string -> Status): seq<Action> {
    if actions == [] then []
    else RestateAll(actions[..|actions| - 1], statusOf) + [Restated(actions[|actions| - 1], statusOf)]
  }

  /** Looking up the statuses of the mentioned applications is what the loop sees. */
  lemma {:induction false} MentionsAreLookups(actions: seq<Action>, t: string, statusOf: string -> Status)
    ensures MentionsIn(RestateAll(actions, statusOf), t) == WithStatus(MentionedIds(actions, t), statusOf)
    ensures MentionedIds(RestateAll(actions, statusOf), t) == MentionedIds(actions, t)
  {
    if actions != [] {
      var last := |actions| - 1;
      var before, a := RestateAll(actions[..last], statusOf), Restated(actions[last], statusOf);
      MentionsAreLookups(actions[..last], t, statusOf);
      MentionsGrow(before, a, t);
      IdsGrow(before, a, t);
      if a.actionType == t && MentionOf(a).Some? {
        var ids := MentionedIds(actions[..last], t);
        assert (ids + [MentionOf(a).value.id])[..|ids|] == ids;
      } else {
        assert MentionedIds(actions, t) == MentionedIds(actions[..last], t);
      }
    }
  }

  lemma IdsGrow(actions: seq<Action>, a: Action, t: string)
    ensures MentionedIds(actions + [a], t)
            == MentionedIds(actions, t) + if a.actionType == t && MentionOf(a).Some? then [MentionOf(a).value.id] else []
  {
    assert (actions + [a])[..|actions|] == actions;
  }

  /** Every row counts its mentions: interviews and applications both stay within them, repeats or not. */
  lemma {:induction false} RowCounts(actions: seq<Action>, t: string)
    ensures var row := ActionRowOf(MentionsIn(actions, t));
            && row.offers <= row.interviews <= |MentionedIds(actions, t)|
            && row.applications == set id | id in MentionedIds(actions, t)
  {
    if actions != [] {
      var last := |actions| - 1;
      RowCounts(actions[..last], t);
      assert actions == actions[..last] + [actions[last]];
      MentionsGrow(actions[..last], actions[last], t);
      IdsGrow(actions[..last], actions[last], t);
      if actions[last].actionType == t && MentionOf(actions[last]).Some? {
        ActionRowGrows(MentionsIn(actions[..last], t), MentionOf(actions[last]).value);
      } else {
        assert MentionsIn(actions, t) == MentionsIn(actions[..last], t);
        assert MentionedIds(actions, t) == MentionedIds(actions[..last], t);
      }
    }
  }

  predicate NestedRow(row: ActionRow) {
    row.offers <= row.interviews <= |row.applications|
  }

  /** In the table of the loop, a row without repeated mentions is nested, and its radicand is positive. */
  lemma RowsWithoutRepeats(rows: map<string, ActionRow>, actions: seq<Action>, t: string)
    requires TabulatesActions(rows, actions) && t in rows && NoRepeats(MentionedIds(actions, t))
    ensures NestedRow(rows[t])
    ensures var n := |rows[t].applications|;
            n > 0 ==> Wilson.Radicand(Wilson.Proportion(rows[t].interviews, n), n as real) > 0.0
                      && Wilson.Radicand(Wilson.Proportion(rows[t].offers, n), n as real) > 0.0
  {
    RowCounts(actions, t);
    DistinctCount(MentionedIds(actions, t));
    var n := |rows[t].applications|;
    if n > 0 {
      Wilson.NoIntervalIff(rows[t].interviews, n);
      Wilson.NoIntervalIff(rows[t].offers, n);
    }
  }

  /** The loop's row of a type, were the mentioned applications at the looked-up statuses. */
  function RowAt(actions: seq<Action>, t: string, statusOf: string -> Status): ActionRow {
    ActionRowOf(MentionsIn(RestateAll(actions, statusOf), t))
  }

  lemma RowAtIsLookup(actions: seq<Action>, t: string, statusOf: string -> Status)
    ensures NestedRow(RowAt(actions, t, statusOf)) <==> Nested(MentionedIds(actions, t), statusOf)
  {
    MentionsAreLookups(actions, t, statusOf);
  }

  /** The loop's row of a type is nested at whatever statuses exactly when its actions repeat no application. */
  lemma ActionTableIsNestedIff(actions: seq<Action>, t: string)
    ensures (forall statusOf: string -> Status :: NestedRow(RowAt(actions, t, statusOf)))
            <==> NoRepeats(MentionedIds(actions, t))
  {
    var ids := MentionedIds(actions, t);
    ActionRowsAreNestedIff(ids);
    if NoRepeats(ids) {
      forall statusOf: string -> Status
        ensures NestedRow(RowAt(actions, t, statusOf))
      {
        RowAtIsLookup(actions, t, statusOf);
      }
    } else {
      var statusOf: string -> Status :| !Nested(ids, statusOf);
      RowAtIsLookup(actions, t, statusOf);
    }
  }

  lemma OneInterview(actions: seq<Action>, more: seq<Action>, t: string, id: string)
    requires id != "" && more == actions + [Action(t, Some(id), Some(INTERVIEW))]
    ensures var before := ActionRowOf(MentionsIn(actions, t));
            ActionRowOf(MentionsIn(more, t)) == ActionRow(before.applications + {id}, before.interviews + 1, before.offers)
  {
    ActionRowChanges(actions, Action(t, Some(id), Some(INTERVIEW)));
  }

  function Repeated(a: Action, k: nat): seq<Action> {
    if k == 0 then [] else Repeated(a, k - 1) + [a]
  }

  lemma {:induction false} RepeatedRow(a: Action, t: string, id: string, k: nat)
    requires id != "" && a == Action(t, Some(id), Some(INTERVIEW))
    ensures ActionRowOf(MentionsIn(Repeated(a, k), t)) == ActionRow(if k == 0 then {} else {id}, k, 0)
  {
    if k > 0 {
      RepeatedRow(a, t, id, k - 1);
      RepeatOnce(Repeated(a, k - 1), Repeated(a, k), t, id, k);
    }
  }

  lemma RepeatOnce(actions: seq<Action>, more: seq<Action>, t: string, id: string, k: nat)
    requires id != "" && k > 0 && more == actions + [Action(t, Some(id), Some(INTERVIEW))]
    requires ActionRowOf(MentionsIn(actions, t)) == ActionRow(if k == 1 then {} else {id}, k - 1, 0)
    ensures ActionRowOf(MentionsIn(more, t)) == ActionRow({id}, k, 0)
  {
    OneInterview(actions, more, t, id);
  }

  /** Any number of actions on one interviewed application but one: the interval has no real bounds. */
  lemma RepeatedActionHasNoInterval(t: string, id: string, k: nat)
    requires id != "" && k >= 2
    ensures var row := ActionRowOf(MentionsIn(Repeated(Action(t, Some(id), Some(INTERVIEW)), k), t));
            && row.interviews == k && |row.applications| == 1
            && forall root :: !Wilson.RootFor(row.interviews, |row.applications|, root)
  {
    RepeatedRow(Action(t, Some(id), Some(INTERVIEW)), t, id, k);
    RepeatedExcess(k as real);
    Wilson.NoIntervalIff(k, 1);
  }

  lemma RepeatedExcess(k: real)
    requires k >= 2.0
    ensures Wilson.Excess(k, 1.0) > 0.0
  {
    assert k * (k - 1.0) >= 2.0 by {
      assert k * (k - 1.0) - 2.0 == (k - 2.0) * (k + 1.0);
    }
  }
}
