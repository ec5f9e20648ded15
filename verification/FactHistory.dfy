/**
 The fact store: observations are only ever added, and a superseded one points at its successor.

 Record, correct, delete and legacy snapshot keep the links a forest of version chains, so walking a
 history terminates and lists consecutive versions.
 */
module FactHistory {
  import opened Wrappers

  type FactId = string

  /** `rank` is the fact's position in the order of creation. */
  datatype Fact = Fact(userId: string, factType: string, version: nat, isCurrent: bool, deleted: bool,
                       isUserCorrected: bool, supersededById: Option<FactId>, rank: nat)

  datatype Store = Store(facts: map<FactId, Fact>, created: nat)

  datatype Step =
    | Record(newId: FactId, userId: string, factType: string, existing: Option<FactId>)
    | Correct(newId: FactId, original: FactId)
    | Delete(id: FactId)
    | Copy(newId: FactId, source: FactId)

  predicate CurrentOf(f: Fact, userId: string, factType: string) {
    f.userId == userId && f.factType == factType && f.isCurrent
  }

  /** What `recordFact` finds: a current fact of the user and type with the highest version, if any. */
  ghost predicate FindsLatest(facts: map<FactId, Fact>, userId: string, factType: string, found: Option<FactId>) {
    match found
    case None => forall id :: id in facts ==> !CurrentOf(facts[id], userId, factType)
    case Some(x) =>
      && x in facts
      && CurrentOf(facts[x], userId, factType)
      && forall id :: id in facts && CurrentOf(facts[id], userId, factType) ==> facts[id].version <= facts[x].version
  }

  ghost predicate Enabled(s: Store, step: Step) {
    match step
    case Record(n, u, t, existing) => n !in s.facts && FindsLatest(s.facts, u, t, existing)
    case Correct(n, original) => n !in s.facts && original in s.facts
    case Delete(id) => id in s.facts
    case Copy(n, source) => n !in s.facts && source in s.facts && s.facts[source].isCurrent && !s.facts[source].deleted
  }

  function Superseded(f: Fact, successor: FactId): Fact {
    f.(isCurrent := false, supersededById := Some(successor))
  }

  function CorrectionOf(f: Fact, rank: nat): Fact {
    Fact(f.userId, f.factType, f.version + 1, true, false, true, None, rank)
  }

  /** A legacy snapshot copies a current fact, without its correction flag. */
  function CopyOf(f: Fact, rank: nat): Fact {
    Fact(f.userId, f.factType, f.version, true, false, false, None, rank)
  }

  ghost function Apply(s: Store, step: Step): Store
    requires Enabled(s, step)
  {
    match step
    case Record(n, u, t, existing) =>
      var version := if existing == None then 1 else s.facts[existing.value].version + 1;
      var added := s.facts[n := Fact(u, t, version, true, false, false, None, s.created)];
      Store(if existing == None then added else added[existing.value := Superseded(s.facts[existing.value], n)],
            s.created + 1)
    case Correct(n, original) =>
      Store(s.facts[n := CorrectionOf(s.facts[original], s.created)][original := Superseded(s.facts[original], n)],
            s.created + 1)
    case Delete(id) =>
      s.(facts := s.facts[id := s.facts[id].(deleted := true, isCurrent := false)])
    case Copy(n, source) =>
      Store(s.facts[n := CopyOf(s.facts[source], s.created)], s.created + 1)
  }

  /** The table with one copy of each listed fact added in order. */
  function WithCopies(facts: map<FactId, Fact>, sources: seq<FactId>, newIds: seq<FactId>, rank: nat): map<FactId, Fact>
    requires |newIds| == |sources| && forall i :: 0 <= i < |sources| ==> sources[i] in facts
  {
    if sources == [] then facts
    else
      var n := |sources| - 1;
      WithCopies(facts, sources[..n], newIds[..n], rank)[newIds[n] := CopyOf(facts[sources[n]], rank + n)]
  }

  /** The sources are listed facts, and their copies get new identifiers, each its own. */
  ghost predicate CanCopy(facts: map<FactId, Fact>, sources: seq<FactId>, newIds: seq<FactId>) {
    && |newIds| == |sources|
    && (forall i :: 0 <= i < |sources| ==> sources[i] in facts)
    && (forall i :: 0 <= i < |newIds| ==> newIds[i] !in facts)
    && (forall i, j :: 0 <= i < j < |newIds| ==> newIds[i] != newIds[j])
  }

  /** Part of the copies adds no other identifier and leaves every fact as it is. */
  lemma {:induction false} CopiesAreNew(facts: map<FactId, Fact>, sources: seq<FactId>, newIds: seq<FactId>, rank: nat, n: nat)
    requires CanCopy(facts, sources, newIds) && n <= |sources|
    ensures var after := WithCopies(facts, sources[..n], newIds[..n], rank);
            && (forall i :: n <= i < |newIds| ==> newIds[i] !in after)
            && (forall id :: id in facts ==> id in after && after[id] == facts[id])
  {
    if n > 0 {
      CopiesAreNew(facts, sources, newIds, rank, n - 1);
      CopiesGrow(facts, sources, newIds, rank, n - 1);
    }
  }

  /** One more source is one more copy. */
  lemma CopiesGrow(facts: map<FactId, Fact>, sources: seq<FactId>, newIds: seq<FactId>, rank: nat, n: nat)
    requires CanCopy(facts, sources, newIds) && n < |sources|
    ensures WithCopies(facts, sources[..n + 1], newIds[..n + 1], rank)
            == WithCopies(facts, sources[..n], newIds[..n], rank)[newIds[n] := CopyOf(facts[sources[n]], rank + n)]
  {
    assert sources[..n + 1][..n] == sources[..n] && newIds[..n + 1][..n] == newIds[..n];
  }

  ghost predicate ValidRun(steps: seq<Step>)
    decreases steps, 0
  {
    steps == [] ||
    (var n := |steps| - 1; ValidRun(steps[..n]) && Enabled(Exec(steps[..n]), steps[n]))
  }

  ghost function Exec(steps: seq<Step>): Store
    requires ValidRun(steps)
    decreases steps, 1
  {
    if steps == [] then Store(map[], 0)
    else (var n := |steps| - 1; Apply(Exec(steps[..n]), steps[n]))
  }

  // ----- The forest -----

  /** `next` is a proper successor of `f`: later, of the same user and type, one version up. */
  predicate Succeeds(next: Fact, f: Fact) {
    next.rank > f.rank && next.userId == f.userId && next.factType == f.factType && next.version == f.version + 1
  }

  ghost predicate Forest(s: Store) {
    && (forall id :: id in s.facts ==> s.facts[id].rank < s.created)
    && (forall id :: id in s.facts && s.facts[id].supersededById.Some? ==>
          s.facts[id].supersededById.value in s.facts
          && Succeeds(s.facts[s.facts[id].supersededById.value], s.facts[id])
          && !s.facts[id].isCurrent)
    && (forall a, b ::
          a in s.facts && b in s.facts
          && s.facts[a].supersededById.Some? && s.facts[a].supersededById == s.facts[b].supersededById
          ==> a == b)
  }

  /** The fact a step supersedes, if any. */
  function Retires(step: Step): Option<FactId> {
    match step
    case Record(_, _, _, existing) => existing
    case Correct(_, original) => Some(original)
    case _ => None
  }

  /** A link after a step is an old one, or leads from the fact just superseded to the fact just added. */
  lemma LinkOrigin(s: Store, step: Step, id: FactId)
    requires Forest(s) && Enabled(s, step)
    requires id in Apply(s, step).facts && Apply(s, step).facts[id].supersededById.Some?
    ensures var s' := Apply(s, step);
            && id in s.facts && !s'.facts[id].isCurrent
            && (|| (Retires(step) == Some(id) && s'.facts[id].supersededById.value !in s.facts
                    && s'.facts[id].supersededById.value in s'.facts
                    && Succeeds(s'.facts[s'.facts[id].supersededById.value], s'.facts[id]))
                || s'.facts[id].supersededById == s.facts[id].supersededById)
  {
  }

  /** Facts stay, with their identity columns. */
  lemma IdentityStays(s: Store, step: Step, id: FactId)
    requires Enabled(s, step) && id in s.facts
    ensures var s' := Apply(s, step);
            && id in s'.facts && s'.facts[id].rank == s.facts[id].rank
            && s'.facts[id].userId == s.facts[id].userId && s'.facts[id].factType == s.facts[id].factType
            && s'.facts[id].version == s.facts[id].version
            && s'.created >= s.created
  {
  }

  lemma StepKeepsForest(s: Store, step: Step)
    requires Forest(s) && Enabled(s, step)
    ensures Forest(Apply(s, step))
  {
    var s' := Apply(s, step);
    forall id | id in s'.facts && s'.facts[id].supersededById.Some?
      ensures s'.facts[id].supersededById.value in s'.facts
              && Succeeds(s'.facts[s'.facts[id].supersededById.value], s'.facts[id])
              && !s'.facts[id].isCurrent
    {
      LinkOrigin(s, step, id);
      var next := s'.facts[id].supersededById.value;
      if next in s.facts {
        IdentityStays(s, step, id);
        IdentityStays(s, step, next);
      }
    }
    forall a, b | a in s'.facts && b in s'.facts && s'.facts[a].supersededById.Some?
                  && s'.facts[a].supersededById == s'.facts[b].supersededById
      ensures a == b
    {
      LinkOrigin(s, step, a);
      LinkOrigin(s, step, b);
    }
  }

  /** The links form a forest in every reachable store. */
  lemma {:induction false} ForestHolds(steps: seq<Step>)
    requires ValidRun(steps)
    ensures Forest(Exec(steps))
  {
    if steps != [] {
      var n := |steps| - 1;
      ForestHolds(steps[..n]);
      StepKeepsForest(Exec(steps[..n]), steps[n]);
    }
  }

  /** The ids met by following `supersededById` from `id`. */
  function Chain(s: Store, id: FactId): (c: seq<FactId>)
    requires Forest(s) && id in s.facts
    ensures c != [] && c[0] == id
    decreases s.created - s.facts[id].rank
  {
    match s.facts[id].supersededById
    case None => [id]
    case Some(next) => [id] + Chain(s, next)
  }

  /** A history follows the links to the end, lists consecutive versions of one user and type, and never repeats. */
  lemma {:induction false} ChainIsAHistory(s: Store, id: FactId)
    requires Forest(s) && id in s.facts
    ensures var c := Chain(s, id);
            && (forall i :: 0 <= i < |c| ==>
                  c[i] in s.facts
                  && s.facts[c[i]].version == s.facts[id].version + i
                  && s.facts[c[i]].userId == s.facts[id].userId
                  && s.facts[c[i]].factType == s.facts[id].factType)
            && (forall i :: 0 <= i < |c| - 1 ==> s.facts[c[i]].supersededById == Some(c[i + 1]))
            && s.facts[c[|c| - 1]].supersededById == None
            && (forall i, j :: 0 <= i < j < |c| ==> c[i] != c[j])
    decreases s.created - s.facts[id].rank
  {
    if s.facts[id].supersededById.Some? {
      ChainIsAHistory(s, s.facts[id].supersededById.value);
    }
  }

  /** Two histories that meet are one history: the later start lies on the earlier one's chain. */
  lemma {:induction false} MeetingChainsAreOne(s: Store, a: FactId, b: FactId, i: nat, j: nat)
    requires Forest(s) && a in s.facts && b in s.facts
    requires i < |Chain(s, a)| && j < |Chain(s, b)| && Chain(s, a)[i] == Chain(s, b)[j]
    ensures a in Chain(s, b) || b in Chain(s, a)
    decreases i
  {
    ChainIsAHistory(s, a);
    ChainIsAHistory(s, b);
    if i > 0 && j > 0 {
      var ca, cb := Chain(s, a), Chain(s, b);
      assert s.facts[ca[i - 1]].supersededById == Some(ca[i]);
      assert s.facts[cb[j - 1]].supersededById == Some(cb[j]);
      MeetingChainsAreOne(s, a, b, i - 1, j - 1);
    }
  }

  /** A step leaves every existing link alone exactly when it does not correct an already superseded fact. */
  lemma LinksStayIff(s: Store, step: Step)
    requires Forest(s) && Enabled(s, step)
    ensures (forall id :: id in s.facts && s.facts[id].supersededById.Some? ==>
               Apply(s, step).facts[id].supersededById == s.facts[id].supersededById)
            <==> !(step.Correct? && s.facts[step.original].supersededById.Some?)
  {
  }

  /** Correcting a superseded fact drops its old successors from its history. */
  lemma RecorrectionForksHistory() returns (steps: seq<Step>)
    ensures ValidRun(steps)
    ensures var s := Exec(steps);
            && "v1" in s.facts && "v2" in s.facts
            && s.facts["v1"].supersededById == Some("fix")
            && s.facts["v2"].isCurrent
  {
    var v1 := Fact("u", "SKILL", 1, true, false, false, None, 0);
    var v2 := Fact("u", "SKILL", 2, true, false, false, None, 1);
    var s1 := [Record("v1", "u", "SKILL", None)];
    assert s1[..0] == [];
    assert Exec(s1) == Store(map["v1" := v1], 1);
    var s2 := s1 + [Record("v2", "u", "SKILL", Some("v1"))];
    assert s2[..1] == s1;
    assert FindsLatest(Exec(s1).facts, "u", "SKILL", Some("v1"));
    assert Exec(s2) == Store(map["v1" := Superseded(v1, "v2"), "v2" := v2], 2);
    steps := s2 + [Correct("fix", "v1")];
    assert steps[..2] == s2;
  }

  // ----- What the flags of a fact say -----

  ghost predicate DeletedIn(steps: seq<Step>, id: FactId) {
    exists k :: 0 <= k < |steps| && steps[k] == Delete(id)
  }

  ghost predicate CorrectedIn(steps: seq<Step>, id: FactId) {
    exists k :: 0 <= k < |steps| && steps[k].Correct? && steps[k].newId == id
  }

  lemma DeletedAfter(steps: seq<Step>, step: Step, id: FactId)
    ensures DeletedIn(steps + [step], id) <==> DeletedIn(steps, id) || step == Delete(id)
    ensures CorrectedIn(steps + [step], id) <==> CorrectedIn(steps, id) || (step.Correct? && step.newId == id)
  {
    var more := steps + [step];
    assert more[|steps|] == step && forall k :: 0 <= k < |steps| ==> more[k] == steps[k];
  }

  lemma FlagsMove(s: Store, step: Step, id: FactId)
    requires Enabled(s, step) && id in Apply(s, step).facts
    ensures var f' := Apply(s, step).facts[id];
            && (f'.deleted <==> (id in s.facts && s.facts[id].deleted) || step == Delete(id))
            && (f'.isUserCorrected <==> (id in s.facts && s.facts[id].isUserCorrected) || (step.Correct? && step.newId == id))
            && ((id in s.facts ==> (s.facts[id].isCurrent <==> s.facts[id].supersededById == None && !s.facts[id].deleted)) ==>
                  (f'.isCurrent <==> f'.supersededById == None && !f'.deleted))
    ensures step.Delete? || step.Correct? ==> (step == Delete(id) || (step.Correct? && step.newId == id) || id in s.facts)
  {
  }

  lemma {:induction false} UnknownIsUnflagged(steps: seq<Step>, id: FactId)
    requires ValidRun(steps) && id !in Exec(steps).facts
    ensures !DeletedIn(steps, id) && !CorrectedIn(steps, id)
  {
    if steps != [] {
      var n := |steps| - 1;
      if id in Exec(steps[..n]).facts {
        IdentityStays(Exec(steps[..n]), steps[n], id);
      }
      UnknownIsUnflagged(steps[..n], id);
      DeletedAfter(steps[..n], steps[n], id);
      assert steps[..n] + [steps[n]] == steps;
    }
  }

  /**
   Over every run, a fact is deleted exactly if it was soft-deleted, corrected exactly if a user correction
   made it, and current exactly if it is neither superseded nor deleted.
   */
  lemma {:induction false} FlagsTellHistory(steps: seq<Step>, id: FactId)
    requires ValidRun(steps) && id in Exec(steps).facts
    ensures var f := Exec(steps).facts[id];
            && (f.deleted <==> DeletedIn(steps, id))
            && (f.isUserCorrected <==> CorrectedIn(steps, id))
            && (f.isCurrent <==> f.supersededById == None && !f.deleted)
  {
    if steps != [] {
      var n := |steps| - 1;
      FlagsMove(Exec(steps[..n]), steps[n], id);
      DeletedAfter(steps[..n], steps[n], id);
      assert steps[..n] + [steps[n]] == steps;
      if id in Exec(steps[..n]).facts {
        FlagsTellHistory(steps[..n], id);
      } else {
        UnknownIsUnflagged(steps[..n], id);
      }
    }
  }

  /** A deleted fact is never again found as the one to supersede, and never copied. */
  lemma DeletedIsNotFound(steps: seq<Step>, step: Step, id: FactId)
    requires ValidRun(steps) && Enabled(Exec(steps), step) && DeletedIn(steps, id)
    ensures !(step.Record? && step.existing == Some(id)) && !(step.Copy? && step.source == id)
  {
    if id in Exec(steps).facts {
      FlagsTellHistory(steps, id);
    }
  }

  /**
   A record supersedes a current fact of its user and type, if there is one, and then exactly one;
   its version is above every current one of that user and type.
   */
  lemma RecordSupersedes(s: Store, step: Step)
    requires Forest(s) && Enabled(s, step) && step.Record?
    ensures var s' := Apply(s, step);
            && step.newId in s'.facts && s'.facts[step.newId].isCurrent && !s'.facts[step.newId].isUserCorrected
            && s'.facts[step.newId].userId == step.userId && s'.facts[step.newId].factType == step.factType
            && (step.existing == None ==> s'.facts[step.newId].version == 1
                                          && forall id :: id in s.facts ==> s'.facts[id] == s.facts[id])
            && (step.existing.Some? ==>
                  && step.existing.value in s.facts
                  && s.facts[step.existing.value].userId == step.userId && s.facts[step.existing.value].factType == step.factType
                  && s.facts[step.existing.value].isCurrent
                  && s'.facts[step.newId].version == s.facts[step.existing.value].version + 1
                  && s'.facts[step.existing.value].supersededById == Some(step.newId)
                  && (forall id :: id in s.facts && id != step.existing.value ==> s'.facts[id] == s.facts[id]))
            && (step.existing == None <==>
                  forall id :: id in s.facts ==>
                                 !(s.facts[id].userId == step.userId && s.facts[id].factType == step.factType && s.facts[id].isCurrent))
            && (forall id ::
                  id in s.facts && s.facts[id].userId == step.userId && s.facts[id].factType == step.factType && s.facts[id].isCurrent
                  ==> s.facts[id].version < s'.facts[step.newId].version)
  {
  }

  /** A copy is current, of the source's user, type and version, and loses the correction flag. */
  lemma CopyFreezes(s: Store, n: FactId, source: FactId)
    requires Enabled(s, Copy(n, source))
    ensures var s' := Apply(s, Copy(n, source));
            var f, g := s.facts[source], s'.facts[n];
            && g.userId == f.userId && g.factType == f.factType && g.version == f.version
            && g.isCurrent && !g.deleted && !g.isUserCorrected && g.supersededById == None
            && forall id :: id in s.facts ==> s'.facts[id] == s.facts[id]
  {
  }

  // ----- The services -----

  class FactService {
    var facts: map<FactId, Fact>
    var created: nat

    ghost function State(): Store
      reads this
    {
      Store(facts, created)
    }

    constructor ()
      ensures State() == Store(map[], 0)
    {
      facts, created := map[], 0;
    }

    method FindLatest(userId: string, factType: string) returns (found: Option<FactId>)
      ensures FindsLatest(facts, userId, factType, found)
    {
      found := None;
      var rest := facts.Keys;
      while rest != {}
        invariant rest <= facts.Keys
        invariant found.Some? ==> found.value in facts && CurrentOf(facts[found.value], userId, factType)
        invariant forall id :: id in facts && id !in rest && CurrentOf(facts[id], userId, factType) ==>
                                 found.Some? && facts[id].version <= facts[found.value].version
        decreases rest
      {
        var id :| id in rest;
        if CurrentOf(facts[id], userId, factType)
           && (found == None || facts[found.value].version < facts[id].version) {
          found := Some(id);
        }
        rest := rest - {id};
      }
    }

    method RecordFact(userId: string, factType: string, newId: FactId)
      requires newId !in facts
      modifies this
      ensures exists existing ::
                Enabled(old(State()), Record(newId, userId, factType, existing))
                && State() == Apply(old(State()), Record(newId, userId, factType, existing))
    {
      var existing := FindLatest(userId, factType);
      var version := if existing.Some? then facts[existing.value].version + 1 else 1;
      ghost var before := State();
      facts := facts[newId := Fact(userId, factType, version, true, false, false, None, created)];
      created := created + 1;
      if existing.Some? {
        facts := facts[existing.value := facts[existing.value].(isCurrent := false, supersededById := Some(newId))];
      }
      assert Enabled(before, Record(newId, userId, factType, existing));
      assert State() == Apply(before, Record(newId, userId, factType, existing));
    }

    method ProposeCorrection(original: FactId, newId: FactId) returns (found: bool)
      requires newId !in facts
      modifies this
      ensures found <==> original in old(facts)
      ensures found ==> State() == Apply(old(State()), Correct(newId, original))
      ensures !found ==> State() == old(State())
    {
      found := original in facts;
      if found {
        var f := facts[original];
        facts := facts[newId := Fact(f.userId, f.factType, f.version + 1, true, false, true, None, created)];
        created := created + 1;
        facts := facts[original := f.(isCurrent := false, supersededById := Some(newId))];
      }
    }

    method DeleteFact(id: FactId) returns (found: bool)
      modifies this
      ensures found <==> id in old(facts)
      ensures State() == if found then Apply(old(State()), Delete(id)) else old(State())
    {
      found := id in facts;
      if !found {
        return;
      }
      facts := facts[id := facts[id].(deleted := true, isCurrent := false)];
    }

    /** One iteration of the snapshot loop. */
    method CopyFact(source: FactId, newId: FactId)
      requires Forest(State()) && source in facts && facts[source].isCurrent && !facts[source].deleted && newId !in facts
      modifies this
      ensures Forest(State()) && State() == Apply(old(State()), Copy(newId, source))
      ensures facts == old(facts)[newId := CopyOf(old(facts)[source], old(created))] && created == old(created) + 1
    {
      StepKeepsForest(State(), Copy(newId, source));
      var f := facts[source];
      facts := facts[newId := Fact(f.userId, f.factType, f.version, true, false, false, None, created)];
      created := created + 1;
    }

    /** The copy of the nth source, after those before it. */
    method CopyNext(ghost before: Store, sources: seq<FactId>, newIds: seq<FactId>, n: nat)
      requires Forest(State()) && CanCopy(before.facts, sources, newIds) && n < |sources|
      requires before.facts[sources[n]].isCurrent && !before.facts[sources[n]].deleted
      requires created == before.created + n && facts == WithCopies(before.facts, sources[..n], newIds[..n], before.created)
      modifies this
      ensures Forest(State()) && created == before.created + n + 1
      ensures facts == WithCopies(before.facts, sources[..n + 1], newIds[..n + 1], before.created)
    {
      CopiesAreNew(before.facts, sources, newIds, before.created, n);
      CopiesGrow(before.facts, sources, newIds, before.created, n);
      CopyFact(sources[n], newIds[n]);
    }

    /** The snapshot loop over the facts read before it. */
    method CopyAll(sources: seq<FactId>, newIds: seq<FactId>)
      requires Forest(State()) && CanCopy(facts, sources, newIds)
      requires forall i :: 0 <= i < |sources| ==> facts[sources[i]].isCurrent && !facts[sources[i]].deleted
      modifies this
      ensures Forest(State()) && created == old(created) + |sources|
      ensures facts == WithCopies(old(facts), sources, newIds, old(created))
    {
      for n := 0 to |sources|
        invariant Forest(State()) && created == old(created) + n
        invariant facts == WithCopies(old(facts), sources[..n], newIds[..n], old(created))
      {
        CopyNext(old(State()), sources, newIds, n);
      }
      assert sources[..|sources|] == sources && newIds[..|sources|] == newIds;
    }

    /** Copies every current fact of the user; the originals stay as they are and the forest is kept. */
    method CreateSnapshot(userId: string, current: seq<FactId>, newIds: seq<FactId>)
      requires Forest(State()) && CanCopy(facts, current, newIds)
      requires forall id :: id in current <==> id in facts && facts[id].userId == userId
                                               && facts[id].isCurrent && !facts[id].deleted
      modifies this
      ensures Forest(State()) && created == old(created) + |current|
      ensures facts == WithCopies(old(facts), current, newIds, old(created))
      ensures forall id :: id in old(facts) ==> id in facts && facts[id] == old(facts)[id]
    {
      assert forall i :: 0 <= i < |current| ==> current[i] in current;
      CopiesAreNew(facts, current, newIds, created, |current|);
      assert current[..|current|] == current && newIds[..|current|] == newIds;
      CopyAll(current, newIds);
    }

    /** Both history walks: follow the links from a cursor, growing a list. */
    method GetFactHistory(factId: FactId) returns (history: seq<FactId>)
      requires Forest(State())
      ensures history == if factId in facts then Chain(State(), factId) else []
    {
      history := [];
      var currentId := Some(factId);
      while currentId.Some?
        invariant currentId.Some? && history != [] ==> currentId.value in facts
        invariant factId in facts && currentId.Some? ==>
                    currentId.value in facts && Chain(State(), factId) == history + Chain(State(), currentId.value)
        invariant factId in facts && currentId == None ==> history == Chain(State(), factId)
        invariant factId !in facts ==> history == [] && currentId == Some(factId)
        decreases if currentId == None then 0
                  else if currentId.value !in facts then 1 else created - facts[currentId.value].rank + 1
      {
        if currentId.value !in facts {
          break;
        }
        history := history + [currentId.value];
        currentId := facts[currentId.value].supersededById;
      }
    }
  }
}
