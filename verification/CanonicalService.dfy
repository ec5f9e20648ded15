/** `materialise` and `retire` over the table of canonical slots, and the second precedence function. */
module CanonicalService {
  import opened Wrappers
  import opened Canonical

  datatype Fact = Fact(userId: string, factType: string, isCurrent: bool, deleted: bool,
                       needsReview: bool, isUserCorrected: bool)

  /** The unique key of a canonical row. */
  datatype Key = Key(userId: string, factType: string, deduplicationKey: string)

  datatype Slot = Slot(sourceFactId: FactId, cellId: string, confidence: real, lastObservedAt: int, isActive: bool)

  datatype Input = Input(userId: string, cellId: Option<string>, sourceFactId: FactId, deduplicationKey: string,
                         confidence: real, observedAt: int)

  datatype MaterialiseError =
    | CellBoundaryViolation | FactNotFound | MaterialisationOwnership
    | Superseded | SoftDeleted | NeedsReview

  datatype MaterialiseResult = MaterialiseResult(promoted: bool, winningFactId: FactId)

  datatype RetireError = CanonicalNotFound | CrossUserOwnership

  /** The first check that rejects the input, in the order the service makes them. */
  function Rejection(facts: map<FactId, Fact>, homeCell: string, input: Input): Option<MaterialiseError> {
    if input.cellId.Some? && input.cellId.value != "" && input.cellId.value != homeCell then Some(CellBoundaryViolation)
    else if input.sourceFactId !in facts then Some(FactNotFound)
    else
      var f := facts[input.sourceFactId];
      if f.userId != input.userId then Some(MaterialisationOwnership)
      else if !f.isCurrent then Some(Superseded)
      else if f.deleted then Some(SoftDeleted)
      else if f.needsReview && !f.isUserCorrected then Some(NeedsReview)
      else None
  }

  class CanonicalIntelligenceService {
    var facts: map<FactId, Fact>
    var slots: map<Key, Slot>

    constructor (facts: map<FactId, Fact>)
      ensures this.facts == facts && slots == map[] && SlotsAreSound()
    {
      this.facts, this.slots := facts, map[];
    }

    /** Every slot stands for an existing fact of its own user and type. */
    predicate SlotsAreSound()
      reads this
    {
      forall k :: k in slots ==>
                    && slots[k].sourceFactId in facts
                    && facts[slots[k].sourceFactId].userId == k.userId
                    && facts[slots[k].sourceFactId].factType == k.factType
    }

    /** Facts may be added, superseded, deleted and reviewed; owner, type and correction flag stay. */
    method FactsChange(now: map<FactId, Fact>)
      requires SlotsAreSound()
      requires forall id :: id in facts ==>
                              && id in now && now[id].userId == facts[id].userId && now[id].factType == facts[id].factType
                              && now[id].isUserCorrected == facts[id].isUserCorrected
      modifies this`facts
      ensures facts == now && SlotsAreSound()
      ensures forall k :: Best(k) == old(Best(k))
    {
      facts := now;
    }

    /** The fact a slot currently stands for, with the correction flag read from its source fact. */
    function Best(key: Key): Option<Offer>
      reads this
    {
      if key !in slots then None
      else
        var slot := slots[key];
        var corrected := slot.sourceFactId in facts && facts[slot.sourceFactId].isUserCorrected;
        Some(Offer(slot.sourceFactId, Standing(corrected, slot.confidence, slot.lastObservedAt)))
    }

    function OfferOf(input: Input): Offer
      reads this`facts
    {
      Offer(input.sourceFactId,
            Standing(input.sourceFactId in facts && facts[input.sourceFactId].isUserCorrected,
                     input.confidence, input.observedAt))
    }

    function KeyOf(input: Input): Key
      reads this`facts
    {
      Key(input.userId, if input.sourceFactId in facts then facts[input.sourceFactId].factType else "",
          input.deduplicationKey)
    }

    /**
     Whether the input takes its slot: an empty one; from another fact, if it is the only corrected one; or
     among equals if surer by more than a thousandth, or no less sure than that and newer.
     */
    predicate Displaces(slots: map<Key, Slot>, input: Input)
      requires input.sourceFactId in facts && forall k :: k in slots ==> slots[k].sourceFactId in facts
      reads this`facts
    {
      var f := facts[input.sourceFactId];
      var key := Key(input.userId, f.factType, input.deduplicationKey);
      key !in slots
      || (var slot := slots[key];
          var was := facts[slot.sourceFactId];
          && slot.sourceFactId != input.sourceFactId
          && (|| (f.isUserCorrected && !was.isUserCorrected)
              || (f.isUserCorrected == was.isUserCorrected
                  && (|| input.confidence > slot.confidence + 0.001
                      || (input.confidence >= slot.confidence - 0.001 && input.observedAt > slot.lastObservedAt)))))
    }

    /**
     One promotion step of the precedence model on the input's own slot.  Nothing but a promotion
     writes, so a retired slot comes back only when a better fact takes it over.
     */
    method Materialise(input: Input, homeCell: string) returns (r: Result<MaterialiseResult, MaterialiseError>)
      requires SlotsAreSound()
      modifies this`slots
      ensures SlotsAreSound()
      ensures r.Ok? <==>
                && (input.cellId == None || input.cellId == Some("") || input.cellId == Some(homeCell))
                && input.sourceFactId in facts
                && var f := facts[input.sourceFactId];
                   f.userId == input.userId && f.isCurrent && !f.deleted && (!f.needsReview || f.isUserCorrected)
      ensures r == Err(CellBoundaryViolation)
              <==> input.cellId.Some? && input.cellId.value != "" && input.cellId.value != homeCell
      ensures r == Err(FactNotFound) ==> input.sourceFactId !in facts
      ensures r == Err(MaterialisationOwnership) ==>
                input.sourceFactId in facts && facts[input.sourceFactId].userId != input.userId
      ensures r == Err(Superseded) ==>
                && input.sourceFactId in facts && facts[input.sourceFactId].userId == input.userId
                && !facts[input.sourceFactId].isCurrent
      ensures r == Err(SoftDeleted) ==>
                && input.sourceFactId in facts && facts[input.sourceFactId].userId == input.userId
                && facts[input.sourceFactId].isCurrent && facts[input.sourceFactId].deleted
      ensures r == Err(NeedsReview) ==>
                && input.sourceFactId in facts && facts[input.sourceFactId].userId == input.userId
                && facts[input.sourceFactId].isCurrent && !facts[input.sourceFactId].deleted
                && facts[input.sourceFactId].needsReview && !facts[input.sourceFactId].isUserCorrected
      ensures r.Ok? ==> r.value.promoted == Displaces(old(slots), input)
      ensures r.Ok? && r.value.promoted ==> r.value.winningFactId == input.sourceFactId
      ensures Rejection(facts, homeCell, input).Some? ==> r == Err(Rejection(facts, homeCell, input).value)
      ensures Rejection(facts, homeCell, input) == None ==>
                && Best(KeyOf(input)) == Promote(old(Best(KeyOf(input))), OfferOf(input))
                && r == Ok(MaterialiseResult(Best(KeyOf(input)) != old(Best(KeyOf(input))),
                                             Best(KeyOf(input)).value.factId))
      ensures r.Err? || !r.value.promoted ==> slots == old(slots)
      ensures r.Ok? && r.value.promoted ==>
                slots == old(slots)[KeyOf(input) := Slot(input.sourceFactId,
                                                         if input.cellId.Some? then input.cellId.value else homeCell,
                                                         input.confidence, input.observedAt, true)]
    {
      if input.cellId.Some? && input.cellId.value != "" && input.cellId.value != homeCell {
        return Err(CellBoundaryViolation);
      }
      if input.sourceFactId !in facts {
        return Err(FactNotFound);
      }
      var fact := facts[input.sourceFactId];
      if fact.userId != input.userId {
        return Err(MaterialisationOwnership);
      }
      if !fact.isCurrent {
        return Err(Superseded);
      }
      if fact.deleted {
        return Err(SoftDeleted);
      }
      if fact.needsReview && !fact.isUserCorrected {
        return Err(NeedsReview);
      }
      var key := Key(input.userId, fact.factType, input.deduplicationKey);
      var incoming := Standing(fact.isUserCorrected, input.confidence, input.observedAt);
      if key in slots {
        var existing := slots[key];
        if existing.sourceFactId == input.sourceFactId {
          return Ok(MaterialiseResult(false, existing.sourceFactId));
        }
        var corrected := existing.sourceFactId in facts && facts[existing.sourceFactId].isUserCorrected;
        if !CandidateWins(incoming, Standing(corrected, existing.confidence, existing.lastObservedAt)) {
          return Ok(MaterialiseResult(false, existing.sourceFactId));
        }
      }
      var cellId := if input.cellId.Some? then input.cellId.value else homeCell;
      slots := slots[key := Slot(input.sourceFactId, cellId, input.confidence, input.observedAt, true)];
      return Ok(MaterialiseResult(true, input.sourceFactId));
    }

    /** Retiring hides a slot but keeps the fact it stands for. */
    method Retire(key: Key, userId: string) returns (r: Result<(), RetireError>)
      requires SlotsAreSound()
      modifies this`slots
      ensures SlotsAreSound()
      ensures r == if key !in old(slots) then Err(CanonicalNotFound)
                   else if key.userId != userId then Err(CrossUserOwnership) else Ok(())
      ensures r.Err? ==> slots == old(slots)
      ensures r.Ok? ==> slots == old(slots)[key := old(slots)[key].(isActive := false)]
      ensures forall k :: Best(k) == old(Best(k))
    {
      if key !in slots {
        return Err(CanonicalNotFound);
      }
      if key.userId != userId {
        return Err(CrossUserOwnership);
      }
      slots := slots[key := slots[key].(isActive := false)];
      return Ok(());
    }
  }

  // ----- The precedence function of the fact service -----

  datatype Candidate = Candidate(standing: Standing, isCurrent: bool, deleted: bool)

  datatype Verdict = First | Second | Tie

  function ResolveFactPrecedence(a: Candidate, b: Candidate): Verdict {
    var aInvalid := !a.isCurrent || a.deleted;
    var bInvalid := !b.isCurrent || b.deleted;
    if aInvalid && bInvalid then Tie
    else if aInvalid then Second
    else if bInvalid then First
    else if a.standing.corrected && !b.standing.corrected then First
    else if !a.standing.corrected && b.standing.corrected then Second
    else
      var delta := a.standing.confidence - b.standing.confidence;
      if delta > EPSILON then First
      else if delta < -EPSILON then Second
      else if a.standing.observedAt > b.standing.observedAt then First
      else if a.standing.observedAt < b.standing.observedAt then Second
      else Tie
  }

  predicate Usable(c: Candidate) {
    c.isCurrent && !c.deleted
  }

  /**
   The two precedence implementations agree: a usable fact is named exactly when it would take the
   other's slot, and an unusable fact is never named.
   */
  lemma PrecedencesAgree(a: Candidate, b: Candidate)
    ensures ResolveFactPrecedence(a, b) == First
            <==> Usable(a) && (Usable(b) ==> CandidateWins(a.standing, b.standing))
    ensures ResolveFactPrecedence(a, b) == Second
            <==> Usable(b) && (Usable(a) ==> CandidateWins(b.standing, a.standing))
  {
  }
}
