/**
 Canonical intelligence: one "best fact" slot per key, decided by correction class, then confidence
 with a tie margin, then recency.

 The margin makes winning intransitive, so the order of arrival can matter.  The main result says
 exactly when it does not: iff one fact beats every fact that differs from it.
 */
module Canonical {
  import opened Wrappers

  const EPSILON := 0.001

  /** What precedence looks at. */
  datatype Standing = Standing(corrected: bool, confidence: real, observedAt: int)

  predicate CandidateWins(candidate: Standing, existing: Standing) {
    if candidate.corrected != existing.corrected then candidate.corrected
    else
      var delta := candidate.confidence - existing.confidence;
      if delta > EPSILON then true
      else if delta < -EPSILON then false
      else candidate.observedAt > existing.observedAt
  }

  type FactId = string

  /** One fact as presented to `materialise`. */
  datatype Offer = Offer(factId: FactId, standing: Standing)

  /** The effect of one offer on its slot: an offer of the slot's own fact changes nothing. */
  function Promote(slot: Option<Offer>, o: Offer): Option<Offer> {
    if slot == None then Some(o)
    else if slot.value.factId == o.factId then slot
    else if CandidateWins(o.standing, slot.value.standing) then Some(o)
    else slot
  }

  function PromoteAll(slot: Option<Offer>, offers: seq<Offer>): Option<Offer> {
    if offers == [] then slot else Promote(PromoteAll(slot, offers[..|offers| - 1]), offers[|offers| - 1])
  }

  // ----- Confluence -----

  /** A fact is always presented with the same standing. */
  ghost predicate Consistent(facts: set<Offer>) {
    forall a, b :: a in facts && b in facts && a.factId == b.factId ==> a == b
  }

  /** `offers` presents exactly these facts, in some order, possibly with replays. */
  ghost predicate Presents(offers: seq<Offer>, facts: set<Offer>) {
    forall o :: o in offers <==> o in facts
  }

  /** Every presentation of the facts ends with the same standing in the slot. */
  ghost predicate Confluent(facts: set<Offer>) {
    exists t: Standing :: AlwaysEndsWith(facts, t)
  }

  ghost predicate AlwaysEndsWith(facts: set<Offer>, t: Standing) {
    forall offers :: Presents(offers, facts) ==> EndsWith(offers, t)
  }

  ghost predicate EndsWith(offers: seq<Offer>, t: Standing) {
    var slot := PromoteAll(None, offers);
    slot.Some? && slot.value.standing == t
  }

  /** The fact beats every fact whose standing differs from its own. */
  ghost predicate Dominates(m: Offer, facts: set<Offer>) {
    m in facts && forall x :: x in facts && x.standing != m.standing ==> CandidateWins(m.standing, x.standing)
  }

  lemma WinsIsAsymmetric(a: Standing, b: Standing)
    requires CandidateWins(a, b)
    ensures !CandidateWins(b, a)
  {
  }

  /** The slot always holds one of the offers. */
  lemma {:induction false} SlotIsOffered(slot: Option<Offer>, offers: seq<Offer>)
    ensures var end := PromoteAll(slot, offers); end == slot || (end.Some? && end.value in offers)
  {
    if offers != [] {
      var n := |offers| - 1;
      SlotIsOffered(slot, offers[..n]);
      assert offers == offers[..n] + [offers[n]];
    }
  }

  /** Once the dominating standing is offered, it is never displaced. */
  lemma {:induction false} DominatingStays(facts: set<Offer>, m: Offer, offers: seq<Offer>)
    requires Consistent(facts) && Dominates(m, facts) && (forall o :: o in offers ==> o in facts) && m in offers
    ensures EndsWith(offers, m.standing)
  {
    var n := |offers| - 1;
    assert offers == offers[..n] + [offers[n]];
    SlotIsOffered(None, offers[..n]);
    var before := PromoteAll(None, offers[..n]);
    if m in offers[..n] {
      DominatingStays(facts, m, offers[..n]);
      if offers[n].standing != m.standing {
        WinsIsAsymmetric(m.standing, offers[n].standing);
      }
    } else {
      assert offers[n] == m;
      if before.Some? {
        assert before.value in facts;
      }
    }
  }

  /** While no offer in the tail beats the slot, it stays. */
  lemma {:induction false} UnbeatenStays(x: Offer, offers: seq<Offer>)
    requires forall o :: o in offers ==> o.factId == x.factId || !CandidateWins(o.standing, x.standing)
    ensures PromoteAll(Some(x), offers) == Some(x)
  {
    if offers != [] {
      var n := |offers| - 1;
      assert forall o :: o in offers[..n] ==> o in offers;
      assert offers[n] in offers;
      UnbeatenStays(x, offers[..n]);
    }
  }

  lemma {:induction false} PromoteAllConcat(slot: Option<Offer>, a: seq<Offer>, b: seq<Offer>)
    ensures PromoteAll(slot, a + b) == PromoteAll(PromoteAll(slot, a), b)
  {
    if b == [] {
      assert a + b == a;
    } else {
      var n := |b| - 1;
      assert (a + b)[..|a| + n] == a + b[..n];
      PromoteAllConcat(slot, a, b[..n]);
    }
  }

  lemma {:induction false} ListOf(s: set<Offer>) returns (offers: seq<Offer>)
    ensures Presents(offers, s)
  {
    if s == {} {
      offers := [];
    } else {
      var o :| o in s;
      var rest := ListOf(s - {o});
      offers := [o] + rest;
    }
  }

  /** A presentation in which `x` keeps every fact of standing `t` out, so it cannot end with `t`. */
  lemma Blocking(facts: set<Offer>, x: Offer, t: Standing) returns (offers: seq<Offer>)
    requires Consistent(facts) && x in facts && x.standing != t && !CandidateWins(t, x.standing)
    ensures Presents(offers, facts) && !EndsWith(offers, t)
  {
    var same := ListOf(set o | o in facts && o.standing == t);
    var others := ListOf(set o | o in facts && o.standing != t);
    offers := [x] + same + others;
    var head := [x] + same;
    PromoteAllConcat(None, [x], same);
    assert PromoteAll(None, [x]) == Some(x) by {
      assert PromoteAll(None, []) == None;
      assert [x][..0] == [];
    }
    UnbeatenStays(x, same);
    PromoteAllConcat(None, head, others);
    SlotIsOffered(Some(x), others);
    assert PromoteAll(None, offers) == PromoteAll(Some(x), others);
    forall o
      ensures o in offers <==> o in facts
    {
    }
  }

  /** Order and replays do not matter exactly when some fact beats every fact that differs from it. */
  lemma ConfluentIffDominated(facts: set<Offer>)
    requires Consistent(facts) && facts != {}
    ensures Confluent(facts) <==> exists m :: Dominates(m, facts)
  {
    if m :| Dominates(m, facts) {
      forall offers | Presents(offers, facts)
        ensures EndsWith(offers, m.standing)
      {
        DominatingStays(facts, m, offers);
      }
      assert AlwaysEndsWith(facts, m.standing);
    }
    if Confluent(facts) {
      var t: Standing :| AlwaysEndsWith(facts, t);
      var any := ListOf(facts);
      SlotIsOffered(None, any);
      var m := PromoteAll(None, any).value;
      assert m in facts && m.standing == t;
      forall x | x in facts && x.standing != m.standing
        ensures CandidateWins(m.standing, x.standing)
      {
        if !CandidateWins(t, x.standing) {
          var bad := Blocking(facts, x, t);
          assert false;
        }
      }
      assert Dominates(m, facts);
    }
  }

  /** Confidences of one correction class are equal or differ by more than the margin. */
  ghost predicate Separated(facts: set<Offer>) {
    forall a, b :: a in facts && b in facts && a.standing.corrected == b.standing.corrected ==>
                     var delta := a.standing.confidence - b.standing.confidence;
                     delta == 0.0 || delta > EPSILON || delta < -EPSILON
  }

  /** Separated facts always have a dominating one. */
  lemma {:induction false} SeparatedHasMaximum(facts: set<Offer>) returns (m: Offer)
    requires facts != {} && Separated(facts)
    ensures Dominates(m, facts)
    decreases facts
  {
    var o :| o in facts;
    if facts == {o} {
      m := o;
    } else {
      var rest := facts - {o};
      assert facts == rest + {o};
      var best := SeparatedHasMaximum(rest);
      m := if CandidateWins(o.standing, best.standing) then o else best;
    }
  }

  /** Confluence under separation: any order, any replays, the same winning standing. */
  lemma SeparatedIsConfluent(facts: set<Offer>, first: seq<Offer>, second: seq<Offer>)
    requires facts != {} && Consistent(facts) && Separated(facts)
    requires Presents(first, facts) && Presents(second, facts)
    ensures PromoteAll(None, first).Some? && PromoteAll(None, second).Some?
    ensures PromoteAll(None, first).value.standing == PromoteAll(None, second).value.standing
  {
    var m := SeparatedHasMaximum(facts);
    DominatingStays(facts, m, first);
    DominatingStays(facts, m, second);
  }

  /** Without separation three machine facts can beat each other in a circle. */
  lemma CycleOfWins()
    ensures var a := Standing(false, 0.9, 1);
            var b := Standing(false, 0.9008, 0);
            var c := Standing(false, 0.8992, 2);
            CandidateWins(a, b) && CandidateWins(b, c) && CandidateWins(c, a)
  {
  }

  // ----- Bounded drift -----

  /** The number of offers that replace the fact in a filled slot. */
  function Promotions(slot: Option<Offer>, offers: seq<Offer>): nat {
    if offers == [] then 0
    else
      var n := |offers| - 1;
      var before := PromoteAll(slot, offers[..n]);
      Promotions(slot, offers[..n]) + if Promote(before, offers[n]) != before then 1 else 0
  }

  /** A promotion within a class raises confidence beyond the margin, or raises recency at a cost within it. */
  lemma PromotionGains(slot: Offer, o: Offer)
    requires Promote(Some(slot), o) != Some(slot)
    ensures Promote(Some(slot), o) == Some(o)
    ensures o.standing.corrected == slot.standing.corrected ==>
              || o.standing.confidence > slot.standing.confidence + EPSILON
              || (o.standing.confidence >= slot.standing.confidence - EPSILON
                  && o.standing.observedAt > slot.standing.observedAt)
    ensures slot.standing.corrected ==> o.standing.corrected
  {
  }

  /** A user correction is never replaced by a machine fact, and k promotions cost at most k margins. */
  lemma {:induction false} DriftIsBounded(slot: Offer, offers: seq<Offer>)
    ensures PromoteAll(Some(slot), offers).Some?
    ensures var end := PromoteAll(Some(slot), offers).value.standing;
            && (slot.standing.corrected ==> end.corrected)
            && (end.corrected == slot.standing.corrected ==>
                  end.confidence >= slot.standing.confidence - Promotions(Some(slot), offers) as real * EPSILON)
  {
    if offers != [] {
      var n := |offers| - 1;
      DriftIsBounded(slot, offers[..n]);
      DriftStaysInClass(slot, offers[..n]);
      var before := PromoteAll(Some(slot), offers[..n]).value;
      if Promote(Some(before), offers[n]) != Some(before) {
        PromotionGains(before, offers[n]);
      }
    }
  }

  /** A slot that was machine-made and is machine-made was never corrected in between. */
  lemma {:induction false} DriftStaysInClass(slot: Offer, offers: seq<Offer>)
    ensures PromoteAll(Some(slot), offers).Some?
    ensures slot.standing.corrected ==> PromoteAll(Some(slot), offers).value.standing.corrected
  {
    if offers != [] {
      DriftStaysInClass(slot, offers[..|offers| - 1]);
    }
  }

  /** Facts each one margin less confident and one tick newer than the last. */
  function Slide(name: FactId, k: nat): seq<Offer> {
    if k == 0 then []
    else Slide(name, k - 1) + [Offer(Tag(name, k), Standing(false, 1.0 - k as real * EPSILON, k))]
  }

  function Tag(name: FactId, k: nat): FactId {
    if k == 0 then name else Tag(name, k - 1) + "'"
  }

  lemma TagLength(name: FactId, k: nat)
    ensures |Tag(name, k)| == |name| + k
  {
  }

  /**
   The bound is tight for every k: k promotions can lower the confidence by exactly k margins.
   */
  lemma {:induction false} DriftIsTight(name: FactId, k: nat)
    ensures var slot := Some(Offer(name, Standing(false, 1.0, 0)));
            && Promotions(slot, Slide(name, k)) == k
            && PromoteAll(slot, Slide(name, k))
               == Some(Offer(Tag(name, k), Standing(false, 1.0 - k as real * EPSILON, k)))
  {
    if k > 0 {
      DriftIsTight(name, k - 1);
      TagLength(name, k);
      TagLength(name, k - 1);
      assert Slide(name, k)[..k - 1] == Slide(name, k - 1) by {
        SlideLength(name, k - 1);
      }
      SlideLength(name, k);
    }
  }

  /** A thousand of these facts are proper ones, with confidences in [0, 1]. */
  lemma {:induction false} SlideIsProper(name: FactId, k: nat)
    requires k <= 1000
    ensures forall o :: o in Slide(name, k) ==> 0.0 <= o.standing.confidence <= 1.0
  {
    if k > 0 {
      SlideIsProper(name, k - 1);
    }
  }

  lemma SlideLength(name: FactId, k: nat)
    ensures |Slide(name, k)| == k
  {
  }

  /** Rule 3 as documented: an offer lower in both confidence and recency is rejected. */
  lemma NeverDowngradesBoth(slot: Offer, o: Offer)
    requires o.standing.corrected == slot.standing.corrected
    requires o.standing.confidence < slot.standing.confidence && o.standing.observedAt <= slot.standing.observedAt
    ensures Promote(Some(slot), o) == Some(slot)
  {
  }
}
