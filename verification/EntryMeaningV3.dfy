/**
 What a version 3 evaluation means for the proofs it was given: which entries hold,
 and which one is selected, stated on the input alone.
 */
module EntryMeaningV3 {
  import opened Common
  import opened EntryTerms
  import opened EntryDomainV3
  import opened EntryMatcherV3
  import opened EntryArbitratorV3
  import opened EntryEvaluatorV3

  // The conditions, on the input

  /** Counted in the direction of the setup: up for long, down for short. */
  function Along(d: Direction, ticks: int): int
  {
    if d == Long then ticks else -ticks
  }

  /** The extreme of a candle that lies furthest in the direction. */
  function Extreme(d: Direction, c: Candle): int
  {
    if d == Long then c.highTicks else c.lowTicks
  }

  /** The setup is exact, alive, and was engaged no later than the trigger. */
  predicate Engaged(i: ArbitrationInput, trigger: int)
  {
    i.commonFidelity == Exact && !i.setupInvalidated && i.zoneEngaged.Some? && i.zoneEngaged.value <= trigger
  }

  /** Ticks seen live are exact only live; every other plane must be replayable. */
  predicate Trusted(plane: ProofPlane, replayability: Replayability, live: bool)
  {
    if plane == RealtimeTick then live && replayability == LiveExactNonReplayable else replayability == Replayable
  }

  predicate OnBoundary(contexts: seq<Context>, epoch: int)
  {
    contexts != [] && forall n :: 0 <= n < |contexts| ==> epoch % (60 * (contexts[n] as int)) == 0
  }

  predicate BreaksOut(i: ArbitrationInput, p: BocProof)
  {
    Along(i.direction, p.triggerTicks) > Along(i.direction, Extreme(i.direction, p.reference))
  }

  /** The break opened on a higher-timeframe boundary. */
  predicate Timed(p: BocProof)
  {
    p.boundary == Some(p.triggerCandleOpen) && OnBoundary(p.contexts, p.triggerCandleOpen)
  }

  predicate BocHolds(i: ArbitrationInput, p: BocProof)
  {
    && Engaged(i, p.triggerEpoch) && BreaksOut(i, p) && Trusted(p.plane, p.replayability, p.isRealtime)
    && p.fidelity == Exact && Timed(p)
  }

  /** Contact with the zone, not yet through the open; then a close through it; complete, ordered, unambiguous. */
  predicate Flipped(i: ArbitrationInput, p: FlipProof)
  {
    && p.contact.Some? && p.recross.Some? && !p.gap && p.ordered && !p.destinationFirst && p.ambiguities == []
    && p.contact.value.lowTicks <= i.zoneTop && i.zoneBottom <= p.contact.value.highTicks
    && Along(i.direction, Extreme(i.direction, p.contact.value)) <= Along(i.direction, p.htfOpenTicks)
    && Along(i.direction, p.recross.value.closeTicks) > Along(i.direction, p.htfOpenTicks)
    && OnBoundary(p.contexts, p.anchor)
  }

  predicate FlipHolds(i: ArbitrationInput, p: FlipProof)
  {
    && Engaged(i, p.triggerEpoch) && Flipped(i, p) && Trusted(p.plane, p.replayability, p.isRealtime)
    && p.fidelity == Exact
  }

  // Each match

  /** An exact match. */
  predicate Hits(m: Match)
  {
    m.candidate.state == Matched && m.evidence.body.fidelity == Exact
  }

  lemma BoundaryMeans(contexts: seq<Context>, epoch: int)
    ensures OnBoundary(contexts, epoch) <==> contexts != [] && ContextsAligned(contexts, epoch)
  {
    forall n | 0 <= n < |contexts| ensures Seconds(contexts[n]) == 60 * (contexts[n] as int) {
    }
  }

  /** A break: matched when it breaks out and is trusted, rejected when it does not break out, blocked otherwise. */
  lemma BocMeans(d: Digests, i: ArbitrationInput, p: BocProof)
    ensures var m := MatchBoc(d, RequestOf(i), p);
      && (Hits(m) <==> BocHolds(i, p))
      && (m.candidate.state == Rejected <==> Engaged(i, p.triggerEpoch) && !BreaksOut(i, p))
      && (m.candidate.state == Matched <==>
            && Engaged(i, p.triggerEpoch) && BreaksOut(i, p) && Trusted(p.plane, p.replayability, p.isRealtime)
            && p.fidelity == Exact)
      && (m.candidate.state == Matched && !Timed(p) ==> m.evidence.body.fidelity == Discretionary)
      && m.candidate.key.model == Boc && m.candidate.key.direction == i.direction
      && m.candidate.key.tier == Some(if Timed(p) then HtfTimed else Discretionary5m)
      && m.candidate.key.anchor == p.reference.openEpoch
      && m.evidence.body.triggerEpoch == Some(p.triggerEpoch) && m.evidence.body.triggerTicks == Some(p.triggerTicks)
      && m.evidence.body.triggerSequence == p.triggerSequence && m.evidence.body.plane == p.plane
  {
    BoundaryMeans(p.contexts, p.triggerCandleOpen);
  }

  /** A directional close: matched and exact on an engaged setup, blocked otherwise. */
  lemma CloseMeans(d: Digests, i: ArbitrationInput, bar: Candle)
    requires bar.closeEpoch - bar.openEpoch == 300
    ensures var m := MatchClose(d, RequestOf(i), bar);
      && (Hits(m) <==> Engaged(i, bar.closeEpoch))
      && (m.candidate.state == if Engaged(i, bar.closeEpoch) then Matched else Blocked)
      && m.candidate.key.model == DirClose && m.candidate.key.direction == i.direction
      && m.candidate.key.anchor == bar.openEpoch
      && m.evidence.body.triggerEpoch == Some(bar.closeEpoch) && m.evidence.body.triggerTicks == Some(bar.closeTicks)
      && m.evidence.body.triggerSequence == i.closeTriggerSequence && m.evidence.body.plane == Confirmed5m
  {
  }

  /** A flip: matched and exact when its whole lifecycle holds, blocked otherwise. */
  lemma FlipMeans(d: Digests, i: ArbitrationInput, p: FlipProof)
    requires ValidFlipProof(p, i.observedAt)
    ensures var m := MatchFlip(d, RequestOf(i), p);
      && (Hits(m) <==> FlipHolds(i, p))
      && (m.candidate.state == if FlipHolds(i, p) then Matched else Blocked)
      && m.candidate.key.model == HtfFlip && m.candidate.key.direction == i.direction
      && m.candidate.key.anchor == p.anchor
      && m.evidence.body.triggerEpoch == Some(p.triggerEpoch) && m.evidence.body.triggerTicks == Some(p.triggerTicks)
      && m.evidence.body.triggerSequence == p.triggerSequence && m.evidence.body.plane == p.plane
  {
    BoundaryMeans(p.contexts, p.anchor);
  }

  // The whole bundle

  /** When and where an entry triggers. */
  datatype Entry = Entry(epoch: int, sequence: int, ticks: int)

  /** The entry of a model that may be traded: it holds, and only a close may rest on the confirmed bar alone. */
  function EntryOf(i: ArbitrationInput, model: Model): Option<Entry>
  {
    match model
    case Boc =>
      if i.bocProof.Some? && BocHolds(i, i.bocProof.value) && i.bocProof.value.plane != Confirmed5m
      then Some(Entry(i.bocProof.value.triggerEpoch, i.bocProof.value.triggerSequence, i.bocProof.value.triggerTicks))
      else None
    case DirClose =>
      if i.confirmedBar.Some? && Engaged(i, i.confirmedBar.value.closeEpoch)
      then Some(Entry(i.confirmedBar.value.closeEpoch, i.closeTriggerSequence, i.confirmedBar.value.closeTicks))
      else None
    case HtfFlip =>
      if i.flipProof.Some? && FlipHolds(i, i.flipProof.value) && i.flipProof.value.plane != Confirmed5m
      then Some(Entry(i.flipProof.value.triggerEpoch, i.flipProof.value.triggerSequence,
                      i.flipProof.value.triggerTicks))
      else None
  }

  predicate EntryBefore(a: Entry, b: Entry)
  {
    a.epoch < b.epoch || (a.epoch == b.epoch && a.sequence < b.sequence)
  }

  /** No entry of another model triggers earlier. */
  predicate Leads(i: ArbitrationInput, model: Model)
  {
    && EntryOf(i, model).Some?
    && forall other :: EntryOf(i, other).Some? ==> !EntryBefore(EntryOf(i, other).value, EntryOf(i, model).value)
  }

  /** The models that lead, if there are any, lead at one price. */
  predicate OnePriceLeads(i: ArbitrationInput)
  {
    forall m, m' :: Leads(i, m) && Leads(i, m') ==> EntryOf(i, m).value.ticks == EntryOf(i, m').value.ticks
  }

  lemma PairsOfModels(d: Digests, i: ArbitrationInput, m: Match)
    requires GoodRequest(RequestOf(i)) && m in Matches(d, RequestOf(i))
    ensures m.candidate.key.model == Boc ==> i.bocProof.Some? && m == MatchBoc(d, RequestOf(i), i.bocProof.value)
    ensures m.candidate.key.model == DirClose ==>
              i.confirmedBar.Some? && m == MatchClose(d, RequestOf(i), i.confirmedBar.value)
    ensures m.candidate.key.model == HtfFlip ==> i.flipProof.Some? && m == MatchFlip(d, RequestOf(i), i.flipProof.value)
  {
    hide BocVerdict, CloseVerdict, FlipVerdict, StrictBocContext;
  }

  /** A pair is eligible exactly when its model has an entry on the input, and carries that entry. */
  lemma EligibleMeans(d: Digests, i: ArbitrationInput, m: Match)
    requires CollisionFree(d) && GoodRequest(RequestOf(i)) && m in Matches(d, RequestOf(i))
    ensures ExactEligible(m.candidate, m.evidence) <==> EntryOf(i, m.candidate.key.model).Some?
    ensures EntryOf(i, m.candidate.key.model).Some? ==>
              var e := EntryOf(i, m.candidate.key.model).value;
              && m.evidence.body.triggerEpoch == Some(e.epoch) && m.evidence.body.triggerSequence == e.sequence
              && m.evidence.body.triggerTicks == Some(e.ticks)
  {
    hide MatchBoc, MatchClose, MatchFlip, BocHolds, FlipHolds, Engaged, Matches;
    PairsOfModels(d, i, m);
    EligibleHits(m);
    if Hits(m) {
      EligibleExactly(d, RequestOf(i), m);
    }
    match m.candidate.key.model
    case Boc => BocMeans(d, i, i.bocProof.value);
    case DirClose => CloseMeans(d, i, i.confirmedBar.value);
    case HtfFlip => FlipMeans(d, i, i.flipProof.value);
  }

  lemma EligibleHits(m: Match)
    ensures ExactEligible(m.candidate, m.evidence) ==> Hits(m)
  {
  }

  lemma ModelHasPair(d: Digests, i: ArbitrationInput, model: Model) returns (m: Match)
    requires GoodRequest(RequestOf(i)) && EntryOf(i, model).Some?
    ensures m in Matches(d, RequestOf(i)) && m.candidate.key.model == model
  {
    hide BocVerdict, CloseVerdict, FlipVerdict, StrictBocContext, BocHolds, FlipHolds;
    var r := RequestOf(i);
    match model
    case Boc => m := MatchBoc(d, r, i.bocProof.value);
    case DirClose => m := MatchClose(d, r, i.confirmedBar.value);
    case HtfFlip => m := MatchFlip(d, r, i.flipProof.value);
    assert m in Matches(d, r);
  }

  /** The eligible pairs of a bundle are the pairs of the models that have an entry. */
  lemma EligiblePairsMean(d: Digests, i: ArbitrationInput, cs: seq<Candidate>, es: seq<Evidence>, p: EligiblePair)
    requires CollisionFree(d) && GoodRequest(RequestOf(i)) && Lists(Matches(d, RequestOf(i)), cs, es)
    ensures p in EligiblePairs(Elements(cs), Elements(es)) <==>
              && Match(p.candidate, p.evidence) in Matches(d, RequestOf(i))
              && EntryOf(i, p.candidate.key.model).Some?
  {
    hide Matches, ExactEligible, EntryOf, CollisionFree;
    var ms, m := Matches(d, RequestOf(i)), Match(p.candidate, p.evidence);
    if p in EligiblePairs(Elements(cs), Elements(es)) {
      var a :| a in ms && a.candidate == p.candidate;
      var b :| b in ms && b.evidence == p.evidence;
      OwnEvidence(d, i, a, b);
    }
    if m in ms {
      OwnEvidence(d, i, m, m);
      EligibleMeans(d, i, m);
    }
  }

  lemma OwnEvidence(d: Digests, i: ArbitrationInput, a: Match, b: Match)
    requires CollisionFree(d) && GoodRequest(RequestOf(i))
    requires a in Matches(d, RequestOf(i)) && b in Matches(d, RequestOf(i))
    ensures a.evidence.body.candidateId == a.candidate.id
    ensures b.evidence.body.candidateId == a.candidate.id ==> a == b
  {
    hide Matches, CollisionFree;
    var ms := Matches(d, RequestOf(i));
    MatchesMeetChecker(d, i);
    assert GoodPair(i, a) && GoodPair(i, b);
    MatchesDistinct(d, RequestOf(i));
    var k :| 0 <= k < |ms| && ms[k] == a;
    var l :| 0 <= l < |ms| && ms[l] == b;
  }

  /**
   The selection of a bundle, on its input alone: there is a canonical entry exactly when
   some model has one and the models that lead agree on the price; it is the entry of a
   leading model.
   */
  lemma SelectedExactly(
    d: Digests, i: ArbitrationInput, cs: seq<Candidate>, es: seq<Evidence>, s: Selection)
    requires CollisionFree(d) && GoodRequest(RequestOf(i)) && Lists(Matches(d, RequestOf(i)), cs, es)
    requires Decides(d, i.setupId, Elements(cs), Elements(es), i.setupInvalidated, i.revision, i.evaluatedAt,
                     CohortOf(i), s)
    ensures s.key.candidate.Some? <==> (exists m :: Leads(i, m)) && OnePriceLeads(i)
    ensures s.key.action == PaperEligible <==> s.key.candidate.Some?
    ensures s.key.candidate.Some? ==>
              && s.model.Some? && Leads(i, s.model.value)
              && exists m :: m in Matches(d, RequestOf(i)) && m.candidate.key.model == s.model.value
                   && s.key.candidate == Some(m.candidate.id) && s.key.evidence == Some(m.evidence.id)
  {
    hide Matches, CollisionFree, EntryOf, Lists, Leads, OnePriceLeads, Canonical, Earliest, Tied, PricesAgree;
    var ps := EligiblePairs(Elements(cs), Elements(es));
    EligibleByModel(d, i, cs, es);
    NoEntryWhenClosed(d, i);
    forall m ensures Leads(i, m) <==> Tied(ps, m) {
      LeadersTied(i, ps, m);
    }
    PricesMean(i, ps);
    LeaderHasEntry(i);
    if ps == {} {
      NoneTied(ps);
    } else {
      var first := SomeTied(ps);
      LoneAgrees(i, ps);
    }
    assert forall p :: p in ps ==> p.candidate in Elements(cs);
    if s.key.candidate.Some? {
      var p := PickedPair(Elements(cs), ps, s);
      CanonicalTied(ps, p);
    }
  }

  /** What `EligibleByModel` establishes: one pair per model with an entry, carrying it. */
  ghost predicate OnePairPerEntry(i: ArbitrationInput, ps: set<EligiblePair>)
  {
    && (forall p :: p in ps ==> CarriesEntry(i, p))
    && (forall m :: EntryOf(i, m).Some? ==> exists p :: p in ps && p.candidate.key.model == m)
    && (forall p, q :: p in ps && q in ps && p.candidate.key.model == q.candidate.key.model ==> p == q)
  }

  lemma LeadersTied(i: ArbitrationInput, ps: set<EligiblePair>, m: Model)
    requires OnePairPerEntry(i, ps)
    ensures Leads(i, m) <==> Tied(ps, m)
  {
    hide EntryOf;
    if Leads(i, m) {
      var p :| p in ps && p.candidate.key.model == m;
      assert CarriesEntry(i, p);
      forall q | q in ps ensures !EventBefore(q.evidence, p.evidence) {
        assert CarriesEntry(i, q);
      }
      assert Earliest(ps, p);
      forall q | Earliest(ps, q) && q.candidate == p.candidate ensures q == p {
      }
      assert Representative(ps, p);
    }
    if Tied(ps, m) {
      var p :| Representative(ps, p) && p.candidate.key.model == m;
      assert CarriesEntry(i, p);
      forall other | EntryOf(i, other).Some?
        ensures !EntryBefore(EntryOf(i, other).value, EntryOf(i, m).value)
      {
        var q :| q in ps && q.candidate.key.model == other;
        assert CarriesEntry(i, q);
      }
    }
  }

  lemma PricesMean(i: ArbitrationInput, ps: set<EligiblePair>)
    requires OnePairPerEntry(i, ps)
    ensures PricesAgree(ps) <==> OnePriceLeads(i)
  {
    hide EntryOf, Leads, Representative;
    forall m ensures Leads(i, m) <==> Tied(ps, m) {
      LeadersTied(i, ps, m);
    }
    forall p | Representative(ps, p) ensures CarriesEntry(i, p) && Tied(ps, p.candidate.key.model) {
      RepresentativeEligible(ps, p);
    }
    if PricesAgree(ps) {
      forall m, m' | Leads(i, m) && Leads(i, m') ensures EntryOf(i, m).value.ticks == EntryOf(i, m').value.ticks {
        var p :| Representative(ps, p) && p.candidate.key.model == m;
        var q :| Representative(ps, q) && q.candidate.key.model == m';
      }
    }
    if OnePriceLeads(i) {
      forall p, q | Representative(ps, p) && Representative(ps, q)
        ensures p.evidence.body.triggerTicks == q.evidence.body.triggerTicks
      {
        assert Leads(i, p.candidate.key.model) && Leads(i, q.candidate.key.model);
      }
    }
  }

  /** When one model leads alone, it agrees with itself. */
  lemma LoneAgrees(i: ArbitrationInput, ps: set<EligiblePair>)
    requires OnePairPerEntry(i, ps)
    ensures !SeveralTied(ps) ==> PricesAgree(ps)
  {
    forall p, q | !SeveralTied(ps) && Representative(ps, p) && Representative(ps, q) ensures p == q {
      assert Tied(ps, p.candidate.key.model) && Tied(ps, q.candidate.key.model);
    }
  }

  lemma RepresentativeEligible(ps: set<EligiblePair>, p: EligiblePair)
    requires Representative(ps, p)
    ensures p in ps
  {
  }

  lemma LeaderHasEntry(i: ArbitrationInput)
    ensures forall m :: Leads(i, m) ==> EntryOf(i, m).Some?
  {
  }

  lemma NoneTied(ps: set<EligiblePair>)
    requires ps == {}
    ensures forall m :: !Tied(ps, m)
  {
  }

  lemma CanonicalTied(ps: set<EligiblePair>, p: EligiblePair)
    requires Canonical(ps, p)
    ensures p in ps && Tied(ps, p.candidate.key.model)
  {
  }

  /** A non-empty set of pairs has an earliest one. */
  lemma {:induction false} SomeEarliest(ps: set<EligiblePair>) returns (p: EligiblePair)
    requires ps != {}
    ensures Earliest(ps, p)
    decreases |ps|
  {
    var x :| x in ps;
    var rest := ps - {x};
    p := x;
    if rest != {} {
      var y := SomeEarliest(rest);
      p := if EventBefore(y.evidence, x.evidence) then y else x;
    }
    assert forall q :: q in ps ==> q == x || q in rest;
  }

  lemma {:induction false} LeastEvidence(ps: set<EligiblePair>, qs: set<EligiblePair>) returns (p: EligiblePair)
    requires qs != {} && forall q :: q in qs ==> Earliest(ps, q)
    ensures p in qs && forall q :: q in qs ==> p.evidence.id <= q.evidence.id
    decreases |qs|
  {
    var x :| x in qs;
    var rest := qs - {x};
    p := x;
    if rest != {} {
      var y := LeastEvidence(ps, rest);
      p := if y.evidence.id < x.evidence.id then y else x;
    }
    forall q | q in qs ensures p.evidence.id <= q.evidence.id {
      assert q == x || q in rest;
    }
  }

  lemma SomeTied(ps: set<EligiblePair>) returns (m: Model)
    requires ps != {}
    ensures Tied(ps, m)
  {
    var first := SomeEarliest(ps);
    var qs := set q | q in ps && Earliest(ps, q) && q.candidate == first.candidate;
    assert first in qs;
    var p := LeastEvidence(ps, qs);
    forall q | Earliest(ps, q) && q.candidate == p.candidate ensures p.evidence.id <= q.evidence.id {
      assert q in qs;
    }
    assert Representative(ps, p);
    m := p.candidate.key.model;
  }

  /** Pairs, entries, earliest pairs and leading models correspond. */
  lemma EligibleByModel(d: Digests, i: ArbitrationInput, cs: seq<Candidate>, es: seq<Evidence>)
    requires CollisionFree(d) && GoodRequest(RequestOf(i)) && Lists(Matches(d, RequestOf(i)), cs, es)
    ensures var ps := EligiblePairs(Elements(cs), Elements(es));
      && (forall p :: p in ps ==>
            Match(p.candidate, p.evidence) in Matches(d, RequestOf(i)) && p.candidate in Elements(cs))
      && OnePairPerEntry(i, ps)
  {
    hide Matches, CollisionFree, EntryOf;
    var ps := EligiblePairs(Elements(cs), Elements(es));
    forall p | p in ps
      ensures Match(p.candidate, p.evidence) in Matches(d, RequestOf(i)) && CarriesEntry(i, p)
    {
      EligiblePairsMean(d, i, cs, es, p);
      EligibleMeans(d, i, Match(p.candidate, p.evidence));
    }
    forall m | EntryOf(i, m).Some? ensures exists p :: p in ps && p.candidate.key.model == m {
      var x := ModelHasPair(d, i, m);
      EligiblePairsMean(d, i, cs, es, Pair(x.candidate, x.evidence));
      assert Pair(x.candidate, x.evidence) in ps;
    }
    forall p, q | p in ps && q in ps && p.candidate.key.model == q.candidate.key.model ensures p == q {
      PairsOfModels(d, i, Match(p.candidate, p.evidence));
      PairsOfModels(d, i, Match(q.candidate, q.evidence));
    }
  }

  predicate CarriesEntry(i: ArbitrationInput, p: EligiblePair)
  {
    var entry := EntryOf(i, p.candidate.key.model);
    && entry.Some? && p.evidence.body.triggerEpoch == Some(entry.value.epoch)
    && p.evidence.body.triggerSequence == entry.value.sequence
    && p.evidence.body.triggerTicks == Some(entry.value.ticks)
  }

  lemma NoEntryWhenClosed(d: Digests, i: ArbitrationInput)
    requires GoodRequest(RequestOf(i))
    ensures i.setupInvalidated || CohortOf(i) == OneCandle ==> forall m :: EntryOf(i, m).None?
  {
  }

  /** The evaluation holds a matched candidate of the model with exact evidence of its own. */
  ghost predicate HoldsExact(v: Evaluation, model: Model)
  {
    exists c, e :: c in v.candidates && e in v.evidence && e.body.candidateId == c.id && c.key.model == model
                   && c.state == Matched && e.body.fidelity == Exact
  }

  lemma HoldsExactMeans(d: Digests, i: ArbitrationInput, v: Evaluation, model: Model)
    requires CollisionFree(d) && GoodRequest(RequestOf(i)) && Lists(Matches(d, RequestOf(i)), v.candidates, v.evidence)
    ensures HoldsExact(v, model) <==>
              exists m :: m in Matches(d, RequestOf(i)) && m.candidate.key.model == model && Hits(m)
  {
    hide Matches, CollisionFree;
    var ms := Matches(d, RequestOf(i));
    if HoldsExact(v, model) {
      var c, e :| c in v.candidates && e in v.evidence && e.body.candidateId == c.id && c.key.model == model
                  && c.state == Matched && e.body.fidelity == Exact;
      var a :| a in ms && a.candidate == c;
      var b :| b in ms && b.evidence == e;
      OwnEvidence(d, i, a, b);
      assert Hits(a);
    }
    if m :| m in ms && m.candidate.key.model == model && Hits(m) {
      OwnEvidence(d, i, m, m);
      assert m.candidate in v.candidates && m.evidence in v.evidence;
    }
  }

  /** `v` is what the bundle evaluator returns for the input, as its contract says. */
  ghost predicate Evaluated(d: Digests, input: ArbitrationInput, v: Evaluation)
  {
    var i := Effective(input);
    && GoodRequest(RequestOf(i)) && Lists(Matches(d, RequestOf(i)), v.candidates, v.evidence)
    && Decides(d, i.setupId, Elements(v.candidates), Elements(v.evidence), i.setupInvalidated, i.revision,
               i.evaluatedAt, CohortOf(i), v.selection)
  }

  /**
   A returned evaluation, on its effective input: each model is matched with exact
   evidence exactly when its conditions hold.
   */
  lemma BundleMeans(d: Digests, input: ArbitrationInput, v: Evaluation)
    requires CollisionFree(d) && Evaluated(d, input, v)
    ensures var i := Effective(input);
      && (HoldsExact(v, Boc) <==> i.bocProof.Some? && BocHolds(i, i.bocProof.value))
      && (HoldsExact(v, DirClose) <==> i.confirmedBar.Some? && Engaged(i, i.confirmedBar.value.closeEpoch))
      && (HoldsExact(v, HtfFlip) <==> i.flipProof.Some? && FlipHolds(i, i.flipProof.value))
  {
    hide Matches, CollisionFree, BocHolds, FlipHolds, Engaged, MatchBoc, MatchClose, MatchFlip, HoldsExact, Hits;
    hide Decides;
    var i := Effective(input);
    var r := RequestOf(i);
    HoldsExactMeans(d, i, v, Boc);
    HoldsExactMeans(d, i, v, DirClose);
    HoldsExactMeans(d, i, v, HtfFlip);
    forall m | m in Matches(d, r)
      ensures m.candidate.key.model == Boc ==> i.bocProof.Some? && m == MatchBoc(d, r, i.bocProof.value)
      ensures m.candidate.key.model == DirClose ==>
                i.confirmedBar.Some? && m == MatchClose(d, r, i.confirmedBar.value)
      ensures m.candidate.key.model == HtfFlip ==> i.flipProof.Some? && m == MatchFlip(d, r, i.flipProof.value)
    {
      PairsOfModels(d, i, m);
    }
    ProofsHavePairs(d, i);
    if i.bocProof.Some? {
      BocMeans(d, i, i.bocProof.value);
    }
    if i.confirmedBar.Some? {
      CloseMeans(d, i, i.confirmedBar.value);
    }
    if i.flipProof.Some? {
      FlipMeans(d, i, i.flipProof.value);
    }
  }

  lemma ProofsHavePairs(d: Digests, i: ArbitrationInput)
    requires GoodRequest(RequestOf(i))
    ensures i.bocProof.Some? ==> MatchBoc(d, RequestOf(i), i.bocProof.value) in Matches(d, RequestOf(i))
    ensures i.confirmedBar.Some? ==> MatchClose(d, RequestOf(i), i.confirmedBar.value) in Matches(d, RequestOf(i))
    ensures i.flipProof.Some? ==> MatchFlip(d, RequestOf(i), i.flipProof.value) in Matches(d, RequestOf(i))
  {
    hide MatchBoc, MatchClose, MatchFlip;
  }

  /** Selecting a break means a trigger above the reference high for long, and below its low for short. */
  lemma SelectedBreakBreaksOut(d: Digests, input: ArbitrationInput, v: Evaluation)
    requires CollisionFree(d) && Evaluated(d, input, v) && v.selection.model == Some(Boc)
    ensures var i := Effective(input);
      && i.bocProof.Some?
      && var p := i.bocProof.value;
         if i.direction == Long then p.triggerTicks > p.reference.highTicks
         else p.triggerTicks < p.reference.lowTicks
  {
    hide Matches, CollisionFree;
    SelectedHasModel(d, input, v);
    SelectedExactly(d, Effective(input), v.candidates, v.evidence, v.selection);
  }

  lemma SelectedHasModel(d: Digests, input: ArbitrationInput, v: Evaluation)
    requires Evaluated(d, input, v) && v.selection.model.Some?
    ensures v.selection.key.candidate.Some?
  {
    hide Matches, Lists, GoodRequest;
  }

  /**
   With an opened seed only the seeded close counts, whatever the proofs and the
   fidelity of the input say, and the selection bears the seed's revision and time.
   */
  lemma SeededMeans(d: Digests, input: ArbitrationInput, v: Evaluation)
    requires CollisionFree(d) && Evaluated(d, input, v) && input.openedSeed.Some?
    ensures var seed := input.openedSeed.value;
      && !HoldsExact(v, Boc) && !HoldsExact(v, HtfFlip)
      && (HoldsExact(v, DirClose) <==>
            input.zoneEngaged.Some? && input.zoneEngaged.value <= seed.confirmedBar.closeEpoch)
      && v.selection.key.revision == seed.revision && v.selection.evaluatedAt == seed.evaluatedAt
  {
    hide Matches, CollisionFree, BocHolds, FlipHolds, HoldsExact, Lists, GoodRequest;
    BundleMeans(d, input, v);
  }

  // The rules of a match

  datatype Check = Check(fails: bool, rule: Rule)

  /** The rule of the first check that fails. */
  function FirstFailing(checks: seq<Check>): seq<Rule>
  {
    if checks == [] then []
    else if checks[0].fails then [checks[0].rule]
    else FirstFailing(checks[1..])
  }

  function SetupChecks(i: ArbitrationInput, trigger: int): seq<Check>
  {
    [Check(i.commonFidelity != Exact, CommonSetupNotExact),
     Check(i.setupInvalidated, RuleSetupInvalidated),
     Check(!(i.zoneEngaged.Some? && i.zoneEngaged.value <= trigger), EntryBeforeZoneEngagement)]
  }

  function PlaneChecks(plane: ProofPlane, replayability: Replayability, live: bool): seq<Check>
  {
    var trusted := Trusted(plane, replayability, live);
    [Check(plane == RealtimeTick && !trusted, RealtimeEvidenceNotLive),
     Check(plane != RealtimeTick && !trusted, EvidenceReplayabilityMismatch)]
  }

  function BocChecks(i: ArbitrationInput, p: BocProof): seq<Check>
  {
    SetupChecks(i, p.triggerEpoch) + ([Check(!BreaksOut(i, p), BocWrongDirection)]
    + (PlaneChecks(p.plane, p.replayability, p.isRealtime)
    + [Check(p.fidelity != Exact, ModelEvidenceNotExact), Check(!Timed(p), BocDiscretionaryContextUnquantified)]))
  }

  function ScanChecks(p: FlipProof): seq<Check>
  {
    [Check(p.contact.None? || p.recross.None?, FlipIncompleteLifecycle), Check(p.gap, FlipCoverageGap),
     Check(!p.ordered, FlipOrderUnproven), Check(p.destinationFirst, FlipDestinationBeforeContact),
     Check(p.ambiguities != [], FlipAmbiguous)]
  }

  function PriceChecks(i: ArbitrationInput, p: FlipProof): seq<Check>
    requires p.contact.Some? && p.recross.Some?
  {
    var contact, open := p.contact.value, Along(i.direction, p.htfOpenTicks);
    [Check(contact.lowTicks > i.zoneTop || i.zoneBottom > contact.highTicks, FlipContactOutsideZone),
     Check(Along(i.direction, Extreme(i.direction, contact)) > open, FlipContactAlreadyRecrossed),
     Check(Along(i.direction, p.recross.value.closeTicks) <= open, FlipOpenNotRecrossed),
     Check(!OnBoundary(p.contexts, p.anchor), FlipContextMisaligned)]
  }

  function FlipChecks(i: ArbitrationInput, p: FlipProof): seq<Check>
  {
    SetupChecks(i, p.triggerEpoch) + (ScanChecks(p)
    + ((if p.contact.Some? && p.recross.Some? then PriceChecks(i, p) else [])
    + (PlaneChecks(p.plane, p.replayability, p.isRealtime) + [Check(p.fidelity != Exact, ModelEvidenceNotExact)])))
  }

  lemma {:induction false} FirstOfBoth(a: seq<Check>, b: seq<Check>)
    ensures FirstFailing(a + b) == if FirstFailing(a) != [] then FirstFailing(a) else FirstFailing(b)
  {
    if a == [] {
      assert a + b == b;
    } else {
      FirstOfBoth(a[1..], b);
      assert (a + b)[1..] == a[1..] + b;
    }
  }

  lemma FirstOfTwo(x: Check, y: Check)
    ensures FirstFailing([x]) == if x.fails then [x.rule] else []
    ensures FirstFailing([x, y]) == if x.fails then [x.rule] else if y.fails then [y.rule] else []
  {
    assert [x, y][1..] == [y] && [y][1..] == [] && [x][1..] == [];
    assert FirstFailing([y]) == if y.fails then [y.rule] else [];
  }

  lemma FirstOfThree(x: Check, y: Check, z: Check)
    ensures FirstFailing([x, y, z]) ==
              if x.fails then [x.rule] else if y.fails then [y.rule] else if z.fails then [z.rule] else []
  {
    FirstOfTwo(y, z);
    assert [x, y, z][1..] == [y, z];
  }

  lemma SetupChecked(i: ArbitrationInput, trigger: int)
    ensures FirstFailing(SetupChecks(i, trigger)) == CommonFailure(SetupOf(i), trigger)
  {
    var cs := SetupChecks(i, trigger);
    FirstOfThree(cs[0], cs[1], cs[2]);
    assert cs == [cs[0], cs[1], cs[2]];
  }

  lemma PlaneChecked(plane: ProofPlane, replayability: Replayability, live: bool)
    ensures FirstFailing(PlaneChecks(plane, replayability, live)) == RealtimeFailure(plane, replayability, live)
  {
    var cs := PlaneChecks(plane, replayability, live);
    FirstOfTwo(cs[0], cs[1]);
    assert cs == [cs[0], cs[1]];
  }

  lemma ScanChecked(p: FlipProof)
    ensures FirstFailing(ScanChecks(p)) ==
              if p.contact.None? || p.recross.None? then [FlipIncompleteLifecycle]
              else if p.gap then [FlipCoverageGap]
              else if !p.ordered then [FlipOrderUnproven]
              else if p.destinationFirst then [FlipDestinationBeforeContact]
              else if p.ambiguities != [] then [FlipAmbiguous] else []
  {
    var cs := ScanChecks(p);
    assert cs == cs[..2] + [cs[2], cs[3], cs[4]] && cs[..2] == [cs[0], cs[1]];
    FirstOfBoth(cs[..2], [cs[2], cs[3], cs[4]]);
    FirstOfTwo(cs[0], cs[1]);
    FirstOfThree(cs[2], cs[3], cs[4]);
  }

  lemma PriceChecked(i: ArbitrationInput, p: FlipProof)
    requires p.contact.Some? && p.recross.Some?
    ensures FirstFailing(PriceChecks(i, p)) ==
              if !ContactsZone(SetupOf(i), p.contact.value) then [FlipContactOutsideZone]
              else if CandleCrosses(i.direction, p.contact.value, p.htfOpenTicks) then [FlipContactAlreadyRecrossed]
              else if !CloseCrosses(i.direction, p.recross.value, p.htfOpenTicks) then [FlipOpenNotRecrossed]
              else if p.contexts == [] || !ContextsAligned(p.contexts, p.anchor) then [FlipContextMisaligned] else []
  {
    var cs := PriceChecks(i, p);
    BoundaryMeans(p.contexts, p.anchor);
    assert cs == [cs[0], cs[1]] + [cs[2], cs[3]];
    FirstOfBoth([cs[0], cs[1]], [cs[2], cs[3]]);
    FirstOfTwo(cs[0], cs[1]);
    FirstOfTwo(cs[2], cs[3]);
  }

  lemma LifecycleChecked(i: ArbitrationInput, p: FlipProof)
    requires ValidFlipProof(p, i.observedAt)
    ensures FirstFailing(ScanChecks(p) + if p.contact.Some? && p.recross.Some? then PriceChecks(i, p) else [])
            == FlipLifecycleFailure(SetupOf(i), p)
  {
    hide FirstFailing, ScanChecks, PriceChecks, CandleCrosses, CloseCrosses, ContextsAligned, ContactsZone;
    var prices := if p.contact.Some? && p.recross.Some? then PriceChecks(i, p) else [];
    FirstOfBoth(ScanChecks(p), prices);
    ScanChecked(p);
    if p.contact.Some? && p.recross.Some? {
      PriceChecked(i, p);
    }
  }

  /** The failed rule of each match is that of the first check that fails; without one the model's own rule passes. */
  lemma BreakRules(d: Digests, i: ArbitrationInput, p: BocProof)
    ensures var e := MatchBoc(d, RequestOf(i), p).evidence.body;
      e.failed == FirstFailing(BocChecks(i, p)) && e.passed == if e.failed == [] then [EntryBocHtfTimed] else []
  {
    hide FirstFailing, SetupChecks, PlaneChecks, CommonFailure, RealtimeFailure;
    var setup, planes := SetupChecks(i, p.triggerEpoch), PlaneChecks(p.plane, p.replayability, p.isRealtime);
    var breaks := Check(!BreaksOut(i, p), BocWrongDirection);
    var last := [Check(p.fidelity != Exact, ModelEvidenceNotExact),
                 Check(!Timed(p), BocDiscretionaryContextUnquantified)];
    BoundaryMeans(p.contexts, p.triggerCandleOpen);
    SetupChecked(i, p.triggerEpoch);
    PlaneChecked(p.plane, p.replayability, p.isRealtime);
    FirstOfTwo(breaks, breaks);
    FirstOfTwo(last[0], last[1]);
    FirstOfBoth(planes, last);
    FirstOfBoth([breaks], planes + last);
    FirstOfBoth(setup, [breaks] + (planes + last));
    SetupFailsAlone(i, p.triggerEpoch);
  }

  lemma SetupFailsAlone(i: ArbitrationInput, trigger: int)
    ensures CommonFailure(SetupOf(i), trigger) == [] <==> Engaged(i, trigger)
    ensures RequestOf(i).setup == SetupOf(i)
  {
  }

  lemma FlipRules(d: Digests, i: ArbitrationInput, p: FlipProof)
    requires ValidFlipProof(p, i.observedAt)
    ensures var e := MatchFlip(d, RequestOf(i), p).evidence.body;
      e.failed == FirstFailing(FlipChecks(i, p)) && e.passed == if e.failed == [] then [EntryHtfFlip] else []
  {
    hide FirstFailing, FlipChecks, CommonFailure, RealtimeFailure, FlipLifecycleFailure, ValidFlipProof;
    FlipChecked(i, p);
  }

  lemma FlipChecked(i: ArbitrationInput, p: FlipProof)
    requires ValidFlipProof(p, i.observedAt)
    ensures var common := CommonFailure(SetupOf(i), p.triggerEpoch);
      var lifecycle := FlipLifecycleFailure(SetupOf(i), p);
      var planes := RealtimeFailure(p.plane, p.replayability, p.isRealtime);
      FirstFailing(FlipChecks(i, p)) ==
        if common != [] then common
        else if lifecycle != [] then lifecycle
        else if planes != [] then planes
        else if p.fidelity != Exact then [ModelEvidenceNotExact] else []
  {
    hide FirstFailing, SetupChecks, PlaneChecks, ScanChecks, PriceChecks, CommonFailure, RealtimeFailure;
    hide FlipLifecycleFailure, ValidFlipProof;
    var setup, planes := SetupChecks(i, p.triggerEpoch), PlaneChecks(p.plane, p.replayability, p.isRealtime);
    var scan := ScanChecks(p);
    var prices := if p.contact.Some? && p.recross.Some? then PriceChecks(i, p) else [];
    var last := [Check(p.fidelity != Exact, ModelEvidenceNotExact)];
    assert FlipChecks(i, p) == setup + (scan + prices + (planes + last)) by {
      assert scan + prices + (planes + last) == scan + (prices + (planes + last));
    }
    hide FlipChecks;
    SetupChecked(i, p.triggerEpoch);
    PlaneChecked(p.plane, p.replayability, p.isRealtime);
    LifecycleChecked(i, p);
    FirstOfTwo(last[0], last[0]);
    FirstOfBoth(planes, last);
    FirstOfBoth(scan + prices, planes + last);
    FirstOfBoth(setup, scan + prices + (planes + last));
  }

  lemma CloseRules(d: Digests, i: ArbitrationInput, bar: Candle)
    requires bar.closeEpoch - bar.openEpoch == 300
    ensures var e := MatchClose(d, RequestOf(i), bar).evidence.body;
      && e.failed == FirstFailing(SetupChecks(i, bar.closeEpoch))
      && e.passed == if e.failed == [] then [EntryDirClose] else []
  {
    hide FirstFailing, SetupChecks, CommonFailure;
    SetupChecked(i, bar.closeEpoch);
  }

  /** Coverage, contexts, prices and candles of the evidence are those of the proof. */
  lemma PayloadsCarry(d: Digests, i: ArbitrationInput, boc: BocProof, bar: Candle, flip: FlipProof)
    ensures var e := MatchBoc(d, RequestOf(i), boc).evidence.body;
      && e.contexts == boc.contexts && e.replayability == boc.replayability
      && e.coverageStart == boc.coverageStart && e.coverageEnd == boc.coverageEnd
      && e.referenceEpoch == Some(boc.reference.openEpoch) && e.referenceOpen == Some(boc.reference.openTicks)
      && e.referenceHigh == Some(boc.reference.highTicks) && e.referenceLow == Some(boc.reference.lowTicks)
      && e.referenceClose == Some(boc.reference.closeTicks)
    ensures var e := MatchClose(d, RequestOf(i), bar).evidence.body;
      && e.contexts == [] && e.replayability == Replayable
      && e.coverageStart == bar.openEpoch && e.coverageEnd == bar.closeEpoch
    ensures var e := MatchFlip(d, RequestOf(i), flip).evidence.body;
      && e.contexts == flip.contexts && e.replayability == flip.replayability
      && e.coverageStart == flip.coverageStart && e.coverageEnd == flip.coverageEnd
      && e.ambiguities == flip.ambiguities && e.htfOpenTicks == Some(flip.htfOpenTicks)
      && e.contact == flip.contact && e.recross == flip.recross && e.gap == Some(flip.gap)
      && e.ordered == Some(flip.ordered) && e.destinationFirst == Some(flip.destinationFirst)
  {
  }
}
