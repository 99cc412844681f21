/**
 The version 3 arbitrator (apps/observation-edge/src/rd-entry-arbitrator-v3.ts): from
 all candidates and evidence of one setup it selects at most one entry.
 */
module EntryArbitratorV3 {
  import opened Common
  import opened EntryTerms
  import opened EntryDomainV3
  import opened Sorting
  import opened Indexing

  // ---------------------------------------------------------------- eligibility

  predicate BocEligible(c: Candidate, e: Evidence)
    requires e.body.triggerEpoch.Some?
  {
    && c.key.tier == Some(HtfTimed)
    && c.key.reference.Some? && e.body.referenceEpoch.Some?
    && c.key.anchor == c.key.reference.value
    && c.key.reference.value % 300 == 0
    && e.body.referenceEpoch.value + 300 <= TriggerOpen(e.body.triggerEpoch.value)
    && e.body.contexts != []
    && ContextsAligned(e.body.contexts, TriggerOpen(e.body.triggerEpoch.value))
  }

  predicate FlipEligible(c: Candidate, e: Evidence)
    requires e.body.triggerEpoch.Some?
  {
    && e.body.htfOpenTicks.Some? && e.body.contact.Some? && e.body.recross.Some?
    && e.body.gap == Some(false) && e.body.ordered == Some(true)
    && e.body.destinationFirst == Some(false)
    && CloseCrosses(c.key.direction, e.body.recross.value, e.body.htfOpenTicks.value)
    && !CandleCrosses(c.key.direction, e.body.contact.value, e.body.htfOpenTicks.value)
    && c.key.anchor <= e.body.contact.value.openEpoch
    && e.body.contexts != []
    && TriggerInContexts(e.body.contexts, e.body.triggerEpoch.value, c.key.anchor)
  }

  predicate PlaneEligible(c: Candidate, e: Evidence)
  {
    || e.body.plane == LowerTimeframeReplay
    || e.body.plane == ExternalArchivedTick
    || (e.body.plane == RealtimeTick && e.body.replayability == LiveExactNonReplayable)
    || (c.key.model == DirClose && e.body.plane == Confirmed5m && e.body.replayability == Replayable)
  }

  /** `exactEligibleV3`. */
  predicate ExactEligible(c: Candidate, e: Evidence)
  {
    && c.state == Matched
    && e.body.fidelity == Exact
    && e.body.triggerEpoch.Some?
    && e.body.ambiguities == []
    && e.body.passed == [ExpectedRule(c.key.model)]
    && e.body.failed == []
    && e.body.tier == c.key.tier
    && e.body.referenceEpoch == c.key.reference
    && (match c.key.model
        case Boc => BocEligible(c, e)
        case DirClose => ExactCloseGraph(c, e)
        case HtfFlip => FlipEligible(c, e))
    && (c.key.model != HtfFlip ==> NoFlipFields(e.body))
    && PlaneEligible(c, e)
  }

  // ---------------------------------------------------------------- reference definition

  datatype EligiblePair = Pair(candidate: Candidate, evidence: Evidence)

  ghost function EligiblePairs(cs: set<Candidate>, es: set<Evidence>): set<EligiblePair>
  {
    set c, e | c in cs && e in es && e.body.candidateId == c.id && ExactEligible(c, e) :: Pair(c, e)
  }

  /** The trigger epoch; every eligible evidence has one. */
  function Epoch(e: Evidence): int
  {
    if e.body.triggerEpoch.Some? then e.body.triggerEpoch.value else 0
  }

  /** Trigger events compare by epoch and then by sequence. */
  predicate EventBefore(a: Evidence, b: Evidence)
  {
    || Epoch(a) < Epoch(b)
    || (Epoch(a) == Epoch(b) && a.body.triggerSequence < b.body.triggerSequence)
  }

  predicate SameEvent(a: Evidence, b: Evidence)
  {
    Epoch(a) == Epoch(b) && a.body.triggerSequence == b.body.triggerSequence
  }

  /** `p` is eligible and no eligible pair has an earlier trigger event. */
  ghost predicate Earliest(ps: set<EligiblePair>, p: EligiblePair)
  {
    p in ps && forall q :: q in ps ==> !EventBefore(q.evidence, p.evidence)
  }

  /** `p` stands for its candidate at the earliest event: its evidence has the least id there. */
  ghost predicate Representative(ps: set<EligiblePair>, p: EligiblePair)
  {
    && Earliest(ps, p)
    && forall q :: Earliest(ps, q) && q.candidate == p.candidate ==> p.evidence.id <= q.evidence.id
  }

  /** The pair a selection points at: the representative whose candidate has the least id. */
  ghost predicate Canonical(ps: set<EligiblePair>, p: EligiblePair)
  {
    && Representative(ps, p)
    && forall q :: Representative(ps, q) ==> p.candidate.id <= q.candidate.id
  }

  ghost predicate Tied(ps: set<EligiblePair>, m: Model)
  {
    exists p :: Representative(ps, p) && p.candidate.key.model == m
  }

  ghost predicate SeveralTied(ps: set<EligiblePair>)
  {
    exists m, m' :: Tied(ps, m) && Tied(ps, m') && m != m'
  }

  ghost predicate PricesAgree(ps: set<EligiblePair>)
  {
    forall p, q :: Representative(ps, p) && Representative(ps, q) ==>
      p.evidence.body.triggerTicks == q.evidence.body.triggerTicks
  }

  /** A flip or break candidate that no evidence makes eligible. */
  ghost predicate BlockedAggressive(cs: set<Candidate>, ps: set<EligiblePair>)
  {
    exists c :: c in cs && c.key.model != DirClose && forall p :: p in ps ==> p.candidate != c
  }

  ghost predicate Empty(s: Selection, reason: Reason, action: Action)
  {
    && s.key.candidate.None? && s.key.evidence.None? && s.model.None? && s.key.fidelity.None?
    && s.key.reason == reason && s.key.action == action && s.key.coTriggered == []
  }

  ghost predicate Picks(s: Selection, p: EligiblePair, reason: Reason)
  {
    && s.key.candidate == Some(p.candidate.id) && s.key.evidence == Some(p.evidence.id)
    && s.model == Some(p.candidate.key.model) && s.key.fidelity == Some(p.evidence.body.fidelity)
    && s.key.reason == reason && s.key.action == PaperEligible
  }

  ghost predicate ListsTied(models: seq<Model>, ps: set<EligiblePair>)
  {
    ModelsAscend(models) && forall m :: m in models <==> Tied(ps, m)
  }

  ghost predicate ListsIds(ids: seq<Id>, cs: set<Candidate>)
  {
    IdsAscend(ids) && forall id :: id in ids <==> exists c :: c in cs && c.id == id
  }

  ghost function LoneReason(cs: set<Candidate>, ps: set<EligiblePair>, c: Candidate): Reason
  {
    if c.key.model == DirClose && BlockedAggressive(cs, ps) then FallbackToConfirmedClose
    else if |cs| == 1 then OnlyExactTrigger
    else EarliestExactTrigger
  }

  /** The selection among a non-empty set of eligible pairs. */
  ghost predicate Chooses(cs: set<Candidate>, ps: set<EligiblePair>, s: Selection)
  {
    if SeveralTied(ps) then
      if PricesAgree(ps) then
        && ListsTied(s.key.coTriggered, ps)
        && exists p :: Canonical(ps, p) && Picks(s, p, CoTriggerSameEvent)
      else Empty(s, CoTriggerPriceConflict, ShadowOnly)
    else
      && s.key.coTriggered == []
      && exists p :: Canonical(ps, p) && Picks(s, p, LoneReason(cs, ps, p.candidate))
  }

  ghost predicate Outcome(
    cs: set<Candidate>, ps: set<EligiblePair>, invalidated: bool, cohort: Cohort, s: Selection)
  {
    if invalidated then Empty(s, SetupInvalidated, NoAction)
    else if cs == {} then Empty(s, NoCandidate, NoAction)
    else if ps == {} then Empty(s, NoExactCandidate, ShadowOnly)
    else if cohort == OneCandle then Empty(s, NoExactCandidate, ShadowOnly)
    else Chooses(cs, ps, s)
  }

  /** What arbitration over the sets `cs` and `es` must select, stated without any order of work. */
  ghost predicate Decides(
    d: Digests, setupId: string, cs: set<Candidate>, es: set<Evidence>, invalidated: bool,
    revision: int, evaluatedAt: int, cohort: Cohort, s: Selection)
  {
    && s.id == d.selection(s.key)
    && s.key.setupId == setupId && s.key.revision == revision && s.evaluatedAt == evaluatedAt
    && ListsIds(s.key.considered, cs)
    && Outcome(cs, EligiblePairs(cs, es), invalidated, cohort, s)
  }

  ghost predicate DistinctIds(cs: set<Candidate>, es: set<Evidence>)
  {
    Consistent(cs, CandidateId) && Consistent(es, EvidenceId)
  }

  /** Ids determine the records of the pairs. */
  ghost predicate Coherent(ps: set<EligiblePair>)
  {
    forall p, q :: p in ps && q in ps ==>
      && (p.candidate.id == q.candidate.id ==> p.candidate == q.candidate)
      && (p.evidence.id == q.evidence.id ==> p.evidence == q.evidence)
  }

  function CandidateId(c: Candidate): Id { c.id }
  function EvidenceId(e: Evidence): Id { e.id }

  predicate IdLess(a: Id, b: Id) { a < b }
  predicate ModelBefore(a: Model, b: Model) { ModelRank(a) < ModelRank(b) }

  lemma PairsCoherent(cs: set<Candidate>, es: set<Evidence>)
    requires DistinctIds(cs, es)
    ensures Coherent(EligiblePairs(cs, es))
  {
    forall p, q | p in EligiblePairs(cs, es) && q in EligiblePairs(cs, es)
      ensures p.candidate.id == q.candidate.id ==> p.candidate == q.candidate
      ensures p.evidence.id == q.evidence.id ==> p.evidence == q.evidence
    {
      assert CandidateId(p.candidate) == p.candidate.id && CandidateId(q.candidate) == q.candidate.id;
      assert EvidenceId(p.evidence) == p.evidence.id && EvidenceId(q.evidence) == q.evidence.id;
    }
  }

  lemma CanonicalUnique(ps: set<EligiblePair>, p: EligiblePair, q: EligiblePair)
    requires Coherent(ps) && Canonical(ps, p) && Canonical(ps, q)
    ensures p == q
  {
    assert p.candidate.id == q.candidate.id;
    assert p.evidence.id == q.evidence.id;
  }

  lemma AscendingListsEqual(s: seq<Id>, t: seq<Id>)
    requires IdsAscend(s) && IdsAscend(t) && forall id :: id in s <==> id in t
    ensures s == t
  {
    assert Elements(s) == Elements(t);
    SortedUnique(s, t, IdLess);
  }

  lemma AscendingModelsEqual(s: seq<Model>, t: seq<Model>)
    requires ModelsAscend(s) && ModelsAscend(t) && forall m :: m in s <==> m in t
    ensures s == t
  {
    assert Elements(s) == Elements(t);
    SortedUnique(s, t, ModelBefore);
  }

  lemma ChoiceUnique(cs: set<Candidate>, ps: set<EligiblePair>, s: Selection, t: Selection)
    requires Coherent(ps) && Chooses(cs, ps, s) && Chooses(cs, ps, t)
    ensures s.model == t.model
    ensures t.key == s.key.(setupId := t.key.setupId, revision := t.key.revision, considered := t.key.considered)
  {
    if SeveralTied(ps) && PricesAgree(ps) {
      AscendingModelsEqual(s.key.coTriggered, t.key.coTriggered);
      var p :| Canonical(ps, p) && Picks(s, p, CoTriggerSameEvent);
      var q :| Canonical(ps, q) && Picks(t, q, CoTriggerSameEvent);
      CanonicalUnique(ps, p, q);
    } else if !SeveralTied(ps) {
      var p :| Canonical(ps, p) && Picks(s, p, LoneReason(cs, ps, p.candidate));
      var q :| Canonical(ps, q) && Picks(t, q, LoneReason(cs, ps, q.candidate));
      CanonicalUnique(ps, p, q);
    }
  }

  /** The reference definition leaves no freedom: it determines the selection completely. */
  lemma DecisionUnique(
    d: Digests, setupId: string, cs: set<Candidate>, es: set<Evidence>, invalidated: bool,
    revision: int, evaluatedAt: int, cohort: Cohort, s: Selection, t: Selection)
    requires DistinctIds(cs, es)
    requires Decides(d, setupId, cs, es, invalidated, revision, evaluatedAt, cohort, s)
    requires Decides(d, setupId, cs, es, invalidated, revision, evaluatedAt, cohort, t)
    ensures s == t
  {
    AscendingListsEqual(s.key.considered, t.key.considered);
    var ps := EligiblePairs(cs, es);
    PairsCoherent(cs, es);
    if !invalidated && cs != {} && ps != {} && cohort != OneCandle {
      ChoiceUnique(cs, ps, s, t);
    }
  }

  // ---------------------------------------------------------------- the arbitrator

  /** Order of the evidence of one candidate: by event, then by id. */
  predicate EvidenceBefore(a: Evidence, b: Evidence)
  {
    EventBefore(a, b) || (SameEvent(a, b) && a.id < b.id)
  }

  /** Order of eligible pairs: by event, then by candidate id. */
  predicate PairBefore(a: EligiblePair, b: EligiblePair)
  {
    || EventBefore(a.evidence, b.evidence)
    || (SameEvent(a.evidence, b.evidence) && a.candidate.id < b.candidate.id)
  }

  predicate PairIdBefore(a: EligiblePair, b: EligiblePair)
  {
    a.candidate.id < b.candidate.id
  }

  ghost predicate EligibleFor(c: Candidate, es: set<Evidence>, e: Evidence)
  {
    e in es && e.body.candidateId == c.id && ExactEligible(c, e)
  }

  /** `values` lists, once each, the evidence in `es` that makes `c` eligible. */
  ghost predicate Groups(c: Candidate, es: set<Evidence>, values: seq<Evidence>)
  {
    && NoDuplicates(values)
    && forall e :: e in values <==> EligibleFor(c, es, e)
  }

  /** Groups the eligible evidence by candidate; fails on evidence for an unknown candidate. */
  method GroupEligible(candidates: map<Id, Candidate>, evidence: map<Id, Evidence>, ghost es: set<Evidence>)
    returns (r: Option<map<Id, seq<Evidence>>>)
    requires forall id :: id in candidates ==> candidates[id].id == id
    requires Indexes(evidence, es, EvidenceId)
    ensures r.Some? <==> forall e :: e in es ==> e.body.candidateId in candidates
    ensures r.Some? ==> forall id :: id in r.value ==>
              id in candidates && r.value[id] != [] && Groups(candidates[id], es, r.value[id])
    ensures r.Some? ==> forall id, e :: id in candidates && EligibleFor(candidates[id], es, e) ==> id in r.value
  {
    var grouped: map<Id, seq<Evidence>> := map[];
    var todo := evidence.Keys;
    ghost var done: set<Evidence> := {};
    while todo != {}
      invariant todo <= evidence.Keys
      invariant done <= es
      invariant forall e :: e in es ==> (e in done <==> e.id !in todo)
      invariant forall e :: e in done ==> e.body.candidateId in candidates
      invariant forall id :: id in grouped ==>
                  id in candidates && grouped[id] != [] && Groups(candidates[id], done, grouped[id])
      invariant forall id, e :: id in candidates && EligibleFor(candidates[id], done, e) ==> id in grouped
      decreases todo
    {
      var id :| id in todo;
      var item := evidence[id];
      todo := todo - {id};
      if item.body.candidateId !in candidates {
        return None;
      }
      ghost var before := done;
      done := done + {item};
      var c := candidates[item.body.candidateId];
      if ExactEligible(c, item) {
        var values := if c.id in grouped then grouped[c.id] else [];
        assert item !in values;
        grouped := grouped[c.id := values + [item]];
        assert Groups(c, done, values + [item]) by {
          assert forall e :: EligibleFor(c, done, e) <==> e == item || EligibleFor(c, before, e);
        }
      }
      forall k | k in grouped && k != c.id ensures Groups(candidates[k], done, grouped[k]) {
        assert forall e :: EligibleFor(candidates[k], done, e) <==> EligibleFor(candidates[k], before, e);
      }
      assert c.id in grouped && !ExactEligible(c, item) ==> Groups(c, done, grouped[c.id]) by {
        assert !ExactEligible(c, item) ==>
          forall e :: EligibleFor(c, done, e) <==> EligibleFor(c, before, e);
      }
      forall k, e | k in candidates && EligibleFor(candidates[k], done, e) ensures k in grouped {
        if e != item {
          assert EligibleFor(candidates[k], before, e);
        }
      }
    }
    assert done == es;
    return Some(grouped);
  }

  /** `p` has the first evidence of its candidate by event and then by id. */
  ghost predicate Best(ps: set<EligiblePair>, p: EligiblePair)
  {
    && p in ps
    && forall q :: q in ps && q.candidate == p.candidate ==> q == p || EvidenceBefore(p.evidence, q.evidence)
  }

  ghost predicate Listed(best: set<EligiblePair>, c: Candidate)
  {
    exists p :: p in best && p.candidate == c
  }

  /** One pair per eligible candidate, with its best evidence. */
  ghost predicate ListsBest(ps: set<EligiblePair>, best: set<EligiblePair>)
  {
    && (forall p :: p in best ==> Best(ps, p))
    && (forall q :: q in ps ==> Listed(best, q.candidate))
  }

  /** Sorted, non-empty and duplicate-free: the head comes before all others. */
  lemma SortHead<T(!new)>(s: seq<T>, before: (T, T) -> bool)
    requires s != [] && NoDuplicates(s) && StrictOrder(before) && Separates(before, Elements(s))
    ensures Sort(s, before) != [] && Sort(s, before)[0] in s
    ensures forall x :: x in s ==> x == Sort(s, before)[0] || before(Sort(s, before)[0], x)
  {
    SortKeeps(s, before);
    SortSorts(s, before);
    var t := Sort(s, before);
    assert t[0] in t;
    forall x | x in s ensures x == t[0] || before(t[0], x) {
      assert x in t;
    }
  }

  lemma EvidenceOrder(c: Candidate, cs: set<Candidate>, es: set<Evidence>, values: seq<Evidence>)
    requires DistinctIds(cs, es) && Groups(c, es, values)
    ensures StrictOrder(EvidenceBefore) && Separates(EvidenceBefore, Elements(values))
  {
    forall a, b | a in Elements(values) && b in Elements(values) && a != b
      ensures EvidenceBefore(a, b) || EvidenceBefore(b, a)
    {
      assert EvidenceId(a) != EvidenceId(b);
    }
  }

  method BestPairs(
    candidates: map<Id, Candidate>, grouped: map<Id, seq<Evidence>>,
    ghost cs: set<Candidate>, ghost es: set<Evidence>) returns (pairs: seq<EligiblePair>)
    requires DistinctIds(cs, es) && Indexes(candidates, cs, CandidateId)
    requires forall id :: id in grouped ==>
               id in candidates && grouped[id] != [] && Groups(candidates[id], es, grouped[id])
    requires forall id, e :: id in candidates && EligibleFor(candidates[id], es, e) ==> id in grouped
    ensures NoDuplicates(pairs) && ListsBest(EligiblePairs(cs, es), Elements(pairs))
  {
    hide ExactEligible, Sort, EvidenceBefore;
    pairs := [];
    ghost var ps := EligiblePairs(cs, es);
    var todo := grouped.Keys;
    while todo != {}
      invariant todo <= grouped.Keys
      invariant NoDuplicates(pairs)
      invariant forall p :: p in pairs ==>
                  p.candidate.id in grouped && p.candidate.id !in todo && Best(ps, p)
      invariant forall id :: id in grouped && id !in todo ==>
                  exists p :: p in pairs && p.candidate == candidates[id]
      decreases todo
    {
      var id :| id in todo;
      var c := candidates[id];
      EvidenceOrder(c, cs, es, grouped[id]);
      SortHead(grouped[id], EvidenceBefore);
      var pair := Pair(c, Sort(grouped[id], EvidenceBefore)[0]);
      assert Best(ps, pair) by {
        assert forall e :: Pair(c, e) in ps <==> e in grouped[id];
        assert forall q :: q in ps && q.candidate == c ==> q == Pair(c, q.evidence);
      }
      ghost var was := pairs;
      todo, pairs := todo - {id}, pairs + [pair];
      forall k | k in grouped && k !in todo ensures exists p :: p in pairs && p.candidate == candidates[k] {
        if k == id {
          assert pair in pairs;
        } else {
          var p :| p in was && p.candidate == candidates[k];
          assert p in pairs;
        }
      }
    }
    forall q | q in ps ensures Listed(Elements(pairs), q.candidate) {
      assert CandidateId(q.candidate) in candidates && EligibleFor(q.candidate, es, q.evidence);
      var p :| p in pairs && p.candidate == candidates[q.candidate.id];
      assert p in Elements(pairs);
    }
  }

  lemma PairOrder(ps: set<EligiblePair>, pairs: seq<EligiblePair>)
    requires Coherent(ps) && ListsBest(ps, Elements(pairs))
    ensures StrictOrder(PairBefore) && Separates(PairBefore, Elements(pairs))
    ensures StrictOrder(PairIdBefore) && Separates(PairIdBefore, Elements(pairs))
  {
    forall p, q | p in Elements(pairs) && q in Elements(pairs) && p != q
      ensures p.candidate.id != q.candidate.id
    {
      assert Best(ps, p) && Best(ps, q);
    }
  }

  /** The first pair in order is at the earliest event. */
  lemma HeadIsEarliest(ps: set<EligiblePair>, best: set<EligiblePair>, head: EligiblePair)
    requires ListsBest(ps, best) && head in best
    requires forall p :: p in best ==> p == head || PairBefore(head, p)
    ensures Earliest(ps, head)
  {
    forall q | q in ps ensures !EventBefore(q.evidence, head.evidence) {
      var p :| p in best && p.candidate == q.candidate;
      assert Best(ps, p);
      assert q == p || EvidenceBefore(p.evidence, q.evidence);
      assert p == head || PairBefore(head, p);
    }
  }

  /** The best pairs at the head's event are exactly the representatives. */
  lemma SharersRepresent(ps: set<EligiblePair>, best: set<EligiblePair>, head: EligiblePair)
    requires Coherent(ps) && ListsBest(ps, best) && head in best && Earliest(ps, head)
    ensures forall p :: Representative(ps, p) <==> p in best && SameEvent(p.evidence, head.evidence)
  {
    forall p | p in best && SameEvent(p.evidence, head.evidence) ensures Representative(ps, p) {
      assert Best(ps, p);
      forall q | Earliest(ps, q) && q.candidate == p.candidate ensures p.evidence.id <= q.evidence.id {
        assert q == p || EvidenceBefore(p.evidence, q.evidence);
      }
    }
    forall p | Representative(ps, p) ensures p in best && SameEvent(p.evidence, head.evidence) {
      assert !EventBefore(head.evidence, p.evidence) && !EventBefore(p.evidence, head.evidence);
      var b :| b in best && b.candidate == p.candidate;
      assert Best(ps, b) && (p == b || EvidenceBefore(b.evidence, p.evidence));
      assert Earliest(ps, b);
      assert p.evidence.id <= b.evidence.id;
    }
  }

  function AtEvent(pairs: seq<EligiblePair>, first: Evidence): (r: seq<EligiblePair>)
    ensures forall p :: p in r <==> p in pairs && SameEvent(p.evidence, first)
    ensures NoDuplicates(pairs) ==> NoDuplicates(r)
  {
    if pairs == [] then []
    else
      assert pairs == [pairs[0]] + pairs[1..];
      (if SameEvent(pairs[0].evidence, first) then [pairs[0]] else []) + AtEvent(pairs[1..], first)
  }

  /** The distinct models of `pairs`, sorted. */
  function ModelsOf(pairs: seq<EligiblePair>): (r: seq<Model>)
    ensures ModelsAscend(r) && forall m :: m in r <==> exists p :: p in pairs && p.candidate.key.model == m
  {
    (if exists p :: p in pairs && p.candidate.key.model == Boc then [Boc] else []) +
    (if exists p :: p in pairs && p.candidate.key.model == DirClose then [DirClose] else []) +
    (if exists p :: p in pairs && p.candidate.key.model == HtfFlip then [HtfFlip] else [])
  }

  predicate OnePrice(pairs: seq<EligiblePair>)
  {
    forall p, q :: p in pairs && q in pairs ==>
      p.evidence.body.triggerTicks == q.evidence.body.triggerTicks
  }

  function Select(
    d: Digests, setupId: string, revision: int, evaluatedAt: int, considered: seq<Id>,
    pair: Option<EligiblePair>, reason: Reason, action: Action, coTriggered: seq<Model>): Selection
  {
    var key := SelectionKey(
      setupId, revision, considered,
      if pair.Some? then Some(pair.value.candidate.id) else None,
      if pair.Some? then Some(pair.value.evidence.id) else None,
      reason, if pair.Some? then Some(pair.value.evidence.body.fidelity) else None, action, coTriggered);
    Selection(d.selection(key), key,
              if pair.Some? then Some(pair.value.candidate.key.model) else None, evaluatedAt)
  }

  predicate RequestOk(
    setupId: string, candidates: seq<Candidate>, evidence: seq<Evidence>, revision: int, evaluatedAt: int)
  {
    && ClosedText(setupId) && SafeNat(revision) && SafeNat(evaluatedAt)
    && (forall c :: c in candidates ==> c.observedAt <= evaluatedAt)
    && (forall e :: e in evidence ==> e.observedAt <= evaluatedAt)
  }

  /** The checks on the records: one setup, no id used twice, no dangling evidence. */
  ghost predicate RecordsOk(setupId: string, cs: set<Candidate>, es: set<Evidence>)
  {
    && (forall c :: c in cs ==> c.key.setupId == setupId)
    && DistinctIds(cs, es)
    && (forall e :: e in es ==> exists c :: c in cs && c.id == e.body.candidateId)
  }

  predicate OpenedOk(setupId: string, evaluatedAt: int, prior: Selection, cohort: Cohort)
  {
    && cohort != OneCandle && prior.key.setupId == setupId
    && prior.key.action == PaperEligible && prior.evaluatedAt <= evaluatedAt
  }

  method ConsideredIds(index: map<Id, Candidate>, ghost cs: set<Candidate>) returns (ids: seq<Id>)
    requires Indexes(index, cs, CandidateId)
    ensures ListsIds(ids, cs)
  {
    var keys: seq<Id> := [];
    var todo := index.Keys;
    while todo != {}
      invariant todo <= index.Keys && NoDuplicates(keys)
      invariant forall id :: id in keys <==> id in index && id !in todo
      decreases todo
    {
      var id :| id in todo;
      todo, keys := todo - {id}, keys + [id];
    }
    ids := Sort(keys, IdLess);
    SortKeeps(keys, IdLess);
    SortSorts(keys, IdLess);
    forall id ensures id in ids <==> exists c :: c in cs && c.id == id {
      if id in ids {
        assert index[id] in cs && CandidateId(index[id]) == id;
      }
      forall c | c in cs && c.id == id ensures id in ids {
        assert CandidateId(c) in index;
      }
    }
  }

  lemma BlockedSpelling(
    cs: set<Candidate>, ps: set<EligiblePair>, index: map<Id, Candidate>, pairs: seq<EligiblePair>)
    requires Indexes(index, cs, CandidateId) && ListsBest(ps, Elements(pairs))
    requires forall p :: p in ps ==> p.candidate in cs
    ensures (exists id :: id in index && index[id].key.model != DirClose
                          && id !in (set p | p in pairs :: p.candidate.id))
            <==> BlockedAggressive(cs, ps)
  {
    var ids := set p | p in pairs :: p.candidate.id;
    forall c | c in cs ensures c.id in ids <==> exists p :: p in ps && p.candidate == c {
      assert CandidateId(c) in index;
      if c.id in ids {
        var p :| p in pairs && p.candidate.id == c.id;
        assert p in Elements(pairs);
        assert Best(ps, p) && CandidateId(p.candidate) in index;
      }
      if q :| q in ps && q.candidate == c {
        var p :| p in Elements(pairs) && p.candidate == c;
        assert p in pairs;
      }
    }
    forall id | id in index && index[id].key.model != DirClose && id !in ids
      ensures BlockedAggressive(cs, ps)
    {
      assert index[id] in cs;
    }
    if BlockedAggressive(cs, ps) {
      var c :| c in cs && c.key.model != DirClose && forall p :: p in ps ==> p.candidate != c;
      assert CandidateId(c) in index && index[c.id] == c;
    }
  }

  lemma IndexSize(index: map<Id, Candidate>, cs: set<Candidate>)
    requires Indexes(index, cs, CandidateId)
    ensures |index| == |cs|
    decreases cs
  {
    if cs == {} {
      assert index.Keys == {};
    } else {
      var c :| c in cs;
      assert CandidateId(c) in index;
      var rest := map id | id in index && id != c.id :: index[id];
      assert rest.Keys == index.Keys - {c.id};
      assert Indexes(rest, cs - {c}, CandidateId) by {
        assert forall x :: x in cs - {c} ==> CandidateId(x) in index && index[CandidateId(x)] == x;
      }
      IndexSize(rest, cs - {c});
    }
  }

  /** The models among the representatives, as the arbitrator lists them. */
  lemma TiedSpelling(ps: set<EligiblePair>, earliest: seq<EligiblePair>)
    requires forall p :: p in earliest <==> Representative(ps, p)
    ensures ListsTied(ModelsOf(earliest), ps)
    ensures SeveralTied(ps) <==> |ModelsOf(earliest)| > 1
    ensures OnePrice(earliest) <==> PricesAgree(ps)
  {
    hide Representative;
    var models := ModelsOf(earliest);
    if |models| > 1 {
      assert Tied(ps, models[0]) && Tied(ps, models[1]) && models[0] != models[1];
    }
    if SeveralTied(ps) {
      var m, m' :| Tied(ps, m) && Tied(ps, m') && m != m';
      assert m in models && m' in models;
    }
  }

  /** Sorts the best pairs and keeps those at the first event. */
  method EarliestPairs(ghost ps: set<EligiblePair>, pairs: seq<EligiblePair>)
    returns (ordered: seq<EligiblePair>, earliest: seq<EligiblePair>)
    requires Coherent(ps)
    requires pairs != [] && NoDuplicates(pairs) && ListsBest(ps, Elements(pairs))
    ensures Elements(ordered) == Elements(pairs)
    ensures NoDuplicates(earliest) && earliest != [] && Canonical(ps, earliest[0])
    ensures forall p :: p in earliest <==> Representative(ps, p)
    ensures Separates(PairIdBefore, Elements(earliest))
  {
    PairOrder(ps, pairs);
    SortHead(pairs, PairBefore);
    SortKeeps(pairs, PairBefore);
    SortSorts(pairs, PairBefore);
    ordered := Sort(pairs, PairBefore);
    ghost var head := ordered[0];
    HeadIsEarliest(ps, Elements(pairs), head);
    SharersRepresent(ps, Elements(pairs), head);
    earliest := AtEvent(ordered, ordered[0].evidence);
    assert ordered == [ordered[0]] + ordered[1..];
    assert earliest[0] == head;
    assert NoDuplicates(ordered);
    assert Elements(ordered) == Elements(pairs);
    assert forall p :: p in Elements(earliest) ==> p in Elements(pairs);
  }

  /** Several models share the first event. */
  method ChooseTied(
    d: Digests, setupId: string, ghost cs: set<Candidate>, ghost ps: set<EligiblePair>,
    earliest: seq<EligiblePair>, revision: int, evaluatedAt: int, considered: seq<Id>) returns (s: Selection)
    requires NoDuplicates(earliest) && earliest != [] && Canonical(ps, earliest[0])
    requires forall p :: p in earliest <==> Representative(ps, p)
    requires Separates(PairIdBefore, Elements(earliest))
    requires |ModelsOf(earliest)| > 1
    ensures s.id == d.selection(s.key) && s.key.setupId == setupId && s.key.revision == revision
    ensures s.evaluatedAt == evaluatedAt && s.key.considered == considered
    ensures Chooses(cs, ps, s)
  {
    ghost var head := earliest[0];
    TiedSpelling(ps, earliest);
    if !OnePrice(earliest) {
      return Select(d, setupId, revision, evaluatedAt, considered, None, CoTriggerPriceConflict, ShadowOnly, []);
    }
    SortHead(earliest, PairIdBefore);
    var canonical := Sort(earliest, PairIdBefore)[0];
    assert canonical == head by {
      assert canonical == head || PairIdBefore(canonical, head);
      assert Representative(ps, canonical);
    }
    s := Select(d, setupId, revision, evaluatedAt, considered, Some(canonical), CoTriggerSameEvent,
                PaperEligible, ModelsOf(earliest));
    assert Picks(s, head, CoTriggerSameEvent);
  }

  /** A single model has the first event. */
  method ChooseLone(
    d: Digests, setupId: string, ghost cs: set<Candidate>, ghost ps: set<EligiblePair>,
    index: map<Id, Candidate>, ordered: seq<EligiblePair>, head: EligiblePair,
    revision: int, evaluatedAt: int, considered: seq<Id>) returns (s: Selection)
    requires Indexes(index, cs, CandidateId) && forall p :: p in ps ==> p.candidate in cs
    requires ListsBest(ps, Elements(ordered)) && Canonical(ps, head) && !SeveralTied(ps)
    ensures s.id == d.selection(s.key) && s.key.setupId == setupId && s.key.revision == revision
    ensures s.evaluatedAt == evaluatedAt && s.key.considered == considered
    ensures Chooses(cs, ps, s)
  {
    var eligibleIds := set p | p in ordered :: p.candidate.id;
    var blocked := exists id :: id in index && index[id].key.model != DirClose && id !in eligibleIds;
    BlockedSpelling(cs, ps, index, ordered);
    IndexSize(index, cs);
    var reason :=
      if head.candidate.key.model == DirClose && blocked then FallbackToConfirmedClose
      else if |index| == 1 then OnlyExactTrigger
      else EarliestExactTrigger;
    s := Select(d, setupId, revision, evaluatedAt, considered, Some(head), reason, PaperEligible, []);
    assert Picks(s, head, LoneReason(cs, ps, head.candidate));
  }

  /** Arbitration among the eligible pairs, once the setup is valid and some pair is eligible. */
  method Choose(
    d: Digests, setupId: string, ghost cs: set<Candidate>, ghost ps: set<EligiblePair>,
    index: map<Id, Candidate>, pairs: seq<EligiblePair>, revision: int, evaluatedAt: int,
    considered: seq<Id>) returns (s: Selection)
    requires Coherent(ps) && Indexes(index, cs, CandidateId)
    requires forall p :: p in ps ==> p.candidate in cs
    requires pairs != [] && NoDuplicates(pairs) && ListsBest(ps, Elements(pairs))
    ensures s.id == d.selection(s.key) && s.key.setupId == setupId && s.key.revision == revision
    ensures s.evaluatedAt == evaluatedAt && s.key.considered == considered
    ensures Chooses(cs, ps, s)
  {
    var ordered, earliest := EarliestPairs(ps, pairs);
    if |ModelsOf(earliest)| > 1 {
      s := ChooseTied(d, setupId, cs, ps, earliest, revision, evaluatedAt, considered);
    } else {
      TiedSpelling(ps, earliest);
      s := ChooseLone(d, setupId, cs, ps, index, ordered, earliest[0], revision, evaluatedAt, considered);
    }
  }

  lemma KnownSpelling(index: map<Id, Candidate>, cs: set<Candidate>, es: set<Evidence>)
    requires Indexes(index, cs, CandidateId)
    ensures (forall e :: e in es ==> e.body.candidateId in index)
            <==> (forall e :: e in es ==> exists c :: c in cs && c.id == e.body.candidateId)
  {
    forall id: Id ensures id in index <==> exists c :: c in cs && c.id == id {
      if id in index {
        assert index[id] in cs && CandidateId(index[id]) == id;
      }
      forall c | c in cs && c.id == id ensures id in index {
        assert CandidateId(c) in index;
      }
    }
  }

  lemma PairsListed(ps: set<EligiblePair>, pairs: seq<EligiblePair>)
    requires ListsBest(ps, Elements(pairs))
    ensures pairs == [] <==> ps == {}
  {
    if pairs != [] {
      assert pairs[0] in Elements(pairs);
      assert Best(ps, pairs[0]);
    }
    forall q | q in ps ensures pairs != [] {
      assert Listed(Elements(pairs), q.candidate);
    }
  }

  /** The index of the candidates and the best pair of each eligible one. */
  method Prepare(setupId: string, candidates: seq<Candidate>, evidence: seq<Evidence>)
    returns (r: Option<(map<Id, Candidate>, seq<EligiblePair>)>)
    ensures r.Some? <==> RecordsOk(setupId, Elements(candidates), Elements(evidence))
    ensures r.Some? ==> Indexes(r.value.0, Elements(candidates), CandidateId)
    ensures r.Some? ==> NoDuplicates(r.value.1)
    ensures r.Some? ==> ListsBest(EligiblePairs(Elements(candidates), Elements(evidence)), Elements(r.value.1))
  {
    ghost var cs, es := Elements(candidates), Elements(evidence);
    if exists c :: c in candidates && c.key.setupId != setupId {
      assert exists c :: c in cs && c.key.setupId != setupId;
      return None;
    }
    var candidateIndex := MergeImmutable(map[], candidates, CandidateId);
    MergeIndexes(map[], {}, candidates, CandidateId);
    MergeIndexes(map[], {}, evidence, EvidenceId);
    assert {} + cs == cs && {} + es == es;
    if candidateIndex.None? {
      return None;
    }
    var evidenceIndex := MergeImmutable(map[], evidence, EvidenceId);
    if evidenceIndex.None? {
      return None;
    }
    var index := candidateIndex.value;
    var grouped := GroupEligible(index, evidenceIndex.value, es);
    KnownSpelling(index, cs, es);
    if grouped.None? {
      return None;
    }
    var pairs := BestPairs(index, grouped.value, cs, es);
    return Some((index, pairs));
  }

  /** `arbitrateEntryCandidatesV3`. */
  method Arbitrate(
    d: Digests, setupId: string, candidates: seq<Candidate>, evidence: seq<Evidence>,
    invalidated: bool, revision: int, evaluatedAt: int,
    prior: Option<Selection>, cohort: Cohort) returns (r: Result<Selection, ()>)
    ensures r.Ok? <==>
              && RequestOk(setupId, candidates, evidence, revision, evaluatedAt)
              && (if prior.Some? then OpenedOk(setupId, evaluatedAt, prior.value, cohort)
                  else RecordsOk(setupId, Elements(candidates), Elements(evidence)))
    ensures r.Ok? && prior.Some? ==> r.value == prior.value
    ensures r.Ok? && prior.None? ==>
              Decides(d, setupId, Elements(candidates), Elements(evidence), invalidated,
                      revision, evaluatedAt, cohort, r.value)
  {
    if !RequestOk(setupId, candidates, evidence, revision, evaluatedAt) {
      return Err(());
    }
    if prior.Some? {
      return if OpenedOk(setupId, evaluatedAt, prior.value, cohort) then Ok(prior.value) else Err(());
    }
    var prepared := Prepare(setupId, candidates, evidence);
    if prepared.None? {
      return Err(());
    }
    var (index, pairs) := prepared.value;
    ghost var cs, es := Elements(candidates), Elements(evidence);
    ghost var ps := EligiblePairs(cs, es);
    PairsCoherent(cs, es);
    PairsListed(ps, pairs);
    assert forall p :: p in ps ==> p.candidate in cs;
    var considered := ConsideredIds(index, cs);
    IndexSize(index, cs);
    var s;
    if invalidated {
      s := Select(d, setupId, revision, evaluatedAt, considered, None, SetupInvalidated, NoAction, []);
    } else if |index| == 0 {
      s := Select(d, setupId, revision, evaluatedAt, considered, None, NoCandidate, NoAction, []);
    } else if pairs == [] || cohort == OneCandle {
      s := Select(d, setupId, revision, evaluatedAt, considered, None, NoExactCandidate, ShadowOnly, []);
    } else {
      s := Choose(d, setupId, cs, ps, index, pairs, revision, evaluatedAt, considered);
    }
    assert Outcome(cs, ps, invalidated, cohort, s);
    return Ok(s);
  }
}
