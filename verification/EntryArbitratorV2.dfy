/**
 The version 2 arbitrator (`arbitrateEntryCandidates` in
 apps/observation-edge/src/rd-entry-arbitrator.ts).
 */
module EntryArbitratorV2 {
  import opened Common
  import opened EntryTerms
  import opened EntryDomainV2
  import opened Sorting
  import opened Indexing

  // ---------------------------------------------------------------- validators

  /** `validateCandidateIdentity`. */
  predicate ValidCandidate(d: Digests, c: Candidate, setupId: string)
  {
    && ValidDigest(c.id) && ClosedText(c.key.setupId)
    && SafeNat(c.key.anchor) && SafeNat(c.key.ordinal) && c.key.ordinal > 0
    && NoDuplicates(c.claims)
    && SafeNat(c.observedAt)
    && c.key.setupId == setupId
    && c.id == d.candidate(c.key)
  }

  /** `validateEvidenceIdentity`. */
  predicate ValidEvidence(d: Digests, e: Evidence)
  {
    && ValidDigest(e.id) && ValidDigest(e.body.candidateId) && ValidDigest(e.payloadDigest)
    && ContextsAscend(e.body.contexts)
    && NoDuplicates(e.body.ambiguities) && NoDuplicates(e.body.passed)
    && NoDuplicates(e.body.failed) && NoDuplicates(e.body.claims)
    && SafeNat(e.observedAt)
    && e.body.triggerEpoch.Some? == e.body.triggerTicks.Some?
    && (e.body.triggerEpoch.Some? ==> SafeNat(e.body.triggerEpoch.value) && Safe(e.body.triggerTicks.value))
    && SafeNat(e.body.resolution) && e.body.resolution > 0
    && SafeNat(e.body.coverageStart) && SafeNat(e.body.coverageEnd)
    && e.body.coverageStart < e.body.coverageEnd
    && (e.body.triggerEpoch.Some? ==>
          e.body.coverageStart <= e.body.triggerEpoch.value <= e.body.coverageEnd)
    && e.payloadDigest == d.payload(e.body)
    && e.id == d.evidence(EvidenceKeyOf(e.body, e.payloadDigest))
  }

  datatype Request = Request(
    setupId: string, invalidated: bool, revision: int,
    candidates: seq<Candidate>, evidence: seq<Evidence>, evaluatedAt: int)

  predicate CandidateOk(d: Digests, q: Request, c: Candidate)
  {
    ValidCandidate(d, c, q.setupId) && c.observedAt <= q.evaluatedAt
  }

  predicate EvidenceOk(d: Digests, q: Request, e: Evidence)
  {
    ValidEvidence(d, e) && e.body.coverageEnd <= e.observedAt <= q.evaluatedAt
  }

  ghost predicate Known(cs: seq<Candidate>, id: Id)
  {
    exists c :: c in cs && c.id == id
  }

  /** Everything `arbitrateEntryCandidates` refuses is excluded here, and nothing else is. */
  ghost predicate Accepted(d: Digests, q: Request)
  {
    && ClosedText(q.setupId) && SafeNat(q.revision) && SafeNat(q.evaluatedAt)
    && Consistent(Elements(q.candidates), CandidateId)
    && (forall c :: c in q.candidates ==> CandidateOk(d, q, c))
    && Consistent(Elements(q.evidence), EvidenceId)
    && (forall e :: e in q.evidence ==> EvidenceOk(d, q, e) && Known(q.candidates, e.body.candidateId))
  }

  // ---------------------------------------------------------------- selection

  predicate IsActive(c: Candidate)
  {
    ActiveModel(c.key.model) && c.state != Rejected
  }

  predicate ExactEligible(e: Evidence)
  {
    && e.body.fidelity == Exact
    && e.body.plane != RealtimeTick
    && e.body.triggerEpoch.Some?
    && e.body.ambiguities == []
  }

  function Trigger(e: Evidence): int
  {
    if e.body.triggerEpoch.Some? then e.body.triggerEpoch.value else 0
  }

  /** `exactEvidenceRank(a, b) < 0`. */
  predicate RankBefore(a: Evidence, b: Evidence)
  {
    || Trigger(a) < Trigger(b)
    || (Trigger(a) == Trigger(b) &&
        (|| a.body.resolution < b.body.resolution
         || (a.body.resolution == b.body.resolution &&
             (|| |a.body.contexts| > |b.body.contexts|
              || (|a.body.contexts| == |b.body.contexts| &&
                  (|| a.body.coverageEnd < b.body.coverageEnd
                   || (a.body.coverageEnd == b.body.coverageEnd && a.id < b.id)))))))
  }

  /** The best-ranked exact evidence of one candidate, as the loop over the evidence keeps it. */
  function BestExact(es: seq<Evidence>, id: Id): Option<Evidence>
  {
    if es == [] then None
    else
      var best, e := BestExact(es[..|es| - 1], id), es[|es| - 1];
      if e.body.candidateId == id && ExactEligible(e) && (best.None? || RankBefore(e, best.value))
      then Some(e) else best
  }

  /** The earliest trigger among the replayable evidence of one candidate that is not exact. */
  function FirstNonExact(es: seq<Evidence>, id: Id): Option<int>
  {
    if es == [] then None
    else
      var first, e := FirstNonExact(es[..|es| - 1], id), es[|es| - 1];
      if e.body.candidateId == id && !ExactEligible(e) && e.body.plane != RealtimeTick
         && e.body.triggerEpoch.Some? && (first.None? || e.body.triggerEpoch.value < first.value)
      then Some(e.body.triggerEpoch.value) else first
  }

  function ModelOrder(m: Model): nat
  {
    match m
    case DirClose => 0
    case HtfFlip => 1
    case LegacyBreakCandle => 2
    case LegacyRejectionRespect => 3
  }

  datatype ExactPair = ExactPair(candidate: Candidate, evidence: Evidence)

  predicate PairBefore(a: ExactPair, b: ExactPair)
  {
    || Trigger(a.evidence) < Trigger(b.evidence)
    || (Trigger(a.evidence) == Trigger(b.evidence) &&
        (|| ModelOrder(a.candidate.key.model) < ModelOrder(b.candidate.key.model)
         || (a.candidate.key.model == b.candidate.key.model && a.candidate.id < b.candidate.id)))
  }

  function Active(cs: seq<Candidate>): (r: seq<Candidate>)
    ensures forall c :: c in r <==> c in cs && IsActive(c)
  {
    if cs == [] then []
    else
      assert cs == [cs[0]] + cs[1..];
      (if IsActive(cs[0]) then [cs[0]] else []) + Active(cs[1..])
  }

  function ExactPairs(active: seq<Candidate>, es: seq<Evidence>): (r: seq<ExactPair>)
    ensures forall p :: p in r <==> p.candidate in active && BestExact(es, p.candidate.id) == Some(p.evidence)
  {
    if active == [] then []
    else
      assert active == [active[0]] + active[1..];
      var best := BestExact(es, active[0].id);
      (if best.Some? then [ExactPair(active[0], best.value)] else []) + ExactPairs(active[1..], es)
  }

  datatype Decision = Decision(pair: Option<ExactPair>, action: Action, reason: Reason)

  function FirstClose(exact: seq<ExactPair>): (r: Option<ExactPair>)
    ensures r.Some? ==> r.value in exact && r.value.candidate.key.model == DirClose
    ensures r.None? ==> forall p :: p in exact ==> p.candidate.key.model != DirClose
  {
    if exact == [] then None
    else
      assert exact == [exact[0]] + exact[1..];
      if exact[0].candidate.key.model == DirClose then Some(exact[0]) else FirstClose(exact[1..])
  }

  /** A flip without exact evidence that triggered before the exact close. */
  predicate EarlierNonExactFlip(active: seq<Candidate>, es: seq<Evidence>, close: ExactPair)
  {
    exists i :: 0 <= i < |active|
      && active[i].key.model == HtfFlip
      && BestExact(es, active[i].id).None?
      && FirstNonExact(es, active[i].id).Some?
      && FirstNonExact(es, active[i].id).value < Trigger(close.evidence)
  }

  predicate SharedFirstTrigger(exact: seq<ExactPair>)
    requires exact != []
  {
    exists i :: 0 <= i < |exact|
      && Trigger(exact[i].evidence) == Trigger(exact[0].evidence)
      && exact[i].candidate.key.model != exact[0].candidate.key.model
  }

  /** `selectCanonicalDecision`. */
  function Decide(invalidated: bool, active: seq<Candidate>, exact: seq<ExactPair>, es: seq<Evidence>): Decision
  {
    if invalidated then Decision(None, NoAction, SetupInvalidated)
    else if active == [] then Decision(None, NoAction, NoCandidate)
    else if exact == [] then Decision(None, ShadowOnly, NoExactCandidate)
    else
      var close := FirstClose(exact);
      if close.Some? && EarlierNonExactFlip(active, es, close.value) then
        Decision(close, PaperEligible, FallbackToConfirmedClose)
      else if |exact| == 1 then Decision(Some(exact[0]), PaperEligible, OnlyExactTrigger)
      else if SharedFirstTrigger(exact) then Decision(None, ShadowOnly, UnresolvedSourcePriority)
      else Decision(Some(exact[0]), PaperEligible, EarliestExactTrigger)
  }

  function Ids(cs: seq<Candidate>): (r: seq<Id>)
    ensures |r| == |cs| && forall i :: 0 <= i < |cs| ==> r[i] == cs[i].id
  {
    seq(|cs|, i requires 0 <= i < |cs| => cs[i].id)
  }

  predicate IdLess(a: Id, b: Id) { a < b }

  function SelectionOf(d: Digests, q: Request, active: seq<Candidate>, k: Decision): Selection
  {
    var key := SelectionKey(
      q.setupId, q.revision, Sort(Ids(active), IdLess),
      if k.pair.Some? then Some(k.pair.value.candidate.id) else None,
      if k.pair.Some? then Some(k.pair.value.evidence.id) else None, k.reason,
      if k.pair.Some? then Some(k.pair.value.evidence.body.fidelity) else None, k.action);
    Selection(d.selection(key), key,
              if k.pair.Some? then Some(k.pair.value.candidate.key.model) else None, q.evaluatedAt)
  }

  function DecisionOf(q: Request): Decision
  {
    var active, es := Active(Dedup(q.candidates)), Dedup(q.evidence);
    Decide(q.invalidated, active, Sort(ExactPairs(active, es), PairBefore), es)
  }

  /** The selection for an accepted request; repeated records count once. */
  function Select(d: Digests, q: Request): Selection
  {
    SelectionOf(d, q, Active(Dedup(q.candidates)), DecisionOf(q))
  }

  // ---------------------------------------------------------------- what the kept evidence means

  /** The loop keeps an exact evidence of the candidate exactly when there is one, and it has the least trigger. */
  lemma {:induction false} BestExactIsLeast(es: seq<Evidence>, id: Id)
    ensures BestExact(es, id).None? <==> forall e :: e in es ==> !(e.body.candidateId == id && ExactEligible(e))
    ensures BestExact(es, id).Some? ==>
              var best := BestExact(es, id).value;
              && best in es && best.body.candidateId == id && ExactEligible(best)
              && forall e :: e in es && e.body.candidateId == id && ExactEligible(e) ==> Trigger(best) <= Trigger(e)
  {
    if es != [] {
      var init := es[..|es| - 1];
      assert es == init + [es[|es| - 1]];
      BestExactIsLeast(init, id);
    }
  }

  /** The evidence loop as written: one pass filling two maps for the active candidates. */
  method IndexTriggers(active: seq<Candidate>, es: seq<Evidence>)
    returns (exact: map<Id, Evidence>, nonExact: map<Id, int>)
    ensures forall c :: c in active ==>
              BestExact(es, c.id) == (if c.id in exact then Some(exact[c.id]) else None)
    ensures forall c :: c in active ==>
              FirstNonExact(es, c.id) == (if c.id in nonExact then Some(nonExact[c.id]) else None)
  {
    exact, nonExact := map[], map[];
    for i := 0 to |es|
      invariant forall c :: c in active ==>
                  BestExact(es[..i], c.id) == (if c.id in exact then Some(exact[c.id]) else None)
      invariant forall c :: c in active ==>
                  FirstNonExact(es[..i], c.id) == (if c.id in nonExact then Some(nonExact[c.id]) else None)
    {
      var e := es[i];
      var id := e.body.candidateId;
      assert es[..i + 1][..i] == es[..i];
      if exists c :: c in active && c.id == id {
        if ExactEligible(e) {
          if id !in exact || RankBefore(e, exact[id]) {
            exact := exact[id := e];
          }
        } else if e.body.plane != RealtimeTick && e.body.triggerEpoch.Some? {
          if id !in nonExact || e.body.triggerEpoch.value < nonExact[id] {
            nonExact := nonExact[id := e.body.triggerEpoch.value];
          }
        }
      }
    }
    assert es[..|es|] == es;
  }

  method CollectPairs(active: seq<Candidate>, ghost es: seq<Evidence>, best: map<Id, Evidence>)
    returns (pairs: seq<ExactPair>)
    requires forall c :: c in active ==>
               BestExact(es, c.id) == (if c.id in best then Some(best[c.id]) else None)
    ensures pairs == ExactPairs(active, es)
  {
    pairs := [];
    var i := |active|;
    while i > 0
      invariant 0 <= i <= |active|
      invariant pairs == ExactPairs(active[i..], es)
    {
      i := i - 1;
      var c := active[i];
      assert active[i..][1..] == active[i + 1..] && c in active;
      if c.id in best {
        pairs := [ExactPair(c, best[c.id])] + pairs;
      }
    }
    assert active[0..] == active;
  }

  lemma KnownIds(q: Request, index: map<Id, Candidate>)
    requires Indexes(index, Elements(q.candidates), CandidateId)
    ensures forall id: Id :: id in index <==> Known(q.candidates, id)
  {
    forall id: Id ensures id in index <==> exists c :: c in q.candidates && c.id == id {
      if id in index {
        assert index[id] in q.candidates && CandidateId(index[id]) == id;
      }
      forall c | c in q.candidates && c.id == id ensures id in index {
        assert c in Elements(q.candidates) && CandidateId(c) in index;
      }
    }
  }

  /** Indexes candidates and evidence by id; no result when an id is used for two records. */
  method IndexRequest(q: Request) returns (ids: Option<set<Id>>)
    ensures ids.Some? <==>
              Consistent(Elements(q.candidates), CandidateId) && Consistent(Elements(q.evidence), EvidenceId)
    ensures ids.Some? ==> forall id: Id :: id in ids.value <==> Known(q.candidates, id)
  {
    var candidates := MergeImmutable(map[], q.candidates, CandidateId);
    MergeIndexes(map[], {}, q.candidates, CandidateId);
    assert {} + Elements(q.candidates) == Elements(q.candidates);
    var evidence := MergeImmutable(map[], q.evidence, EvidenceId);
    MergeIndexes(map[], {}, q.evidence, EvidenceId);
    assert {} + Elements(q.evidence) == Elements(q.evidence);
    if candidates.None? || evidence.None? {
      return None;
    }
    KnownIds(q, candidates.value);
    return Some(candidates.value.Keys);
  }

  /** The checks of `arbitrateEntryCandidates`. */
  method CheckRequest(d: Digests, q: Request) returns (ok: bool)
    ensures ok <==> Accepted(d, q)
  {
    if !ClosedText(q.setupId) || !SafeNat(q.revision) || !SafeNat(q.evaluatedAt) {
      return false;
    }
    var ids := IndexRequest(q);
    if ids.None? {
      return false;
    }
    ok := (forall c :: c in q.candidates ==> CandidateOk(d, q, c))
       && (forall e :: e in q.evidence ==> EvidenceOk(d, q, e) && e.body.candidateId in ids.value);
  }

  /** `selectCanonicalDecision` on the maps the evidence loop filled. */
  method DecideByMaps(
    invalidated: bool, active: seq<Candidate>, ghost es: seq<Evidence>,
    best: map<Id, Evidence>, nonExact: map<Id, int>, exact: seq<ExactPair>) returns (k: Decision)
    requires forall c :: c in active ==>
               BestExact(es, c.id) == (if c.id in best then Some(best[c.id]) else None)
    requires forall c :: c in active ==>
               FirstNonExact(es, c.id) == (if c.id in nonExact then Some(nonExact[c.id]) else None)
    ensures k == Decide(invalidated, active, exact, es)
  {
    if invalidated || active == [] || exact == [] {
      return if invalidated then Decision(None, NoAction, SetupInvalidated)
             else if active == [] then Decision(None, NoAction, NoCandidate)
             else Decision(None, ShadowOnly, NoExactCandidate);
    }
    var close := FirstClose(exact);
    if close.Some? {
      var earlier := exists i :: (
        0 <= i < |active| && active[i].key.model == HtfFlip && active[i].id !in best &&
        active[i].id in nonExact && nonExact[active[i].id] < Trigger(close.value.evidence));
      assert earlier <==> EarlierNonExactFlip(active, es, close.value) by {
        assert forall i :: 0 <= i < |active| ==> active[i] in active;
      }
      if earlier {
        return Decision(close, PaperEligible, FallbackToConfirmedClose);
      }
    }
    return if |exact| == 1 then Decision(Some(exact[0]), PaperEligible, OnlyExactTrigger)
           else if SharedFirstTrigger(exact) then Decision(None, ShadowOnly, UnresolvedSourcePriority)
           else Decision(Some(exact[0]), PaperEligible, EarliestExactTrigger);
  }

  /** `arbitrateEntryCandidates` as written. */
  method Arbitrate(d: Digests, q: Request) returns (r: Result<Selection, ()>)
    ensures r.Ok? <==> Accepted(d, q)
    ensures r.Ok? ==> r.value == Select(d, q)
  {
    var ok := CheckRequest(d, q);
    if !ok {
      return Err(());
    }
    var active, es := Active(Dedup(q.candidates)), Dedup(q.evidence);
    var best, nonExact := IndexTriggers(active, es);
    var pairs := CollectPairs(active, es, best);
    var k := DecideByMaps(q.invalidated, active, es, best, nonExact, Sort(pairs, PairBefore));
    return Ok(SelectionOf(d, q, active, k));
  }
}
