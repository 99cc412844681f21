/**
 Records and validators of RD entry evaluation, version 3
 (apps/observation-edge/src/rd-entry-domain-v3.ts).
 A validator that throws is a predicate here: it holds exactly when nothing is thrown.
 */
module EntryDomainV3 {
  import opened Common
  import opened EntryTerms

  datatype Model = Boc | DirClose | HtfFlip
  datatype BocTier = HtfTimed | Discretionary5m
  datatype Replayability = Replayable | LiveExactNonReplayable
  datatype CandidateState = Matched | Blocked | Rejected
  datatype Cohort = OneCandle | TwoPlusCandles

  datatype Reason =
    | OnlyExactTrigger | EarliestExactTrigger | FallbackToConfirmedClose | CoTriggerSameEvent
    | CoTriggerPriceConflict | NoExactCandidate | SetupInvalidated | NoCandidate

  datatype Rule =
    | EntryBocHtfTimed | EntryDirClose | EntryHtfFlip
    | CommonSetupNotExact | RuleSetupInvalidated | EntryBeforeZoneEngagement
    | RealtimeEvidenceNotLive | EvidenceReplayabilityMismatch
    | BocWrongDirection | ModelEvidenceNotExact | BocDiscretionaryContextUnquantified
    | DirCloseNotConfirmed5m
    | FlipIncompleteLifecycle | FlipCoverageGap | FlipOrderUnproven | FlipDestinationBeforeContact
    | FlipAmbiguous | FlipAnchorAfterContact | FlipTriggerOutsideContext | FlipContactOutsideZone
    | FlipContactAlreadyRecrossed | FlipOpenNotRecrossed | FlipContextMisaligned

  function ModelRank(m: Model): nat
  {
    match m
    case Boc => 0
    case DirClose => 1
    case HtfFlip => 2
  }

  datatype BocProof = BocProof(
    reference: Candle, triggerCandleOpen: int, triggerEpoch: int, triggerSequence: int,
    triggerTicks: int, boundary: Option<int>, contexts: seq<Context>, plane: ProofPlane,
    replayability: Replayability, fidelity: Fidelity,
    coverageStart: int, coverageEnd: int, isRealtime: bool)

  datatype FlipProof = FlipProof(
    anchor: int, triggerEpoch: int, triggerSequence: int, triggerTicks: int, htfOpenTicks: int,
    contexts: seq<Context>, plane: ProofPlane, replayability: Replayability, fidelity: Fidelity,
    coverageStart: int, coverageEnd: int, isRealtime: bool,
    contact: Option<Candle>, recross: Option<Candle>,
    gap: bool, ordered: bool, destinationFirst: bool, ambiguities: seq<Ambiguity>)

  datatype SetupFacts = SetupFacts(
    setupId: string, direction: Direction, zoneTop: int, zoneBottom: int,
    zoneEngaged: Option<int>, invalidated: bool, commonFidelity: Fidelity,
    cohort: Cohort, oneCandleEnabled: bool)

  datatype Seed = Seed(confirmedBar: Candle, triggerSequence: int, revision: int, evaluatedAt: int)

  /** `liquidity_cohort` and `one_candle_enabled` are either both present or both absent. */
  datatype ArbitrationInput = ArbitrationInput(
    setupId: string, direction: Direction, zoneTop: int, zoneBottom: int,
    zoneEngaged: Option<int>, commonFidelity: Fidelity,
    cohortKeys: Option<(Cohort, bool)>,
    setupInvalidated: bool, bocProof: Option<BocProof>,
    directionalClose: bool, confirmedBar: Option<Candle>, closeTriggerSequence: int,
    flipProof: Option<FlipProof>, observedAt: int, revision: int, evaluatedAt: int,
    openedSeed: Option<Seed>)

  function CohortOf(input: ArbitrationInput): Cohort
  {
    if input.cohortKeys.Some? then input.cohortKeys.value.0 else TwoPlusCandles
  }

  function OneCandleEnabled(input: ArbitrationInput): bool
  {
    input.cohortKeys.Some? && input.cohortKeys.value.1
  }

  /** The fields hashed into `candidate_id`. */
  datatype CandidateKey = CandidateKey(
    setupId: string, model: Model, direction: Direction, anchor: int, ordinal: int,
    tier: Option<BocTier>, reference: Option<int>)

  datatype Candidate = Candidate(
    id: Id, key: CandidateKey, state: CandidateState, claims: seq<SourceClaim>, observedAt: int)

  /** The fields hashed into `payload_sha256`. */
  datatype Payload = Payload(
    candidateId: Id, triggerEpoch: Option<int>, triggerSequence: int, triggerTicks: Option<int>,
    contexts: seq<Context>, fidelity: Fidelity, plane: ProofPlane, replayability: Replayability,
    coverageStart: int, coverageEnd: int, ambiguities: seq<Ambiguity>, tier: Option<BocTier>,
    referenceEpoch: Option<int>, referenceOpen: Option<int>, referenceHigh: Option<int>,
    referenceLow: Option<int>, referenceClose: Option<int>,
    htfOpenTicks: Option<int>, contact: Option<Candle>, recross: Option<Candle>,
    gap: Option<bool>, ordered: Option<bool>, destinationFirst: Option<bool>,
    passed: seq<Rule>, failed: seq<Rule>, claims: seq<SourceClaim>)

  /** The fields hashed into `evidence_id`. */
  datatype EvidenceKey = EvidenceKey(
    candidateId: Id, coverageStart: int, coverageEnd: int, triggerEpoch: Option<int>,
    triggerSequence: int, payloadDigest: Id, plane: ProofPlane)

  datatype Evidence = Evidence(id: Id, body: Payload, payloadDigest: Id, observedAt: int)

  /** The fields hashed into `selection_id`. */
  datatype SelectionKey = SelectionKey(
    setupId: string, revision: int, considered: seq<Id>,
    candidate: Option<Id>, evidence: Option<Id>,
    reason: Reason, fidelity: Option<Fidelity>, action: Action, coTriggered: seq<Model>)

  datatype Selection = Selection(
    id: Id, key: SelectionKey, model: Option<Model>, evaluatedAt: int)

  datatype Evaluation = Evaluation(
    candidates: seq<Candidate>, evidence: seq<Evidence>, selection: Selection)

  /** `canonicalSha256` on each kind of record that is hashed. */
  datatype Digests = Digests(
    candidate: CandidateKey -> Id, payload: Payload -> Id,
    evidence: EvidenceKey -> Id, selection: SelectionKey -> Id)

  /** What is assumed of SHA-256: no collision, and never the all-zero digest. */
  ghost predicate CollisionFree(d: Digests)
  {
    && (forall x, y :: d.candidate(x) == d.candidate(y) ==> x == y)
    && (forall x, y :: d.payload(x) == d.payload(y) ==> x == y)
    && (forall x, y :: d.evidence(x) == d.evidence(y) ==> x == y)
    && (forall x, y :: d.selection(x) == d.selection(y) ==> x == y)
    && (forall x :: ValidDigest(d.candidate(x)))
    && (forall x :: ValidDigest(d.payload(x)))
    && (forall x :: ValidDigest(d.evidence(x)))
    && (forall x :: ValidDigest(d.selection(x)))
  }

  function EvidenceKeyOf(body: Payload, payloadDigest: Id): EvidenceKey
  {
    EvidenceKey(body.candidateId, body.coverageStart, body.coverageEnd, body.triggerEpoch,
                body.triggerSequence, payloadDigest, body.plane)
  }

  // ---------------------------------------------------------------- input

  predicate ValidCohort(s: SetupFacts)
  {
    && (s.cohort == OneCandle ==> s.oneCandleEnabled && s.commonFidelity != Exact)
    && (s.cohort == TwoPlusCandles ==> s.commonFidelity != Discretionary)
  }

  function SetupOf(input: ArbitrationInput): SetupFacts
  {
    SetupFacts(input.setupId, input.direction, input.zoneTop, input.zoneBottom, input.zoneEngaged,
               input.setupInvalidated, input.commonFidelity, CohortOf(input), OneCandleEnabled(input))
  }

  predicate AlignedFiveMinutes(c: Candle)
  {
    c.closeEpoch - c.openEpoch == 300 && c.openEpoch % 300 == 0
  }

  predicate ValidBocProof(p: BocProof, observedAt: int)
  {
    && ValidCandle(p.reference)
    && SafeNat(p.triggerCandleOpen) && SafeNat(p.triggerEpoch) && SafeNat(p.triggerSequence)
    && Safe(p.triggerTicks)
    && (p.boundary.Some? ==> SafeNat(p.boundary.value))
    && |p.contexts| <= 3 && ContextsAscend(p.contexts)
    && SafeNat(p.coverageStart) && SafeNat(p.coverageEnd)
    && p.coverageStart < p.coverageEnd <= observedAt
    && p.coverageStart <= p.triggerEpoch <= p.coverageEnd
    && AlignedFiveMinutes(p.reference)
    && p.triggerCandleOpen % 300 == 0
    && p.reference.closeEpoch <= p.triggerCandleOpen
    && p.triggerCandleOpen <= p.triggerEpoch < p.triggerCandleOpen + 300
  }

  predicate CandleWithin(c: Candle, start: int, end: int)
  {
    ValidCandle(c) && start <= c.openEpoch && c.closeEpoch <= end
  }

  /** The trigger lies inside every claimed higher-timeframe context. */
  predicate TriggerInContexts(contexts: seq<Context>, trigger: int, anchor: int)
  {
    forall i :: 0 <= i < |contexts| ==> trigger < anchor + Seconds(contexts[i])
  }

  predicate ValidFlipProof(p: FlipProof, observedAt: int)
  {
    && SafeNat(p.anchor) && SafeNat(p.triggerEpoch) && SafeNat(p.triggerSequence)
    && SafeNat(p.coverageStart) && SafeNat(p.coverageEnd)
    && Safe(p.triggerTicks) && Safe(p.htfOpenTicks)
    && |p.contexts| <= 3 && ContextsAscend(p.contexts)
    && NoDuplicates(p.ambiguities)
    && p.coverageStart < p.coverageEnd <= observedAt
    && p.coverageStart <= p.triggerEpoch <= p.coverageEnd
    && (p.contact.Some? ==> CandleWithin(p.contact.value, p.coverageStart, p.coverageEnd))
    && (p.recross.Some? ==> CandleWithin(p.recross.value, p.coverageStart, p.coverageEnd))
    && (p.recross.Some? ==> p.contact.Some?)
    && (p.contact.Some? ==> p.anchor <= p.contact.value.openEpoch)
    && (p.contact.Some? && p.recross.Some? ==>
          && p.contact.value.closeEpoch <= p.recross.value.openEpoch
          && p.triggerEpoch == p.recross.value.closeEpoch
          && p.triggerTicks == p.recross.value.closeTicks)
    && TriggerInContexts(p.contexts, p.triggerEpoch, p.anchor)
  }

  predicate ValidSeed(seed: Seed, evaluatedAt: int)
  {
    && ValidCandle(seed.confirmedBar) && AlignedFiveMinutes(seed.confirmedBar)
    && SafeNat(seed.triggerSequence) && SafeNat(seed.revision) && SafeNat(seed.evaluatedAt)
    && seed.evaluatedAt <= evaluatedAt
  }

  predicate ValidInput(input: ArbitrationInput)
  {
    && ClosedText(input.setupId)
    && Safe(input.zoneTop) && Safe(input.zoneBottom) && input.zoneBottom < input.zoneTop
    && (input.zoneEngaged.Some? ==> SafeNat(input.zoneEngaged.value))
    && ValidCohort(SetupOf(input))
    && SafeNat(input.closeTriggerSequence) && SafeNat(input.observedAt)
    && SafeNat(input.revision) && SafeNat(input.evaluatedAt)
    && input.observedAt <= input.evaluatedAt
    && input.directionalClose == input.confirmedBar.Some?
    && (input.confirmedBar.Some? ==>
          ValidCandle(input.confirmedBar.value) && AlignedFiveMinutes(input.confirmedBar.value))
    && (input.bocProof.Some? ==> ValidBocProof(input.bocProof.value, input.observedAt))
    && (input.flipProof.Some? ==> ValidFlipProof(input.flipProof.value, input.observedAt))
    && (input.openedSeed.Some? ==>
          CohortOf(input) != OneCandle && ValidSeed(input.openedSeed.value, input.evaluatedAt))
  }

  // ---------------------------------------------------------------- records

  predicate ValidCandidate(c: Candidate)
  {
    && ValidDigest(c.id)
    && c.key.setupId != ""
    && SafeNat(c.key.anchor)
    && SafeNat(c.key.ordinal) && c.key.ordinal >= 1
    && SafeNat(c.observedAt)
    && (if c.key.model == Boc then c.key.tier.Some? && c.key.reference.Some?
        else c.key.tier.None? && c.key.reference.None?)
    && (c.key.reference.Some? ==> SafeNat(c.key.reference.value))
    && NoDuplicates(c.claims)
  }

  /** Coverage, trigger and contexts of one evidence record. */
  predicate ValidCoverage(e: Payload, observedAt: int)
  {
    && e.triggerEpoch.Some? == e.triggerTicks.Some?
    && SafeNat(e.triggerSequence) && SafeNat(e.coverageStart) && SafeNat(e.coverageEnd)
    && SafeNat(observedAt)
    && e.coverageStart < e.coverageEnd <= observedAt
    && (e.triggerEpoch.Some? ==>
          && e.coverageStart <= e.triggerEpoch.value <= e.coverageEnd
          && e.triggerEpoch.value <= observedAt)
    && ContextsAscend(e.contexts)
  }

  predicate ValidRules(e: Payload)
  {
    && NoDuplicates(e.ambiguities) && NoDuplicates(e.passed)
    && NoDuplicates(e.failed) && NoDuplicates(e.claims)
    && (forall r :: r in e.passed ==> r !in e.failed)
    && (e.fidelity == Exact ==> e.failed == [] && e.passed != [])
  }

  predicate ValidReference(e: Payload)
  {
    if e.tier.None? then
      && e.referenceEpoch.None? && e.referenceOpen.None? && e.referenceHigh.None?
      && e.referenceLow.None? && e.referenceClose.None?
    else
      && e.referenceEpoch.Some? && e.referenceOpen.Some? && e.referenceHigh.Some?
      && e.referenceLow.Some? && e.referenceClose.Some?
      && SafeNat(e.referenceEpoch.value) && Safe(e.referenceOpen.value)
      && Safe(e.referenceHigh.value) && Safe(e.referenceLow.value) && Safe(e.referenceClose.value)
      && e.referenceHigh.value >= Max(e.referenceOpen.value, Max(e.referenceClose.value, e.referenceLow.value))
      && e.referenceLow.value <= Min(e.referenceOpen.value, Min(e.referenceClose.value, e.referenceHigh.value))
  }

  predicate NoFlipFields(e: Payload)
  {
    && e.htfOpenTicks.None? && e.contact.None? && e.recross.None?
    && e.gap.None? && e.ordered.None? && e.destinationFirst.None?
  }

  predicate AllFlipFields(e: Payload)
  {
    && e.htfOpenTicks.Some? && e.contact.Some? && e.recross.Some?
    && e.gap.Some? && e.ordered.Some? && e.destinationFirst.Some?
  }

  predicate ValidLifecycle(e: Payload)
  {
    || NoFlipFields(e)
    || (&& AllFlipFields(e)
        && ValidCandle(e.contact.value) && ValidCandle(e.recross.value)
        && e.contact.value.closeEpoch <= e.recross.value.openEpoch
        && e.triggerEpoch == Some(e.recross.value.closeEpoch)
        && e.triggerTicks == Some(e.recross.value.closeTicks))
  }

  predicate ValidEvidence(e: Evidence)
  {
    && ValidDigest(e.id) && ValidDigest(e.body.candidateId) && ValidDigest(e.payloadDigest)
    && ValidCoverage(e.body, e.observedAt)
    && ValidRules(e.body)
    && ValidReference(e.body)
    && ValidLifecycle(e.body)
    && (e.body.fidelity == Exact ==>
          e.body.replayability ==
            (if e.body.plane == RealtimeTick then LiveExactNonReplayable else Replayable))
  }

  predicate IdsAscend(ids: seq<Id>)
  {
    forall i, j :: 0 <= i < j < |ids| ==> ids[i] < ids[j]
  }

  predicate ModelsAscend(models: seq<Model>)
  {
    forall i, j :: 0 <= i < j < |models| ==> ModelRank(models[i]) < ModelRank(models[j])
  }

  predicate CanonicalReason(r: Reason)
  {
    r in {OnlyExactTrigger, EarliestExactTrigger, FallbackToConfirmedClose, CoTriggerSameEvent}
  }

  /** The action that goes with a reason that selects nothing. */
  function EmptyAction(r: Reason): Option<Action>
  {
    match r
    case CoTriggerPriceConflict => Some(ShadowOnly)
    case NoExactCandidate => Some(ShadowOnly)
    case SetupInvalidated => Some(NoAction)
    case NoCandidate => Some(NoAction)
    case _ => None
  }

  predicate ValidSelection(s: Selection)
  {
    var k := s.key;
    && ValidDigest(s.id)
    && k.setupId != ""
    && SafeNat(k.revision) && SafeNat(s.evaluatedAt)
    && IdsAscend(k.considered)
    && k.candidate.Some? == k.evidence.Some? == s.model.Some?
    && (k.candidate.Some? ==> ValidDigest(k.candidate.value) && ValidDigest(k.evidence.value))
    && ModelsAscend(k.coTriggered)
    && (if k.candidate.Some? then
          k.fidelity == Some(Exact) && k.action == PaperEligible && CanonicalReason(k.reason)
        else k.fidelity.None? && EmptyAction(k.reason) == Some(k.action))
    && (if k.reason == CoTriggerSameEvent then |k.coTriggered| >= 2 else k.coTriggered == [])
  }

  // ---------------------------------------------------------------- graph

  function ExpectedRule(m: Model): Rule
  {
    match m
    case Boc => EntryBocHtfTimed
    case DirClose => EntryDirClose
    case HtfFlip => EntryHtfFlip
  }

  const BOC_HTF_TIMED_CLAIMS: seq<SourceClaim> :=
    [DiscretionaryBreak202511, RejectNonHtfBreak202605, HtfTimedBoc202606]

  const BOC_DISCRETIONARY_CLAIMS: seq<SourceClaim> := [DiscretionaryBreak202511]

  function ExpectedClaims(k: CandidateKey): seq<SourceClaim>
  {
    match k.model
    case Boc => if k.tier == Some(HtfTimed) then BOC_HTF_TIMED_CLAIMS else BOC_DISCRETIONARY_CLAIMS
    case DirClose => DIR_CLOSE_CLAIMS
    case HtfFlip => HTF_FLIP_CLAIMS
  }

  /** Exactly the model's own rule passed and none failed. */
  predicate RuleConsistent(c: Candidate, e: Evidence)
  {
    e.body.passed == [ExpectedRule(c.key.model)] && e.body.failed == []
  }

  /** The five-minute candle that contains an instant, by its opening. */
  function TriggerOpen(epoch: int): int
  {
    epoch / 300 * 300
  }

  predicate ExactCloseGraph(c: Candidate, e: Evidence)
  {
    && c.key.anchor == e.body.coverageStart
    && e.body.coverageEnd - e.body.coverageStart == 300
    && e.body.triggerEpoch == Some(e.body.coverageEnd)
  }

  predicate ContextsAligned(contexts: seq<Context>, epoch: int)
  {
    forall i :: 0 <= i < |contexts| ==> epoch % Seconds(contexts[i]) == 0
  }

  predicate ExactBocGraph(c: Candidate, e: Evidence)
  {
    && c.key.reference.Some? && e.body.referenceEpoch.Some? && e.body.triggerEpoch.Some?
    && c.key.anchor == c.key.reference.value
    && c.key.reference.value % 300 == 0
    && e.body.referenceEpoch == c.key.reference
    && e.body.referenceEpoch.value + 300 <= TriggerOpen(e.body.triggerEpoch.value)
    && e.body.contexts != []
    && ContextsAligned(e.body.contexts, TriggerOpen(e.body.triggerEpoch.value))
  }

  /** The candle traded through the higher-timeframe open. */
  predicate CandleCrosses(d: Direction, c: Candle, htfOpen: int)
  {
    if d == Long then c.highTicks > htfOpen else c.lowTicks < htfOpen
  }

  /** The candle closed beyond the higher-timeframe open. */
  predicate CloseCrosses(d: Direction, c: Candle, htfOpen: int)
  {
    if d == Long then c.closeTicks > htfOpen else c.closeTicks < htfOpen
  }

  predicate FlipAnchored(c: Candidate, e: Evidence)
  {
    && e.body.contact.Some? && e.body.triggerEpoch.Some?
    && c.key.anchor <= e.body.contact.value.openEpoch
    && e.body.contexts != []
    && TriggerInContexts(e.body.contexts, e.body.triggerEpoch.value, c.key.anchor)
  }

  predicate ExactFlipGraph(c: Candidate, e: Evidence)
  {
    && e.body.htfOpenTicks.Some? && e.body.recross.Some?
    && e.body.gap == Some(false) && e.body.ordered == Some(true)
    && e.body.destinationFirst == Some(false)
    && FlipAnchored(c, e)
    && !CandleCrosses(c.key.direction, e.body.contact.value, e.body.htfOpenTicks.value)
    && CloseCrosses(c.key.direction, e.body.recross.value, e.body.htfOpenTicks.value)
  }

  /** The per-evidence part of the graph check. */
  predicate ValidLink(c: Candidate, e: Evidence)
  {
    && e.body.claims == ExpectedClaims(c.key)
    && (e.body.fidelity == Exact ==>
          && RuleConsistent(c, e)
          && (c.key.model == DirClose ==> ExactCloseGraph(c, e))
          && (c.key.model == Boc ==> ExactBocGraph(c, e))
          && (c.key.model == HtfFlip ==> ExactFlipGraph(c, e)))
  }

  predicate ValidCanonical(s: Selection, c: Candidate, e: Evidence)
  {
    && e.body.candidateId == c.id
    && s.model == Some(c.key.model)
    && s.key.fidelity == Some(e.body.fidelity)
    && (s.key.action == PaperEligible ==>
          c.state == Matched && e.body.fidelity == Exact && RuleConsistent(c, e))
    && (c.key.model == HtfFlip ==> FlipAnchored(c, e))
  }

  function CandidateIds(cs: seq<Candidate>): (r: seq<Id>)
    ensures |r| == |cs| && forall i :: 0 <= i < |cs| ==> r[i] == cs[i].id
  {
    seq(|cs|, i requires 0 <= i < |cs| => cs[i].id)
  }

  function EvidenceIds(es: seq<Evidence>): (r: seq<Id>)
    ensures |r| == |es| && forall i :: 0 <= i < |es| ==> r[i] == es[i].id
  {
    seq(|es|, i requires 0 <= i < |es| => es[i].id)
  }

  /** `validateEntryEvaluationV3`: the independently written check of a whole result. */
  predicate ValidEvaluation(v: Evaluation)
  {
    && (forall c :: c in v.candidates ==> ValidCandidate(c))
    && (forall e :: e in v.evidence ==> ValidEvidence(e))
    && ValidSelection(v.selection)
    && (forall c :: c in v.candidates ==> c.observedAt <= v.selection.evaluatedAt)
    && (forall e :: e in v.evidence ==> e.observedAt <= v.selection.evaluatedAt)
    && IdsAscend(CandidateIds(v.candidates)) && IdsAscend(EvidenceIds(v.evidence))
    && v.selection.key.considered == CandidateIds(v.candidates)
    && (forall c :: c in v.candidates ==> c.claims == ExpectedClaims(c.key))
    && (forall e :: e in v.evidence ==>
          exists c :: c in v.candidates && c.id == e.body.candidateId && ValidLink(c, e))
    && (v.selection.key.candidate.Some? ==>
          exists c, e :: c in v.candidates && e in v.evidence
            && c.id == v.selection.key.candidate.value
            && Some(e.id) == v.selection.key.evidence
            && ValidCanonical(v.selection, c, e))
  }
}
