/**
 Records of RD entry evaluation, version 2
 (apps/observation-edge/src/rd-entry-domain.ts and rd-entry-policy.ts).
 */
module EntryDomainV2 {
  import opened Common
  import opened EntryTerms

  datatype Model = DirClose | HtfFlip | LegacyBreakCandle | LegacyRejectionRespect
  datatype CandidateState = Matched | Blocked | Rejected | Normalized
  datatype HandlingMode = CloseConfirmation | IntrabarFlip | NextCandleWick | Aggressive
  datatype AttemptKind = Initial | ReEntry
  datatype TerminalReason = Invalidated | BothActiveModelsObserved | RetentionEvicted

  datatype Reason =
    | OnlyExactTrigger | EarliestExactTrigger | FallbackToConfirmedClose
    | NoExactCandidate | UnresolvedSourcePriority | SetupInvalidated | NoCandidate

  datatype Rule =
    | EntryDirClose | EntryHtfFlip | EntryHtfZoneSideFirst
    | EntryBreakCandleNormalization | EntryRejectionRespectDisabled

  predicate ActiveModel(m: Model)
  {
    m == DirClose || m == HtfFlip
  }

  const LEGACY_BREAK_CLAIMS: seq<SourceClaim> :=
    [GoldBreakException202503, DiscretionaryBreak202511, RejectNonHtfBreak202605, BreakNormalizedToFlip202606]

  const LEGACY_REJECTION_CLAIMS: seq<SourceClaim> :=
    [ClosureOrFlip202503, DirectionalClose202508, DirectionalCloseRequired202606]

  const NEXT_CANDLE_WICK_CLAIMS: seq<SourceClaim> :=
    [NextCandleWick202505, PromptClose202505, CloseFallback202511]

  const HTF_BOUNDARY_CLAIMS: seq<SourceClaim> := [HtfBoundaryCaution202508]

  function ModelClaims(m: Model): seq<SourceClaim>
  {
    match m
    case DirClose => DIR_CLOSE_CLAIMS
    case HtfFlip => HTF_FLIP_CLAIMS
    case LegacyBreakCandle => LEGACY_BREAK_CLAIMS
    case LegacyRejectionRespect => LEGACY_REJECTION_CLAIMS
  }

  datatype SetupFacts = SetupFacts(
    setupId: string, direction: Direction, zoneTop: int, zoneBottom: int, zoneEngaged: Option<int>,
    invalidatedBeforeEntry: bool, commonFidelity: Fidelity,
    terminalReason: Option<TerminalReason>, terminalEpoch: Option<int>)

  datatype Transcript = Transcript(
    context: Context, htfOpen: int, htfOpenTicks: int, cutoff: int, resolution: int,
    coverageStart: int, coverageEnd: int, expected: int, observed: int,
    gap: bool, ordered: bool, destinationFirst: bool,
    contact: Option<Candle>, recross: Option<Candle>, sameChild: bool)

  datatype FlipProof = FlipProof(
    matched: bool, anchor: int, triggerEpoch: Option<int>, triggerTicks: Option<int>,
    contexts: seq<Context>, fidelity: Fidelity, plane: ProofPlane, resolution: int,
    coverageStart: int, coverageEnd: int, expected: int, observed: int, gap: bool,
    contact: Option<Candle>, recross: Option<Candle>, destinationFirst: bool,
    ambiguities: seq<Ambiguity>, transcriptDigest: Id, ordered: bool, transcript: Transcript)

  /** A proof arrives as a bare transcript or already expanded. */
  datatype ProofInput = Raw(transcript: Transcript) | Expanded(proof: FlipProof)

  datatype MatchRequest = MatchRequest(
    setup: SetupFacts, bar: Candle, proofs: seq<ProofInput>, genericBreak: bool,
    rejectionRespect: bool, attempt: AttemptKind, ordinal: int)

  datatype CandidateKey = CandidateKey(
    direction: Direction, anchor: int, model: Model, setupId: string, ordinal: int)

  datatype Candidate = Candidate(
    id: Id, key: CandidateKey, state: CandidateState, claims: seq<SourceClaim>,
    normalizedFrom: Option<Model>, observedAt: int)

  datatype Payload = Payload(
    candidateId: Id, triggerEpoch: Option<int>, triggerTicks: Option<int>, contexts: seq<Context>,
    fidelity: Fidelity, plane: ProofPlane, resolution: int, coverageStart: int, coverageEnd: int,
    ambiguities: seq<Ambiguity>, passed: seq<Rule>, failed: seq<Rule>, claims: seq<SourceClaim>)

  datatype EvidenceKey = EvidenceKey(
    candidateId: Id, coverageStart: int, coverageEnd: int, triggerEpoch: Option<int>,
    payloadDigest: Id, plane: ProofPlane, resolution: int)

  datatype Evidence = Evidence(id: Id, body: Payload, payloadDigest: Id, observedAt: int)

  datatype HandlingKey = HandlingKey(
    candidateId: Id, evidenceId: Id, mode: HandlingMode, attempt: AttemptKind,
    epoch: int, ticks: Option<int>, fidelity: Fidelity, claims: seq<SourceClaim>)

  datatype Handling = Handling(id: Id, key: HandlingKey)

  datatype SelectionKey = SelectionKey(
    setupId: string, revision: int, considered: seq<Id>, candidate: Option<Id>, evidence: Option<Id>,
    reason: Reason, fidelity: Option<Fidelity>, action: Action)

  datatype Selection = Selection(id: Id, key: SelectionKey, model: Option<Model>, evaluatedAt: int)

  datatype Evaluation = Evaluation(
    candidates: seq<Candidate>, evidence: seq<Evidence>, handling: seq<Handling>, selection: Selection)

  /** `canonicalSha256` on each kind of record that is hashed. */
  datatype Digests = Digests(
    candidate: CandidateKey -> Id, payload: Payload -> Id, evidence: EvidenceKey -> Id,
    handling: HandlingKey -> Id, selection: SelectionKey -> Id, transcript: Transcript -> Id)

  /** What is assumed of SHA-256: no collision, and never the all-zero digest. */
  ghost predicate CollisionFree(d: Digests)
  {
    && (forall x, y :: d.candidate(x) == d.candidate(y) ==> x == y)
    && (forall x, y :: d.payload(x) == d.payload(y) ==> x == y)
    && (forall x, y :: d.evidence(x) == d.evidence(y) ==> x == y)
    && (forall x, y :: d.handling(x) == d.handling(y) ==> x == y)
    && (forall x :: ValidDigest(d.candidate(x)))
    && (forall x :: ValidDigest(d.payload(x)))
    && (forall x :: ValidDigest(d.evidence(x)))
  }

  function EvidenceKeyOf(body: Payload, payloadDigest: Id): EvidenceKey
  {
    EvidenceKey(body.candidateId, body.coverageStart, body.coverageEnd, body.triggerEpoch,
                payloadDigest, body.plane, body.resolution)
  }

  function CandidateId(c: Candidate): Id { c.id }
  function EvidenceId(e: Evidence): Id { e.id }
  function HandlingId(h: Handling): Id { h.id }
}
