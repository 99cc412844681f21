/**
 The version 3 matcher (apps/observation-edge/src/rd-entry-matcher-v3.ts): it turns
 the proofs of one request into candidates and evidence.
 */
module EntryMatcherV3 {
  import opened Common
  import opened EntryTerms
  import opened EntryDomainV3
  import opened Sorting

  datatype MatchRequest = MatchRequest(
    setup: SetupFacts, bocProof: Option<BocProof>, directionalClose: bool,
    confirmedBar: Option<Candle>, closeTriggerSequence: int,
    flipProof: Option<FlipProof>, observedAt: int)

  datatype Match = Match(candidate: Candidate, evidence: Evidence)

  datatype MatchResult = MatchResult(candidates: seq<Candidate>, evidence: seq<Evidence>)

  /** What a match function decides before it builds its records. */
  datatype Verdict = Verdict(
    state: CandidateState, fidelity: Fidelity, passed: seq<Rule>, failed: seq<Rule>)

  predicate BreaksReference(r: MatchRequest, p: BocProof)
  {
    if r.setup.direction == Long then p.triggerTicks > p.reference.highTicks
    else p.triggerTicks < p.reference.lowTicks
  }

  predicate StrictBocContext(p: BocProof)
  {
    && p.boundary == Some(p.triggerCandleOpen)
    && p.contexts != []
    && ContextsAligned(p.contexts, p.triggerCandleOpen)
  }

  function CommonFailure(s: SetupFacts, trigger: int): seq<Rule>
  {
    if s.commonFidelity != Exact then [CommonSetupNotExact]
    else if s.invalidated then [RuleSetupInvalidated]
    else if s.zoneEngaged.None? || trigger < s.zoneEngaged.value then [EntryBeforeZoneEngagement]
    else []
  }

  function RealtimeFailure(plane: ProofPlane, replayability: Replayability, isRealtime: bool): seq<Rule>
  {
    if plane == RealtimeTick then
      if !isRealtime || replayability != LiveExactNonReplayable then [RealtimeEvidenceNotLive] else []
    else if replayability != Replayable then [EvidenceReplayabilityMismatch]
    else []
  }

  predicate ContactsZone(s: SetupFacts, c: Candle)
  {
    c.lowTicks <= s.zoneTop && c.highTicks >= s.zoneBottom
  }

  function FlipLifecycleFailure(s: SetupFacts, p: FlipProof): seq<Rule>
  {
    if p.contact.None? || p.recross.None? then [FlipIncompleteLifecycle]
    else if p.gap then [FlipCoverageGap]
    else if !p.ordered then [FlipOrderUnproven]
    else if p.destinationFirst then [FlipDestinationBeforeContact]
    else if p.ambiguities != [] then [FlipAmbiguous]
    else if p.anchor > p.contact.value.openEpoch then [FlipAnchorAfterContact]
    else if !TriggerInContexts(p.contexts, p.triggerEpoch, p.anchor) then [FlipTriggerOutsideContext]
    else if !ContactsZone(s, p.contact.value) then [FlipContactOutsideZone]
    else if CandleCrosses(s.direction, p.contact.value, p.htfOpenTicks) then [FlipContactAlreadyRecrossed]
    else if !CloseCrosses(s.direction, p.recross.value, p.htfOpenTicks) then [FlipOpenNotRecrossed]
    else if p.contexts == [] || !ContextsAligned(p.contexts, p.anchor) then [FlipContextMisaligned]
    else []
  }

  function BuildCandidate(
    d: Digests, r: MatchRequest, model: Model, state: CandidateState, anchor: int,
    tier: Option<BocTier>, reference: Option<int>, claims: seq<SourceClaim>): Candidate
  {
    var key := CandidateKey(r.setup.setupId, model, r.setup.direction, anchor, 1, tier, reference);
    Candidate(d.candidate(key), key, state, claims, r.observedAt)
  }

  function BuildEvidence(d: Digests, r: MatchRequest, body: Payload): Evidence
  {
    var digest := d.payload(body);
    Evidence(d.evidence(EvidenceKeyOf(body, digest)), body, digest, r.observedAt)
  }

  function BocVerdict(r: MatchRequest, p: BocProof): Verdict
  {
    var common := CommonFailure(r.setup, p.triggerEpoch);
    var realtime := RealtimeFailure(p.plane, p.replayability, p.isRealtime);
    var v :=
      if common != [] then Verdict(Blocked, p.fidelity, [], common)
      else if !BreaksReference(r, p) then Verdict(Rejected, p.fidelity, [], [BocWrongDirection])
      else if realtime != [] then Verdict(Blocked, p.fidelity, [], realtime)
      else if p.fidelity != Exact then Verdict(Blocked, p.fidelity, [], [ModelEvidenceNotExact])
      else if !StrictBocContext(p) then
        Verdict(Matched, Discretionary, [], [BocDiscretionaryContextUnquantified])
      else Verdict(Matched, p.fidelity, [EntryBocHtfTimed], []);
    if v.failed != [] && v.fidelity == Exact then v.(fidelity := Unresolved) else v
  }

  function MatchBoc(d: Digests, r: MatchRequest, p: BocProof): Match
  {
    var tier := if StrictBocContext(p) then HtfTimed else Discretionary5m;
    var claims := if StrictBocContext(p) then BOC_HTF_TIMED_CLAIMS else BOC_DISCRETIONARY_CLAIMS;
    var v := BocVerdict(r, p);
    var c := BuildCandidate(d, r, Boc, v.state, p.reference.openEpoch, Some(tier),
                            Some(p.reference.openEpoch), claims);
    Match(c, BuildEvidence(d, r,
      Payload(c.id, Some(p.triggerEpoch), p.triggerSequence, Some(p.triggerTicks), p.contexts,
              v.fidelity, p.plane, p.replayability, p.coverageStart, p.coverageEnd, [], Some(tier),
              Some(p.reference.openEpoch), Some(p.reference.openTicks), Some(p.reference.highTicks),
              Some(p.reference.lowTicks), Some(p.reference.closeTicks),
              None, None, None, None, None, None, v.passed, v.failed, claims)))
  }

  function CloseVerdict(r: MatchRequest, bar: Candle): Verdict
  {
    var common := CommonFailure(r.setup, bar.closeEpoch);
    if common != [] then Verdict(Blocked, Unresolved, [], common)
    else if bar.closeEpoch - bar.openEpoch != 300 then
      Verdict(Blocked, Unresolved, [], [DirCloseNotConfirmed5m])
    else Verdict(Matched, Exact, [EntryDirClose], [])
  }

  function MatchClose(d: Digests, r: MatchRequest, bar: Candle): Match
  {
    var v := CloseVerdict(r, bar);
    var c := BuildCandidate(d, r, DirClose, v.state, bar.openEpoch, None, None, DIR_CLOSE_CLAIMS);
    Match(c, BuildEvidence(d, r,
      Payload(c.id, Some(bar.closeEpoch), r.closeTriggerSequence, Some(bar.closeTicks), [],
              v.fidelity, Confirmed5m, Replayable, bar.openEpoch, bar.closeEpoch, [], None,
              None, None, None, None, None,
              None, None, None, None, None, None, v.passed, v.failed, DIR_CLOSE_CLAIMS)))
  }

  function FlipVerdict(r: MatchRequest, p: FlipProof): Verdict
  {
    var common := CommonFailure(r.setup, p.triggerEpoch);
    var lifecycle := FlipLifecycleFailure(r.setup, p);
    var realtime := RealtimeFailure(p.plane, p.replayability, p.isRealtime);
    if common != [] then Verdict(Blocked, Unresolved, [], common)
    else if lifecycle != [] then Verdict(Blocked, Unresolved, [], lifecycle)
    else if realtime != [] then Verdict(Blocked, Unresolved, [], realtime)
    else if p.fidelity != Exact then Verdict(Blocked, Unresolved, [], [ModelEvidenceNotExact])
    else Verdict(Matched, Exact, [EntryHtfFlip], [])
  }

  function MatchFlip(d: Digests, r: MatchRequest, p: FlipProof): Match
  {
    var v := FlipVerdict(r, p);
    var c := BuildCandidate(d, r, HtfFlip, v.state, p.anchor, None, None, HTF_FLIP_CLAIMS);
    Match(c, BuildEvidence(d, r,
      Payload(c.id, Some(p.triggerEpoch), p.triggerSequence, Some(p.triggerTicks), p.contexts,
              v.fidelity, p.plane, p.replayability, p.coverageStart, p.coverageEnd, p.ambiguities, None,
              None, None, None, None, None,
              Some(p.htfOpenTicks), p.contact, p.recross, Some(p.gap), Some(p.ordered),
              Some(p.destinationFirst), v.passed, v.failed, HTF_FLIP_CLAIMS)))
  }

  predicate CandidateBefore(a: Candidate, b: Candidate) { a.id < b.id }
  predicate EvidenceIdBefore(a: Evidence, b: Evidence) { a.id < b.id }

  /** The pairs in the order in which the source pushes them. */
  function Matches(d: Digests, r: MatchRequest): seq<Match>
    requires r.directionalClose ==> r.confirmedBar.Some?
  {
    (if r.bocProof.Some? then [MatchBoc(d, r, r.bocProof.value)] else []) +
    (if r.directionalClose then [MatchClose(d, r, r.confirmedBar.value)] else []) +
    (if r.flipProof.Some? then [MatchFlip(d, r, r.flipProof.value)] else [])
  }

  function CandidatesOf(ms: seq<Match>): (r: seq<Candidate>)
    ensures |r| == |ms| && forall i :: 0 <= i < |ms| ==> r[i] == ms[i].candidate
  {
    seq(|ms|, i requires 0 <= i < |ms| => ms[i].candidate)
  }

  function EvidenceOf(ms: seq<Match>): (r: seq<Evidence>)
    ensures |r| == |ms| && forall i :: 0 <= i < |ms| ==> r[i] == ms[i].evidence
  {
    seq(|ms|, i requires 0 <= i < |ms| => ms[i].evidence)
  }

  function MatchEntry(d: Digests, r: MatchRequest): Result<MatchResult, ()>
  {
    if r.directionalClose && r.confirmedBar.None? then Err(())
    else
      var ms := Matches(d, r);
      Ok(MatchResult(Sort(CandidatesOf(ms), CandidateBefore), Sort(EvidenceOf(ms), EvidenceIdBefore)))
  }

  // ---------------------------------------------------------------- each match meets the checker

  /** What every request built from a validated input satisfies. */
  ghost predicate GoodRequest(r: MatchRequest)
  {
    && ClosedText(r.setup.setupId)
    && SafeNat(r.observedAt) && SafeNat(r.closeTriggerSequence)
    && ValidCohort(r.setup)
    && (r.bocProof.Some? ==> ValidBocProof(r.bocProof.value, r.observedAt))
    && r.directionalClose == r.confirmedBar.Some?
    && (r.confirmedBar.Some? ==>
          ValidCandle(r.confirmedBar.value) && AlignedFiveMinutes(r.confirmedBar.value))
    && (r.flipProof.Some? ==> ValidFlipProof(r.flipProof.value, r.observedAt))
  }

  /** The instant the trigger candle opened is recovered from the trigger epoch. */
  lemma TriggerOpenOfProof(p: BocProof, observedAt: int)
    requires ValidBocProof(p, observedAt)
    ensures TriggerOpen(p.triggerEpoch) == p.triggerCandleOpen
  {
  }

  lemma BocMeetsChecker(d: Digests, r: MatchRequest)
    requires CollisionFree(d) && GoodRequest(r) && r.bocProof.Some?
    ensures var m := MatchBoc(d, r, r.bocProof.value);
      && ValidCandidate(m.candidate) && ValidEvidence(m.evidence)
      && ValidLink(m.candidate, m.evidence) && m.candidate.claims == ExpectedClaims(m.candidate.key)
  {
    TriggerOpenOfProof(r.bocProof.value, r.observedAt);
  }

  lemma CloseMeetsChecker(d: Digests, r: MatchRequest)
    requires CollisionFree(d) && GoodRequest(r) && r.confirmedBar.Some?
    ensures var m := MatchClose(d, r, r.confirmedBar.value);
      && ValidCandidate(m.candidate)
      && (ValidEvidence(m.evidence) <==> r.confirmedBar.value.closeEpoch <= r.observedAt)
      && ValidLink(m.candidate, m.evidence) && m.candidate.claims == ExpectedClaims(m.candidate.key)
  {
  }

  lemma FlipEvidenceChecked(d: Digests, r: MatchRequest, p: FlipProof)
    requires CollisionFree(d) && GoodRequest(r) && r.flipProof == Some(p)
    ensures ValidEvidence(MatchFlip(d, r, p).evidence) <==> p.contact.Some? && p.recross.Some?
  {
  }

  lemma FlipLinkChecked(d: Digests, r: MatchRequest, p: FlipProof)
    requires CollisionFree(d) && GoodRequest(r) && r.flipProof == Some(p)
    ensures var m := MatchFlip(d, r, p); ValidCandidate(m.candidate) && ValidLink(m.candidate, m.evidence)
  {
  }

  lemma FlipMeetsChecker(d: Digests, r: MatchRequest)
    requires CollisionFree(d) && GoodRequest(r) && r.flipProof.Some?
    ensures var m := MatchFlip(d, r, r.flipProof.value);
      && ValidCandidate(m.candidate)
      && (ValidEvidence(m.evidence) <==>
            r.flipProof.value.contact.Some? && r.flipProof.value.recross.Some?)
      && ValidLink(m.candidate, m.evidence) && m.candidate.claims == ExpectedClaims(m.candidate.key)
  {
    hide ValidEvidence, ValidLink, ValidCandidate, GoodRequest;
    FlipEvidenceChecked(d, r, r.flipProof.value);
    FlipLinkChecked(d, r, r.flipProof.value);
  }
}
