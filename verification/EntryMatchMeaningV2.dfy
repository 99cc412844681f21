/**
 What the version 2 matcher emits, stated on the bar, the setup and the transcripts of
 a request.
 */
module EntryMatchMeaningV2 {
  import opened Common
  import opened EntryTerms
  import opened EntryDomainV2
  import opened EntryMatcherV2
  import opened EntryArbitratorV2
  import opened Sorting

  // The reference, on the request

  function TranscriptOf(p: ProofInput): Transcript
  {
    match p
    case Raw(t) => t
    case Expanded(proof) => proof.transcript
  }

  ghost predicate Given(r: MatchRequest, t: Transcript)
  {
    exists i :: 0 <= i < |r.proofs| && TranscriptOf(r.proofs[i]) == t
  }

  /** The zone is engaged and the setup is neither invalidated nor evicted. */
  predicate Live(s: SetupFacts)
  {
    && s.zoneEngaged.Some? && !s.invalidatedBeforeEntry
    && s.terminalReason != Some(Invalidated) && s.terminalReason != Some(RetentionEvicted)
  }

  /** Counted in the direction of the setup: up for long, down for short. */
  function Along(d: Direction, ticks: int): int
  {
    if d == Long then ticks else -ticks
  }

  /** The bar closed in the direction of the setup, beyond the far edge of the zone. */
  predicate ClosesBeyond(r: MatchRequest)
  {
    var s, far := r.setup, if r.setup.direction == Long then r.setup.zoneTop else r.setup.zoneBottom;
    && Along(s.direction, r.bar.closeTicks) > Along(s.direction, r.bar.openTicks)
    && Along(s.direction, r.bar.closeTicks) > Along(s.direction, far)
  }

  predicate Crossed(t: Transcript)
  {
    t.contact.Some? && t.recross.Some?
  }

  /** Contact and recross fell into one child bar that did not open inside the zone: their order is unknown. */
  predicate Ambiguous(s: SetupFacts, t: Transcript)
  {
    Crossed(t) && t.sameChild && !(s.zoneBottom <= t.contact.value.openTicks <= s.zoneTop)
  }

  /** The whole lifecycle was seen, in order, from the right side. */
  predicate Clean(s: SetupFacts, t: Transcript)
  {
    Crossed(t) && !t.gap && t.ordered && !t.destinationFirst && !Ambiguous(s, t)
  }

  ghost predicate CrossedAt(r: MatchRequest, anchor: int, t: Transcript)
  {
    Given(r, t) && Crossed(t) && t.htfOpen == anchor
  }

  /** The generic break of the bar is the flip at this anchor: it triggers at the close, the bar inside its candle. */
  ghost predicate Normalizes(r: MatchRequest, anchor: int)
  {
    && r.genericBreak
    && (exists t :: CrossedAt(r, anchor, t) && t.recross.value.closeEpoch == r.bar.closeEpoch)
    && (exists t :: CrossedAt(r, anchor, t)
          && anchor <= r.bar.openEpoch && r.bar.closeEpoch <= anchor + 60 * (t.context as int))
  }

  /** When a bar alone makes a candidate of the model. */
  ghost predicate Confirms(r: MatchRequest, model: Model)
  {
    match model
    case DirClose => ClosesBeyond(r)
    case HtfFlip => false
    case LegacyBreakCandle => r.genericBreak && forall anchor :: !Normalizes(r, anchor)
    case LegacyRejectionRespect => r.rejectionRespect
  }

  ghost function FlipStateAt(r: MatchRequest, anchor: int): CandidateState
  {
    if Normalizes(r, anchor) then Normalized
    else if exists t :: CrossedAt(r, anchor, t) && Clean(r.setup, t) then Matched
    else Blocked
  }

  /** The latest scan among the crossed transcripts of an anchor. */
  ghost predicate LatestScan(r: MatchRequest, anchor: int, cutoff: int)
  {
    && (exists t :: CrossedAt(r, anchor, t) && t.cutoff == cutoff)
    && forall t :: CrossedAt(r, anchor, t) ==> t.cutoff <= cutoff
  }

  /** A candidate that the request calls for. */
  ghost predicate CalledFor(d: Digests, r: MatchRequest, c: Candidate)
  {
    && c.key.direction == r.setup.direction && c.key.setupId == r.setup.setupId && c.key.ordinal == r.ordinal
    && c.id == d.candidate(c.key) && c.claims == ModelClaims(c.key.model)
    && if c.key.model == HtfFlip then
         && (exists t :: CrossedAt(r, c.key.anchor, t))
         && c.state == FlipStateAt(r, c.key.anchor) && LatestScan(r, c.key.anchor, c.observedAt)
         && c.normalizedFrom == if c.state == Normalized then Some(LegacyBreakCandle) else None
       else
         && Confirms(r, c.key.model) && c.key.anchor == r.bar.openEpoch && c.observedAt == r.bar.closeEpoch
         && c.state == (if c.key.model == DirClose then Matched else Rejected) && c.normalizedFrom == None
  }

  function IdOf(d: Digests, r: MatchRequest, model: Model, anchor: int): Id
  {
    d.candidate(CandidateKey(r.setup.direction, anchor, model, r.setup.setupId, r.ordinal))
  }

  /** The evidence of a bar: its close, as far as the setup is trusted. */
  function BarBody(d: Digests, r: MatchRequest, model: Model): Payload
  {
    var rule := match model
      case DirClose => EntryDirClose
      case LegacyBreakCandle => EntryBreakCandleNormalization
      case _ => EntryRejectionRespectDisabled;
    var active := model == DirClose;
    Payload(IdOf(d, r, model, r.bar.openEpoch), Some(r.bar.closeEpoch), Some(r.bar.closeTicks), [],
            r.setup.commonFidelity, Confirmed5m, 300, r.bar.openEpoch, r.bar.closeEpoch, [],
            if active then [rule] else [], if active then [] else [rule], ModelClaims(model))
  }

  /** The evidence of a crossed transcript: exact only as far as the setup is, and only when clean. */
  function FlipBody(
    d: Digests, r: MatchRequest, anchor: int, normalized: bool, t: Transcript, contexts: seq<Context>): Payload
    requires Crossed(t)
  {
    var clean := Clean(r.setup, t);
    Payload(IdOf(d, r, HtfFlip, anchor), Some(t.recross.value.closeEpoch), Some(t.htfOpenTicks), contexts,
            if clean then r.setup.commonFidelity else Unresolved, LowerTimeframeReplay, t.resolution,
            t.htfOpen, t.cutoff,
            (if Ambiguous(r.setup, t) then [SameChildBarOrder] else [])
            + (if t.gap then [MissingIntrabarCoverage] else []),
            if clean then [EntryHtfFlip] else [],
            if clean then []
            else [EntryHtfFlip] + (if t.destinationFirst && !t.gap then [EntryHtfZoneSideFirst] else []),
            HTF_FLIP_CLAIMS + (if normalized then LEGACY_BREAK_CLAIMS else [])
            + (if t.ordered then [] else HTF_BOUNDARY_CLAIMS))
  }

  /** Two crossed transcripts of one anchor say the same, their contexts aside. */
  predicate Agree(d: Digests, r: MatchRequest, anchor: int, normalized: bool, t: Transcript, u: Transcript)
    requires Crossed(t) && Crossed(u)
  {
    FlipBody(d, r, anchor, normalized, t, []) == FlipBody(d, r, anchor, normalized, u, []) && t.observed == u.observed
  }

  /** The contexts, ascending, of the transcripts that agree with `t`. */
  ghost predicate AgreeingContexts(d: Digests, r: MatchRequest, anchor: int, t: Transcript, contexts: seq<Context>)
    requires Crossed(t)
  {
    && ContextsAscend(contexts)
    && forall c :: c in contexts <==>
         exists u :: CrossedAt(r, anchor, u) && Agree(d, r, anchor, Normalizes(r, anchor), t, u) && u.context == c
  }

  /** Evidence that the request calls for. */
  ghost predicate Evidenced(d: Digests, r: MatchRequest, e: Evidence)
  {
    && e.payloadDigest == d.payload(e.body) && e.id == d.evidence(EvidenceKeyOf(e.body, e.payloadDigest))
    && e.observedAt == e.body.coverageEnd
    && (BarEvidenced(d, r, e.body) || FlipEvidenced(d, r, e.body))
  }

  ghost predicate BarEvidenced(d: Digests, r: MatchRequest, body: Payload)
  {
    exists model :: Confirms(r, model) && body == BarBody(d, r, model)
  }

  ghost predicate FlipEvidenced(d: Digests, r: MatchRequest, body: Payload)
  {
    exists anchor :: FlipEvidencedAt(d, r, anchor, body)
  }

  ghost predicate FlipEvidencedAt(d: Digests, r: MatchRequest, anchor: int, body: Payload)
  {
    exists t :: CrossedAt(r, anchor, t)
      && body == FlipBody(d, r, anchor, Normalizes(r, anchor), t, body.contexts)
      && AgreeingContexts(d, r, anchor, t, body.contexts)
  }

  // From transcripts to proofs

  lemma {:induction false} ResolvedAre(d: Digests, s: SetupFacts, ps: seq<ProofInput>)
    requires ResolveAll(d, s, ps).Some?
    ensures var qs := ResolveAll(d, s, ps).value;
      && |qs| == |ps|
      && forall i :: 0 <= i < |ps| ==>
           qs[i] == Expand(d, s, TranscriptOf(ps[i])) && ValidTranscript(s, TranscriptOf(ps[i]))
  {
    hide Expand, ValidTranscript, ValidSetup;
    if ps != [] {
      ResolvedAre(d, s, ps[1..]);
      var qs := ResolveAll(d, s, ps).value;
      forall i | 0 <= i < |ps|
        ensures qs[i] == Expand(d, s, TranscriptOf(ps[i])) && ValidTranscript(s, TranscriptOf(ps[i]))
      {
        if i > 0 {
          assert ps[i] == ps[1..][i - 1];
        }
      }
    }
  }

  /** What the expansion of a valid transcript says. */
  lemma ExpandedMeans(d: Digests, s: SetupFacts, t: Transcript)
    requires ValidTranscript(s, t)
    ensures var p := Expand(d, s, t);
      && (p.matched <==> Crossed(t)) && p.anchor == t.htfOpen && p.contexts == [t.context] && p.transcript == t
      && (Crossed(t) ==> p.triggerEpoch == Some(t.recross.value.closeEpoch) && p.triggerTicks == Some(t.htfOpenTicks))
      && (OrderProven(p) <==> Clean(s, t)) && p.fidelity == (if Clean(s, t) then Exact else Unresolved)
      && p.plane == LowerTimeframeReplay && p.resolution == t.resolution && p.ordered == t.ordered
      && p.coverageStart == t.htfOpen && p.coverageEnd == t.cutoff && p.gap == t.gap
      && p.destinationFirst == t.destinationFirst && p.observed == t.observed
      && p.ambiguities ==
           (if Ambiguous(s, t) then [SameChildBarOrder] else []) + (if t.gap then [MissingIntrabarCoverage] else [])
      && p.expected == t.expected == (t.cutoff - t.htfOpen) / t.resolution && p.gap == (t.observed != t.expected)
      && t.resolution > 0
  {
  }

  ghost predicate Resolved(d: Digests, r: MatchRequest, ps: seq<FlipProof>)
  {
    && |ps| == |r.proofs|
    && forall i :: 0 <= i < |ps| ==>
         ps[i] == Expand(d, r.setup, TranscriptOf(r.proofs[i])) && ValidTranscript(r.setup, TranscriptOf(r.proofs[i]))
  }

  /** The proof is the expansion of a given, valid transcript. */
  ghost predicate FromGiven(d: Digests, r: MatchRequest, p: FlipProof)
  {
    Given(r, p.transcript) && p == Expand(d, r.setup, p.transcript) && ValidTranscript(r.setup, p.transcript)
  }

  ghost predicate AllValid(r: MatchRequest)
  {
    forall t :: Given(r, t) ==> ValidTranscript(r.setup, t)
  }

  lemma ProofsAreGiven(d: Digests, r: MatchRequest, ps: seq<FlipProof>)
    requires Resolved(d, r, ps)
    ensures forall p :: p in ps <==> FromGiven(d, r, p)
    ensures forall t :: Given(r, t) ==> FromGiven(d, r, Expand(d, r.setup, t))
    ensures AllValid(r)
  {
    hide ValidTranscript;
    forall t ensures Expand(d, r.setup, t).transcript == t {
    }
    hide Expand;
    forall p ensures p in ps <==> FromGiven(d, r, p) {
      if p in ps {
        var i :| 0 <= i < |ps| && ps[i] == p;
        assert TranscriptOf(r.proofs[i]) == p.transcript;
      }
      if FromGiven(d, r, p) {
        var i :| 0 <= i < |r.proofs| && TranscriptOf(r.proofs[i]) == p.transcript;
        assert ps[i] == p;
      }
    }
    forall t | Given(r, t) ensures FromGiven(d, r, Expand(d, r.setup, t)) {
      var i :| 0 <= i < |r.proofs| && TranscriptOf(r.proofs[i]) == t;
      assert ps[i] == Expand(d, r.setup, t);
    }
  }

  // Groups

  /** The groups hold the proofs, each with all that share its anchor and trigger. */
  ghost predicate Partitions(ps: seq<FlipProof>, gs: seq<seq<FlipProof>>)
  {
    && NoEmptyGroup(gs)
    && (forall x :: x in ps ==> exists i :: 0 <= i < |gs| && x in gs[i])
    && (forall i, x :: 0 <= i < |gs| ==> (x in gs[i] <==> x in ps && SameGroup(x, gs[i][0])))
  }

  lemma {:induction false} GroupsPartition(ps: seq<FlipProof>)
    ensures Partitions(ps, Groups(ps))
    decreases |ps|
  {
    if ps != [] {
      var out := OutOfGroup(ps, ps[0]);
      GroupsPartition(out);
      PartitionStep(ps, InGroup(ps, ps[0]), out, Groups(out));
    }
  }

  lemma PartitionStep(ps: seq<FlipProof>, g: seq<FlipProof>, out: seq<FlipProof>, rest: seq<seq<FlipProof>>)
    requires ps != [] && g != [] && g[0] == ps[0] && Partitions(out, rest)
    requires forall x :: x in g <==> x in ps && SameGroup(x, ps[0])
    requires forall x :: x in out <==> x in ps && !SameGroup(x, ps[0])
    ensures Partitions(ps, [g] + rest)
  {
    hide SameGroup;
    var gs := [g] + rest;
    forall x | x in ps ensures exists i :: 0 <= i < |gs| && x in gs[i] {
      if SameGroup(x, ps[0]) {
        assert x in gs[0];
      } else {
        var i :| 0 <= i < |rest| && x in rest[i];
        assert x in gs[i + 1];
      }
    }
    forall i, x | 0 <= i < |gs| ensures x in gs[i] <==> x in ps && SameGroup(x, gs[i][0]) {
      if i > 0 {
        assert gs[i] == rest[i - 1] && rest[i - 1][0] in rest[i - 1];
        GroupsDiffer(x, rest[i - 1][0], ps[0]);
      }
    }
  }

  lemma GroupsDiffer(x: FlipProof, y: FlipProof, z: FlipProof)
    ensures SameGroup(x, y) && !SameGroup(y, z) ==> !SameGroup(x, z)
  {
  }

  /** The group of an anchor: the expansions of its crossed transcripts, all with one trigger. */
  ghost predicate GroupFor(d: Digests, r: MatchRequest, anchor: int, g: seq<FlipProof>)
  {
    && g != []
    && (forall x :: x in g <==> FromGiven(d, r, x) && CrossedAt(r, anchor, x.transcript))
    && (forall x :: x in g ==> x.triggerEpoch == g[0].triggerEpoch && x.anchor == anchor)
  }

  ghost predicate GroupsByAnchor(d: Digests, r: MatchRequest, gs: seq<seq<FlipProof>>)
  {
    && NoEmptyGroup(gs)
    && (forall i :: 0 <= i < |gs| ==> GroupFor(d, r, gs[i][0].anchor, gs[i]))
    && (forall anchor, t :: CrossedAt(r, anchor, t) ==> exists i :: 0 <= i < |gs| && gs[i][0].anchor == anchor)
  }

  lemma CrossedIsMatched(d: Digests, r: MatchRequest, p: FlipProof)
    requires FromGiven(d, r, p)
    ensures p.matched <==> CrossedAt(r, p.anchor, p.transcript)
    ensures p.anchor == p.transcript.htfOpen
  {
    ExpandedMeans(d, r.setup, p.transcript);
  }

  lemma VisitedByAnchor(d: Digests, r: MatchRequest, ps: seq<FlipProof>)
    requires Resolved(d, r, ps) && NoGroupCollision(MatchedProofs(ps))
    ensures GroupsByAnchor(d, r, VisitedGroups(ps))
  {
    hide Expand, ValidTranscript, FromGiven, CrossedAt, Groups;
    var sorted := Sort(MatchedProofs(ps), ProofBefore);
    var gs: seq<seq<FlipProof>> := VisitedGroups(ps);
    SortKeeps(MatchedProofs(ps), ProofBefore);
    GroupsPartition(sorted);
    ProofsAreGiven(d, r, ps);
    forall p: FlipProof | FromGiven(d, r, p)
      ensures (p in sorted <==> CrossedAt(r, p.anchor, p.transcript)) && p.anchor == p.transcript.htfOpen
    {
      CrossedIsMatched(d, r, p);
    }
    NoCollisionMeans(MatchedProofs(ps));
    forall i | 0 <= i < |gs| ensures GroupFor(d, r, gs[i][0].anchor, gs[i]) {
      VisitedGroup(d, r, sorted, gs, i);
    }
    forall anchor, t | CrossedAt(r, anchor, t) ensures exists i :: 0 <= i < |gs| && gs[i][0].anchor == anchor {
      var p := CrossedProof(d, r, ps, anchor, t);
      assert p in sorted;
      var i :| 0 <= i < |gs| && p in gs[i];
    }
  }

  lemma NoCollisionMeans(ps: seq<FlipProof>)
    requires NoGroupCollision(ps)
    ensures forall x: FlipProof, y: FlipProof :: x in ps && y in ps && x.anchor == y.anchor ==>
              x.triggerEpoch == y.triggerEpoch
  {
    forall x: FlipProof, y: FlipProof | x in ps && y in ps && x.anchor == y.anchor
      ensures x.triggerEpoch == y.triggerEpoch
    {
      var i :| 0 <= i < |ps| && ps[i] == x;
      var j :| 0 <= j < |ps| && ps[j] == y;
    }
  }

  lemma CrossedProof(d: Digests, r: MatchRequest, ps: seq<FlipProof>, anchor: int, t: Transcript) returns (p: FlipProof)
    requires Resolved(d, r, ps) && CrossedAt(r, anchor, t)
    ensures p == Expand(d, r.setup, t) && FromGiven(d, r, p) && p.anchor == anchor && p.transcript == t
    ensures CrossedAt(r, p.anchor, p.transcript)
  {
    ProofsAreGiven(d, r, ps);
    p := Expand(d, r.setup, t);
    CrossedIsMatched(d, r, p);
  }

  lemma VisitedGroup(d: Digests, r: MatchRequest, sorted: seq<FlipProof>, gs: seq<seq<FlipProof>>, i: int)
    requires Partitions(sorted, gs) && 0 <= i < |gs|
    requires forall p: FlipProof :: p in sorted ==> FromGiven(d, r, p)
    requires forall p: FlipProof :: FromGiven(d, r, p) ==>
               (p in sorted <==> CrossedAt(r, p.anchor, p.transcript)) && p.anchor == p.transcript.htfOpen
    requires forall x: FlipProof, y: FlipProof :: x in sorted && y in sorted && x.anchor == y.anchor ==>
               x.triggerEpoch == y.triggerEpoch
    ensures GroupFor(d, r, gs[i][0].anchor, gs[i])
  {
    hide FromGiven, Given;
    var g := gs[i];
    assert g[0] in g;
    forall x ensures x in g <==> FromGiven(d, r, x) && CrossedAt(r, g[0].anchor, x.transcript) {
      if FromGiven(d, r, x) && CrossedAt(r, g[0].anchor, x.transcript) {
        assert x.anchor == g[0].anchor;
        assert x in sorted && g[0] in sorted;
      }
    }
  }

  // One group

  lemma NormalizedMeans(d: Digests, r: MatchRequest, anchor: int, g: seq<FlipProof>)
    requires AllValid(r) && GroupFor(d, r, anchor, g)
    ensures IsNormalized(r, g) <==> Normalizes(r, anchor)
  {
    hide Expand, ValidTranscript, FromGiven;
    assert g[0] in g;
    forall x | x in g
      ensures x.triggerEpoch == Some(x.transcript.recross.value.closeEpoch) && x.contexts == [x.transcript.context]
    {
      GroupMember(d, r, anchor, x);
    }
    if IsNormalized(r, g) {
      var i, j :| 0 <= i < |g| && 0 <= j < |g[i].contexts|
        && g[i].anchor <= r.bar.openEpoch && r.bar.closeEpoch <= g[i].anchor + Seconds(g[i].contexts[j]);
      assert g[i] in g;
      assert CrossedAt(r, anchor, g[0].transcript) && CrossedAt(r, anchor, g[i].transcript);
    }
    if Normalizes(r, anchor) {
      var t :| CrossedAt(r, anchor, t) && t.recross.value.closeEpoch == r.bar.closeEpoch;
      var u :| CrossedAt(r, anchor, u)
        && anchor <= r.bar.openEpoch && r.bar.closeEpoch <= anchor + 60 * (u.context as int);
      var p := InGroupOf(d, r, anchor, g, t);
      var q := InGroupOf(d, r, anchor, g, u);
      var i :| 0 <= i < |g| && g[i] == q;
      assert g[i].contexts[0] == u.context;
      assert p.triggerEpoch == g[0].triggerEpoch;
    }
  }

  lemma GroupMember(d: Digests, r: MatchRequest, anchor: int, x: FlipProof)
    requires FromGiven(d, r, x) && CrossedAt(r, anchor, x.transcript)
    ensures Crossed(x.transcript) && x.triggerEpoch == Some(x.transcript.recross.value.closeEpoch)
    ensures x.contexts == [x.transcript.context] && (OrderProven(x) <==> Clean(r.setup, x.transcript))
  {
    ExpandedMeans(d, r.setup, x.transcript);
  }

  lemma InGroupOf(d: Digests, r: MatchRequest, anchor: int, g: seq<FlipProof>, t: Transcript) returns (p: FlipProof)
    requires AllValid(r) && GroupFor(d, r, anchor, g) && CrossedAt(r, anchor, t)
    ensures p in g && p.transcript == t && p.triggerEpoch == Some(t.recross.value.closeEpoch)
  {
    p := Expand(d, r.setup, t);
    assert FromGiven(d, r, p);
    GroupMember(d, r, anchor, p);
  }

  lemma StateMeans(d: Digests, r: MatchRequest, anchor: int, g: seq<FlipProof>)
    requires AllValid(r) && GroupFor(d, r, anchor, g)
    ensures FlipState(g, Normalizes(r, anchor)) == FlipStateAt(r, anchor)
  {
    hide Expand, ValidTranscript, FromGiven, Clean, OrderProven, Normalizes;
    forall x | x in g ensures OrderProven(x) <==> Clean(r.setup, x.transcript) {
      GroupMember(d, r, anchor, x);
    }
    if i :| 0 <= i < |g| && OrderProven(g[i]) {
      assert g[i] in g;
      assert CrossedAt(r, anchor, g[i].transcript) && Clean(r.setup, g[i].transcript);
    }
    if t :| CrossedAt(r, anchor, t) && Clean(r.setup, t) {
      var p := InGroupOf(d, r, anchor, g, t);
      var i :| 0 <= i < |g| && g[i] == p;
      assert OrderProven(g[i]);
    }
  }

  lemma ScanMeans(d: Digests, r: MatchRequest, anchor: int, g: seq<FlipProof>)
    requires AllValid(r) && GroupFor(d, r, anchor, g)
    ensures LatestScan(r, anchor, LatestCutoff(g))
  {
    hide Expand, ValidTranscript, FromGiven;
    var i :| 0 <= i < |g| && LatestCutoff(g) == g[i].transcript.cutoff;
    assert g[i] in g;
    forall t | CrossedAt(r, anchor, t) ensures t.cutoff <= LatestCutoff(g) {
      var p := InGroupOf(d, r, anchor, g, t);
      var j :| 0 <= j < |g| && g[j] == p;
    }
  }

  /** The candidate of a group is the one the request calls for at that anchor. */
  lemma GroupCandidateMeans(d: Digests, r: MatchRequest, anchor: int, g: seq<FlipProof>, c: Candidate)
    requires AllValid(r) && GroupFor(d, r, anchor, g)
    ensures c == FlipCandidate(d, r, g, IsNormalized(r, g)) <==>
              CalledFor(d, r, c) && c.key.model == HtfFlip && c.key.anchor == anchor
  {
    hide Normalizes, FlipStateAt, IsNormalized, FlipState, LatestCutoff, FromGiven;
    NormalizedMeans(d, r, anchor, g);
    StateMeans(d, r, anchor, g);
    ScanMeans(d, r, anchor, g);
    assert g[0] in g;
    NormalizedState(r, anchor);
  }

  lemma NormalizedState(r: MatchRequest, anchor: int)
    ensures FlipStateAt(r, anchor) == Normalized <==> Normalizes(r, anchor)
  {
  }

  lemma {:induction false} SomeNormalizedIndex(r: MatchRequest, gs: seq<seq<FlipProof>>)
    requires NoEmptyGroup(gs)
    ensures SomeNormalized(r, gs) <==> exists i :: 0 <= i < |gs| && IsNormalized(r, gs[i])
  {
    hide IsNormalized;
    if gs != [] {
      SomeNormalizedIndex(r, gs[..|gs| - 1]);
    }
  }

  lemma SomeNormalizedMeans(d: Digests, r: MatchRequest, gs: seq<seq<FlipProof>>)
    requires AllValid(r) && GroupsByAnchor(d, r, gs)
    ensures SomeNormalized(r, gs) <==> exists anchor :: Normalizes(r, anchor)
  {
    hide IsNormalized, GroupFor, SomeNormalized;
    SomeNormalizedIndex(r, gs);
    forall i | 0 <= i < |gs| ensures IsNormalized(r, gs[i]) <==> Normalizes(r, gs[i][0].anchor) {
      NormalizedMeans(d, r, gs[i][0].anchor, gs[i]);
    }
    if anchor :| Normalizes(r, anchor) {
      var t :| CrossedAt(r, anchor, t);
      var i :| 0 <= i < |gs| && gs[i][0].anchor == anchor;
      assert IsNormalized(r, gs[i]);
    }
  }

  // The rows

  lemma {:induction false} ConcatMembers(rs: seq<Rows>)
    ensures forall c :: c in Concat(rs).candidates <==> exists i :: 0 <= i < |rs| && c in rs[i].candidates
    ensures forall e :: e in Concat(rs).evidence <==> exists i :: 0 <= i < |rs| && e in rs[i].evidence
    ensures forall h :: h in Concat(rs).handling <==> exists i :: 0 <= i < |rs| && h in rs[i].handling
  {
    if rs != [] {
      var n := |rs| - 1;
      ConcatMembers(rs[..n]);
      forall c ensures c in Concat(rs).candidates <==> exists i :: 0 <= i < |rs| && c in rs[i].candidates {
        if c in Concat(rs[..n]).candidates {
          var i :| 0 <= i < n && c in rs[..n][i].candidates;
          assert c in rs[i].candidates;
        }
        if i :| 0 <= i < n && c in rs[i].candidates {
          assert c in rs[..n][i].candidates;
        }
      }
      forall e ensures e in Concat(rs).evidence <==> exists i :: 0 <= i < |rs| && e in rs[i].evidence {
        if e in Concat(rs[..n]).evidence {
          var i :| 0 <= i < n && e in rs[..n][i].evidence;
          assert e in rs[i].evidence;
        }
        if i :| 0 <= i < n && e in rs[i].evidence {
          assert e in rs[..n][i].evidence;
        }
      }
      forall h ensures h in Concat(rs).handling <==> exists i :: 0 <= i < |rs| && h in rs[i].handling {
        if h in Concat(rs[..n]).handling {
          var i :| 0 <= i < n && h in rs[..n][i].handling;
          assert h in rs[i].handling;
        }
        if i :| 0 <= i < n && h in rs[i].handling {
          assert h in rs[..n][i].handling;
        }
      }
    }
  }

  /** The state of a candidate that a bar makes. */
  function BarState(model: Model): CandidateState
  {
    if model == DirClose then Matched else Rejected
  }

  lemma CloseMeans(r: MatchRequest)
    ensures DirectionalClose(r) <==> ClosesBeyond(r)
  {
  }

  /** What the flip groups contribute. */
  lemma GroupCandidates(d: Digests, r: MatchRequest, gs: seq<seq<FlipProof>>, c: Candidate)
    requires AllValid(r) && GroupsByAnchor(d, r, gs)
    ensures c in Concat(RowsByGroup(d, r, gs)).candidates <==> CalledFor(d, r, c) && c.key.model == HtfFlip
  {
    hide CalledFor, EvidenceRows, FlipCandidate, GroupFor;
    var rs := RowsByGroup(d, r, gs);
    ConcatMembers(rs);
    forall i | 0 <= i < |gs|
      ensures c in rs[i].candidates <==> CalledFor(d, r, c) && c.key.model == HtfFlip && c.key.anchor == gs[i][0].anchor
    {
      GroupCandidateMeans(d, r, gs[i][0].anchor, gs[i], c);
      NoCandidates(d, r, FlipCandidate(d, r, gs[i], IsNormalized(r, gs[i])),
                   PrepareAll(r, IsNormalized(r, gs[i]), gs[i]));
    }
    if CalledFor(d, r, c) && c.key.model == HtfFlip {
      CalledIsCrossed(d, r, c);
      var t :| CrossedAt(r, c.key.anchor, t);
      var i :| 0 <= i < |gs| && gs[i][0].anchor == c.key.anchor;
      assert c in rs[i].candidates;
    }
  }

  lemma CalledIsCrossed(d: Digests, r: MatchRequest, c: Candidate)
    requires CalledFor(d, r, c) && c.key.model == HtfFlip
    ensures exists t :: CrossedAt(r, c.key.anchor, t)
  {
  }

  lemma {:induction false} NoCandidates(d: Digests, r: MatchRequest, c: Candidate, items: seq<Prepared>)
    ensures EvidenceRows(d, r, c, items).candidates == []
    decreases |items|
  {
    if items != [] {
      NoCandidates(d, r, c, WithoutKey(items, KeyOf(items[0])));
    }
  }

  lemma LiveMeans(s: SetupFacts)
    ensures Live(s) <==> !Silent(s)
  {
  }

  /** An accepted request on a live setup is matched group by group. */
  lemma LiveMatch(d: Digests, r: MatchRequest) returns (gs: seq<seq<FlipProof>>)
    requires MatchEntry(d, r).Some? && Live(r.setup)
    ensures AllValid(r) && GroupsByAnchor(d, r, gs) && MatchEntry(d, r).value == MatchRows(d, r, gs)
  {
    hide Expand, ValidTranscript, GroupsByAnchor, MatchRows, VisitedGroups, NoGroupCollision, ProofsAccepted;
    LiveMeans(r.setup);
    var ps := ResolveAll(d, r.setup, r.proofs).value;
    ResolvedAre(d, r.setup, r.proofs);
    assert Resolved(d, r, ps);
    VisitedByAnchor(d, r, ps);
    ProofsAreGiven(d, r, ps);
    gs := VisitedGroups(ps);
  }

  /** The bar models and the condition each is emitted under. */
  function BarRows(d: Digests, r: MatchRequest, model: Model, emitted: bool): Rows
  {
    if emitted then ConfirmedRows(d, r, model, BarState(model)) else NO_ROWS
  }

  lemma MatchRowsSplit(d: Digests, r: MatchRequest, gs: seq<seq<FlipProof>>)
    requires AllValid(r) && GroupsByAnchor(d, r, gs)
    ensures MatchRows(d, r, gs) ==
              Append(Append(Append(BarRows(d, r, DirClose, Confirms(r, DirClose)), Concat(RowsByGroup(d, r, gs))),
                            BarRows(d, r, LegacyBreakCandle, Confirms(r, LegacyBreakCandle))),
                     BarRows(d, r, LegacyRejectionRespect, Confirms(r, LegacyRejectionRespect)))
  {
    hide ConfirmedRows, RowsByGroup, Concat, Append, GroupsByAnchor, Normalizes, SomeNormalized;
    CloseMeans(r);
    SomeNormalizedMeans(d, r, gs);
    GroupsNonEmpty(d, r, gs);
  }

  lemma GroupsNonEmpty(d: Digests, r: MatchRequest, gs: seq<seq<FlipProof>>)
    requires GroupsByAnchor(d, r, gs)
    ensures NoEmptyGroup(gs)
  {
  }

  lemma BarCandidate(d: Digests, r: MatchRequest, model: Model, c: Candidate)
    requires model != HtfFlip
    ensures c in BarRows(d, r, model, Confirms(r, model)).candidates <==> CalledFor(d, r, c) && c.key.model == model
  {
    hide Confirms, BuildEvidence, BuildHandling;
  }

  /** The candidates of an accepted request are exactly those it calls for, and none on a setup that is not live. */
  lemma CandidatesExactly(d: Digests, r: MatchRequest, c: Candidate)
    requires MatchEntry(d, r).Some?
    ensures c in MatchEntry(d, r).value.candidates <==> Live(r.setup) && CalledFor(d, r, c)
  {
    hide CalledFor, Confirms, MatchRows, BarRows, RowsByGroup, Concat, GroupsByAnchor, AllValid, ResolveAll;
    LiveMeans(r.setup);
    if Live(r.setup) {
      var gs := LiveMatch(d, r);
      MatchRowsSplit(d, r, gs);
      GroupCandidates(d, r, gs, c);
      BarCandidate(d, r, DirClose, c);
      BarCandidate(d, r, LegacyBreakCandle, c);
      BarCandidate(d, r, LegacyRejectionRespect, c);
    }
  }

  // Evidence

  lemma BarEvidence(d: Digests, r: MatchRequest, model: Model)
    requires model != HtfFlip
    ensures var rows := ConfirmedRows(d, r, model, BarState(model));
      && |rows.evidence| == 1
      && var e := rows.evidence[0];
         && e.body == BarBody(d, r, model) && e.payloadDigest == d.payload(e.body)
         && e.id == d.evidence(EvidenceKeyOf(e.body, e.payloadDigest)) && e.observedAt == e.body.coverageEnd
  {
  }

  lemma {:induction false} WithKeyOfRest(items: seq<Prepared>, k: GroupKey, j: GroupKey)
    requires j != k
    ensures WithKey(WithoutKey(items, k), j) == WithKey(items, j)
  {
    hide KeyOf;
    if items != [] {
      WithKeyOfRest(items[1..], k, j);
      var rest := WithoutKey(items[1..], k);
      if KeyOf(items[0]) != k {
        assert WithoutKey(items, k) == [items[0]] + rest;
        assert ([items[0]] + rest)[1..] == rest;
      } else {
        assert WithoutKey(items, k) == rest;
      }
    }
  }

  ghost predicate RowOf(d: Digests, c: Candidate, items: seq<Prepared>, e: Evidence, x: Prepared)
  {
    x in items && WithKey(items, KeyOf(x)) != [] && e == GroupEvidence(d, c, WithKey(items, KeyOf(x)))
  }

  /** There is one evidence row for each key among the items. */
  lemma {:induction false} EvidenceByKey(d: Digests, r: MatchRequest, c: Candidate, items: seq<Prepared>, e: Evidence)
    ensures e in EvidenceRows(d, r, c, items).evidence <==> exists x :: RowOf(d, c, items, e, x)
    decreases |items|
  {
    hide KeyOf, GroupEvidence, BuildHandling, RowOf, EvidenceRows;
    if items != [] {
      var k := KeyOf(items[0]);
      var rest := WithoutKey(items, k);
      EvidenceByKey(d, r, c, rest, e);
      FirstEvidence(d, r, c, items);
      FirstRow(d, c, items, e);
      forall x ensures RowOf(d, c, rest, e, x) <==> RowOf(d, c, items, e, x) && KeyOf(x) != k {
        RestRow(d, c, items, e, x);
      }
    } else {
      NoRow(d, r, c, e);
    }
  }

  lemma NoRow(d: Digests, r: MatchRequest, c: Candidate, e: Evidence)
    ensures EvidenceRows(d, r, c, []).evidence == [] && forall x :: !RowOf(d, c, [], e, x)
  {
  }

  lemma FirstRow(d: Digests, c: Candidate, items: seq<Prepared>, e: Evidence)
    requires items != []
    ensures WithKey(items, KeyOf(items[0])) != []
    ensures (exists x :: RowOf(d, c, items, e, x) && KeyOf(x) == KeyOf(items[0])) <==>
              e == GroupEvidence(d, c, WithKey(items, KeyOf(items[0])))
  {
    hide KeyOf, GroupEvidence;
    assert items[0] in WithKey(items, KeyOf(items[0]));
    if e == GroupEvidence(d, c, WithKey(items, KeyOf(items[0]))) {
      assert RowOf(d, c, items, e, items[0]);
    }
  }

  lemma RestRow(d: Digests, c: Candidate, items: seq<Prepared>, e: Evidence, x: Prepared)
    requires items != []
    ensures var k := KeyOf(items[0]);
      RowOf(d, c, WithoutKey(items, k), e, x) <==> RowOf(d, c, items, e, x) && KeyOf(x) != k
  {
    hide KeyOf, GroupEvidence;
    if KeyOf(x) != KeyOf(items[0]) {
      WithKeyOfRest(items, KeyOf(items[0]), KeyOf(x));
    }
  }

  lemma FirstEvidence(d: Digests, r: MatchRequest, c: Candidate, items: seq<Prepared>)
    requires items != []
    ensures var group := WithKey(items, KeyOf(items[0]));
      && group != []
      && EvidenceRows(d, r, c, items).evidence ==
           [GroupEvidence(d, c, group)] + EvidenceRows(d, r, c, WithoutKey(items, KeyOf(items[0]))).evidence
  {
    hide KeyOf, GroupEvidence, BuildHandling;
    assert items[0] in WithKey(items, KeyOf(items[0]));
  }

  lemma ClaimsAre(normalized: bool, ordered: bool)
    ensures var claims := HTF_FLIP_CLAIMS + (if normalized then LEGACY_BREAK_CLAIMS else [])
                          + (if ordered then [] else HTF_BOUNDARY_CLAIMS);
      Dedup(claims) == claims
  {
    var claims := HTF_FLIP_CLAIMS + (if normalized then LEGACY_BREAK_CLAIMS else [])
                  + (if ordered then [] else HTF_BOUNDARY_CLAIMS);
    assert NoDuplicates(claims);
    DedupOfDistinct(claims);
  }

  /** What preparing the expansion of a crossed transcript gives. */
  lemma PreparedMeans(d: Digests, r: MatchRequest, anchor: int, normalized: bool, t: Transcript)
    requires ValidTranscript(r.setup, t) && Crossed(t)
    ensures var i := Prepare(r, normalized, Expand(d, r.setup, t));
      var body := FlipBody(d, r, anchor, normalized, t, []);
      && i.proof == Expand(d, r.setup, t) && i.fidelity == body.fidelity && i.passed == body.passed
      && i.failed == body.failed && i.claims == body.claims
      && i.proof.ambiguities == body.ambiguities && i.proof.triggerTicks == body.triggerTicks
      && i.proof.triggerEpoch == body.triggerEpoch && i.proof.plane == body.plane
      && i.proof.resolution == body.resolution && i.proof.coverageStart == body.coverageStart
      && i.proof.coverageEnd == body.coverageEnd == t.cutoff && i.proof.contexts == [t.context]
      && i.proof.transcript == t
  {
    hide Dedup, Expand, ValidTranscript, Clean, Ambiguous;
    ExpandedMeans(d, r.setup, t);
    ClaimsAre(normalized, t.ordered);
  }

  /** Prepared proofs share an evidence row exactly when their transcripts agree. */
  lemma KeysAgree(d: Digests, r: MatchRequest, anchor: int, normalized: bool, t: Transcript, u: Transcript)
    requires ValidTranscript(r.setup, t) && Crossed(t) && ValidTranscript(r.setup, u) && Crossed(u)
    requires t.recross.value.closeEpoch == u.recross.value.closeEpoch && t.htfOpen == u.htfOpen
    ensures KeyOf(Prepare(r, normalized, Expand(d, r.setup, t))) == KeyOf(Prepare(r, normalized, Expand(d, r.setup, u)))
            <==> Agree(d, r, anchor, normalized, t, u)
  {
    hide Prepare, Expand, ValidTranscript;
    PreparedMeans(d, r, anchor, normalized, t);
    PreparedMeans(d, r, anchor, normalized, u);
    ExpandedMeans(d, r.setup, t);
    ExpandedMeans(d, r.setup, u);
    GapInBody(d, r, anchor, normalized, t, u);
  }

  lemma GapInBody(d: Digests, r: MatchRequest, anchor: int, normalized: bool, t: Transcript, u: Transcript)
    requires Crossed(t) && Crossed(u)
    ensures FlipBody(d, r, anchor, normalized, t, []).ambiguities
            == FlipBody(d, r, anchor, normalized, u, []).ambiguities
            ==> t.gap == u.gap
  {
    assert t.gap <==> MissingIntrabarCoverage in FlipBody(d, r, anchor, normalized, t, []).ambiguities;
    assert u.gap <==> MissingIntrabarCoverage in FlipBody(d, r, anchor, normalized, u, []).ambiguities;
  }

  lemma ContextsUnique(a: seq<Context>, b: seq<Context>)
    requires ContextsAscend(a) && ContextsAscend(b) && forall c :: c in a <==> c in b
    ensures a == b
  {
    AscendingIs(a);
    AscendingIs(b);
  }

  function Rank(c: Context): nat
  {
    if c == 15 then 0 else if c == 30 then 1 else 2
  }

  lemma {:induction false} RankBound(a: seq<Context>, i: nat)
    requires ContextsAscend(a) && i < |a|
    ensures i <= Rank(a[i])
  {
    if i > 0 {
      RankBound(a, i - 1);
      assert a[i - 1] < a[i];
    }
  }

  lemma AscendingIs(a: seq<Context>)
    requires ContextsAscend(a)
    ensures a == (if 15 as Context in a then [15 as Context] else [])
                 + (if 30 as Context in a then [30 as Context] else [])
                 + (if 60 as Context in a then [60 as Context] else [])
  {
    if a != [] {
      RankBound(a, |a| - 1);
    }
    assert forall i :: 0 <= i < |a| ==> a[i] == 15 || a[i] == 30 || a[i] == 60;
    if |a| == 0 {
    } else if |a| == 1 {
      assert a == [a[0]];
    } else if |a| == 2 {
      assert a == [a[0], a[1]];
    } else {
      assert a == [a[0], a[1], a[2]];
    }
  }

  lemma ContextsOfMean(items: seq<Prepared>, c: Context)
    ensures c in ContextsOf(items) <==> HasContext(items, c)
  {
    hide HasContext;
    assert c == 15 || c == 30 || c == 60;
  }

  /** The prepared proofs of a group are those of its crossed transcripts. */
  lemma PreparedOf(d: Digests, r: MatchRequest, anchor: int, g: seq<FlipProof>, normalized: bool, x: Prepared)
    requires AllValid(r) && GroupFor(d, r, anchor, g)
    ensures x in PrepareAll(r, normalized, g) <==>
              exists t :: CrossedAt(r, anchor, t) && x == Prepare(r, normalized, Expand(d, r.setup, t))
  {
    hide Prepare, Expand, ValidTranscript;
    var items := PrepareAll(r, normalized, g);
    if x in items {
      var i :| 0 <= i < |items| && items[i] == x;
      assert g[i] in g;
      assert CrossedAt(r, anchor, g[i].transcript) && x == Prepare(r, normalized, Expand(d, r.setup, g[i].transcript));
    }
    if t :| CrossedAt(r, anchor, t) && x == Prepare(r, normalized, Expand(d, r.setup, t)) {
      ExpandKeeps(d, r.setup, t);
      var p := Expand(d, r.setup, t);
      assert p in g;
      var i :| 0 <= i < |g| && g[i] == p;
      assert items[i] == x;
    }
  }

  lemma ExpandKeeps(d: Digests, s: SetupFacts, t: Transcript)
    ensures Expand(d, s, t).transcript == t
  {
  }

  lemma RowContextGiven(d: Digests, r: MatchRequest, anchor: int, g: seq<FlipProof>, t: Transcript, c: Context)
    requires AllValid(r) && GroupFor(d, r, anchor, g) && CrossedAt(r, anchor, t)
    requires var normalized := Normalizes(r, anchor);
      HasContext(WithKey(PrepareAll(r, normalized, g), KeyOf(Prepare(r, normalized, Expand(d, r.setup, t)))), c)
    ensures exists u :: CrossedAt(r, anchor, u) && Agree(d, r, anchor, Normalizes(r, anchor), t, u) && u.context == c
  {
    hide Prepare, Expand, ValidTranscript, KeyOf, Agree, Normalizes, FromGiven, GroupFor, AllValid, Given;
    var normalized := Normalizes(r, anchor);
    var items := PrepareAll(r, normalized, g);
    var group := WithKey(items, KeyOf(Prepare(r, normalized, Expand(d, r.setup, t))));
    var i, j :| 0 <= i < |group| && 0 <= j < |group[i].proof.contexts| && group[i].proof.contexts[j] == c;
    assert group[i] in group;
    PreparedOf(d, r, anchor, g, normalized, group[i]);
    var u :| CrossedAt(r, anchor, u) && group[i] == Prepare(r, normalized, Expand(d, r.setup, u));
    SameTrigger(d, r, anchor, g, t, u);
    PreparedMeans(d, r, anchor, normalized, u);
    KeysAgree(d, r, anchor, normalized, t, u);
  }

  lemma GivenRowContext(
    d: Digests, r: MatchRequest, anchor: int, g: seq<FlipProof>, t: Transcript, u: Transcript)
    requires AllValid(r) && GroupFor(d, r, anchor, g) && CrossedAt(r, anchor, t)
    requires CrossedAt(r, anchor, u) && Agree(d, r, anchor, Normalizes(r, anchor), t, u)
    ensures var normalized := Normalizes(r, anchor);
      HasContext(WithKey(PrepareAll(r, normalized, g), KeyOf(Prepare(r, normalized, Expand(d, r.setup, t)))), u.context)
  {
    hide Prepare, Expand, ValidTranscript, KeyOf, Agree, Normalizes, FromGiven, GroupFor, AllValid, Given;
    var normalized := Normalizes(r, anchor);
    var group := WithKey(PrepareAll(r, normalized, g), KeyOf(Prepare(r, normalized, Expand(d, r.setup, t))));
    var x := Prepare(r, normalized, Expand(d, r.setup, u));
    PreparedOf(d, r, anchor, g, normalized, x);
    SameTrigger(d, r, anchor, g, t, u);
    PreparedMeans(d, r, anchor, normalized, u);
    KeysAgree(d, r, anchor, normalized, t, u);
    assert x in group;
    var i :| 0 <= i < |group| && group[i] == x;
    assert group[i].proof.contexts[0] == u.context;
  }

  /** The contexts of the row of `t` are those of the transcripts that agree with it. */
  lemma RowContexts(d: Digests, r: MatchRequest, anchor: int, g: seq<FlipProof>, t: Transcript, c: Context)
    requires AllValid(r) && GroupFor(d, r, anchor, g) && CrossedAt(r, anchor, t)
    ensures var normalized := Normalizes(r, anchor);
      var items := PrepareAll(r, normalized, g);
      HasContext(WithKey(items, KeyOf(Prepare(r, normalized, Expand(d, r.setup, t)))), c) <==>
        exists u :: CrossedAt(r, anchor, u) && Agree(d, r, anchor, normalized, t, u) && u.context == c
  {
    hide Prepare, Expand, ValidTranscript, KeyOf, Agree, Normalizes, FromGiven, GroupFor, AllValid, Given, HasContext;
    hide WithKey, PrepareAll;
    var normalized := Normalizes(r, anchor);
    if HasContext(WithKey(PrepareAll(r, normalized, g), KeyOf(Prepare(r, normalized, Expand(d, r.setup, t)))), c) {
      RowContextGiven(d, r, anchor, g, t, c);
    }
    if u :| CrossedAt(r, anchor, u) && Agree(d, r, anchor, normalized, t, u) && u.context == c {
      GivenRowContext(d, r, anchor, g, t, u);
    }
  }

  lemma SameTrigger(d: Digests, r: MatchRequest, anchor: int, g: seq<FlipProof>, t: Transcript, u: Transcript)
    requires AllValid(r) && GroupFor(d, r, anchor, g) && CrossedAt(r, anchor, t) && CrossedAt(r, anchor, u)
    ensures t.recross.value.closeEpoch == u.recross.value.closeEpoch && t.htfOpen == u.htfOpen
    ensures ValidTranscript(r.setup, t) && ValidTranscript(r.setup, u)
  {
    var p := InGroupOf(d, r, anchor, g, t);
    var q := InGroupOf(d, r, anchor, g, u);
  }

  /** The evidence row of a crossed transcript. */
  lemma RowEvidence(d: Digests, r: MatchRequest, anchor: int, g: seq<FlipProof>, c: Candidate, t: Transcript)
    requires AllValid(r) && GroupFor(d, r, anchor, g) && CrossedAt(r, anchor, t)
    requires c.id == IdOf(d, r, HtfFlip, anchor)
    ensures var normalized := Normalizes(r, anchor);
      var items := PrepareAll(r, normalized, g);
      var group := WithKey(items, KeyOf(Prepare(r, normalized, Expand(d, r.setup, t))));
      && group != []
      && var e := GroupEvidence(d, c, group);
         && e.body == FlipBody(d, r, anchor, normalized, t, ContextsOf(group))
         && AgreeingContexts(d, r, anchor, t, ContextsOf(group))
         && e.payloadDigest == d.payload(e.body) && e.id == d.evidence(EvidenceKeyOf(e.body, e.payloadDigest))
         && e.observedAt == e.body.coverageEnd
  {
    hide Prepare, Expand, ValidTranscript, KeyOf, Agree, Normalizes, FromGiven, ContextsOf, HasContext;
    var normalized := Normalizes(r, anchor);
    var items := PrepareAll(r, normalized, g);
    var x := Prepare(r, normalized, Expand(d, r.setup, t));
    PreparedOf(d, r, anchor, g, normalized, x);
    var group := WithKey(items, KeyOf(x));
    assert x in group && group[0] in group;
    PreparedOf(d, r, anchor, g, normalized, group[0]);
    var u :| CrossedAt(r, anchor, u) && group[0] == Prepare(r, normalized, Expand(d, r.setup, u));
    SameTrigger(d, r, anchor, g, t, u);
    KeysAgree(d, r, anchor, normalized, t, u);
    PreparedMeans(d, r, anchor, normalized, u);
    BodyByAgreement(d, r, anchor, normalized, t, u, ContextsOf(group));
    BuiltBody(d, r, anchor, normalized, u, c, group);
    forall cx ensures cx in ContextsOf(group) <==>
      exists w :: CrossedAt(r, anchor, w) && Agree(d, r, anchor, normalized, t, w) && w.context == cx
    {
      ContextsOfMean(group, cx);
      RowContexts(d, r, anchor, g, t, cx);
    }
  }

  lemma BodyByAgreement(
    d: Digests, r: MatchRequest, anchor: int, normalized: bool, t: Transcript, u: Transcript, contexts: seq<Context>)
    requires Crossed(t) && Crossed(u) && Agree(d, r, anchor, normalized, t, u)
    ensures FlipBody(d, r, anchor, normalized, t, contexts) == FlipBody(d, r, anchor, normalized, u, contexts)
  {
    assert FlipBody(d, r, anchor, normalized, t, contexts) ==
           FlipBody(d, r, anchor, normalized, t, []).(contexts := contexts);
    assert FlipBody(d, r, anchor, normalized, u, contexts) ==
           FlipBody(d, r, anchor, normalized, u, []).(contexts := contexts);
  }

  lemma BuiltBody(
    d: Digests, r: MatchRequest, anchor: int, normalized: bool, u: Transcript, c: Candidate, group: seq<Prepared>)
    requires ValidTranscript(r.setup, u) && Crossed(u) && c.id == IdOf(d, r, HtfFlip, anchor)
    requires group != [] && group[0] == Prepare(r, normalized, Expand(d, r.setup, u))
    ensures var e := GroupEvidence(d, c, group);
      && e.body == FlipBody(d, r, anchor, normalized, u, ContextsOf(group))
      && e.payloadDigest == d.payload(e.body) && e.id == d.evidence(EvidenceKeyOf(e.body, e.payloadDigest))
      && e.observedAt == e.body.coverageEnd
  {
    hide Prepare, Expand, ValidTranscript, ContextsOf;
    PreparedMeans(d, r, anchor, normalized, u);
  }

  /** Evidence with its own ids, of a crossed transcript of the anchor. */
  ghost predicate FlipRow(d: Digests, r: MatchRequest, anchor: int, e: Evidence, t: Transcript)
  {
    && e.payloadDigest == d.payload(e.body) && e.id == d.evidence(EvidenceKeyOf(e.body, e.payloadDigest))
    && e.observedAt == e.body.coverageEnd
    && CrossedAt(r, anchor, t)
    && e.body == FlipBody(d, r, anchor, Normalizes(r, anchor), t, e.body.contexts)
    && AgreeingContexts(d, r, anchor, t, e.body.contexts)
  }

  lemma RowIsFlip(
    d: Digests, r: MatchRequest, anchor: int, g: seq<FlipProof>, c: Candidate, e: Evidence, x: Prepared)
    requires AllValid(r) && GroupFor(d, r, anchor, g) && c.id == IdOf(d, r, HtfFlip, anchor)
    requires RowOf(d, c, PrepareAll(r, Normalizes(r, anchor), g), e, x)
    ensures exists t :: FlipRow(d, r, anchor, e, t)
  {
    hide Prepare, Expand, ValidTranscript, KeyOf, Normalizes, FromGiven, ContextsOf, HasContext, GroupEvidence;
    hide EvidenceRows, FlipBody, AgreeingContexts, WithKey, GroupFor, Given, AllValid;
    var normalized := Normalizes(r, anchor);
    PreparedOf(d, r, anchor, g, normalized, x);
    var t :| CrossedAt(r, anchor, t) && x == Prepare(r, normalized, Expand(d, r.setup, t));
    RowEvidence(d, r, anchor, g, c, t);
    FlipContexts(d, r, anchor, normalized, t, ContextsOf(WithKey(PrepareAll(r, normalized, g), KeyOf(x))));
    assert FlipRow(d, r, anchor, e, t);
  }

  lemma FlipIsRow(
    d: Digests, r: MatchRequest, anchor: int, g: seq<FlipProof>, c: Candidate, e: Evidence, t: Transcript)
    requires AllValid(r) && GroupFor(d, r, anchor, g) && c.id == IdOf(d, r, HtfFlip, anchor)
    requires FlipRow(d, r, anchor, e, t)
    ensures RowOf(d, c, PrepareAll(r, Normalizes(r, anchor), g), e,
                  Prepare(r, Normalizes(r, anchor), Expand(d, r.setup, t)))
  {
    hide Prepare, Expand, ValidTranscript, KeyOf, Normalizes, FromGiven, ContextsOf, HasContext, GroupEvidence;
    hide EvidenceRows, FlipBody, AgreeingContexts, WithKey, GroupFor, Given, AllValid;
    var normalized := Normalizes(r, anchor);
    var x := Prepare(r, normalized, Expand(d, r.setup, t));
    PreparedOf(d, r, anchor, g, normalized, x);
    RowEvidence(d, r, anchor, g, c, t);
    ContextsSame(d, r, anchor, t, e.body.contexts, ContextsOf(WithKey(PrepareAll(r, normalized, g), KeyOf(x))));
  }

  /** The evidence of one group, in both directions. */
  lemma GroupEvidenceMeans(d: Digests, r: MatchRequest, anchor: int, g: seq<FlipProof>, c: Candidate, e: Evidence)
    requires AllValid(r) && GroupFor(d, r, anchor, g) && c.id == IdOf(d, r, HtfFlip, anchor)
    ensures e in EvidenceRows(d, r, c, PrepareAll(r, Normalizes(r, anchor), g)).evidence <==>
              exists t :: FlipRow(d, r, anchor, e, t)
  {
    hide *;
    var items := PrepareAll(r, Normalizes(r, anchor), g);
    EvidenceByKey(d, r, c, items, e);
    if x :| RowOf(d, c, items, e, x) {
      RowIsFlip(d, r, anchor, g, c, e, x);
    }
    if t :| FlipRow(d, r, anchor, e, t) {
      FlipIsRow(d, r, anchor, g, c, e, t);
    }
  }

  lemma FlipContexts(
    d: Digests, r: MatchRequest, anchor: int, normalized: bool, t: Transcript, contexts: seq<Context>)
    requires Crossed(t)
    ensures FlipBody(d, r, anchor, normalized, t, contexts).contexts == contexts
  {
  }

  lemma ContextsSame(d: Digests, r: MatchRequest, anchor: int, t: Transcript, a: seq<Context>, b: seq<Context>)
    requires Crossed(t) && AgreeingContexts(d, r, anchor, t, a) && AgreeingContexts(d, r, anchor, t, b)
    ensures a == b
  {
    hide Agree, Normalizes, CrossedAt;
    ContextsUnique(a, b);
  }

  lemma FlipRowMeans(d: Digests, r: MatchRequest, anchor: int, e: Evidence)
    ensures (exists t :: FlipRow(d, r, anchor, e, t)) <==>
              && e.payloadDigest == d.payload(e.body) && e.id == d.evidence(EvidenceKeyOf(e.body, e.payloadDigest))
              && e.observedAt == e.body.coverageEnd && FlipEvidencedAt(d, r, anchor, e.body)
  {
    hide FlipBody, AgreeingContexts, Normalizes, Given;
    if t :| CrossedAt(r, anchor, t) && e.body == FlipBody(d, r, anchor, Normalizes(r, anchor), t, e.body.contexts)
            && AgreeingContexts(d, r, anchor, t, e.body.contexts) {
      if && e.payloadDigest == d.payload(e.body) && e.id == d.evidence(EvidenceKeyOf(e.body, e.payloadDigest))
         && e.observedAt == e.body.coverageEnd {
        assert FlipRow(d, r, anchor, e, t);
      }
    }
  }

  lemma GroupsEvidence(d: Digests, r: MatchRequest, gs: seq<seq<FlipProof>>, e: Evidence)
    requires AllValid(r) && GroupsByAnchor(d, r, gs)
    ensures e in Concat(RowsByGroup(d, r, gs)).evidence <==>
              && e.payloadDigest == d.payload(e.body) && e.id == d.evidence(EvidenceKeyOf(e.body, e.payloadDigest))
              && e.observedAt == e.body.coverageEnd && FlipEvidenced(d, r, e.body)
  {
    hide EvidenceRows, GroupFor, FlipBody, AgreeingContexts, Normalizes, IsNormalized, FlipCandidate, CrossedAt;
    hide FlipRow;
    var rs := RowsByGroup(d, r, gs);
    ConcatMembers(rs);
    forall i | 0 <= i < |gs|
      ensures e in rs[i].evidence <==>
                && e.payloadDigest == d.payload(e.body) && e.id == d.evidence(EvidenceKeyOf(e.body, e.payloadDigest))
                && e.observedAt == e.body.coverageEnd && FlipEvidencedAt(d, r, gs[i][0].anchor, e.body)
    {
      var anchor := gs[i][0].anchor;
      NormalizedMeans(d, r, anchor, gs[i]);
      var c := FlipCandidate(d, r, gs[i], IsNormalized(r, gs[i]));
      GroupId(d, r, anchor, gs[i]);
      GroupEvidenceMeans(d, r, anchor, gs[i], c, e);
      FlipRowMeans(d, r, anchor, e);
    }
    if FlipEvidenced(d, r, e.body) {
      var anchor :| FlipEvidencedAt(d, r, anchor, e.body);
      var t :| CrossedAt(r, anchor, t);
      var i :| 0 <= i < |gs| && gs[i][0].anchor == anchor;
      assert FlipEvidencedAt(d, r, gs[i][0].anchor, e.body);
    }
  }

  lemma GroupId(d: Digests, r: MatchRequest, anchor: int, g: seq<FlipProof>)
    requires AllValid(r) && GroupFor(d, r, anchor, g)
    ensures FlipCandidate(d, r, g, IsNormalized(r, g)).id == IdOf(d, r, HtfFlip, anchor)
  {
    hide IsNormalized, FlipState, LatestCutoff, FromGiven;
    assert g[0] in g;
  }

  /** The evidence of an accepted request is exactly what it calls for. */
  lemma EvidenceExactly(d: Digests, r: MatchRequest, e: Evidence)
    requires MatchEntry(d, r).Some?
    ensures e in MatchEntry(d, r).value.evidence <==> Live(r.setup) && Evidenced(d, r, e)
  {
    hide Confirms, MatchRows, RowsByGroup, Concat, GroupsByAnchor, AllValid, ResolveAll, BarBody, FlipEvidenced;
    hide ConfirmedRows;
    LiveMeans(r.setup);
    if Live(r.setup) {
      var gs := LiveMatch(d, r);
      MatchRowsSplit(d, r, gs);
      GroupsEvidence(d, r, gs, e);
      BarEvidence(d, r, DirClose);
      BarEvidence(d, r, LegacyBreakCandle);
      BarEvidence(d, r, LegacyRejectionRespect);
      NoBarFlip(r);
      BarEvidencedMeans(d, r, e);
    }
  }

  lemma NoBarFlip(r: MatchRequest)
    ensures !Confirms(r, HtfFlip)
  {
  }

  lemma BarEvidencedMeans(d: Digests, r: MatchRequest, e: Evidence)
    ensures BarEvidenced(d, r, e.body) <==>
              || (Confirms(r, DirClose) && e.body == BarBody(d, r, DirClose))
              || (Confirms(r, LegacyBreakCandle) && e.body == BarBody(d, r, LegacyBreakCandle))
              || (Confirms(r, LegacyRejectionRespect) && e.body == BarBody(d, r, LegacyRejectionRespect))
  {
    hide BarBody;
  }

  // Handling

  /** The observation that goes with an evidence row: at its trigger, as a close or as a flip inside the bar. */
  function ObservationOf(d: Digests, r: MatchRequest, e: Evidence): Handling
  {
    var bar := e.body.plane == Confirmed5m;
    var epoch := if e.body.triggerEpoch.Some? then e.body.triggerEpoch.value else e.observedAt;
    var key := HandlingKey(
      e.body.candidateId, e.id, if bar then CloseConfirmation else IntrabarFlip, r.attempt, epoch,
      e.body.triggerTicks, e.body.fidelity, if bar then e.body.claims else HTF_FLIP_CLAIMS);
    Handling(d.handling(key), key)
  }

  /** One observation per evidence row. */
  ghost predicate Observed(d: Digests, r: MatchRequest, rows: Rows)
  {
    |rows.handling| == |rows.evidence|
    && forall i :: 0 <= i < |rows.evidence| ==> rows.handling[i] == ObservationOf(d, r, rows.evidence[i])
  }

  lemma ObservedAppend(d: Digests, r: MatchRequest, a: Rows, b: Rows)
    requires Observed(d, r, a) && Observed(d, r, b)
    ensures Observed(d, r, Append(a, b))
  {
    hide ObservationOf;
  }

  lemma BarObserved(d: Digests, r: MatchRequest, model: Model, emitted: bool)
    requires model != HtfFlip
    ensures Observed(d, r, BarRows(d, r, model, emitted))
  {
  }

  /** The item comes from a replayed transcript, not from the bar. */
  predicate Replayed(x: Prepared)
  {
    x.proof.plane == LowerTimeframeReplay
  }

  lemma {:induction false} ItemsObserved(d: Digests, r: MatchRequest, c: Candidate, items: seq<Prepared>)
    requires forall x :: x in items ==> Replayed(x)
    ensures Observed(d, r, EvidenceRows(d, r, c, items))
    decreases |items|
  {
    hide KeyOf, ContextsOf;
    if items != [] {
      var k := KeyOf(items[0]);
      var group, rest := WithKey(items, k), WithoutKey(items, k);
      ItemsObserved(d, r, c, rest);
      assert items[0] in group && group[0] in group;
      OneObserved(d, r, c, group);
      var rows := EvidenceRows(d, r, c, items);
      var first := Rows([], [rows.evidence[0]], [rows.handling[0]]);
      assert rows == Append(first, EvidenceRows(d, r, c, rest));
      ObservedAppend(d, r, first, EvidenceRows(d, r, c, rest));
    }
  }

  lemma OneObserved(d: Digests, r: MatchRequest, c: Candidate, group: seq<Prepared>)
    requires group != [] && Replayed(group[0])
    ensures var e := GroupEvidence(d, c, group);
      BuildHandling(d, c, e, IntrabarFlip, r.attempt,
                    if e.body.triggerEpoch.Some? then e.body.triggerEpoch.value else e.observedAt,
                    e.body.triggerTicks, e.body.fidelity, HTF_FLIP_CLAIMS) == ObservationOf(d, r, e)
  {
  }

  lemma {:induction false} ConcatObserved(d: Digests, r: MatchRequest, rs: seq<Rows>)
    requires forall i :: 0 <= i < |rs| ==> Observed(d, r, rs[i])
    ensures Observed(d, r, Concat(rs))
  {
    hide Observed;
    if rs == [] {
      NothingObserved(d, r);
    } else {
      var n := |rs| - 1;
      ConcatObserved(d, r, rs[..n]);
      ObservedAppend(d, r, Concat(rs[..n]), rs[n]);
    }
  }

  lemma NothingObserved(d: Digests, r: MatchRequest)
    ensures Observed(d, r, NO_ROWS)
  {
  }

  lemma GroupsObserved(d: Digests, r: MatchRequest, gs: seq<seq<FlipProof>>)
    requires AllValid(r) && GroupsByAnchor(d, r, gs)
    ensures Observed(d, r, Concat(RowsByGroup(d, r, gs)))
  {
    hide Observed, GroupFor, IsNormalized, FlipCandidate, EvidenceRows;
    var rs := RowsByGroup(d, r, gs);
    forall i | 0 <= i < |rs| ensures Observed(d, r, rs[i]) {
      var c := FlipCandidate(d, r, gs[i], IsNormalized(r, gs[i]));
      var items := PrepareAll(r, IsNormalized(r, gs[i]), gs[i]);
      forall x | x in items ensures Replayed(x) {
        GroupReplayed(d, r, gs[i][0].anchor, gs[i], IsNormalized(r, gs[i]), x);
      }
      ItemsObserved(d, r, c, items);
      CandidateOnly(d, r, c);
      ObservedAppend(d, r, Rows([c], [], []), EvidenceRows(d, r, c, items));
    }
    ConcatObserved(d, r, rs);
  }

  lemma CandidateOnly(d: Digests, r: MatchRequest, c: Candidate)
    ensures Observed(d, r, Rows([c], [], []))
  {
  }

  lemma GroupReplayed(d: Digests, r: MatchRequest, anchor: int, g: seq<FlipProof>, normalized: bool, x: Prepared)
    requires AllValid(r) && GroupFor(d, r, anchor, g) && x in PrepareAll(r, normalized, g)
    ensures Replayed(x)
  {
    hide ValidTranscript;
    PreparedOf(d, r, anchor, g, normalized, x);
  }

  /** Every evidence row of an accepted request has its observation, and there are no others. */
  lemma HandlingExactly(d: Digests, r: MatchRequest, h: Handling)
    requires MatchEntry(d, r).Some?
    ensures h in MatchEntry(d, r).value.handling <==>
              exists e :: e in MatchEntry(d, r).value.evidence && h == ObservationOf(d, r, e)
  {
    hide MatchEntry, ObservationOf;
    AllObserved(d, r);
    var rows := MatchEntry(d, r).value;
    if h in rows.handling {
      var i :| 0 <= i < |rows.handling| && rows.handling[i] == h;
      assert rows.evidence[i] in rows.evidence;
    }
    if e :| e in rows.evidence && h == ObservationOf(d, r, e) {
      var i :| 0 <= i < |rows.evidence| && rows.evidence[i] == e;
      assert rows.handling[i] == h;
    }
  }

  lemma AllObserved(d: Digests, r: MatchRequest)
    requires MatchEntry(d, r).Some?
    ensures Observed(d, r, MatchEntry(d, r).value)
  {
    hide Observed, MatchRows, RowsByGroup, Concat, GroupsByAnchor, AllValid, ResolveAll, BarRows, Confirms, Append;
    LiveMeans(r.setup);
    if Live(r.setup) {
      var gs := LiveMatch(d, r);
      MatchRowsSplit(d, r, gs);
      GroupsObserved(d, r, gs);
      var close := BarRows(d, r, DirClose, Confirms(r, DirClose));
      var flips := Concat(RowsByGroup(d, r, gs));
      var broken := BarRows(d, r, LegacyBreakCandle, Confirms(r, LegacyBreakCandle));
      var respect := BarRows(d, r, LegacyRejectionRespect, Confirms(r, LegacyRejectionRespect));
      BarObserved(d, r, DirClose, Confirms(r, DirClose));
      BarObserved(d, r, LegacyBreakCandle, Confirms(r, LegacyBreakCandle));
      BarObserved(d, r, LegacyRejectionRespect, Confirms(r, LegacyRejectionRespect));
      ObservedAppend(d, r, close, flips);
      ObservedAppend(d, r, Append(close, flips), broken);
      ObservedAppend(d, r, Append(Append(close, flips), broken), respect);
    } else {
      NothingObserved(d, r);
    }
  }

  // Acceptance

  /** A crossed transcript triggers inside its own scan, and no earlier than the engagement. */
  predicate TriggersInTime(s: SetupFacts, t: Transcript)
  {
    Crossed(t) ==>
      && t.htfOpen <= t.recross.value.closeEpoch <= t.cutoff
      && (s.zoneEngaged.Some? ==> s.zoneEngaged.value <= t.recross.value.closeEpoch)
  }

  /** A proof is a bare transcript, or its transcript's own expansion. */
  predicate Faithful(d: Digests, s: SetupFacts, p: ProofInput)
  {
    p.Expanded? ==> p.proof == Expand(d, s, p.proof.transcript)
  }

  lemma {:induction false} ResolvesExactly(d: Digests, s: SetupFacts, ps: seq<ProofInput>)
    requires ValidSetup(s)
    ensures ResolveAll(d, s, ps).Some? <==>
              forall i :: 0 <= i < |ps| ==> ValidTranscript(s, TranscriptOf(ps[i])) && Faithful(d, s, ps[i])
  {
    hide Expand, ValidTranscript, ValidSetup;
    if ps != [] {
      ResolvesExactly(d, s, ps[1..]);
      assert forall i :: 1 <= i < |ps| ==> ps[i] == ps[1..][i - 1];
      assert forall i :: 0 <= i < |ps| - 1 ==> ps[1..][i] == ps[i + 1];
    }
  }

  predicate Shaped(c: Candle)
  {
    && 0 <= c.openEpoch < c.closeEpoch <= MAX_SAFE && Safe(c.lowTicks) && Safe(c.highTicks)
    && c.lowTicks <= c.openTicks <= c.highTicks && c.lowTicks <= c.closeTicks <= c.highTicks
  }

  /** A child bar of the scan. */
  predicate ChildBar(t: Transcript, c: Candle)
  {
    && Shaped(c) && t.htfOpen <= c.openEpoch && c.closeEpoch == c.openEpoch + t.resolution <= t.cutoff
    && t.resolution > 0 && (c.openEpoch - t.htfOpen) % t.resolution == 0
  }

  /** The child bar went beyond the open of the higher-timeframe candle. */
  predicate PassesOpen(d: Direction, t: Transcript, c: Candle)
  {
    Along(d, t.htfOpenTicks) < Along(d, if d == Long then c.highTicks else c.lowTicks)
  }

  predicate MeetsZone(s: SetupFacts, c: Candle)
  {
    !(c.highTicks < s.zoneBottom) && !(s.zoneTop < c.lowTicks)
  }

  /** Child bars that the transcript keeps. */
  function KeptBars(t: Transcript): nat
  {
    match (t.contact, t.recross)
    case (None, None) => 0
    case (Some(c), Some(x)) => if c.openEpoch == x.openEpoch && c.closeEpoch == x.closeEpoch then 1 else 2
    case _ => 1
  }

  /** First contact, then, at once or later, the recross. */
  predicate Lifecycle(s: SetupFacts, t: Transcript)
  {
    match (t.contact, t.recross)
    case (None, None) => !t.sameChild
    case (None, Some(_)) => false
    case (Some(c), None) => ChildBar(t, c) && MeetsZone(s, c) && !PassesOpen(s.direction, t, c) && !t.sameChild
    case (Some(c), Some(x)) =>
      && ChildBar(t, c) && ChildBar(t, x) && MeetsZone(s, c) && PassesOpen(s.direction, t, x)
      && if t.sameChild then c == x else c.closeEpoch <= x.openEpoch && !PassesOpen(s.direction, t, c)
  }

  /** A transcript: a scan of whole five-minute bars of one candle, its child bars counted. */
  predicate Scans(s: SetupFacts, t: Transcript)
  {
    && Safe(t.htfOpenTicks) && WholeBars(t) && t.coverageStart == t.htfOpen && t.coverageEnd == t.cutoff
    && KeptBars(t) <= t.observed <= t.expected && (t.gap <==> t.observed < t.expected)
    && Lifecycle(s, t)
  }

  lemma CandlesShaped(c: Candle)
    ensures ValidCandle(c) <==> Shaped(c)
  {
  }

  lemma ChildExactly(t: Transcript, c: Candle)
    requires t.resolution >= 1 && t.coverageStart == t.htfOpen && t.coverageEnd == t.cutoff
    ensures RetainedCandle(t, c) <==> ChildBar(t, c)
  {
    hide ValidCandle, Shaped;
    CandlesShaped(c);
  }

  /** The finer resolutions that divide five minutes. */
  lemma Divisors(n: int)
    ensures 1 <= n < 300 && 300 % n == 0 <==>
              n in {1, 2, 3, 4, 5, 6, 10, 12, 15, 20, 25, 30, 50, 60, 75, 100, 150}
  {
    if 1 <= n < 300 && 300 % n == 0 {
      var q := 300 / n;
      assert q * n == 300;
    }
  }

  lemma CountExactly(span: int, resolution: int, expected: int)
    requires resolution >= 1
    ensures span % resolution == 0 && expected == span / resolution <==> expected * resolution == span
  {
    if expected * resolution == span {
      WholeMultiple(expected, resolution);
    }
  }

  lemma WholeMultiple(n: int, m: int)
    requires m >= 1
    ensures n * m / m == n && n * m % m == 0
  {
    var x := n * m;
    SmallMultiple(n - x / m, m, x % m);
  }

  lemma AtLeastOnce(k: int, m: int)
    requires m >= 0
    ensures k >= 1 ==> k * m >= m
  {
    if k >= 1 {
      assert (k - 1) * m >= 0;
    }
  }

  lemma SmallMultiple(k: int, m: int, r: int)
    requires k * m == r && 0 <= r < m
    ensures k == 0 && r == 0
  {
    AtLeastOnce(k, m);
    AtLeastOnce(-k, m);
  }

  lemma LifecycleExactly(s: SetupFacts, t: Transcript)
    requires t.resolution >= 1 && t.coverageStart == t.htfOpen && t.coverageEnd == t.cutoff
    ensures Lifecycle(s, t) <==>
      && (t.contact.Some? ==> RetainedCandle(t, t.contact.value))
      && (t.recross.Some? ==> RetainedCandle(t, t.recross.value))
      && (t.recross.Some? ==> t.contact.Some?)
      && t.sameChild == SameInterval(t)
      && (SameInterval(t) ==> t.contact == t.recross)
      && (t.contact.Some? ==>
            t.contact.value.lowTicks <= s.zoneTop && t.contact.value.highTicks >= s.zoneBottom)
      && (t.recross.Some? ==> Recrosses(s.direction, t, t.recross.value))
      && (t.contact.Some? && t.recross.Some? && !SameInterval(t) ==>
            t.contact.value.closeEpoch <= t.recross.value.openEpoch)
      && (t.contact.Some? && Recrosses(s.direction, t, t.contact.value) ==>
            t.sameChild && t.contact == t.recross)
    ensures KeptBars(t) == RetainedCount(t)
  {
    hide RetainedCandle;
    if t.contact.Some? {
      ChildExactly(t, t.contact.value);
    }
    if t.recross.Some? {
      ChildExactly(t, t.recross.value);
    }
  }

  /** Whole five-minute bars of one candle, in child bars of one length. */
  predicate WholeBars(t: Transcript)
  {
    && 0 <= t.htfOpen < t.cutoff <= MAX_SAFE
    && t.cutoff - t.htfOpen <= 60 * (t.context as int) && (t.cutoff - t.htfOpen) % 300 == 0
    && t.resolution in {1, 2, 3, 4, 5, 6, 10, 12, 15, 20, 25, 30, 50, 60, 75, 100, 150}
    && t.expected * t.resolution == t.cutoff - t.htfOpen
  }

  lemma WholeBarsExactly(t: Transcript)
    ensures CompletedPrefix(t) && t.expected == (t.cutoff - t.htfOpen) / t.resolution <==> WholeBars(t)
    ensures WholeBars(t) ==> t.resolution >= 1 && 0 <= t.expected <= MAX_SAFE
  {
    Divisors(t.resolution);
    if t.resolution >= 1 {
      CountExactly(t.cutoff - t.htfOpen, t.resolution, t.expected);
      NoMoreThan(t.expected, t.resolution);
    }
  }

  /** The validator accepts exactly the scans. */
  lemma ScansExactly(s: SetupFacts, t: Transcript)
    ensures ValidTranscript(s, t) <==> Scans(s, t)
  {
    hide Lifecycle, RetainedCandle, KeptBars, RetainedCount, CompletedPrefix, WholeBars;
    WholeBarsExactly(t);
    WholeBarsBounds(t);
    if t.resolution >= 1 && t.coverageStart == t.htfOpen && t.coverageEnd == t.cutoff {
      LifecycleExactly(s, t);
    }
  }

  lemma WholeBarsBounds(t: Transcript)
    ensures WholeBars(t) ==> SafeNat(t.htfOpen) && SafeNat(t.cutoff)
    ensures CompletedPrefix(t) ==> t.resolution >= 1
  {
  }

  lemma NoMoreThan(n: int, m: int)
    requires m >= 1
    ensures n >= 0 ==> n <= n * m
    ensures n * m >= 0 ==> n >= 0
  {
    if n < 0 {
      assert n * m <= -m;
    }
  }

  /** The request is on a proper zone, a whole five-minute bar and a proper attempt. */
  predicate WellShaped(r: MatchRequest)
  {
    var s := r.setup;
    && ClosedText(s.setupId) && -MAX_SAFE <= s.zoneBottom < s.zoneTop <= MAX_SAFE
    && Shaped(r.bar) && r.bar.closeEpoch == r.bar.openEpoch + 300
    && (s.zoneEngaged.Some? ==> 0 <= s.zoneEngaged.value <= r.bar.closeEpoch)
    && (s.terminalReason.None? <==> s.terminalEpoch.None?)
    && (s.terminalEpoch.Some? ==>
          && 0 <= s.terminalEpoch.value <= MAX_SAFE
          && (s.zoneEngaged.Some? ==> s.zoneEngaged.value <= s.terminalEpoch.value))
    && (s.invalidatedBeforeEntry ==> s.terminalReason == Some(Invalidated))
    && 1 <= r.ordinal <= MAX_SAFE && (r.attempt == Initial <==> r.ordinal == 1)
    && |r.proofs| <= 3
  }

  lemma ShapeExactly(r: MatchRequest)
    ensures ValidShape(r) <==> WellShaped(r)
  {
    hide ValidCandle, Shaped, ClosedText;
    CandlesShaped(r.bar);
    ShapedEpochs(r.bar);
  }

  lemma ShapedEpochs(c: Candle)
    ensures Shaped(c) ==> 0 <= c.closeEpoch <= MAX_SAFE
  {
  }

  /** One transcript of a request is acceptable. */
  predicate Acceptable(d: Digests, r: MatchRequest, p: ProofInput)
  {
    var t := TranscriptOf(p);
    Scans(r.setup, t) && Faithful(d, r.setup, p) && t.cutoff <= r.bar.closeEpoch && TriggersInTime(r.setup, t)
  }

  /** Crossed transcripts of one anchor trigger together. */
  ghost predicate OneTriggerPerAnchor(r: MatchRequest)
  {
    forall t: Transcript, u: Transcript :: CrossedAt(r, t.htfOpen, t) && CrossedAt(r, t.htfOpen, u) ==>
      t.recross.value.closeEpoch == u.recross.value.closeEpoch
  }

  lemma CollisionMeans(d: Digests, r: MatchRequest, ps: seq<FlipProof>)
    requires Resolved(d, r, ps)
    ensures NoGroupCollision(MatchedProofs(ps)) <==> OneTriggerPerAnchor(r)
  {
    hide Expand, ValidTranscript, FromGiven;
    ProofsAreGiven(d, r, ps);
    var ms := MatchedProofs(ps);
    if NoGroupCollision(ms) {
      NoCollisionMeans(ms);
      forall t: Transcript, u: Transcript | CrossedAt(r, t.htfOpen, t) && CrossedAt(r, t.htfOpen, u)
        ensures t.recross.value.closeEpoch == u.recross.value.closeEpoch
      {
        CrossedInMatched(d, r, ps, t);
        CrossedInMatched(d, r, ps, u);
      }
    }
    if OneTriggerPerAnchor(r) {
      forall i, j | 0 <= i < |ms| && 0 <= j < |ms| && ms[i].anchor == ms[j].anchor
        ensures ms[i].triggerEpoch == ms[j].triggerEpoch
      {
        assert ms[i] in ms && ms[j] in ms;
        MatchedIsCrossed(d, r, ms[i]);
        MatchedIsCrossed(d, r, ms[j]);
      }
    }
  }

  lemma CrossedInMatched(d: Digests, r: MatchRequest, ps: seq<FlipProof>, t: Transcript)
    requires Resolved(d, r, ps) && CrossedAt(r, t.htfOpen, t)
    ensures var p := Expand(d, r.setup, t);
      p in MatchedProofs(ps) && p.anchor == t.htfOpen && p.triggerEpoch == Some(t.recross.value.closeEpoch)
  {
    hide Expand, ValidTranscript;
    ProofsAreGiven(d, r, ps);
    ExpandedMeans(d, r.setup, t);
  }

  lemma MatchedIsCrossed(d: Digests, r: MatchRequest, p: FlipProof)
    requires FromGiven(d, r, p) && p.matched
    ensures CrossedAt(r, p.anchor, p.transcript) && p.anchor == p.transcript.htfOpen
    ensures p.triggerEpoch == Some(p.transcript.recross.value.closeEpoch)
  {
    ExpandedMeans(d, r.setup, p.transcript);
  }

  lemma AcceptableMeans(d: Digests, r: MatchRequest, i: nat, p: FlipProof)
    requires i < |r.proofs|
    requires var t := TranscriptOf(r.proofs[i]); ValidTranscript(r.setup, t) && p == Expand(d, r.setup, t)
    ensures var t := TranscriptOf(r.proofs[i]);
      && p.transcript == t
      && ((t.cutoff <= r.bar.closeEpoch && TriggersInTime(r.setup, t)) <==>
            && p.coverageEnd <= r.bar.closeEpoch && p.transcript.cutoff == p.coverageEnd
            && (p.matched ==>
                  && p.triggerEpoch.Some?
                  && p.coverageStart <= p.triggerEpoch.value <= p.coverageEnd
                  && (r.setup.zoneEngaged.Some? ==> r.setup.zoneEngaged.value <= p.triggerEpoch.value)))
  {
    ExpandedMeans(d, r.setup, TranscriptOf(r.proofs[i]));
  }

  /** A request that can be matched. */
  ghost predicate Matchable(d: Digests, r: MatchRequest)
  {
    && WellShaped(r) && (r.setup.terminalEpoch.Some? ==> r.setup.terminalEpoch.value == r.bar.closeEpoch)
    && (forall i :: 0 <= i < |r.proofs| ==> Acceptable(d, r, r.proofs[i]))
    && (forall i, j :: 0 <= i < j < |r.proofs| ==>
          TranscriptOf(r.proofs[i]).context != TranscriptOf(r.proofs[j]).context)
    && (Live(r.setup) ==> OneTriggerPerAnchor(r))
  }

  /** Exactly the matchable requests are accepted. */
  lemma AcceptedExactly(d: Digests, r: MatchRequest)
    ensures MatchEntry(d, r).Some? <==> Matchable(d, r)
  {
    hide Expand, ValidTranscript, MatchRows, VisitedGroups, ValidCandle, OneTriggerPerAnchor, NoGroupCollision;
    hide TriggersInTime, Scans, WellShaped;
    LiveMeans(r.setup);
    ShapeExactly(r);
    forall i | 0 <= i < |r.proofs|
      ensures ValidTranscript(r.setup, TranscriptOf(r.proofs[i])) <==> Scans(r.setup, TranscriptOf(r.proofs[i]))
    {
      ScansExactly(r.setup, TranscriptOf(r.proofs[i]));
    }
    if ValidShape(r) {
      ResolvesExactly(d, r.setup, r.proofs);
      if ResolveAll(d, r.setup, r.proofs).Some? {
        var ps := ResolveAll(d, r.setup, r.proofs).value;
        ResolvedAre(d, r.setup, r.proofs);
        CollisionMeans(d, r, ps);
        forall i | 0 <= i < |r.proofs|
          ensures ps[i].transcript == TranscriptOf(r.proofs[i])
        {
          AcceptableMeans(d, r, i, ps[i]);
        }
        ProofsAcceptedMeans(d, r, ps);
      }
    }
  }

  lemma ProofsAcceptedMeans(d: Digests, r: MatchRequest, ps: seq<FlipProof>)
    requires Resolved(d, r, ps)
    requires forall i :: 0 <= i < |r.proofs| ==> Faithful(d, r.setup, r.proofs[i])
    ensures ProofsAccepted(r, ps) <==>
      && (forall i :: 0 <= i < |r.proofs| ==> Acceptable(d, r, r.proofs[i]))
      && (forall i, j :: 0 <= i < j < |r.proofs| ==>
            TranscriptOf(r.proofs[i]).context != TranscriptOf(r.proofs[j]).context)
  {
    hide Expand, ValidTranscript, TriggersInTime, Faithful, Scans;
    forall i | 0 <= i < |r.proofs|
      ensures ps[i].transcript == TranscriptOf(r.proofs[i])
      ensures Acceptable(d, r, r.proofs[i]) <==>
            && ps[i].coverageEnd <= r.bar.closeEpoch && ps[i].transcript.cutoff == ps[i].coverageEnd
            && (ps[i].matched ==>
                  && ps[i].triggerEpoch.Some?
                  && ps[i].coverageStart <= ps[i].triggerEpoch.value <= ps[i].coverageEnd
                  && (r.setup.zoneEngaged.Some? ==> r.setup.zoneEngaged.value <= ps[i].triggerEpoch.value))
    {
      AcceptableMeans(d, r, i, ps[i]);
      ScansExactly(r.setup, TranscriptOf(r.proofs[i]));
    }
  }

  // The order of the flips

  ghost predicate AnchorsAscend(ps: seq<FlipProof>)
  {
    forall i, j :: 0 <= i < j < |ps| ==> ps[i].anchor <= ps[j].anchor
  }

  lemma {:induction false} InsertAscends(p: FlipProof, ps: seq<FlipProof>)
    requires AnchorsAscend(ps)
    ensures AnchorsAscend(Insert(p, ps, ProofBefore))
    ensures forall x :: x in Insert(p, ps, ProofBefore) ==> x == p || x in ps
  {
    hide AnchorsAscend;
    if ps != [] && ProofBefore(ps[0], p) {
      Headed(ps);
      InsertAscends(p, ps[1..]);
      AscendsAfter(ps[0], Insert(p, ps[1..], ProofBefore));
    } else {
      if ps != [] {
        Headed(ps);
        assert ps == [ps[0]] + ps[1..];
      }
      AscendsAfter(p, ps);
      assert Insert(p, ps, ProofBefore) == [p] + ps;
    }
  }

  lemma Headed(ps: seq<FlipProof>)
    requires AnchorsAscend(ps) && ps != []
    ensures AnchorsAscend(ps[1..]) && forall x :: x in ps[1..] ==> ps[0].anchor <= x.anchor
  {
  }

  lemma AscendsAfter(p: FlipProof, ps: seq<FlipProof>)
    requires AnchorsAscend(ps) && forall x :: x in ps ==> p.anchor <= x.anchor
    ensures AnchorsAscend([p] + ps)
  {
  }

  lemma {:induction false} SortAscends(ps: seq<FlipProof>)
    ensures AnchorsAscend(Sort(ps, ProofBefore))
  {
    if ps != [] {
      SortAscends(ps[1..]);
      InsertAscends(ps[0], Sort(ps[1..], ProofBefore));
    }
  }

  lemma {:induction false} RestAscends(ps: seq<FlipProof>, p: FlipProof)
    requires AnchorsAscend(ps)
    ensures AnchorsAscend(OutOfGroup(ps, p))
  {
    if ps != [] {
      RestAscends(ps[1..], p);
      var rest := OutOfGroup(ps[1..], p);
      assert forall x :: x in rest ==> x in ps[1..] && ps[0].anchor <= x.anchor;
    }
  }

  ghost predicate GroupsAscend(gs: seq<seq<FlipProof>>)
  {
    NoEmptyGroup(gs) && forall i, j :: 0 <= i < j < |gs| ==> gs[i][0].anchor < gs[j][0].anchor
  }

  /** Sorted proofs without a collision are visited anchor by anchor. */
  lemma {:induction false} GroupsInOrder(ps: seq<FlipProof>)
    requires AnchorsAscend(ps)
    requires forall x: FlipProof, y: FlipProof :: x in ps && y in ps && x.anchor == y.anchor ==>
               x.triggerEpoch == y.triggerEpoch
    ensures GroupsAscend(Groups(ps))
    decreases |ps|
  {
    if ps != [] {
      var out := OutOfGroup(ps, ps[0]);
      RestAscends(ps, ps[0]);
      GroupsInOrder(out);
      var gs, rest := Groups(ps), Groups(out);
      assert gs == [InGroup(ps, ps[0])] + rest;
      forall j | 0 <= j < |rest| ensures ps[0].anchor < rest[j][0].anchor {
        assert rest[j][0] in rest[j] && rest[j][0] in out;
        assert ps[0].anchor <= rest[j][0].anchor;
      }
    }
  }

  lemma VisitedInOrder(ps: seq<FlipProof>)
    requires NoGroupCollision(MatchedProofs(ps))
    ensures GroupsAscend(VisitedGroups(ps))
  {
    hide Groups, NoGroupCollision;
    SortKeeps(MatchedProofs(ps), ProofBefore);
    SortAscends(MatchedProofs(ps));
    NoCollisionMeans(MatchedProofs(ps));
    GroupsInOrder(Sort(MatchedProofs(ps), ProofBefore));
  }

  /** Flips are listed by anchor, and other models at most once. */
  ghost predicate InOrder(cs: seq<Candidate>)
  {
    forall i, j :: 0 <= i < j < |cs| && cs[i].key.model == cs[j].key.model ==>
      cs[i].key.model == HtfFlip && cs[i].key.anchor < cs[j].key.anchor
  }

  lemma GroupListed(d: Digests, r: MatchRequest, g: seq<FlipProof>, normalized: bool)
    requires g != []
    ensures var cs := GroupRows(d, r, g, normalized).candidates;
      |cs| == 1 && cs[0].key.model == HtfFlip && cs[0].key.anchor == g[0].anchor
  {
    hide EvidenceRows, FlipState, PrepareAll;
    NoCandidates(d, r, FlipCandidate(d, r, g, normalized), PrepareAll(r, normalized, g));
  }

  ghost predicate Lists(cs: seq<Candidate>, gs: seq<seq<FlipProof>>)
    requires NoEmptyGroup(gs)
  {
    |cs| == |gs| && forall i :: 0 <= i < |gs| ==> cs[i].key.model == HtfFlip && cs[i].key.anchor == gs[i][0].anchor
  }

  lemma {:induction false} FlipsListed(d: Digests, r: MatchRequest, gs: seq<seq<FlipProof>>, rs: seq<Rows>)
    requires NoEmptyGroup(gs) && |rs| == |gs|
    requires forall i :: 0 <= i < |gs| ==> rs[i] == GroupRows(d, r, gs[i], IsNormalized(r, gs[i]))
    ensures Lists(Concat(rs).candidates, gs)
  {
    hide IsNormalized, GroupRows;
    if gs != [] {
      var n := |gs| - 1;
      FlipsListed(d, r, gs[..n], rs[..n]);
      GroupListed(d, r, gs[n], IsNormalized(r, gs[n]));
      assert Concat(rs).candidates == Concat(rs[..n]).candidates + rs[n].candidates;
    }
  }

  lemma NothingListed()
    ensures InOrder(NO_ROWS.candidates)
  {
  }

  lemma BarsListed(d: Digests, r: MatchRequest, gs: seq<seq<FlipProof>>)
    requires NoEmptyGroup(gs)
    ensures MatchRows(d, r, gs).candidates ==
              BarRows(d, r, DirClose, DirectionalClose(r)).candidates + Concat(RowsByGroup(d, r, gs)).candidates
              + BarRows(d, r, LegacyBreakCandle, r.genericBreak && !SomeNormalized(r, gs)).candidates
              + BarRows(d, r, LegacyRejectionRespect, r.rejectionRespect).candidates
  {
    hide ConfirmedRows, RowsByGroup, Concat, SomeNormalized, DirectionalClose;
  }

  /** The candidates of a request are listed one per model, the flips one per anchor and ascending. */
  lemma CandidatesInOrder(d: Digests, r: MatchRequest)
    requires MatchEntry(d, r).Some?
    ensures InOrder(MatchEntry(d, r).value.candidates)
  {
    hide Concat, RowsByGroup, IsNormalized, VisitedGroups, SomeNormalized, NoGroupCollision, ResolveAll, BarRows;
    hide InOrder, OfModel, GroupsAscend, DirectionalClose;
    if !Silent(r.setup) {
      var ps := ResolveAll(d, r.setup, r.proofs).value;
      var gs := VisitedGroups(ps);
      VisitedInOrder(ps);
      var close, broken := DirectionalClose(r), r.genericBreak && !SomeNormalized(r, gs);
      BarListed(d, r, DirClose, close);
      BarListed(d, r, LegacyBreakCandle, broken);
      BarListed(d, r, LegacyRejectionRespect, r.rejectionRespect);
      BarsListed(d, r, gs);
      RowsInOrder(d, r, gs, BarRows(d, r, DirClose, close).candidates,
                  BarRows(d, r, LegacyBreakCandle, broken).candidates,
                  BarRows(d, r, LegacyRejectionRespect, r.rejectionRespect).candidates);
    } else {
      NothingListed();
    }
  }

  ghost predicate OfModel(cs: seq<Candidate>, model: Model)
  {
    InOrder(cs) && forall i :: 0 <= i < |cs| ==> cs[i].key.model == model
  }

  lemma BarListed(d: Digests, r: MatchRequest, model: Model, emitted: bool)
    ensures OfModel(BarRows(d, r, model, emitted).candidates, model)
  {
  }

  lemma JoinInOrder(a: seq<Candidate>, b: seq<Candidate>, model: Model)
    requires InOrder(a) && OfModel(b, model) && forall i :: 0 <= i < |a| ==> a[i].key.model != model
    ensures InOrder(a + b)
  {
  }

  lemma RowsInOrder(
    d: Digests, r: MatchRequest, gs: seq<seq<FlipProof>>, a: seq<Candidate>, b: seq<Candidate>, c: seq<Candidate>)
    requires GroupsAscend(gs) && OfModel(a, DirClose) && OfModel(b, LegacyBreakCandle)
    requires OfModel(c, LegacyRejectionRespect)
    ensures InOrder(a + Concat(RowsByGroup(d, r, gs)).candidates + b + c)
  {
    hide RowsByGroup, Concat, InOrder;
    var flips := Concat(RowsByGroup(d, r, gs)).candidates;
    FlipsListed(d, r, gs, RowsByGroup(d, r, gs));
    assert OfModel(flips, HtfFlip) by {
      FlipsAreInOrder(flips, gs);
    }
    JoinInOrder(a, flips, HtfFlip);
    JoinInOrder(a + flips, b, LegacyBreakCandle);
    JoinInOrder(a + flips + b, c, LegacyRejectionRespect);
  }

  lemma FlipsAreInOrder(flips: seq<Candidate>, gs: seq<seq<FlipProof>>)
    requires GroupsAscend(gs) && Lists(flips, gs)
    ensures InOrder(flips)
  {
  }

  // Eligibility

  /** The arbitrator takes evidence as exact when the setup is exact and, for a flip, the transcript is clean. */
  lemma EligibleExactly(d: Digests, r: MatchRequest, e: Evidence, model: Model, anchor: int, t: Transcript)
    ensures e.body == BarBody(d, r, model) ==> (ExactEligible(e) <==> r.setup.commonFidelity == Exact)
    ensures Crossed(t) && e.body == FlipBody(d, r, anchor, Normalizes(r, anchor), t, e.body.contexts) ==>
              (ExactEligible(e) <==> r.setup.commonFidelity == Exact && Clean(r.setup, t))
  {
    hide Normalizes;
  }
}
