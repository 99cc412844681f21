/**
 The version 2 matcher (apps/observation-edge/src/rd-entry-matcher.ts): it turns one
 confirmed five-minute bar and its higher-timeframe transcripts into candidates,
 evidence and handling rows.
 */
module EntryMatcherV2 {
  import opened Common
  import opened EntryTerms
  import opened EntryDomainV2
  import opened Sorting

  // ---------------------------------------------------------------- validators

  predicate ValidSetup(s: SetupFacts)
  {
    && ClosedText(s.setupId)
    && Safe(s.zoneTop) && Safe(s.zoneBottom) && s.zoneBottom < s.zoneTop
    && (s.zoneEngaged.Some? ==> SafeNat(s.zoneEngaged.value))
    && s.terminalReason.Some? == s.terminalEpoch.Some?
    && (s.terminalEpoch.Some? ==>
          && SafeNat(s.terminalEpoch.value)
          && (s.zoneEngaged.Some? ==> s.zoneEngaged.value <= s.terminalEpoch.value))
    && (s.invalidatedBeforeEntry ==> s.terminalReason == Some(Invalidated))
  }

  /** A completed, bounded prefix of one higher-timeframe candle. */
  predicate CompletedPrefix(t: Transcript)
  {
    && SafeNat(t.htfOpen) && SafeNat(t.cutoff)
    && SafeNat(t.resolution) && t.resolution >= 1
    && t.resolution < 300 && 300 % t.resolution == 0
    && 0 < t.cutoff - t.htfOpen <= Seconds(t.context)
    && (t.cutoff - t.htfOpen) % 300 == 0
    && (t.cutoff - t.htfOpen) % t.resolution == 0
  }

  predicate RetainedCandle(t: Transcript, c: Candle)
    requires t.resolution >= 1
  {
    && ValidCandle(c)
    && t.coverageStart <= c.openEpoch && c.closeEpoch <= t.coverageEnd
    && c.closeEpoch - c.openEpoch == t.resolution
    && (c.openEpoch - t.coverageStart) % t.resolution == 0
  }

  predicate Recrosses(d: Direction, t: Transcript, c: Candle)
  {
    if d == Long then c.highTicks > t.htfOpenTicks else c.lowTicks < t.htfOpenTicks
  }

  predicate SameInterval(t: Transcript)
  {
    && t.contact.Some? && t.recross.Some?
    && t.contact.value.openEpoch == t.recross.value.openEpoch
    && t.contact.value.closeEpoch == t.recross.value.closeEpoch
  }

  /** How many different candle intervals the transcript retains. */
  function RetainedCount(t: Transcript): nat
  {
    (if t.contact.Some? then 1 else 0) + (if t.recross.Some? && !SameInterval(t) then 1 else 0)
  }

  /** Every check of `expandTranscript`. */
  predicate ValidTranscript(s: SetupFacts, t: Transcript)
  {
    && Safe(t.htfOpenTicks) && SafeNat(t.coverageStart) && SafeNat(t.coverageEnd)
    && SafeNat(t.expected) && SafeNat(t.observed)
    && CompletedPrefix(t)
    && t.coverageStart == t.htfOpen && t.coverageEnd == t.cutoff
    && t.expected == (t.cutoff - t.htfOpen) / t.resolution
    && t.observed <= t.expected
    && t.gap == (t.observed != t.expected)
    && (t.contact.Some? ==> RetainedCandle(t, t.contact.value))
    && (t.recross.Some? ==> RetainedCandle(t, t.recross.value))
    && RetainedCount(t) <= t.observed
    && (t.recross.Some? ==> t.contact.Some?)
    && t.sameChild == SameInterval(t)
    && (SameInterval(t) ==> t.contact == t.recross)
    && (t.contact.Some? ==>
          t.contact.value.lowTicks <= s.zoneTop && t.contact.value.highTicks >= s.zoneBottom)
    && (t.recross.Some? ==> Recrosses(s.direction, t, t.recross.value))
    && (t.contact.Some? && t.recross.Some? && !SameInterval(t) ==>
          t.contact.value.closeEpoch <= t.recross.value.openEpoch)
    && (t.contact.Some? && Recrosses(s.direction, t, t.contact.value) ==>
          t.sameChild && t.contact == t.recross)
  }

  function Expand(d: Digests, s: SetupFacts, t: Transcript): FlipProof
  {
    var matched := t.contact.Some? && t.recross.Some?;
    var contactAtOpen := t.contact.Some? && s.zoneBottom <= t.contact.value.openTicks <= s.zoneTop;
    var ambiguous := matched && t.sameChild && !contactAtOpen;
    var exact := && matched && !t.gap && t.expected == t.observed && t.ordered
                 && !t.destinationFirst && !ambiguous;
    FlipProof(
      matched, t.htfOpen,
      if t.recross.Some? then Some(t.recross.value.closeEpoch) else None,
      if t.recross.Some? then Some(t.htfOpenTicks) else None,
      [t.context], if exact then Exact else Unresolved, LowerTimeframeReplay, t.resolution,
      t.coverageStart, t.coverageEnd, t.expected, t.observed, t.gap, t.contact, t.recross,
      t.destinationFirst,
      (if ambiguous then [SameChildBarOrder] else []) + (if t.gap then [MissingIntrabarCoverage] else []),
      d.transcript(t), t.ordered, t)
  }

  /** `validateHtfFlipProof`: an expanded proof must be what its own transcript expands to. */
  function Resolve(d: Digests, s: SetupFacts, p: ProofInput): Option<FlipProof>
  {
    var t := if p.Raw? then p.transcript else p.proof.transcript;
    if !ValidSetup(s) || !ValidTranscript(s, t) then None
    else if p.Expanded? && p.proof != Expand(d, s, t) then None
    else Some(Expand(d, s, t))
  }

  function ResolveAll(d: Digests, s: SetupFacts, ps: seq<ProofInput>): Option<seq<FlipProof>>
  {
    if ps == [] then Some([])
    else
      var head, rest := Resolve(d, s, ps[0]), ResolveAll(d, s, ps[1..]);
      if head.None? || rest.None? then None else Some([head.value] + rest.value)
  }

  predicate ValidAttempt(r: MatchRequest)
  {
    && SafeNat(r.ordinal) && r.ordinal >= 1
    && (r.attempt == Initial ==> r.ordinal == 1)
    && (r.attempt == ReEntry ==> r.ordinal >= 2)
  }

  /** `validateEntryRequestShape`. */
  predicate ValidShape(r: MatchRequest)
  {
    && ValidSetup(r.setup)
    && ValidCandle(r.bar) && r.bar.closeEpoch - r.bar.openEpoch == 300
    && ValidAttempt(r)
    && (r.setup.zoneEngaged.Some? ==> r.setup.zoneEngaged.value <= r.bar.closeEpoch)
    && |r.proofs| <= 3
  }

  // ---------------------------------------------------------------- records

  function LeastTrusted(a: Fidelity, b: Fidelity): Fidelity
  {
    if Distrust(a) >= Distrust(b) then a else b
  }

  function Distrust(f: Fidelity): nat
  {
    match f
    case Exact => 0
    case Calibrated => 1
    case Discretionary => 2
    case Unresolved => 3
  }

  predicate DirectionalClose(r: MatchRequest)
  {
    if r.setup.direction == Long then
      r.bar.closeTicks > r.bar.openTicks && r.bar.closeTicks > r.setup.zoneTop
    else r.bar.closeTicks < r.bar.openTicks && r.bar.closeTicks < r.setup.zoneBottom
  }

  function BuildCandidate(
    d: Digests, r: MatchRequest, model: Model, state: CandidateState, anchor: int, observedAt: int,
    normalizedFrom: Option<Model>): Candidate
  {
    var key := CandidateKey(r.setup.direction, anchor, model, r.setup.setupId, r.ordinal);
    Candidate(d.candidate(key), key, state, ModelClaims(model), normalizedFrom, observedAt)
  }

  function BuildEvidence(d: Digests, body: Payload, observedAt: int): Evidence
  {
    var digest := d.payload(body);
    Evidence(d.evidence(EvidenceKeyOf(body, digest)), body, digest, observedAt)
  }

  function BuildHandling(
    d: Digests, c: Candidate, e: Evidence, mode: HandlingMode, attempt: AttemptKind, epoch: int,
    ticks: Option<int>, fidelity: Fidelity, claims: seq<SourceClaim>): Handling
  {
    var key := HandlingKey(c.id, e.id, mode, attempt, epoch, ticks, fidelity, claims);
    Handling(d.handling(key), key)
  }

  datatype Rows = Rows(candidates: seq<Candidate>, evidence: seq<Evidence>, handling: seq<Handling>)

  function Append(a: Rows, b: Rows): Rows
  {
    Rows(a.candidates + b.candidates, a.evidence + b.evidence, a.handling + b.handling)
  }

  const NO_ROWS := Rows([], [], [])

  lemma AppendAssociates(a: Rows, b: Rows, c: Rows)
    ensures Append(Append(a, b), c) == Append(a, Append(b, c))
    ensures Append(a, NO_ROWS) == a
  {
    assert (a.candidates + b.candidates) + c.candidates == a.candidates + (b.candidates + c.candidates);
    assert (a.evidence + b.evidence) + c.evidence == a.evidence + (b.evidence + c.evidence);
    assert (a.handling + b.handling) + c.handling == a.handling + (b.handling + c.handling);
    assert a.candidates + [] == a.candidates && a.evidence + [] == a.evidence && a.handling + [] == a.handling;
  }

  function ConfirmedRule(m: Model): Rule
  {
    match m
    case DirClose => EntryDirClose
    case LegacyBreakCandle => EntryBreakCandleNormalization
    case _ => EntryRejectionRespectDisabled
  }

  /** The rows of a match on the confirmed bar itself. */
  function ConfirmedRows(d: Digests, r: MatchRequest, model: Model, state: CandidateState): Rows
  {
    var c := BuildCandidate(d, r, model, state, r.bar.openEpoch, r.bar.closeEpoch, None);
    var active := model == DirClose;
    var e := BuildEvidence(d,
      Payload(c.id, Some(r.bar.closeEpoch), Some(r.bar.closeTicks), [],
              LeastTrusted(r.setup.commonFidelity, Exact), Confirmed5m, 300,
              r.bar.openEpoch, r.bar.closeEpoch, [],
              if active then [ConfirmedRule(model)] else [],
              if active then [] else [ConfirmedRule(model)], ModelClaims(model)),
      r.bar.closeEpoch);
    Rows([c], [e],
         [BuildHandling(d, c, e, CloseConfirmation, r.attempt, r.bar.closeEpoch, Some(r.bar.closeTicks),
                        e.body.fidelity, ModelClaims(model))])
  }

  // ---------------------------------------------------------------- flip groups

  predicate OrderProven(p: FlipProof)
  {
    p.fidelity == Exact && p.ordered && p.ambiguities == []
  }

  datatype Prepared = Prepared(
    proof: FlipProof, fidelity: Fidelity, passed: seq<Rule>, failed: seq<Rule>, claims: seq<SourceClaim>)

  function Prepare(r: MatchRequest, normalized: bool, p: FlipProof): Prepared
  {
    Prepared(
      p, LeastTrusted(r.setup.commonFidelity, p.fidelity),
      if OrderProven(p) then [EntryHtfFlip] else [],
      if OrderProven(p) then []
      else [EntryHtfFlip] + (if p.destinationFirst && !p.gap then [EntryHtfZoneSideFirst] else []),
      Dedup(HTF_FLIP_CLAIMS + (if normalized then LEGACY_BREAK_CLAIMS else []) +
            (if p.ordered then [] else HTF_BOUNDARY_CLAIMS)))
  }

  /** Everything of a prepared proof except its context: proofs that agree here share one evidence row. */
  datatype GroupKey = GroupKey(
    ambiguities: seq<Ambiguity>, coverageEnd: int, expected: int, gap: bool, observed: int,
    coverageStart: int, failed: seq<Rule>, fidelity: Fidelity, plane: ProofPlane, resolution: int,
    claims: seq<SourceClaim>, cutoff: int, triggerTicks: Option<int>, passed: seq<Rule>)

  function KeyOf(i: Prepared): GroupKey
  {
    var p := i.proof;
    GroupKey(p.ambiguities, p.coverageEnd, p.expected, p.gap, p.observed, p.coverageStart, i.failed,
             i.fidelity, p.plane, p.resolution, i.claims, p.transcript.cutoff, p.triggerTicks, i.passed)
  }

  function WithKey(items: seq<Prepared>, key: GroupKey): (r: seq<Prepared>)
    ensures forall x :: x in r <==> x in items && KeyOf(x) == key
  {
    if items == [] then []
    else
      assert items == [items[0]] + items[1..];
      (if KeyOf(items[0]) == key then [items[0]] else []) + WithKey(items[1..], key)
  }

  function WithoutKey(items: seq<Prepared>, key: GroupKey): (r: seq<Prepared>)
    ensures forall x :: x in r <==> x in items && KeyOf(x) != key
    ensures |r| <= |items|
    ensures items != [] && KeyOf(items[0]) == key ==> |r| < |items|
  {
    if items == [] then []
    else
      assert items == [items[0]] + items[1..];
      (if KeyOf(items[0]) != key then [items[0]] else []) + WithoutKey(items[1..], key)
  }

  predicate HasContext(items: seq<Prepared>, c: Context)
  {
    exists i, j :: 0 <= i < |items| && 0 <= j < |items[i].proof.contexts| && items[i].proof.contexts[j] == c
  }

  /** The distinct contexts of a group, ascending. */
  function ContextsOf(items: seq<Prepared>): (r: seq<Context>)
    ensures ContextsAscend(r)
  {
    (if HasContext(items, 15) then [15 as Context] else []) +
    (if HasContext(items, 30) then [30 as Context] else []) +
    (if HasContext(items, 60) then [60 as Context] else [])
  }

  function GroupEvidence(d: Digests, c: Candidate, group: seq<Prepared>): Evidence
    requires group != []
  {
    var i := group[0];
    var p := i.proof;
    BuildEvidence(d,
      Payload(c.id, p.triggerEpoch, p.triggerTicks, ContextsOf(group), i.fidelity, p.plane, p.resolution,
              p.coverageStart, p.coverageEnd, p.ambiguities, i.passed, i.failed, i.claims),
      p.transcript.cutoff)
  }

  /** One evidence row and one handling row for each group of agreeing proofs. */
  function EvidenceRows(d: Digests, r: MatchRequest, c: Candidate, items: seq<Prepared>): Rows
    decreases |items|
  {
    if items == [] then NO_ROWS
    else
      var key := KeyOf(items[0]);
      var e := GroupEvidence(d, c, WithKey(items, key));
      var h := BuildHandling(d, c, e, IntrabarFlip, r.attempt,
                             if e.body.triggerEpoch.Some? then e.body.triggerEpoch.value else e.observedAt,
                             e.body.triggerTicks, e.body.fidelity, HTF_FLIP_CLAIMS);
      Append(Rows([], [e], [h]), EvidenceRows(d, r, c, WithoutKey(items, key)))
  }

  function LatestCutoff(ps: seq<FlipProof>): (m: int)
    requires ps != []
    ensures exists i :: 0 <= i < |ps| && m == ps[i].transcript.cutoff
    ensures forall i :: 0 <= i < |ps| ==> ps[i].transcript.cutoff <= m
  {
    if |ps| == 1 then ps[0].transcript.cutoff
    else
      var m := LatestCutoff(ps[1..]);
      assert forall i :: 0 <= i < |ps| - 1 ==> ps[1..][i] == ps[i + 1];
      Max(ps[0].transcript.cutoff, m)
  }

  function PrepareAll(r: MatchRequest, normalized: bool, ps: seq<FlipProof>): (items: seq<Prepared>)
    ensures |items| == |ps| && forall i :: 0 <= i < |ps| ==> items[i] == Prepare(r, normalized, ps[i])
  {
    seq(|ps|, i requires 0 <= i < |ps| => Prepare(r, normalized, ps[i]))
  }

  function FlipState(group: seq<FlipProof>, normalized: bool): CandidateState
  {
    if normalized then Normalized
    else if exists i :: 0 <= i < |group| && OrderProven(group[i]) then Matched
    else Blocked
  }

  function FlipCandidate(d: Digests, r: MatchRequest, group: seq<FlipProof>, normalized: bool): Candidate
    requires group != []
  {
    BuildCandidate(d, r, HtfFlip, FlipState(group, normalized), group[0].anchor, LatestCutoff(group),
                   if normalized then Some(LegacyBreakCandle) else None)
  }

  function GroupRows(d: Digests, r: MatchRequest, group: seq<FlipProof>, normalized: bool): Rows
    requires group != []
  {
    var c := FlipCandidate(d, r, group, normalized);
    Append(Rows([c], [], []), EvidenceRows(d, r, c, PrepareAll(r, normalized, group)))
  }

  /** The generic break of this bar is the flip itself. */
  predicate IsNormalized(r: MatchRequest, group: seq<FlipProof>)
    requires group != []
  {
    && r.genericBreak
    && group[0].triggerEpoch == Some(r.bar.closeEpoch)
    && exists i, j :: 0 <= i < |group| && 0 <= j < |group[i].contexts|
         && group[i].anchor <= r.bar.openEpoch
         && r.bar.closeEpoch <= group[i].anchor + Seconds(group[i].contexts[j])
  }

  /** Order in which matched proofs are visited: anchor, trigger, context. */
  predicate ProofBefore(a: FlipProof, b: FlipProof)
  {
    var ta := if a.triggerEpoch.Some? then a.triggerEpoch.value else 0;
    var tb := if b.triggerEpoch.Some? then b.triggerEpoch.value else 0;
    || a.anchor < b.anchor
    || (a.anchor == b.anchor && ta < tb)
    || (a.anchor == b.anchor && ta == tb && a.transcript.context < b.transcript.context)
  }

  predicate SameGroup(a: FlipProof, b: FlipProof)
  {
    a.anchor == b.anchor && a.triggerEpoch == b.triggerEpoch
  }

  function InGroup(ps: seq<FlipProof>, p: FlipProof): (r: seq<FlipProof>)
    ensures forall x :: x in r <==> x in ps && SameGroup(x, p)
    ensures ps != [] && p == ps[0] ==> r != [] && r[0] == p
  {
    if ps == [] then []
    else
      assert ps == [ps[0]] + ps[1..];
      (if SameGroup(ps[0], p) then [ps[0]] else []) + InGroup(ps[1..], p)
  }

  function OutOfGroup(ps: seq<FlipProof>, p: FlipProof): (r: seq<FlipProof>)
    ensures forall x :: x in r <==> x in ps && !SameGroup(x, p)
    ensures |r| <= |ps|
    ensures ps != [] && p == ps[0] ==> |r| < |ps|
  {
    if ps == [] then []
    else
      assert ps == [ps[0]] + ps[1..];
      (if SameGroup(ps[0], p) then [] else [ps[0]]) + OutOfGroup(ps[1..], p)
  }

  /** The proof groups in visiting order. */
  function Groups(ps: seq<FlipProof>): (r: seq<seq<FlipProof>>)
    ensures NoEmptyGroup(r)
    ensures forall i :: 0 <= i < |r| ==> forall x :: x in r[i] ==> x in ps
    decreases |ps|
  {
    if ps == [] then []
    else [InGroup(ps, ps[0])] + Groups(OutOfGroup(ps, ps[0]))
  }

  predicate NoEmptyGroup(groups: seq<seq<FlipProof>>)
  {
    forall i :: 0 <= i < |groups| ==> groups[i] != []
  }

  /** The rows of each group, in visiting order. */
  function RowsByGroup(d: Digests, r: MatchRequest, groups: seq<seq<FlipProof>>): (rs: seq<Rows>)
    requires NoEmptyGroup(groups)
    ensures |rs| == |groups|
    ensures forall i :: 0 <= i < |groups| ==> rs[i] == GroupRows(d, r, groups[i], IsNormalized(r, groups[i]))
  {
    seq(|groups|, i requires 0 <= i < |groups| => GroupRows(d, r, groups[i], IsNormalized(r, groups[i])))
  }

  function Concat(rs: seq<Rows>): Rows
  {
    if rs == [] then NO_ROWS else Append(Concat(rs[..|rs| - 1]), rs[|rs| - 1])
  }

  function MatchedProofs(ps: seq<FlipProof>): (r: seq<FlipProof>)
    ensures forall x :: x in r <==> x in ps && x.matched
  {
    if ps == [] then []
    else
      assert ps == [ps[0]] + ps[1..];
      (if ps[0].matched then [ps[0]] else []) + MatchedProofs(ps[1..])
  }

  // ---------------------------------------------------------------- the match

  /** The checks of `evaluateEntryMatch` on the resolved proofs. */
  predicate ProofsAccepted(r: MatchRequest, ps: seq<FlipProof>)
  {
    && (forall i, j :: 0 <= i < j < |ps| ==> ps[i].transcript.context != ps[j].transcript.context)
    && (forall i :: 0 <= i < |ps| ==>
          && ps[i].coverageEnd <= r.bar.closeEpoch
          && ps[i].transcript.cutoff == ps[i].coverageEnd
          && (ps[i].matched ==>
                && ps[i].triggerEpoch.Some?
                && ps[i].coverageStart <= ps[i].triggerEpoch.value <= ps[i].coverageEnd
                && (r.setup.zoneEngaged.Some? ==> r.setup.zoneEngaged.value <= ps[i].triggerEpoch.value)))
  }

  /** No two groups would produce one candidate id. */
  predicate NoGroupCollision(ps: seq<FlipProof>)
  {
    forall i, j :: 0 <= i < |ps| && 0 <= j < |ps| && ps[i].anchor == ps[j].anchor ==>
      ps[i].triggerEpoch == ps[j].triggerEpoch
  }

  predicate Silent(s: SetupFacts)
  {
    || s.zoneEngaged.None?
    || s.invalidatedBeforeEntry
    || s.terminalReason == Some(Invalidated)
    || s.terminalReason == Some(RetentionEvicted)
  }

  /** The rows of an accepted request that is not silent. */
  function MatchRows(d: Digests, r: MatchRequest, groups: seq<seq<FlipProof>>): Rows
    requires NoEmptyGroup(groups)
  {
    var close := if DirectionalClose(r) then ConfirmedRows(d, r, DirClose, Matched) else NO_ROWS;
    var normalized := SomeNormalized(r, groups);
    var broken :=
      if r.genericBreak && !normalized then ConfirmedRows(d, r, LegacyBreakCandle, Rejected) else NO_ROWS;
    var respect :=
      if r.rejectionRespect then ConfirmedRows(d, r, LegacyRejectionRespect, Rejected) else NO_ROWS;
    Append(Append(Append(close, Concat(RowsByGroup(d, r, groups))), broken), respect)
  }

  function VisitedGroups(ps: seq<FlipProof>): (r: seq<seq<FlipProof>>)
    ensures NoEmptyGroup(r)
    ensures forall i :: 0 <= i < |r| ==> forall x :: x in r[i] ==> x in ps && x.matched
  {
    SortKeeps(MatchedProofs(ps), ProofBefore);
    Groups(Sort(MatchedProofs(ps), ProofBefore))
  }

  /** `evaluateEntryMatch`; `None` when it throws. */
  function MatchEntry(d: Digests, r: MatchRequest): Option<Rows>
  {
    if !ValidShape(r) then None
    else if r.setup.terminalEpoch.Some? && r.setup.terminalEpoch.value != r.bar.closeEpoch then None
    else
      var resolved := ResolveAll(d, r.setup, r.proofs);
      if resolved.None? || !ProofsAccepted(r, resolved.value) then None
      else if Silent(r.setup) then Some(NO_ROWS)
      else if !NoGroupCollision(MatchedProofs(resolved.value)) then None
      else Some(MatchRows(d, r, VisitedGroups(resolved.value)))
  }

  predicate SomeNormalized(r: MatchRequest, groups: seq<seq<FlipProof>>)
    requires NoEmptyGroup(groups)
  {
    groups != [] &&
    (SomeNormalized(r, groups[..|groups| - 1]) || IsNormalized(r, groups[|groups| - 1]))
  }

  lemma NextRows(close: Rows, rs: seq<Rows>, k: nat)
    requires k < |rs|
    ensures Append(close, Concat(rs[..k + 1])) == Append(Append(close, Concat(rs[..k])), rs[k])
  {
    assert rs[..k + 1][..k] == rs[..k];
    AppendAssociates(close, Concat(rs[..k]), rs[k]);
  }

  method PushAll(start: Rows, rs: seq<Rows>) returns (rows: Rows)
    ensures rows == Append(start, Concat(rs))
  {
    rows := start;
    AppendAssociates(start, NO_ROWS, NO_ROWS);
    for k := 0 to |rs|
      invariant rows == Append(start, Concat(rs[..k]))
    {
      NextRows(start, rs, k);
      rows := Append(rows, rs[k]);
    }
    assert rs[..|rs|] == rs;
  }

  method AnyNormalized(r: MatchRequest, groups: seq<seq<FlipProof>>) returns (normalized: bool)
    requires NoEmptyGroup(groups)
    ensures normalized <==> SomeNormalized(r, groups)
  {
    normalized := false;
    for k := 0 to |groups|
      invariant normalized <==> SomeNormalized(r, groups[..k])
    {
      assert groups[..k + 1][..k] == groups[..k];
      normalized := normalized || IsNormalized(r, groups[k]);
    }
    assert groups[..|groups|] == groups;
  }

  method PushRows(d: Digests, r: MatchRequest, groups: seq<seq<FlipProof>>) returns (rows: Rows)
    requires NoEmptyGroup(groups)
    ensures rows == MatchRows(d, r, groups)
  {
    var close := if DirectionalClose(r) then ConfirmedRows(d, r, DirClose, Matched) else NO_ROWS;
    rows := PushAll(close, RowsByGroup(d, r, groups));
    var normalized := AnyNormalized(r, groups);
    AppendAssociates(rows, NO_ROWS, NO_ROWS);
    if r.genericBreak && !normalized {
      rows := Append(rows, ConfirmedRows(d, r, LegacyBreakCandle, Rejected));
    }
    AppendAssociates(rows, NO_ROWS, NO_ROWS);
    if r.rejectionRespect {
      rows := Append(rows, ConfirmedRows(d, r, LegacyRejectionRespect, Rejected));
    }
  }

  /** `evaluateEntryMatch` as written: check, then push rows in visiting order. */
  method EvaluateEntryMatch(d: Digests, r: MatchRequest) returns (result: Option<Rows>)
    ensures result == MatchEntry(d, r)
  {
    if !ValidShape(r) || (r.setup.terminalEpoch.Some? && r.setup.terminalEpoch.value != r.bar.closeEpoch) {
      return None;
    }
    var resolved := ResolveAll(d, r.setup, r.proofs);
    if resolved.None? || !ProofsAccepted(r, resolved.value) {
      return None;
    }
    if Silent(r.setup) {
      return Some(NO_ROWS);
    }
    if !NoGroupCollision(MatchedProofs(resolved.value)) {
      return None;
    }
    var rows := PushRows(d, r, VisitedGroups(resolved.value));
    return Some(rows);
  }
}
