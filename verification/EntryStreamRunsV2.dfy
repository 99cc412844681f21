/**
 What every run of the version 2 entry stream keeps.
 */
module EntryStreamRunsV2 {
  import opened Common
  import opened EntryTerms
  import opened EntryDomainV2
  import opened EntryMatcherV2
  import opened EntryArbitratorV2
  import opened EntryStreamV2
  import opened Indexing

  // ---------------------------------------------------------------- rows the matcher emits

  ghost predicate GoodCandidate(d: Digests, setupId: string, limit: int, c: Candidate)
  {
    && ValidCandidate(d, c, setupId) && c.observedAt <= limit
    && (ActiveModel(c.key.model) ==> c.state != Rejected)
  }

  ghost predicate GoodEvidence(d: Digests, limit: int, e: Evidence)
  {
    ValidEvidence(d, e) && e.observedAt == e.body.coverageEnd && e.observedAt <= limit
  }

  ghost predicate GoodHandling(d: Digests, h: Handling)
  {
    h.id == d.handling(h.key)
  }

  /** Rows that carry their own ids, respect chronology, and whose evidence names a listed candidate. */
  ghost predicate GoodRows(d: Digests, setupId: string, limit: int, rows: Rows)
  {
    && (forall c :: c in rows.candidates ==> GoodCandidate(d, setupId, limit, c))
    && (forall e :: e in rows.evidence ==> GoodEvidence(d, limit, e) && Known(rows.candidates, e.body.candidateId))
    && (forall h :: h in rows.handling ==> GoodHandling(d, h))
  }

  lemma AppendGood(d: Digests, setupId: string, limit: int, a: Rows, b: Rows)
    requires GoodRows(d, setupId, limit, a) && GoodRows(d, setupId, limit, b)
    ensures GoodRows(d, setupId, limit, Append(a, b))
  {
    var rows := Append(a, b);
    forall e | e in rows.evidence ensures Known(rows.candidates, e.body.candidateId) {
      if e in a.evidence {
        var c :| c in a.candidates && c.id == e.body.candidateId;
        assert c in rows.candidates;
      } else {
        var c :| c in b.candidates && c.id == e.body.candidateId;
        assert c in rows.candidates;
      }
    }
  }

  lemma ConfirmedRowsGood(d: Digests, r: MatchRequest, model: Model, state: CandidateState)
    requires CollisionFree(d) && ValidShape(r)
    requires ActiveModel(model) ==> state != Rejected
    ensures GoodRows(d, r.setup.setupId, r.bar.closeEpoch, ConfirmedRows(d, r, model, state))
  {
    var rows := ConfirmedRows(d, r, model, state);
    assert rows.candidates[0] in rows.candidates;
  }

  /** A proof that is what its own valid transcript expands to. */
  ghost predicate SoundProof(d: Digests, s: SetupFacts, p: FlipProof)
  {
    p == Expand(d, s, p.transcript) && ValidTranscript(s, p.transcript)
  }

  lemma {:induction false} ResolvedSound(d: Digests, s: SetupFacts, ps: seq<ProofInput>)
    requires ResolveAll(d, s, ps).Some?
    ensures forall p :: p in ResolveAll(d, s, ps).value ==> SoundProof(d, s, p)
    ensures |ResolveAll(d, s, ps).value| == |ps|
  {
    if ps != [] {
      ResolvedSound(d, s, ps[1..]);
    }
  }

  /** Evidence built from a sound, matched proof. */
  lemma GroupEvidenceGood(d: Digests, r: MatchRequest, normalized: bool, c: Candidate, group: seq<Prepared>)
    requires CollisionFree(d) && ValidDigest(c.id) && group != []
    requires SoundProof(d, r.setup, group[0].proof) && group[0].proof.coverageEnd <= r.bar.closeEpoch
    requires group[0] == Prepare(r, normalized, group[0].proof)
    ensures GoodEvidence(d, r.bar.closeEpoch, GroupEvidence(d, c, group))
    ensures GroupEvidence(d, c, group).body.candidateId == c.id
  {
  }

  ghost predicate PreparedFrom(d: Digests, r: MatchRequest, normalized: bool, i: Prepared)
  {
    && SoundProof(d, r.setup, i.proof) && i.proof.coverageEnd <= r.bar.closeEpoch
    && i == Prepare(r, normalized, i.proof)
  }

  /** Evidence and handling rows of one candidate. */
  ghost predicate GoodTail(d: Digests, limit: int, id: Id, rows: Rows)
  {
    && rows.candidates == []
    && (forall e :: e in rows.evidence ==> GoodEvidence(d, limit, e) && e.body.candidateId == id)
    && (forall h :: h in rows.handling ==> GoodHandling(d, h))
  }

  lemma {:induction false} EvidenceRowsGood(
    d: Digests, r: MatchRequest, normalized: bool, c: Candidate, items: seq<Prepared>)
    requires CollisionFree(d) && ValidDigest(c.id)
    requires forall i :: i in items ==> PreparedFrom(d, r, normalized, i)
    ensures GoodTail(d, r.bar.closeEpoch, c.id, EvidenceRows(d, r, c, items))
    decreases |items|
  {
    if items != [] {
      var key := KeyOf(items[0]);
      var group := WithKey(items, key);
      assert items[0] in group;
      assert group[0] in group;
      GroupEvidenceGood(d, r, normalized, c, group);
      var rest := WithoutKey(items, key);
      EvidenceRowsGood(d, r, normalized, c, rest);
      var e := GroupEvidence(d, c, group);
      var h := EvidenceRows(d, r, c, items).handling[0];
      assert EvidenceRows(d, r, c, items) == Append(Rows([], [e], [h]), EvidenceRows(d, r, c, rest));
      TailGrows(d, r.bar.closeEpoch, c.id, e, h, EvidenceRows(d, r, c, rest));
    }
  }

  lemma TailGrows(d: Digests, limit: int, id: Id, e: Evidence, h: Handling, tail: Rows)
    requires GoodTail(d, limit, id, tail)
    requires GoodEvidence(d, limit, e) && e.body.candidateId == id && GoodHandling(d, h)
    ensures GoodTail(d, limit, id, Append(Rows([], [e], [h]), tail))
  {
  }

  lemma FlipCandidateGood(d: Digests, r: MatchRequest, group: seq<FlipProof>, normalized: bool)
    requires CollisionFree(d) && ValidShape(r) && group != []
    requires forall p :: p in group ==> SoundProof(d, r.setup, p) && p.coverageEnd <= r.bar.closeEpoch
    ensures GoodCandidate(d, r.setup.setupId, r.bar.closeEpoch, FlipCandidate(d, r, group, normalized))
  {
    hide SoundProof, FlipState, LatestCutoff;
    assert group[0] in group;
    SoundTimes(d, r.setup, group[0]);
    var i :| 0 <= i < |group| && LatestCutoff(group) == group[i].transcript.cutoff;
    assert group[i] in group;
    SoundTimes(d, r.setup, group[i]);
    FlipNeverRejected(group, normalized);
  }

  lemma SoundTimes(d: Digests, s: SetupFacts, p: FlipProof)
    requires SoundProof(d, s, p)
    ensures SafeNat(p.anchor) && SafeNat(p.transcript.cutoff) && p.transcript.cutoff == p.coverageEnd
  {
  }

  lemma FlipNeverRejected(group: seq<FlipProof>, normalized: bool)
    ensures FlipState(group, normalized) != Rejected
  {
  }

  lemma HeadAndTailGood(d: Digests, setupId: string, limit: int, c: Candidate, tail: Rows)
    requires GoodCandidate(d, setupId, limit, c) && GoodTail(d, limit, c.id, tail)
    ensures GoodRows(d, setupId, limit, Append(Rows([c], [], []), tail))
  {
    var rows := Append(Rows([c], [], []), tail);
    assert rows.candidates == [c] && rows.evidence == tail.evidence && rows.handling == tail.handling;
    assert c in rows.candidates;
  }

  lemma GroupRowsGood(d: Digests, r: MatchRequest, group: seq<FlipProof>, normalized: bool)
    requires CollisionFree(d) && ValidShape(r) && group != []
    requires forall p :: p in group ==> SoundProof(d, r.setup, p) && p.coverageEnd <= r.bar.closeEpoch
    ensures GoodRows(d, r.setup.setupId, r.bar.closeEpoch, GroupRows(d, r, group, normalized))
  {
    var c := FlipCandidate(d, r, group, normalized);
    FlipCandidateGood(d, r, group, normalized);
    var items := PrepareAll(r, normalized, group);
    forall x | x in items ensures PreparedFrom(d, r, normalized, x) {
      var i :| 0 <= i < |items| && items[i] == x;
      assert group[i] in group;
    }
    EvidenceRowsGood(d, r, normalized, c, items);
    HeadAndTailGood(d, r.setup.setupId, r.bar.closeEpoch, c, EvidenceRows(d, r, c, items));
  }

  lemma {:induction false} ConcatGood(d: Digests, setupId: string, limit: int, rs: seq<Rows>)
    requires forall i :: 0 <= i < |rs| ==> GoodRows(d, setupId, limit, rs[i])
    ensures GoodRows(d, setupId, limit, Concat(rs))
  {
    if rs != [] {
      ConcatGood(d, setupId, limit, rs[..|rs| - 1]);
      AppendGood(d, setupId, limit, Concat(rs[..|rs| - 1]), rs[|rs| - 1]);
    }
  }

  lemma MatchRowsGood(d: Digests, r: MatchRequest, groups: seq<seq<FlipProof>>)
    requires CollisionFree(d) && ValidShape(r) && NoEmptyGroup(groups)
    requires forall i, p :: 0 <= i < |groups| && p in groups[i] ==>
               SoundProof(d, r.setup, p) && p.coverageEnd <= r.bar.closeEpoch
    ensures GoodRows(d, r.setup.setupId, r.bar.closeEpoch, MatchRows(d, r, groups))
  {
    var id, limit := r.setup.setupId, r.bar.closeEpoch;
    ConfirmedRowsGood(d, r, DirClose, Matched);
    ConfirmedRowsGood(d, r, LegacyBreakCandle, Rejected);
    ConfirmedRowsGood(d, r, LegacyRejectionRespect, Rejected);
    forall i | 0 <= i < |groups| ensures GoodRows(d, id, limit, RowsByGroup(d, r, groups)[i]) {
      GroupRowsGood(d, r, groups[i], IsNormalized(r, groups[i]));
    }
    ConcatGood(d, id, limit, RowsByGroup(d, r, groups));
    var close := if DirectionalClose(r) then ConfirmedRows(d, r, DirClose, Matched) else NO_ROWS;
    var flips := Concat(RowsByGroup(d, r, groups));
    var broken := if r.genericBreak && !SomeNormalized(r, groups)
                  then ConfirmedRows(d, r, LegacyBreakCandle, Rejected) else NO_ROWS;
    var respect := if r.rejectionRespect then ConfirmedRows(d, r, LegacyRejectionRespect, Rejected) else NO_ROWS;
    AppendGood(d, id, limit, close, flips);
    AppendGood(d, id, limit, Append(close, flips), broken);
    AppendGood(d, id, limit, Append(Append(close, flips), broken), respect);
  }

  lemma ProofsSound(d: Digests, r: MatchRequest, ps: seq<FlipProof>)
    requires ResolveAll(d, r.setup, r.proofs) == Some(ps) && ProofsAccepted(r, ps)
    ensures forall p :: p in ps ==> SoundProof(d, r.setup, p) && p.coverageEnd <= r.bar.closeEpoch
  {
    ResolvedSound(d, r.setup, r.proofs);
    forall p | p in ps ensures p.coverageEnd <= r.bar.closeEpoch {
      var k :| 0 <= k < |ps| && ps[k] == p;
    }
  }

  lemma MatchGood(d: Digests, r: MatchRequest)
    requires CollisionFree(d) && MatchEntry(d, r).Some?
    ensures ValidShape(r) && GoodRows(d, r.setup.setupId, r.bar.closeEpoch, MatchEntry(d, r).value)
  {
    var ps := ResolveAll(d, r.setup, r.proofs).value;
    ProofsSound(d, r, ps);
    if !Silent(r.setup) {
      var groups := VisitedGroups(ps);
      forall i, p | 0 <= i < |groups| && p in groups[i]
        ensures SoundProof(d, r.setup, p) && p.coverageEnd <= r.bar.closeEpoch
      {
        assert p in ps;
      }
      MatchRowsGood(d, r, groups);
    }
  }

  // ---------------------------------------------------------------- merging never conflicts

  ghost predicate OwnIds<T(!new)>(m: map<Id, T>, id: T -> Id)
  {
    forall k :: k in m ==> id(m[k]) == k
  }

  lemma MergeConsistent<T(!new)>(target: map<Id, T>, items: seq<T>, id: T -> Id)
    requires OwnIds(target, id) && Consistent(target.Values + Elements(items), id)
    ensures Merge(target, items, id).Some?
    ensures var m := Merge(target, items, id).value;
      && OwnIds(m, id)
      && (forall k :: k in m ==> m[k] in target.Values || m[k] in items)
      && (forall k :: k in target ==> k in m && m[k] == target[k])
      && (forall x :: x in items ==> id(x) in m && m[id(x)] == x)
  {
    assert Indexes(target, target.Values, id);
    MergeIndexes(target, target.Values, items, id);
    var m := Merge(target, items, id).value;
    forall k | k in target ensures k in m && m[k] == target[k] {
      assert target[k] in target.Values + Elements(items);
    }
    forall x | x in items ensures id(x) in m && m[id(x)] == x {
      assert x in target.Values + Elements(items);
    }
  }

  lemma HandlingMerges(d: Digests, target: map<Id, Handling>, items: seq<Handling>)
    requires CollisionFree(d) && OwnIds(target, HandlingId)
    requires forall k :: k in target ==> GoodHandling(d, target[k])
    requires forall h :: h in items ==> GoodHandling(d, h)
    ensures Merge(target, items, HandlingId).Some?
    ensures var m := Merge(target, items, HandlingId).value;
      OwnIds(m, HandlingId) && forall k :: k in m ==> GoodHandling(d, m[k])
  {
    MergeConsistent(target, items, HandlingId) by {
      forall x, y | x in target.Values + Elements(items) && y in target.Values + Elements(items)
                    && HandlingId(x) == HandlingId(y)
        ensures x == y
      {
        assert GoodHandling(d, x) && GoodHandling(d, y);
      }
    }
  }

  lemma EvidenceMerges(d: Digests, limit: int, target: map<Id, Evidence>, items: seq<Evidence>)
    requires CollisionFree(d) && OwnIds(target, EvidenceId)
    requires forall k :: k in target ==> GoodEvidence(d, limit, target[k])
    requires forall e :: e in items ==> GoodEvidence(d, limit, e)
    ensures Merge(target, items, EvidenceId).Some?
    ensures var m := Merge(target, items, EvidenceId).value;
      && OwnIds(m, EvidenceId)
      && (forall k :: k in m ==> m[k] in target.Values || m[k] in items)
  {
    forall x, y | x in target.Values + Elements(items) && y in target.Values + Elements(items)
                  && EvidenceId(x) == EvidenceId(y)
      ensures x == y
    {
      assert GoodEvidence(d, limit, x) && GoodEvidence(d, limit, y);
      assert EvidenceKeyOf(x.body, x.payloadDigest) == EvidenceKeyOf(y.body, y.payloadDigest);
    }
    MergeConsistent(target, items, EvidenceId);
  }

  // ---------------------------------------------------------------- one candidate per model

  /** `first` and `candidates` hold the same candidates, one per model. */
  ghost predicate OnePerModel(first: map<Model, Candidate>, candidates: map<Id, Candidate>)
  {
    && (forall m :: m in first ==>
          first[m].key.model == m && first[m].id in candidates && candidates[first[m].id] == first[m])
    && (forall id :: id in candidates ==>
          && candidates[id].id == id
          && candidates[id].key.model in first && first[candidates[id].key.model] == candidates[id])
  }

  ghost predicate AllGood(d: Digests, setupId: string, limit: int, candidates: map<Id, Candidate>)
  {
    forall id :: id in candidates ==> GoodCandidate(d, setupId, limit, candidates[id])
  }

  lemma NewModelNewId(
    d: Digests, setupId: string, limit: int, first: map<Model, Candidate>, candidates: map<Id, Candidate>, c: Candidate)
    requires CollisionFree(d) && OnePerModel(first, candidates) && AllGood(d, setupId, limit, candidates)
    requires GoodCandidate(d, setupId, limit, c) && c.key.model !in first
    ensures c.id !in candidates
  {
  }

  /** Candidates of a batch are filed by id and by model; ids taken from the batch are filed. */
  ghost predicate AdmissionOk(d: Digests, setupId: string, limit: int, a: Admission)
  {
    && OnePerModel(a.first, a.candidates) && AllGood(d, setupId, limit, a.candidates)
    && forall id :: id in a.ids ==> id in a.candidates
  }

  /** Nothing filed is replaced. */
  ghost predicate AdmissionGrows(a: Admission, b: Admission)
  {
    && (forall id :: id in a.candidates ==> id in b.candidates && b.candidates[id] == a.candidates[id])
    && (forall m :: m in a.first ==> m in b.first && b.first[m] == a.first[m])
  }

  lemma AdmitNewModel(d: Digests, setupId: string, limit: int, a: Admission, c: Candidate)
    requires CollisionFree(d) && AdmissionOk(d, setupId, limit, a)
    requires GoodCandidate(d, setupId, limit, c) && c.key.model !in a.first
    ensures c.id !in a.candidates
    ensures var b := Admission(a.first[c.key.model := c], a.candidates[c.id := c], a.ids + {c.id});
      AdmissionOk(d, setupId, limit, b) && AdmissionGrows(a, b)
  {
    NewModelNewId(d, setupId, limit, a.first, a.candidates, c);
  }

  lemma AdmissionGrowsOn(a: Admission, b: Admission, c: Admission)
    requires AdmissionGrows(a, b) && AdmissionGrows(b, c)
    ensures AdmissionGrows(a, c)
  {
  }

  lemma {:induction false} AcceptKeeps(d: Digests, setupId: string, limit: int, a: Admission, cs: seq<Candidate>)
    requires CollisionFree(d) && AdmissionOk(d, setupId, limit, a)
    requires forall c :: c in cs ==> GoodCandidate(d, setupId, limit, c)
    ensures Accept(a, cs).Ok?
    ensures AdmissionOk(d, setupId, limit, Accept(a, cs).value) && AdmissionGrows(a, Accept(a, cs).value)
    decreases |cs|
  {
    if cs != [] {
      var c := cs[0];
      assert c in cs;
      if c.key.model in a.first {
        AcceptKeeps(d, setupId, limit,
                    if a.first[c.key.model] == c then a.(ids := a.ids + {c.id}) else a, cs[1..]);
      } else {
        AdmitNewModel(d, setupId, limit, a, c);
        var b := Admission(a.first[c.key.model := c], a.candidates[c.id := c], a.ids + {c.id});
        AcceptKeeps(d, setupId, limit, b, cs[1..]);
        AdmissionGrowsOn(a, b, Accept(b, cs[1..]).value);
      }
    }
  }

  // ---------------------------------------------------------------- the run invariant

  /** The child counts of a validated transcript. */
  ghost predicate Counted(t: Transcript)
  {
    t.observed <= t.expected && t.gap == (t.observed != t.expected)
  }

  ghost predicate GoodTranscripts(ts: map<Context, Transcript>)
  {
    forall c :: c in ts ==> ts[c].context == c && Counted(ts[c])
  }

  ghost predicate GoodLedger(d: Digests, limit: int, s: State)
  {
    && OwnIds(s.evidence, EvidenceId)
    && (forall k :: k in s.evidence ==>
          GoodEvidence(d, limit, s.evidence[k]) && s.evidence[k].body.candidateId in s.candidates)
    && OwnIds(s.handling, HandlingId)
    && (forall k :: k in s.handling ==> GoodHandling(d, s.handling[k]))
  }

  ghost predicate IsBoth(t: Option<TerminalFact>)
  {
    t.Some? && t.value.reason == BothActiveModelsObserved
  }

  /** What holds after every accepted event whose bar closed at `limit`. */
  ghost predicate Inv(d: Digests, setupId: string, limit: int, s: State)
  {
    && OnePerModel(s.first, s.candidates) && AllGood(d, setupId, limit, s.candidates)
    && GoodLedger(d, limit, s)
    && GoodTranscripts(s.transcripts)
    && (Both(ActiveModels(s.first)) <==> IsBoth(s.terminal))
    && (s.graceFrom.Some? ==> IsBoth(s.terminal))
    && (s.graceConsumed ==> s.graceFrom.Some?)
  }

  lemma WickGood(d: Digests, previous: Option<Event>, event: Event, close: Option<Candidate>, es: map<Id, Evidence>)
    ensures forall h :: h in Listed(Wick(d, previous, event, close, es)) ==> GoodHandling(d, h)
  {
  }

  lemma ResolvedCounted(d: Digests, s: SetupFacts, p: ProofInput)
    requires Resolve(d, s, p).Some?
    ensures Counted(Resolve(d, s, p).value.transcript)
  {
  }

  lemma UpsertKeeps(ts: map<Context, Transcript>, t: Transcript)
    requires GoodTranscripts(ts) && Counted(t)
    ensures Upsert(ts, t).Ok? ==> GoodTranscripts(Upsert(ts, t).value)
    ensures Upsert(ts, t).Err? ==>
              Upsert(ts, t).error in
                {TranscriptBackwards, TranscriptBoundaryConflict, TranscriptStaticChanged, TranscriptCounts,
                 TranscriptDestinationErased, TranscriptContactRewritten, TranscriptRecrossRewritten}
  {
  }

  lemma {:induction false} UpsertsKeep(d: Digests, s: SetupFacts, ts: map<Context, Transcript>, ps: seq<ProofInput>)
    requires GoodTranscripts(ts)
    ensures UpsertProofs(d, s, ts, ps).Ok? ==> GoodTranscripts(UpsertProofs(d, s, ts, ps).value)
    ensures UpsertProofs(d, s, ts, ps) != Err(TranscriptGapErased)
    ensures UpsertProofs(d, s, ts, ps).Err? ==>
              UpsertProofs(d, s, ts, ps).error in
                {ProofRejected, TranscriptBackwards, TranscriptBoundaryConflict, TranscriptStaticChanged,
                 TranscriptCounts, TranscriptDestinationErased, TranscriptContactRewritten, TranscriptRecrossRewritten}
    decreases |ps|
  {
    hide Resolve, Upsert, GoodTranscripts, Counted;
    if ps != [] {
      var p := Resolve(d, s, ps[0]);
      if p.Some? {
        ResolvedCounted(d, s, ps[0]);
        UpsertKeeps(ts, p.value.transcript);
        var next := Upsert(ts, p.value.transcript);
        if next.Ok? {
          UpsertsKeep(d, s, next.value, ps[1..]);
        }
      }
    }
  }

  /** A silent setup emits nothing. */
  lemma SilentMatch(d: Digests, r: MatchRequest)
    requires MatchEntry(d, r).Some?
    ensures Silent(r.setup) ==> MatchEntry(d, r).value == NO_ROWS
    ensures ValidSetup(r.setup)
    ensures r.setup.terminalEpoch.Some? ==> r.setup.terminalEpoch.value == r.bar.closeEpoch
  {
  }

  /** From an open state, only three of the terminal checks can refuse an event. */
  lemma TerminalKeeps(s: SetupFacts, confirmed: int, before: set<Model>, after: set<Model>)
    requires ValidSetup(s) && (s.terminalEpoch.Some? ==> s.terminalEpoch.value == confirmed)
    requires before <= after && !Both(before)
    requires Silent(s) ==> before == after
    ensures var r := MergeTerminal(None, s, confirmed, before, after);
      && (r.Ok? ==> (Both(after) <==> IsBoth(r.value)))
      && (r.Err? ==> r.error in {OpenContradictsTerminal, InvalidationContradictsCandidates, BothNotCompletion})
  {
  }

  ghost predicate Reachable(e: StreamError)
  {
    e in {EventAfterTerminal, GraceChanged, MatchRejected, OpenContradictsTerminal,
          InvalidationContradictsCandidates, BothNotCompletion,
          ProofRejected, TranscriptBackwards, TranscriptBoundaryConflict, TranscriptStaticChanged,
          TranscriptCounts, TranscriptDestinationErased, TranscriptContactRewritten, TranscriptRecrossRewritten}
  }

  lemma InvGrows(d: Digests, setupId: string, limit: int, limit': int, s: State)
    requires Inv(d, setupId, limit, s) && limit <= limit'
    ensures Inv(d, setupId, limit', s)
  {
  }

  lemma GraceKeeps(d: Digests, setupId: string, limit: int, s: State, event: Event)
    requires CollisionFree(d) && Inv(d, setupId, limit, s) && s.terminal.Some?
    ensures var r := GraceStep(d, s, event);
      (r.Ok? ==> Inv(d, setupId, limit, r.value)) && (r.Err? ==> Reachable(r.error))
  {
    var items := Listed(Wick(d, s.graceFrom, event, KeptClose(s), s.evidence));
    WickGood(d, s.graceFrom, event, KeptClose(s), s.evidence);
    HandlingMerges(d, s.handling, items);
  }

  lemma LedgerGrows(
    d: Digests, setupId: string, limit: int, s: State, wicked: map<Id, Handling>, rows: Rows, a: Admission)
    requires CollisionFree(d) && GoodLedger(d, limit, s) && GoodRows(d, setupId, limit, rows)
    requires OwnIds(wicked, HandlingId) && forall k :: k in wicked ==> GoodHandling(d, wicked[k])
    requires forall id :: id in s.candidates ==> id in a.candidates
    requires forall id :: id in a.ids ==> id in a.candidates
    ensures Merge(s.evidence, KeepEvidence(rows.evidence, a.ids), EvidenceId).Some?
    ensures Merge(wicked, KeepHandling(rows.handling, a.ids), HandlingId).Some?
    ensures GoodLedger(d, limit, s.(candidates := a.candidates,
              evidence := Merge(s.evidence, KeepEvidence(rows.evidence, a.ids), EvidenceId).value,
              handling := Merge(wicked, KeepHandling(rows.handling, a.ids), HandlingId).value))
  {
    EvidenceMerges(d, limit, s.evidence, KeepEvidence(rows.evidence, a.ids));
    HandlingMerges(d, wicked, KeepHandling(rows.handling, a.ids));
  }

  lemma OpenKeeps(d: Digests, setupId: string, limit: int, s: State, event: Event)
    requires CollisionFree(d) && Inv(d, setupId, limit, s) && s.terminal.None?
    requires event.request.setup.setupId == setupId && limit <= event.request.bar.closeEpoch
    ensures var r := OpenStep(d, s, event);
      && (r.Ok? ==> Inv(d, setupId, event.request.bar.closeEpoch, r.value))
      && (r.Err? ==> Reachable(r.error))
  {
    hide MatchEntry, Wick, KeptClose, UpsertProofs, Merge, Admit, Inv, GoodRows, GoodHandling;
    var r := event.request;
    var now := r.bar.closeEpoch;
    InvGrows(d, setupId, limit, now, s);
    InvParts(d, setupId, now, s);
    var items := Listed(Wick(d, s.previous, event, KeptClose(s), s.evidence));
    WickGood(d, s.previous, event, KeptClose(s), s.evidence);
    HandlingMerges(d, s.handling, items);
    var wicked := Merge(s.handling, items, HandlingId).value;
    UpsertsKeep(d, r.setup, s.transcripts, r.proofs);
    var ts := UpsertProofs(d, r.setup, s.transcripts, r.proofs);
    if ts.Ok? && MatchEntry(d, r).Some? {
      MatchGood(d, r);
      SilentMatch(d, r);
      AdmitKeeps(d, setupId, s, event, wicked, ts.value, MatchEntry(d, r).value);
    }
  }

  lemma InvParts(d: Digests, setupId: string, limit: int, s: State)
    requires Inv(d, setupId, limit, s)
    ensures OwnIds(s.handling, HandlingId) && (forall k :: k in s.handling ==> GoodHandling(d, s.handling[k]))
    ensures GoodTranscripts(s.transcripts)
  {
  }

  /** Admitting the rows of a good match keeps the invariant. */
  lemma AdmitKeeps(
    d: Digests, setupId: string, s: State, event: Event, wicked: map<Id, Handling>, ts: map<Context, Transcript>,
    rows: Rows)
    requires CollisionFree(d) && Inv(d, setupId, event.request.bar.closeEpoch, s) && s.terminal.None?
    requires OwnIds(wicked, HandlingId) && forall k :: k in wicked ==> GoodHandling(d, wicked[k])
    requires GoodTranscripts(ts) && GoodRows(d, setupId, event.request.bar.closeEpoch, rows)
    requires ValidSetup(event.request.setup) && (Silent(event.request.setup) ==> rows == NO_ROWS)
    requires event.request.setup.terminalEpoch.Some? ==>
               event.request.setup.terminalEpoch.value == event.request.bar.closeEpoch
    ensures var r := Admit(s, event, wicked, ts, rows);
      && (r.Ok? ==> Inv(d, setupId, event.request.bar.closeEpoch, r.value))
      && (r.Err? ==> Reachable(r.error))
  {
    hide Accept, Merge, MergeTerminal, GoodHandling, GoodCandidate, KeepEvidence, KeepHandling;
    hide GoodLedger, OnePerModel, AllGood, GoodRows, ActiveModels;
    var now := event.request.bar.closeEpoch;
    var start := Admission(s.first, s.candidates, {});
    GoodRowsCandidates(d, setupId, now, rows);
    AcceptKeeps(d, setupId, now, start, rows.candidates);
    var a := Accept(start, rows.candidates).value;
    AcceptNothing(start);
    LedgerGrows(d, setupId, now, s, wicked, rows, a);
    ActiveGrow(s.first, a.first);
    TerminalKeeps(event.request.setup, now, ActiveModels(s.first), ActiveModels(a.first));
    var r := Admit(s, event, wicked, ts, rows);
    if r.Ok? {
      var t := r.value;
      SameLedger(d, now, s.(candidates := t.candidates, evidence := t.evidence, handling := t.handling), t);
    }
  }

  lemma GoodRowsCandidates(d: Digests, setupId: string, limit: int, rows: Rows)
    requires GoodRows(d, setupId, limit, rows)
    ensures forall c :: c in rows.candidates ==> GoodCandidate(d, setupId, limit, c)
  {
  }

  lemma ActiveGrow(first: map<Model, Candidate>, later: map<Model, Candidate>)
    requires forall m :: m in first ==> m in later
    ensures ActiveModels(first) <= ActiveModels(later)
  {
  }

  lemma SameLedger(d: Digests, limit: int, s: State, t: State)
    requires GoodLedger(d, limit, s)
    requires t.candidates == s.candidates && t.evidence == s.evidence && t.handling == s.handling
    ensures GoodLedger(d, limit, t)
  {
  }

  lemma AcceptNothing(a: Admission)
    ensures Accept(a, []) == Ok(a)
  {
  }

  /** Every step keeps the invariant, and a refusal is never one of the unreachable ones. */
  lemma StepKeeps(d: Digests, setupId: string, limit: int, s: State, event: Event)
    requires CollisionFree(d) && Inv(d, setupId, limit, s)
    requires event.request.setup.setupId == setupId && limit <= event.request.bar.closeEpoch
    ensures Step(d, s, event).Ok? ==> Inv(d, setupId, event.request.bar.closeEpoch, Step(d, s, event).value)
    ensures Step(d, s, event).Err? ==> Reachable(Step(d, s, event).error)
  {
    if s.terminal.Some? {
      GraceKeeps(d, setupId, limit, s, event);
      if GraceStep(d, s, event).Ok? {
        InvGrows(d, setupId, limit, event.request.bar.closeEpoch, GraceStep(d, s, event).value);
      }
    } else {
      OpenKeeps(d, setupId, limit, s, event);
    }
  }
}
