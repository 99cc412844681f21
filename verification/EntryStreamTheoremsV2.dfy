/**
 Theorems about whole version 2 entry streams.
 */
module EntryStreamTheoremsV2 {
  import opened Common
  import opened EntryTerms
  import opened EntryDomainV2
  import opened EntryMatcherV2
  import opened EntryArbitratorV2
  import opened EntryStreamV2
  import opened EntryStreamRunsV2
  import opened Sorting
  import opened Indexing

  // ---------------------------------------------------------------- the stream is a function of the event set

  ghost predicate ClosesAscend(events: seq<Event>)
  {
    forall i, j :: 0 <= i < j < |events| ==> events[i].request.bar.closeEpoch <= events[j].request.bar.closeEpoch
  }

  lemma {:induction false} InsertAscends(e: Event, s: seq<Event>)
    requires ClosesAscend(s)
    ensures ClosesAscend(Insert(e, s, EventBefore))
    ensures forall x :: x in Insert(e, s, EventBefore) ==> x == e || x in s
  {
    if s != [] && EventBefore(s[0], e) {
      InsertAscends(e, s[1..]);
      assert forall x :: x in s[1..] ==> s[0].request.bar.closeEpoch <= x.request.bar.closeEpoch;
    }
  }

  lemma {:induction false} SortAscends(s: seq<Event>)
    ensures ClosesAscend(Sort(s, EventBefore))
  {
    if s != [] {
      SortAscends(s[1..]);
      InsertAscends(s[0], Sort(s[1..], EventBefore));
    }
  }

  lemma {:induction false} AdjacentDistinct(s: seq<Event>, i: nat, j: nat)
    requires ClosesAscend(s) && BarsFollow(s) && i < j < |s|
    ensures EventBefore(s[i], s[j])
  {
    assert s[i].request.bar.closeEpoch != s[i + 1].request.bar.closeEpoch;
    assert i + 1 < j ==> s[i + 1].request.bar.closeEpoch <= s[j].request.bar.closeEpoch;
  }

  /** Prepared events are strictly ordered by close and are exactly the distinct input events. */
  lemma PreparedIsSorted(events: seq<Event>, revision: int, evaluatedAt: int)
    requires OrderEvents(events, revision, evaluatedAt).Ok?
    ensures var ordered := OrderEvents(events, revision, evaluatedAt).value;
      ordered != [] && StrictlySorted(ordered, EventBefore) && Elements(ordered) == Elements(events)
  {
    var ordered := OrderEvents(events, revision, evaluatedAt).value;
    SortAscends(Dedup(events));
    SortKeeps(Dedup(events), EventBefore);
    forall i, j | 0 <= i < j < |ordered| ensures EventBefore(ordered[i], ordered[j]) {
      AdjacentDistinct(ordered, i, j);
    }
  }

  lemma SortsToSame(ordered: seq<Event>, distinct: seq<Event>)
    requires StrictlySorted(ordered, EventBefore) && NoDuplicates(distinct) && Elements(distinct) == Elements(ordered)
    ensures Sort(distinct, EventBefore) == ordered
  {
    forall x, y | x in Elements(distinct) && y in Elements(distinct) && x != y
      ensures EventBefore(x, y) || EventBefore(y, x)
    {
      assert x in ordered && y in ordered;
    }
    SortSorts(distinct, EventBefore);
    SortKeeps(distinct, EventBefore);
    assert Elements(Sort(distinct, EventBefore)) == Elements(ordered);
    SortedUnique(Sort(distinct, EventBefore), ordered, EventBefore);
  }

  lemma MergeSame(events: seq<Event>, events': seq<Event>)
    requires Elements(events) == Elements(events')
    ensures Merge(map[], events, EventId).Some? <==> Merge(map[], events', EventId).Some?
  {
    MergeIndexes(map[], {}, events, EventId);
    MergeIndexes(map[], {}, events', EventId);
  }

  lemma OrderSame(events: seq<Event>, events': seq<Event>, revision: int, evaluatedAt: int)
    requires Elements(events) == Elements(events') && OrderEvents(events, revision, evaluatedAt).Ok?
    ensures OrderEvents(events', revision, evaluatedAt) == OrderEvents(events, revision, evaluatedAt)
  {
    var ordered := OrderEvents(events, revision, evaluatedAt).value;
    PreparedIsSorted(events, revision, evaluatedAt);
    assert events[0] in Elements(events');
    MergeSame(events, events');
    assert Elements(Dedup(events')) == Elements(ordered);
    SortsToSame(ordered, Dedup(events'));
  }

  /** Reordering or repeating the input events changes neither acceptance nor any part of the result. */
  lemma StreamIgnoresOrder(
    d: Digests, events: seq<Event>, events': seq<Event>, invalidated: bool, revision: int, evaluatedAt: int)
    requires Elements(events) == Elements(events')
    ensures Evaluate(d, events, invalidated, revision, evaluatedAt).Ok?
            <==> Evaluate(d, events', invalidated, revision, evaluatedAt).Ok?
    ensures Evaluate(d, events, invalidated, revision, evaluatedAt).Ok? ==>
              Evaluate(d, events, invalidated, revision, evaluatedAt)
              == Evaluate(d, events', invalidated, revision, evaluatedAt)
  {
    if OrderEvents(events, revision, evaluatedAt).Ok? {
      OrderSame(events, events', revision, evaluatedAt);
    } else if OrderEvents(events', revision, evaluatedAt).Ok? {
      OrderSame(events', events, revision, evaluatedAt);
    }
  }

  // ---------------------------------------------------------------- runs

  function LastClose(events: seq<Event>, start: int): int
  {
    if events == [] then start else events[|events| - 1].request.bar.closeEpoch
  }

  /** One setup, closes in order, none before `start`. */
  ghost predicate Stream(setupId: string, start: int, events: seq<Event>)
  {
    && ClosesAscend(events)
    && forall i :: 0 <= i < |events| ==>
         events[i].request.setup.setupId == setupId && start <= events[i].request.bar.closeEpoch
  }

  /** Every run keeps the invariant; no run ends in a refusal that is not listed as reachable. */
  lemma {:induction false} RunKeeps(d: Digests, setupId: string, start: int, events: seq<Event>)
    requires CollisionFree(d) && Stream(setupId, start, events)
    ensures Run(d, events).Ok? ==> Inv(d, setupId, LastClose(events, start), Run(d, events).value)
    ensures Run(d, events).Err? ==> Reachable(Run(d, events).error)
  {
    if events != [] {
      var n := |events| - 1;
      RunKeeps(d, setupId, start, events[..n]);
      if Run(d, events[..n]).Ok? {
        assert n > 0 ==> events[n - 1].request.bar.closeEpoch <= events[n].request.bar.closeEpoch;
        StepKeeps(d, setupId, LastClose(events[..n], start), Run(d, events[..n]).value, events[n]);
      }
    }
  }

  lemma StepShape(d: Digests, s: State, event: Event)
    requires Step(d, s, event).Ok?
    ensures ValidShape(event.request)
  {
  }

  lemma PreparedIsStream(events: seq<Event>, revision: int, evaluatedAt: int) returns (setupId: string, start: int)
    requires OrderEvents(events, revision, evaluatedAt).Ok?
    ensures var ordered := OrderEvents(events, revision, evaluatedAt).value;
      && ordered != [] && Stream(setupId, start, ordered)
      && setupId == ordered[0].request.setup.setupId
      && LastClose(ordered, start) <= evaluatedAt && SafeNat(revision) && SafeNat(evaluatedAt)
  {
    PreparedIsSorted(events, revision, evaluatedAt);
    var ordered := OrderEvents(events, revision, evaluatedAt).value;
    setupId, start := ordered[0].request.setup.setupId, ordered[0].request.bar.closeEpoch;
    forall i | 0 <= i < |ordered|
      ensures ordered[i].request.setup.setupId == setupId && start <= ordered[i].request.bar.closeEpoch
    {
      assert ordered[i] in ordered;
      assert i > 0 ==> EventBefore(ordered[0], ordered[i]);
    }
  }

  lemma ValuesOwnIds<T(!new)>(m: map<Id, T>, id: T -> Id)
    requires OwnIds(m, id)
    ensures Consistent(Elements(ValuesById(m)), id)
    ensures forall x :: x in ValuesById(m) <==> id(x) in m && m[id(x)] == x
    ensures NoDuplicates(ValuesById(m))
  {
    var ids, values := AscendingIds(m.Keys), ValuesById(m);
    forall x ensures x in values <==> id(x) in m && m[id(x)] == x {
      if id(x) in m && m[id(x)] == x {
        assert id(x) in ids;
        var i :| 0 <= i < |ids| && ids[i] == id(x);
        assert values[i] == x;
      }
    }
    forall i, j | 0 <= i < j < |values| ensures values[i] != values[j] {
      assert id(values[i]) == ids[i] && id(values[j]) == ids[j];
    }
  }

  /** Whatever the event loop accumulated, the final arbitration accepts it. */
  lemma LoopMeetsArbitrator(d: Digests, setupId: string, s: State, limit: int, revision: int, evaluatedAt: int)
    requires CollisionFree(d) && Inv(d, setupId, limit, s) && ClosedText(setupId)
    requires limit <= evaluatedAt && SafeNat(revision) && SafeNat(evaluatedAt)
    ensures Accepted(d, FinalRequest(s, setupId, revision, evaluatedAt))
  {
    var q := FinalRequest(s, setupId, revision, evaluatedAt);
    assert OwnIds(s.candidates, CandidateId);
    ValuesOwnIds(s.candidates, CandidateId);
    ValuesOwnIds(s.evidence, EvidenceId);
    forall c | c in q.candidates ensures CandidateOk(d, q, c) {
      assert GoodCandidate(d, setupId, limit, s.candidates[CandidateId(c)]);
    }
    forall e | e in q.evidence ensures EvidenceOk(d, q, e) && Known(q.candidates, e.body.candidateId) {
      assert GoodEvidence(d, limit, s.evidence[EvidenceId(e)]);
      var c := s.candidates[e.body.candidateId];
      assert CandidateId(c) == e.body.candidateId && c in q.candidates;
    }
  }

  /** `evaluateEntryStream` never fails in its last step, and a refused stream is refused for a listed reason. */
  lemma ArbitrationNeverRejects(
    d: Digests, events: seq<Event>, invalidated: bool, revision: int, evaluatedAt: int)
    requires CollisionFree(d)
    ensures var r := Evaluate(d, events, invalidated, revision, evaluatedAt);
      r.Err? ==>
        || r.error in {EmptyStream, BadArguments, EventConflict, AttemptScope, BarsNotConsecutive,
                       EvaluationTooEarly, InvalidationDisagrees}
        || Reachable(r.error)
  {
    if OrderEvents(events, revision, evaluatedAt).Ok? {
      var setupId, start := PreparedIsStream(events, revision, evaluatedAt);
      var ordered := OrderEvents(events, revision, evaluatedAt).value;
      RunKeeps(d, setupId, start, ordered);
      if Run(d, ordered).Ok? {
        var n := |ordered| - 1;
        StepShape(d, Run(d, ordered[..n]).value, ordered[n]);
        LoopMeetsArbitrator(d, setupId, Run(d, ordered).value, LastClose(ordered, start), revision, evaluatedAt);
      }
    }
  }

  /** `evaluateEntryStream` as written: order the events, loop over them, arbitrate. */
  method EvaluateEntryStream(d: Digests, events: seq<Event>, invalidated: bool, revision: int, evaluatedAt: int)
    returns (r: Result<Evaluation, StreamError>)
    ensures r == Evaluate(d, events, invalidated, revision, evaluatedAt)
  {
    var ordered := OrderEvents(events, revision, evaluatedAt);
    if ordered.Err? {
      return Err(ordered.error);
    }
    var s := INITIAL;
    for i := 0 to |ordered.value|
      invariant Run(d, ordered.value[..i]) == Ok(s)
    {
      assert ordered.value[..i + 1][..i] == ordered.value[..i];
      var next := Step(d, s, ordered.value[i]);
      if next.Err? {
        RefusalEnds(d, ordered.value, i + 1, next.error);
        return Err(next.error);
      }
      s := next.value;
    }
    assert ordered.value[..|ordered.value|] == ordered.value;
    var q := FinalRequest(
      s, if ordered.value != [] then ordered.value[0].request.setup.setupId else "", revision, evaluatedAt);
    if q.invalidated != invalidated {
      return Err(InvalidationDisagrees);
    }
    var selection := Arbitrate(d, q);
    if selection.Err? {
      return Err(ArbitrationRejected);
    }
    return Ok(Evaluation(q.candidates, q.evidence, ValuesById(s.handling), selection.value));
  }

  /** A refusal of some prefix is the refusal of the whole. */
  lemma {:induction false} RefusalEnds(d: Digests, events: seq<Event>, k: nat, error: StreamError)
    requires k <= |events| && Run(d, events[..k]) == Err(error)
    ensures Run(d, events) == Err(error)
  {
    if k < |events| {
      assert events[..|events| - 1][..k] == events[..k];
      RefusalEnds(d, events[..|events| - 1], k, error);
    } else {
      assert events[..k] == events;
    }
  }

  // ---------------------------------------------------------------- the terminal fact

  /** Both active models are kept exactly when the terminal says so, and no model is kept twice. */
  lemma TerminalCharacterised(d: Digests, setupId: string, start: int, events: seq<Event>)
    requires CollisionFree(d) && Stream(setupId, start, events) && Run(d, events).Ok?
    ensures var s := Run(d, events).value;
      && (DirClose in s.first && HtfFlip in s.first <==>
            s.terminal.Some? && s.terminal.value.reason == BothActiveModelsObserved)
      && (forall id, id' :: id in s.candidates && id' in s.candidates && id != id' ==>
            s.candidates[id].key.model != s.candidates[id'].key.model)
  {
    RunKeeps(d, setupId, start, events);
    var s := Run(d, events).value;
    assert Both(ActiveModels(s.first)) <==> DirClose in s.first && HtfFlip in s.first;
  }

  /** `t` differs from `s` at most in what a grace event may change. */
  ghost predicate OnlyHandling(s: State, t: State)
  {
    t == s.(handling := t.handling, graceConsumed := t.graceConsumed, previous := t.previous)
  }

  lemma GraceEffects(d: Digests, s: State, event: Event, t: State)
    requires s.terminal.Some? && GraceStep(d, s, event) == Ok(t)
    ensures !s.graceConsumed && t.graceConsumed && OnlyHandling(s, t)
  {
  }

  lemma AdmitEffects(
    s: State, event: Event, wicked: map<Id, Handling>, ts: map<Context, Transcript>, rows: Rows)
    ensures var r := Admit(s, event, wicked, ts, rows);
      r.Ok? ==> r.value.graceConsumed == s.graceConsumed && r.value.transcripts == ts
  {
  }

  lemma OpenEffects(d: Digests, s: State, event: Event, t: State)
    requires OpenStep(d, s, event) == Ok(t)
    ensures t.graceConsumed == s.graceConsumed
    ensures UpsertProofs(d, event.request.setup, s.transcripts, event.request.proofs) == Ok(t.transcripts)
  {
    var r := event.request;
    var wicked := Merge(s.handling, Listed(Wick(d, s.previous, event, KeptClose(s), s.evidence)), HandlingId);
    var ts := UpsertProofs(d, r.setup, s.transcripts, r.proofs);
    AdmitEffects(s, event, wicked.value, ts.value, MatchEntry(d, r).value);
  }

  /** What one accepted step does to the terminal, the grace flag and the transcripts. */
  lemma StepEffects(d: Digests, s: State, event: Event, t: State)
    requires Step(d, s, event) == Ok(t)
    ensures s.terminal.Some? ==> !s.graceConsumed && t.graceConsumed && OnlyHandling(s, t)
    ensures s.terminal.None? ==>
              t.graceConsumed == s.graceConsumed &&
              UpsertProofs(d, event.request.setup, s.transcripts, event.request.proofs) == Ok(t.transcripts)
  {
    if s.terminal.Some? {
      GraceEffects(d, s, event, t);
    } else {
      OpenEffects(d, s, event, t);
    }
  }

  /** The last two states of a run. */
  lemma LastStep(d: Digests, events: seq<Event>) returns (s: State, t: State)
    requires events != [] && Run(d, events).Ok?
    ensures Run(d, events[..|events| - 1]) == Ok(s) && Run(d, events) == Ok(t)
    ensures s.terminal.Some? ==> !s.graceConsumed && t.graceConsumed && OnlyHandling(s, t)
    ensures s.terminal.None? ==>
              t.graceConsumed == s.graceConsumed &&
              UpsertProofs(d, events[|events| - 1].request.setup, s.transcripts, events[|events| - 1].request.proofs)
              == Ok(t.transcripts)
  {
    s, t := Run(d, events[..|events| - 1]).value, Run(d, events).value;
    StepEffects(d, s, events[|events| - 1], t);
  }

  /** At most one event follows the terminal fact, and it changes nothing but handling. */
  lemma {:induction false} TerminalEnds(d: Digests, events: seq<Event>, k: nat)
    requires k <= |events| && Run(d, events).Ok?
    requires Run(d, events[..k]).Ok? && Run(d, events[..k]).value.terminal.Some?
    ensures |events| <= k + 1
    ensures OnlyHandling(Run(d, events[..k]).value, Run(d, events).value)
    ensures |events| == k + 1 ==> Run(d, events).value.graceConsumed
  {
    hide Run;
    if |events| == k {
      assert events[..k] == events;
    } else {
      var n := |events| - 1;
      assert events[..n][..k] == events[..k];
      var s, t := LastStep(d, events);
      TerminalEnds(d, events[..n], k);
    }
  }

  /** Grace is consumed only by an event after the terminal fact. */
  lemma {:induction false} GraceUnusedWhenOpen(d: Digests, events: seq<Event>)
    requires Run(d, events).Ok? && Run(d, events).value.terminal.None?
    ensures !Run(d, events).value.graceConsumed
  {
    if events != [] {
      var s, t := LastStep(d, events);
      GraceUnusedWhenOpen(d, events[..|events| - 1]);
    }
  }

  // ---------------------------------------------------------------- transcripts along a run

  /** `t` continues `p`: a later anchor, or a longer prefix of the same one. */
  ghost predicate Continues(p: Transcript, t: Transcript)
  {
    || p.htfOpen < t.htfOpen
    || (&& p.htfOpen == t.htfOpen && p.cutoff <= t.cutoff && SameStatic(p, t)
        && p.expected <= t.expected && p.observed <= t.observed
        && (p.gap ==> t.gap) && (p.destinationFirst ==> t.destinationFirst)
        && (!t.gap && p.contact.Some? ==> t.contact == p.contact)
        && (!t.gap && p.recross.Some? ==> t.recross == p.recross))
  }

  ghost predicate AllContinue(ts: map<Context, Transcript>, us: map<Context, Transcript>)
  {
    forall c :: c in ts ==> c in us && Continues(ts[c], us[c])
  }

  /** A gap cannot be erased without breaking the child counts: the explicit check is never the first to fire. */
  lemma GapStaysByCounts(p: Transcript, t: Transcript)
    requires Counted(p) && Counted(t) && t.observed - p.observed <= t.expected - p.expected
    ensures p.gap ==> t.gap
  {
  }

  lemma UpsertContinues(ts: map<Context, Transcript>, t: Transcript)
    requires Upsert(ts, t).Ok?
    ensures AllContinue(ts, Upsert(ts, t).value)
  {
  }

  lemma ContinuesTransitive(ts: map<Context, Transcript>, us: map<Context, Transcript>, vs: map<Context, Transcript>)
    requires AllContinue(ts, us) && AllContinue(us, vs)
    ensures AllContinue(ts, vs)
  {
  }

  lemma {:induction false} UpsertsContinue(d: Digests, s: SetupFacts, ts: map<Context, Transcript>, ps: seq<ProofInput>)
    requires UpsertProofs(d, s, ts, ps).Ok?
    ensures AllContinue(ts, UpsertProofs(d, s, ts, ps).value)
    decreases |ps|
  {
    if ps != [] {
      var next := Upsert(ts, Resolve(d, s, ps[0]).value.transcript).value;
      UpsertContinues(ts, Resolve(d, s, ps[0]).value.transcript);
      UpsertsContinue(d, s, next, ps[1..]);
      ContinuesTransitive(ts, next, UpsertProofs(d, s, ts, ps).value);
    }
  }

  /** Along every run, from any earlier point to any later one, each transcript only continues. */
  lemma {:induction false} TranscriptsContinue(d: Digests, events: seq<Event>, k: nat)
    requires k <= |events| && Run(d, events).Ok?
    ensures Run(d, events[..k]).Ok?
    ensures AllContinue(Run(d, events[..k]).value.transcripts, Run(d, events).value.transcripts)
  {
    if k == |events| {
      assert events[..k] == events;
    } else {
      var n := |events| - 1;
      assert events[..n][..k] == events[..k];
      var s, t := LastStep(d, events);
      TranscriptsContinue(d, events[..n], k);
      if s.terminal.None? {
        UpsertsContinue(d, events[n].request.setup, s.transcripts, events[n].request.proofs);
      }
      ContinuesTransitive(Run(d, events[..k]).value.transcripts, s.transcripts, t.transcripts);
    }
  }
}
