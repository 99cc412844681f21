/**
 The version 2 entry stream (`evaluateEntryStream` in
 apps/observation-edge/src/rd-entry-arbitrator.ts): a state machine over confirmed
 five-minute bars that accumulates candidates, evidence and handling, tracks
 higher-timeframe transcripts, and stops at one terminal fact.
 */
module EntryStreamV2 {
  import opened Common
  import opened EntryTerms
  import opened EntryDomainV2
  import opened EntryMatcherV2
  import opened EntryArbitratorV2
  import opened Sorting
  import opened Indexing

  datatype Event = Event(id: string, request: MatchRequest)

  datatype TerminalFact = TerminalFact(reason: TerminalReason, epoch: int)

  datatype StreamError =
    | EmptyStream | BadArguments | EventConflict | AttemptScope | BarsNotConsecutive
    | EvaluationTooEarly
    | EventAfterTerminal | GraceChanged
    | ProofRejected | TranscriptBackwards | TranscriptBoundaryConflict | TranscriptStaticChanged
    | TranscriptCounts | TranscriptGapErased | TranscriptDestinationErased
    | TranscriptContactRewritten | TranscriptRecrossRewritten
    | MatchRejected | CandidateConflict | EvidenceConflict | HandlingConflict
    | OpenContradictsTerminal | TerminalEpochMismatch | TerminalChanged | BothWrongTerminal
    | InvalidationEmittedCandidate | InvalidationContradictsCandidates | NotInvalidation | BothNotCompletion
    | InvalidationDisagrees | ArbitrationRejected

  datatype State = State(
    transcripts: map<Context, Transcript>, candidates: map<Id, Candidate>, evidence: map<Id, Evidence>,
    handling: map<Id, Handling>, first: map<Model, Candidate>, terminal: Option<TerminalFact>,
    graceFrom: Option<Event>, graceConsumed: bool, previous: Option<Event>)

  const INITIAL := State(map[], map[], map[], map[], map[], None, None, false, None)

  // ---------------------------------------------------------------- transcripts

  /** Facts of a transcript that must not change while its anchor stays the same. */
  predicate SameStatic(a: Transcript, b: Transcript)
  {
    && a.context == b.context && a.coverageStart == b.coverageStart && a.ordered == b.ordered
    && a.htfOpen == b.htfOpen && a.htfOpenTicks == b.htfOpenTicks && a.resolution == b.resolution
  }

  /** `upsertLatestTranscript`. */
  function Upsert(ts: map<Context, Transcript>, t: Transcript): Result<map<Context, Transcript>, StreamError>
  {
    if t.context !in ts then Ok(ts[t.context := t])
    else
      var p := ts[t.context];
      if t.htfOpen < p.htfOpen || (t.htfOpen == p.htfOpen && t.cutoff < p.cutoff) then Err(TranscriptBackwards)
      else if t.htfOpen == p.htfOpen && t.cutoff == p.cutoff then
        if t == p then Ok(ts) else Err(TranscriptBoundaryConflict)
      else if t.htfOpen == p.htfOpen then
        if !SameStatic(p, t) then Err(TranscriptStaticChanged)
        else if !(t.expected > p.expected && 0 <= t.observed - p.observed <= t.expected - p.expected) then
          Err(TranscriptCounts)
        else if p.gap && !t.gap then Err(TranscriptGapErased)
        else if p.destinationFirst && !t.destinationFirst then Err(TranscriptDestinationErased)
        else if !p.gap && !t.gap && p.contact.Some? && t.contact != p.contact then Err(TranscriptContactRewritten)
        else if !p.gap && !t.gap && p.recross.Some? && t.recross != p.recross then Err(TranscriptRecrossRewritten)
        else Ok(ts[t.context := t])
      else Ok(ts[t.context := t])
  }

  function UpsertProofs(d: Digests, s: SetupFacts, ts: map<Context, Transcript>, ps: seq<ProofInput>)
    : Result<map<Context, Transcript>, StreamError>
    decreases |ps|
  {
    if ps == [] then Ok(ts)
    else
      var p := Resolve(d, s, ps[0]);
      if p.None? then Err(ProofRejected)
      else
        var next :- Upsert(ts, p.value.transcript);
        UpsertProofs(d, s, next, ps[1..])
  }

  // ---------------------------------------------------------------- handling of the next candle

  lemma LeastExists(ids: set<Id>)
    requires ids != {}
    ensures exists r :: r in ids && forall x :: x in ids ==> r <= x
  {
    var x :| x in ids;
    if ids == {x} {
      assert x in ids;
    } else {
      LeastExists(ids - {x});
      var r :| r in ids - {x} && forall y :: y in ids - {x} ==> r <= y;
      var m := if r <= x then r else x;
      assert forall y :: y in ids ==> y == x || y in ids - {x};
      assert m in ids && forall y :: y in ids ==> m <= y;
    }
  }

  function LeastId(ids: set<Id>): (r: Id)
    requires ids != {}
    ensures r in ids && forall x :: x in ids ==> r <= x
  {
    LeastExists(ids);
    var r :| r in ids && forall x :: x in ids ==> r <= x;
    r
  }

  function CloseIds(es: map<Id, Evidence>, id: Id, epoch: int): set<Id>
  {
    set k | k in es && es[k].body.candidateId == id && es[k].body.plane == Confirmed5m
            && es[k].body.triggerEpoch == Some(epoch)
  }

  /** The confirmed-close evidence of a candidate for one bar, the least id first. */
  function CloseEvidence(es: map<Id, Evidence>, id: Id, epoch: int): Option<Evidence>
  {
    var ids := CloseIds(es, id, epoch);
    if ids == {} then None else Some(es[LeastId(ids)])
  }

  /** `nextCandleWickHandling`. */
  function Wick(
    d: Digests, previous: Option<Event>, event: Event, close: Option<Candidate>, es: map<Id, Evidence>)
    : Option<Handling>
  {
    if previous.None? || close.None? then None
    else
      var c, bar := close.value, event.request.bar;
      var previousClose := previous.value.request.bar.closeEpoch;
      var proof := CloseEvidence(es, c.id, previousClose);
      var ticks :=
        if c.key.direction == Long && bar.lowTicks < Min(bar.openTicks, bar.closeTicks) then Some(bar.lowTicks)
        else if c.key.direction == Short && bar.highTicks > Max(bar.openTicks, bar.closeTicks) then Some(bar.highTicks)
        else None;
      if c.observedAt != previousClose || bar.openEpoch != previousClose
         || bar.closeEpoch != bar.openEpoch + 300 || proof.None? || ticks.None? then None
      else Some(BuildHandling(d, c, proof.value, NextCandleWick, previous.value.request.attempt,
                              bar.closeEpoch, ticks, Discretionary, NEXT_CANDLE_WICK_CLAIMS))
  }

  function Listed(h: Option<Handling>): seq<Handling>
  {
    if h.Some? then [h.value] else []
  }

  function KeptClose(s: State): Option<Candidate>
  {
    if DirClose in s.first then Some(s.first[DirClose]) else None
  }

  // ---------------------------------------------------------------- accepting a match

  datatype Admission = Admission(first: map<Model, Candidate>, candidates: map<Id, Candidate>, ids: set<Id>)

  /** Keeps the first candidate of each model; an equal candidate re-admits its evidence. */
  function Accept(a: Admission, cs: seq<Candidate>): Result<Admission, StreamError>
    decreases |cs|
  {
    if cs == [] then Ok(a)
    else
      var c := cs[0];
      if c.key.model in a.first then
        Accept(if a.first[c.key.model] == c then a.(ids := a.ids + {c.id}) else a, cs[1..])
      else if c.id in a.candidates && a.candidates[c.id] != c then Err(CandidateConflict)
      else
        Accept(Admission(a.first[c.key.model := c], a.candidates[c.id := c], a.ids + {c.id}), cs[1..])
  }

  function KeepEvidence(es: seq<Evidence>, ids: set<Id>): (r: seq<Evidence>)
    ensures forall e :: e in r <==> e in es && e.body.candidateId in ids
  {
    if es == [] then []
    else
      assert es == [es[0]] + es[1..];
      (if es[0].body.candidateId in ids then [es[0]] else []) + KeepEvidence(es[1..], ids)
  }

  function KeepHandling(hs: seq<Handling>, ids: set<Id>): (r: seq<Handling>)
    ensures forall h :: h in r <==> h in hs && h.key.candidateId in ids
  {
    if hs == [] then []
    else
      assert hs == [hs[0]] + hs[1..];
      (if hs[0].key.candidateId in ids then [hs[0]] else []) + KeepHandling(hs[1..], ids)
  }

  function ActiveModels(first: map<Model, Candidate>): set<Model>
  {
    set m | m in first && ActiveModel(m)
  }

  predicate Both(ms: set<Model>)
  {
    DirClose in ms && HtfFlip in ms
  }

  /** `mergeTerminalFact`. */
  function MergeTerminal(
    current: Option<TerminalFact>, s: SetupFacts, confirmed: int, before: set<Model>, after: set<Model>)
    : Result<Option<TerminalFact>, StreamError>
  {
    var completed := !Both(before) && Both(after);
    if s.terminalReason.None? then
      if s.terminalEpoch.Some? || s.invalidatedBeforeEntry || completed then Err(OpenContradictsTerminal)
      else Ok(current)
    else if s.terminalEpoch != Some(confirmed) then Err(TerminalEpochMismatch)
    else
      var presented := TerminalFact(s.terminalReason.value, s.terminalEpoch.value);
      if current.Some? then if current.value == presented then Ok(current) else Err(TerminalChanged)
      else if completed && presented.reason != BothActiveModelsObserved then Err(BothWrongTerminal)
      else if presented.reason != BothActiveModelsObserved && before != after then Err(InvalidationEmittedCandidate)
      else if presented.reason == Invalidated && s.invalidatedBeforeEntry != (before == {}) then
        Err(InvalidationContradictsCandidates)
      else if presented.reason != Invalidated && s.invalidatedBeforeEntry then Err(NotInvalidation)
      else if presented.reason == BothActiveModelsObserved && !completed then Err(BothNotCompletion)
      else Ok(Some(presented))
  }

  /** Admits the rows of one match and merges its terminal fact. */
  function Admit(
    s: State, event: Event, wicked: map<Id, Handling>, ts: map<Context, Transcript>, rows: Rows)
    : Result<State, StreamError>
  {
    var a :- Accept(Admission(s.first, s.candidates, {}), rows.candidates);
    var evidence := Merge(s.evidence, KeepEvidence(rows.evidence, a.ids), EvidenceId);
    var handling := Merge(wicked, KeepHandling(rows.handling, a.ids), HandlingId);
    if evidence.None? then Err(EvidenceConflict)
    else if handling.None? then Err(HandlingConflict)
    else
      var before, after := ActiveModels(s.first), ActiveModels(a.first);
      var terminal :- MergeTerminal(s.terminal, event.request.setup, event.request.bar.closeEpoch, before, after);
      var grace := terminal.Some? && terminal.value.reason == BothActiveModelsObserved
                   && DirClose !in before && DirClose in after && HtfFlip in before;
      Ok(State(ts, a.candidates, evidence.value, handling.value, a.first, terminal,
               if grace then Some(event) else s.graceFrom, s.graceConsumed, Some(event)))
  }

  /** A non-terminal event. */
  function OpenStep(d: Digests, s: State, event: Event): Result<State, StreamError>
  {
    var r := event.request;
    var wicked := Merge(s.handling, Listed(Wick(d, s.previous, event, KeptClose(s), s.evidence)), HandlingId);
    if wicked.None? then Err(HandlingConflict)
    else
      var ts :- UpsertProofs(d, r.setup, s.transcripts, r.proofs);
      var rows := MatchEntry(d, r);
      if rows.None? then Err(MatchRejected) else Admit(s, event, wicked.value, ts, rows.value)
  }

  /** `exactTerminalGraceFacts`. */
  predicate GraceFacts(event: Event, authority: Event, terminal: TerminalFact)
  {
    var r, a := event.request, authority.request;
    && r.setup.terminalReason == Some(terminal.reason) && r.setup.terminalEpoch == Some(terminal.epoch)
    && r.setup == a.setup && r.attempt == a.attempt && r.ordinal == a.ordinal
    && r.proofs == [] && !r.genericBreak && !r.rejectionRespect
  }

  /** An event after the terminal fact: at most the wick of the very next candle is recorded. */
  function GraceStep(d: Digests, s: State, event: Event): Result<State, StreamError>
    requires s.terminal.Some?
  {
    if !ValidShape(event.request) then Err(MatchRejected)
    else if s.graceFrom.None? || s.graceConsumed then Err(EventAfterTerminal)
    else if !GraceFacts(event, s.graceFrom.value, s.terminal.value) then Err(GraceChanged)
    else
      var handling := Merge(s.handling, Listed(Wick(d, s.graceFrom, event, KeptClose(s), s.evidence)), HandlingId);
      if handling.None? then Err(HandlingConflict)
      else Ok(s.(handling := handling.value, graceConsumed := true, previous := Some(event)))
  }

  function Step(d: Digests, s: State, event: Event): Result<State, StreamError>
  {
    if s.terminal.Some? then GraceStep(d, s, event) else OpenStep(d, s, event)
  }

  /** The event loop. */
  function Run(d: Digests, events: seq<Event>): Result<State, StreamError>
  {
    if events == [] then Ok(INITIAL)
    else
      var s :- Run(d, events[..|events| - 1]);
      Step(d, s, events[|events| - 1])
  }

  // ---------------------------------------------------------------- ordering the events

  function EventId(e: Event): string { e.id }

  /** Confirmed bars by close. The source breaks ties by event id, but a tie is refused below. */
  predicate EventBefore(a: Event, b: Event)
  {
    a.request.bar.closeEpoch < b.request.bar.closeEpoch
  }

  predicate SameImmutable(a: SetupFacts, b: SetupFacts)
  {
    && a.commonFidelity == b.commonFidelity && a.direction == b.direction && a.setupId == b.setupId
    && a.zoneBottom == b.zoneBottom && a.zoneEngaged == b.zoneEngaged && a.zoneTop == b.zoneTop
  }

  /** `validateAttemptScope`, for one event against the first. */
  predicate InScope(base: MatchRequest, e: Event)
  {
    var r := e.request;
    && ClosedText(e.id)
    && SameImmutable(r.setup, base.setup) && r.attempt == base.attempt && r.ordinal == base.ordinal
    && (r.attempt == Initial ==> r.ordinal == 1)
    && (r.attempt == ReEntry ==> r.ordinal >= 2)
    && r.ordinal >= 1
  }

  predicate BarsFollow(ordered: seq<Event>)
  {
    forall i :: 0 < i < |ordered| ==>
      && ordered[i - 1].request.bar.closeEpoch != ordered[i].request.bar.closeEpoch
      && ordered[i - 1].request.bar.closeEpoch <= ordered[i].request.bar.openEpoch
  }

  /** The checks on the ordered events. */
  function CheckOrdered(ordered: seq<Event>, evaluatedAt: int): Result<seq<Event>, StreamError>
    requires ordered != []
  {
    if exists e :: e in ordered && !InScope(ordered[0].request, e) then Err(AttemptScope)
    else if !BarsFollow(ordered) then Err(BarsNotConsecutive)
    else if evaluatedAt < ordered[|ordered| - 1].request.bar.closeEpoch then Err(EvaluationTooEarly)
    else Ok(ordered)
  }

  function Ordered(events: seq<Event>): (r: seq<Event>)
    ensures events != [] ==> r != []
  {
    SortKeeps(Dedup(events), EventBefore);
    assert events != [] ==> events[0] in Dedup(events);
    Sort(Dedup(events), EventBefore)
  }

  /** Deduplicated and sorted events, or why they are refused. */
  function OrderEvents(events: seq<Event>, revision: int, evaluatedAt: int): Result<seq<Event>, StreamError>
  {
    if events == [] then Err(EmptyStream)
    else if !SafeNat(revision) || !SafeNat(evaluatedAt) then Err(BadArguments)
    else if Merge(map[], events, EventId).None? then Err(EventConflict)
    else CheckOrdered(Ordered(events), evaluatedAt)
  }

  // ---------------------------------------------------------------- the result

  function AscendingIds(ids: set<Id>): (r: seq<Id>)
    ensures forall x :: x in r <==> x in ids
    ensures forall i, j :: 0 <= i < j < |r| ==> r[i] < r[j]
  {
    if ids == {} then []
    else
      var m := LeastId(ids);
      [m] + AscendingIds(ids - {m})
  }

  function ValuesById<T>(m: map<Id, T>): (r: seq<T>)
    ensures |r| == |AscendingIds(m.Keys)|
    ensures forall i :: 0 <= i < |r| ==> AscendingIds(m.Keys)[i] in m && r[i] == m[AscendingIds(m.Keys)[i]]
  {
    var ids := AscendingIds(m.Keys);
    seq(|ids|, i requires 0 <= i < |ids| => m[ids[i]])
  }

  function FinalRequest(s: State, setupId: string, revision: int, evaluatedAt: int): Request
  {
    var invalidated :=
      s.terminal.Some? && s.terminal.value.reason == Invalidated && ActiveModels(s.first) == {};
    Request(setupId, invalidated, revision, ValuesById(s.candidates), ValuesById(s.evidence), evaluatedAt)
  }

  /** `evaluateEntryStream`. */
  ghost function Evaluate(d: Digests, events: seq<Event>, invalidated: bool, revision: int, evaluatedAt: int)
    : Result<Evaluation, StreamError>
  {
    var ordered :- OrderEvents(events, revision, evaluatedAt);
    var s :- Run(d, ordered);
    var q := FinalRequest(s, if ordered != [] then ordered[0].request.setup.setupId else "", revision, evaluatedAt);
    if q.invalidated != invalidated then Err(InvalidationDisagrees)
    else if !Accepted(d, q) then Err(ArbitrationRejected)
    else Ok(Evaluation(q.candidates, q.evidence, ValuesById(s.handling), Select(d, q)))
  }
}
