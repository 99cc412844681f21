/**
 Which version 2 entry streams are accepted, stated on their events.
 */
module EntryStreamAcceptanceV2 {
  import opened Common
  import opened EntryTerms
  import opened EntryDomainV2
  import opened EntryMatcherV2
  import opened EntryMatchMeaningV2
  import opened EntryArbitratorV2
  import opened EntryStreamV2
  import opened EntryStreamRunsV2
  import opened EntryStreamTheoremsV2
  import opened EntryStreamMeaningV2
  import opened Sorting
  import opened Indexing

  // Transcripts, on the events

  /** The last transcript given for a context. */
  function GivenFor(ps: seq<ProofInput>, c: Context): Option<Transcript>
  {
    if ps == [] then None
    else
      var later := GivenFor(ps[1..], c);
      if later.Some? then later
      else if TranscriptOf(ps[0]).context == c then Some(TranscriptOf(ps[0])) else None
  }

  function Latest(events: seq<Event>, c: Context): Option<Transcript>
  {
    if events == [] then None
    else
      var given := GivenFor(events[|events| - 1].request.proofs, c);
      if given.Some? then given else Latest(events[..|events| - 1], c)
  }

  function Missing(t: Transcript): int
  {
    t.expected - t.observed
  }

  /** `t` may follow `p`: the same, a later candle, or more of the same candle. */
  predicate Follows(p: Transcript, t: Transcript)
  {
    || t == p || p.htfOpen < t.htfOpen
    || (&& p.htfOpen == t.htfOpen && p.cutoff < t.cutoff
        && p.htfOpenTicks == t.htfOpenTicks && p.resolution == t.resolution && p.ordered == t.ordered
        && p.observed <= t.observed && Missing(p) <= Missing(t) && (p.destinationFirst ==> t.destinationFirst)
        && (Missing(t) == 0 ==>
              (p.contact.Some? ==> t.contact == p.contact) && (p.recross.Some? ==> t.recross == p.recross)))
  }

  /** The scan's own bounds and counts. */
  predicate Spanned(t: Transcript)
  {
    && t.resolution >= 1 && t.coverageStart == t.htfOpen && t.expected * t.resolution == t.cutoff - t.htfOpen
    && t.observed <= t.expected && (t.gap <==> t.observed < t.expected)
  }

  function Lookup(ts: map<Context, Transcript>, c: Context): Option<Transcript>
  {
    if c in ts then Some(ts[c]) else None
  }

  ghost predicate AllSpanned(ts: map<Context, Transcript>)
  {
    forall c :: c in ts ==> ts[c].context == c && Spanned(ts[c])
  }

  lemma MoreBars(a: int, b: int, resolution: int, x: int, y: int)
    requires resolution >= 1 && a * resolution == x && b * resolution == y && x < y
    ensures a < b
  {
    NoneGained(b - a, resolution);
    assert (b - a) * resolution == y - x;
  }

  lemma NoneGained(k: int, m: int)
    requires m >= 0
    ensures k <= 0 ==> k * m <= 0
  {
  }

  /** A transcript is taken exactly when it follows the stored one of its context. */
  lemma UpsertExactly(ts: map<Context, Transcript>, t: Transcript)
    requires AllSpanned(ts) && Spanned(t)
    ensures Upsert(ts, t).Ok? <==> (t.context in ts ==> Follows(ts[t.context], t))
    ensures Upsert(ts, t).Ok? ==> Upsert(ts, t).value == ts[t.context := t]
  {
    if t.context in ts {
      var p := ts[t.context];
      if p.htfOpen == t.htfOpen && p.cutoff < t.cutoff && p.resolution == t.resolution {
        MoreBars(p.expected, t.expected, t.resolution, p.cutoff - p.htfOpen, t.cutoff - t.htfOpen);
      }
      assert t == p ==> ts == ts[t.context := t];
    }
  }

  lemma ScanIsSpanned(s: SetupFacts, t: Transcript)
    requires Scans(s, t)
    ensures Spanned(t)
  {
    hide Lifecycle, KeptBars;
  }

  ghost predicate ContextsDiffer(ps: seq<ProofInput>)
  {
    forall i, j :: 0 <= i < j < |ps| ==> TranscriptOf(ps[i]).context != TranscriptOf(ps[j]).context
  }

  lemma {:induction false} GivenIs(ps: seq<ProofInput>, c: Context)
    ensures GivenFor(ps, c).None? <==> forall i :: 0 <= i < |ps| ==> TranscriptOf(ps[i]).context != c
    ensures GivenFor(ps, c).Some? ==>
              exists i :: 0 <= i < |ps| && GivenFor(ps, c) == Some(TranscriptOf(ps[i]))
                && TranscriptOf(ps[i]).context == c
  {
    if ps != [] {
      GivenIs(ps[1..], c);
      assert forall i :: 1 <= i < |ps| ==> ps[i] == ps[1..][i - 1];
      if GivenFor(ps[1..], c).Some? {
        var i :| 0 <= i < |ps| - 1 && GivenFor(ps[1..], c) == Some(TranscriptOf(ps[1..][i]))
                 && TranscriptOf(ps[1..][i]).context == c;
        assert ps[i + 1] == ps[1..][i];
      }
    }
  }

  /** All given transcripts follow what is stored. */
  ghost predicate AllFollow(ts: map<Context, Transcript>, ps: seq<ProofInput>)
  {
    forall i :: 0 <= i < |ps| ==>
      var t := TranscriptOf(ps[i]); t.context in ts ==> Follows(ts[t.context], t)
  }

  lemma {:induction false} UpsertsExactly(d: Digests, s: SetupFacts, ts: map<Context, Transcript>, ps: seq<ProofInput>)
    requires AllSpanned(ts) && ContextsDiffer(ps)
    requires forall i :: 0 <= i < |ps| ==>
               Resolve(d, s, ps[i]).Some? && Resolve(d, s, ps[i]).value.transcript == TranscriptOf(ps[i])
               && Spanned(TranscriptOf(ps[i]))
    ensures UpsertProofs(d, s, ts, ps).Ok? <==> AllFollow(ts, ps)
    ensures UpsertProofs(d, s, ts, ps).Ok? ==>
              var us := UpsertProofs(d, s, ts, ps).value;
              && AllSpanned(us)
              && forall c :: Lookup(us, c) == if GivenFor(ps, c).Some? then GivenFor(ps, c) else Lookup(ts, c)
    decreases |ps|
  {
    hide Follows, Spanned, Resolve, Upsert;
    if ps != [] {
      var t := TranscriptOf(ps[0]);
      UpsertExactly(ts, t);
      var next := ts[t.context := t];
      assert forall i :: 0 <= i < |ps| - 1 ==> ps[1..][i] == ps[i + 1];
      assert forall i :: 1 <= i < |ps| ==> ps[i] == ps[1..][i - 1];
      UpsertsExactly(d, s, next, ps[1..]);
      assert AllFollow(next, ps[1..]) <==> AllFollow(ts, ps[1..]);
      GivenIs(ps[1..], t.context);
    }
  }

  // The terminal fact, on the events

  ghost predicate Seen(d: Digests, events: seq<Event>, m: Model)
  {
    exists i, c :: 0 <= i < |events| && Calls(d, events[i], c) && c.key.model == m
  }

  ghost predicate BothSeen(d: Digests, events: seq<Event>)
  {
    Seen(d, events, DirClose) && Seen(d, events, HtfFlip)
  }

  /** The first terminal fact of the events. */
  function EndFact(events: seq<Event>): Option<TerminalFact>
  {
    if events == [] then None
    else
      var s := events[|events| - 1].request.setup;
      var before := EndFact(events[..|events| - 1]);
      if before.Some? then before
      else if s.terminalReason.Some? && s.terminalEpoch.Some?
      then Some(TerminalFact(s.terminalReason.value, s.terminalEpoch.value)) else None
  }

  /** The terminal reason of an event fits what is seen up to it. */
  ghost predicate ReasonFits(d: Digests, events: seq<Event>)
    requires events != []
  {
    var s, prefix := events[|events| - 1].request.setup, events[..|events| - 1];
    match s.terminalReason
    case None => !BothSeen(d, events)
    case Some(BothActiveModelsObserved) => BothSeen(d, events)
    case Some(Invalidated) =>
      s.invalidatedBeforeEntry <==> !Seen(d, prefix, DirClose) && !Seen(d, prefix, HtfFlip)
    case Some(RetentionEvicted) => true
  }

  /** From an open state. */
  lemma MergedExactly(s: SetupFacts, confirmed: int, before: set<Model>, after: set<Model>)
    requires ValidSetup(s) && (s.terminalEpoch.Some? ==> s.terminalEpoch.value == confirmed)
    requires before <= after <= {DirClose, HtfFlip} && !Both(before) && (Silent(s) ==> before == after)
    ensures var r := MergeTerminal(None, s, confirmed, before, after);
      && (r.Ok? <==>
            match s.terminalReason
            case None => !Both(after)
            case Some(BothActiveModelsObserved) => Both(after)
            case Some(Invalidated) => s.invalidatedBeforeEntry <==> before == {}
            case Some(RetentionEvicted) => true)
      && (r.Ok? ==>
            r.value ==
              if s.terminalReason.Some? then Some(TerminalFact(s.terminalReason.value, confirmed)) else None)
  {
  }

  // One event

  /** An event may come next while no terminal fact exists. */
  ghost predicate OpenFits(d: Digests, events: seq<Event>)
    requires events != []
  {
    var e, prefix := events[|events| - 1], events[..|events| - 1];
    && Matchable(d, e.request)
    && (forall i :: 0 <= i < |e.request.proofs| ==>
          var t := TranscriptOf(e.request.proofs[i]);
          Latest(prefix, t.context).Some? ==> Follows(Latest(prefix, t.context).value, t))
    && ReasonFits(d, events)
  }

  /** The close that completed both models is the last event: the wick of the next bar is still awaited. */
  ghost predicate AwaitsWick(d: Digests, events: seq<Event>)
  {
    && events != []
    && var a, prefix := events[|events| - 1], events[..|events| - 1];
       && EndFact(prefix).None? && a.request.setup.terminalReason == Some(BothActiveModelsObserved)
       && Seen(d, prefix, HtfFlip) && !Seen(d, prefix, DirClose)
  }

  /** The one event that may come after the terminal fact. */
  ghost predicate GraceFits(d: Digests, events: seq<Event>)
    requires events != []
  {
    var r, prefix := events[|events| - 1].request, events[..|events| - 1];
    && AwaitsWick(d, prefix)
    && var a := prefix[|prefix| - 1].request;
       && WellShaped(r) && r.setup == a.setup && r.attempt == a.attempt && r.ordinal == a.ordinal
       && r.proofs == [] && !r.genericBreak && !r.rejectionRespect
  }

  /** Every event fits those before it. */
  ghost predicate AllFit(d: Digests, events: seq<Event>)
  {
    events == [] ||
    (&& AllFit(d, events[..|events| - 1])
     && if EndFact(events[..|events| - 1]).None? then OpenFits(d, events) else GraceFits(d, events))
  }

  /** The state after the events, as far as acceptance depends on it. */
  ghost predicate Tracks(d: Digests, events: seq<Event>, s: State)
  {
    && Holds(d, events, s) && AllSpanned(s.transcripts)
    && (forall c :: Lookup(s.transcripts, c) == Latest(events, c))
    && s.terminal == EndFact(events)
    && (s.graceFrom.Some? && !s.graceConsumed <==> AwaitsWick(d, events))
  }

  lemma ModelsSeen(d: Digests, events: seq<Event>, first: map<Model, Candidate>)
    requires OwnModels(first)
    requires forall c :: Filed(first, c) <==> Kept(d, events, c)
    requires forall i, c :: 0 <= i < |events| && Calls(d, events[i], c) ==> c.key.model in first
    ensures forall m :: m in first <==> Seen(d, events, m)
    ensures forall m :: m in ActiveModels(first) <==> ActiveModel(m) && Seen(d, events, m)
    ensures ActiveModels(first) <= {DirClose, HtfFlip}
  {
    hide Calls, Kept;
    forall m | m in first ensures Seen(d, events, m) {
      assert Filed(first, first[m]);
      KeptHas(d, events, first[m]);
      var i :| FirstCalled(d, events, i, first[m]);
      FirstIsCall(d, events, i, first[m]);
    }
  }

  /** With the run invariant, a step from an open state fails only for its own three reasons. */
  lemma OpenOk(d: Digests, setupId: string, limit: int, s: State, e: Event)
    requires CollisionFree(d) && Inv(d, setupId, limit, s) && s.terminal.None?
    requires e.request.setup.setupId == setupId && limit <= e.request.bar.closeEpoch
    ensures OpenStep(d, s, e).Ok? ==>
              && MatchEntry(d, e.request).Some?
              && UpsertProofs(d, e.request.setup, s.transcripts, e.request.proofs).Ok?
              && Accept(Admission(s.first, s.candidates, {}), MatchEntry(d, e.request).value.candidates).Ok?
    ensures MatchEntry(d, e.request).Some?
            && UpsertProofs(d, e.request.setup, s.transcripts, e.request.proofs).Ok? ==>
              var a := Accept(Admission(s.first, s.candidates, {}), MatchEntry(d, e.request).value.candidates);
              && a.Ok?
              && var merged := MergeTerminal(None, e.request.setup, e.request.bar.closeEpoch,
                                             ActiveModels(s.first), ActiveModels(a.value.first));
                 && (OpenStep(d, s, e).Ok? <==> merged.Ok?)
                 && (OpenStep(d, s, e).Ok? ==>
                       && OpenStep(d, s, e).value.terminal == merged.value
                       && OpenStep(d, s, e).value.first == a.value.first
                       && OpenStep(d, s, e).value.graceConsumed == s.graceConsumed
                       && OpenStep(d, s, e).value.transcripts ==
                            UpsertProofs(d, e.request.setup, s.transcripts, e.request.proofs).value
                       && OpenStep(d, s, e).value.graceFrom ==
                            if && IsBoth(merged.value) && DirClose !in ActiveModels(s.first)
                               && DirClose in ActiveModels(a.value.first) && HtfFlip in ActiveModels(s.first)
                            then Some(e) else s.graceFrom)
  {
    hide MatchEntry, Wick, KeptClose, UpsertProofs, Merge, Inv, Accept, MergeTerminal, KeepEvidence, KeepHandling;
    OpenKeeps(d, setupId, limit, s, e);
    if MatchEntry(d, e.request).Some? {
      AcceptError(Admission(s.first, s.candidates, {}), MatchEntry(d, e.request).value.candidates);
    }
  }

  lemma {:induction false} AcceptError(a: Admission, cs: seq<Candidate>)
    ensures Accept(a, cs).Err? ==> Accept(a, cs).error == CandidateConflict
    decreases |cs|
  {
    if cs != [] {
      var c := cs[0];
      if c.key.model in a.first {
        AcceptError(if a.first[c.key.model] == c then a.(ids := a.ids + {c.id}) else a, cs[1..]);
      } else {
        AcceptError(Admission(a.first[c.key.model := c], a.candidates[c.id := c], a.ids + {c.id}), cs[1..]);
      }
    }
  }

  lemma MatchFacts(d: Digests, r: MatchRequest)
    requires MatchEntry(d, r).Some?
    ensures ValidSetup(r.setup) && (r.setup.terminalEpoch.Some? ==> r.setup.terminalEpoch.value == r.bar.closeEpoch)
    ensures r.setup.terminalReason.Some? <==> r.setup.terminalEpoch.Some?
    ensures ContextsDiffer(r.proofs)
    ensures forall i :: 0 <= i < |r.proofs| ==>
              Resolve(d, r.setup, r.proofs[i]).Some?
              && Resolve(d, r.setup, r.proofs[i]).value.transcript == TranscriptOf(r.proofs[i])
              && Spanned(TranscriptOf(r.proofs[i]))
  {
    hide Scans, MatchRows, VisitedGroups, ProofsAccepted, Expand, ValidTranscript, Spanned;
    AcceptedExactly(d, r);
    forall i | 0 <= i < |r.proofs|
      ensures Resolve(d, r.setup, r.proofs[i]).Some?
      ensures Resolve(d, r.setup, r.proofs[i]).value.transcript == TranscriptOf(r.proofs[i])
      ensures Spanned(TranscriptOf(r.proofs[i]))
    {
      assert Acceptable(d, r, r.proofs[i]);
      ScansExactly(r.setup, TranscriptOf(r.proofs[i]));
      ScanIsSpanned(r.setup, TranscriptOf(r.proofs[i]));
      ExpandKeeps(d, r.setup, TranscriptOf(r.proofs[i]));
    }
  }

  lemma FollowsLatest(ts: map<Context, Transcript>, prefix: seq<Event>, ps: seq<ProofInput>)
    requires forall c :: Lookup(ts, c) == Latest(prefix, c)
    ensures AllFollow(ts, ps) <==>
              forall i :: 0 <= i < |ps| ==>
                var t := TranscriptOf(ps[i]);
                Latest(prefix, t.context).Some? ==> Follows(Latest(prefix, t.context).value, t)
  {
    hide Follows, Latest;
    forall i | 0 <= i < |ps|
      ensures var t := TranscriptOf(ps[i]); Lookup(ts, t.context) == Latest(prefix, t.context)
    {
    }
  }

  /** What is seen after one more event, and that a silent event shows nothing. */
  lemma SeenGrows(d: Digests, events: seq<Event>, prefix: seq<Event>, m: Model)
    requires Extends(events, prefix)
    ensures Seen(d, prefix, m) ==> Seen(d, events, m)
    ensures Seen(d, events, m) && !Seen(d, prefix, m) ==> Live(events[|prefix|].request.setup)
  {
    hide CalledFor;
    if i, c :| 0 <= i < |prefix| && Calls(d, prefix[i], c) && c.key.model == m {
      assert Calls(d, events[i], c);
    }
    if i, c :| 0 <= i < |events| && Calls(d, events[i], c) && c.key.model == m {
      if i < |prefix| {
        assert Calls(d, prefix[i], c);
      }
    }
  }

  /** The terminal check of the loop, on the events. */
  lemma ReasonExactly(
    d: Digests, events: seq<Event>, prefix: seq<Event>, before: set<Model>, after: set<Model>)
    requires Extends(events, prefix) && prefix == events[..|prefix|]
    requires var r := events[|prefix|].request;
      ValidSetup(r.setup) && (r.setup.terminalEpoch.Some? ==> r.setup.terminalEpoch.value == r.bar.closeEpoch)
    requires forall m :: m in before <==> ActiveModel(m) && Seen(d, prefix, m)
    requires forall m :: m in after <==> ActiveModel(m) && Seen(d, events, m)
    requires before <= {DirClose, HtfFlip} && after <= {DirClose, HtfFlip} && !Both(before)
    ensures var r := events[|prefix|].request;
      var merged := MergeTerminal(None, r.setup, r.bar.closeEpoch, before, after);
      && (merged.Ok? <==> ReasonFits(d, events))
      && (merged.Ok? ==>
            merged.value ==
              if r.setup.terminalReason.Some? then Some(TerminalFact(r.setup.terminalReason.value, r.bar.closeEpoch))
              else None)
  {
    hide Seen, MergeTerminal, ValidSetup;
    var r := events[|prefix|].request;
    forall m ensures Seen(d, prefix, m) ==> Seen(d, events, m)
      ensures Seen(d, events, m) && !Seen(d, prefix, m) ==> Live(r.setup)
    {
      SeenGrows(d, events, prefix, m);
    }
    LiveMeans(r.setup);
    assert before <= after;
    assert Silent(r.setup) ==> before == after;
    MergedExactly(r.setup, r.bar.closeEpoch, before, after);
    assert before == {} <==> !Seen(d, prefix, DirClose) && !Seen(d, prefix, HtfFlip);
  }

  lemma LatestGrows(events: seq<Event>, prefix: seq<Event>, c: Context)
    requires Extends(events, prefix) && prefix == events[..|prefix|]
    ensures Latest(events, c) ==
              var given := GivenFor(events[|prefix|].request.proofs, c);
              if given.Some? then given else Latest(prefix, c)
  {
  }

  lemma EndGrows(events: seq<Event>, prefix: seq<Event>)
    requires Extends(events, prefix) && prefix == events[..|prefix|]
    ensures EndFact(events) ==
              var s := events[|prefix|].request.setup;
              if EndFact(prefix).Some? then EndFact(prefix)
              else if s.terminalReason.Some? && s.terminalEpoch.Some?
              then Some(TerminalFact(s.terminalReason.value, s.terminalEpoch.value)) else None
  {
  }

  /** The three checks of an open step, on the events. */
  lemma OpenStepExactly(d: Digests, setupId: string, limit: int, events: seq<Event>, prefix: seq<Event>, s: State)
    requires CollisionFree(d) && Inv(d, setupId, limit, s) && Tracks(d, prefix, s) && s.terminal.None?
    requires Extends(events, prefix) && prefix == events[..|prefix|]
    requires events[|prefix|].request.setup.setupId == setupId && limit <= events[|prefix|].request.bar.closeEpoch
    ensures var e := events[|prefix|];
      && (OpenStep(d, s, e).Ok? <==> OpenFits(d, events))
      && (OpenStep(d, s, e).Ok? ==>
            var t := OpenStep(d, s, e).value;
            && AllSpanned(t.transcripts) && (forall c :: Lookup(t.transcripts, c) == Latest(events, c))
            && t.terminal == EndFact(events)
            && (t.graceFrom.Some? && !t.graceConsumed <==> AwaitsWick(d, events)))
  {
    hide MatchEntry, UpsertProofs, Accept, MergeTerminal, OpenStep, Means, EvidenceMeans, HandlingMeans, Inv, Matchable;
    hide Seen, ReasonFits, Latest, EndFact, GivenFor, AllSpanned, Spanned, Follows, Resolve, ValidSetup;
    var e := events[|prefix|];
    var r := e.request;
    AcceptedExactly(d, r);
    OpenOk(d, setupId, limit, s, e);
    if MatchEntry(d, r).Some? {
      MatchFacts(d, r);
      UpsertsExactly(d, r.setup, s.transcripts, r.proofs);
      FollowsLatest(s.transcripts, prefix, r.proofs);
      if UpsertProofs(d, r.setup, s.transcripts, r.proofs).Ok? {
        var first := OpenReason(d, setupId, limit, events, prefix, s);
        EndGrows(events, prefix);
        forall c ensures Latest(events, c) ==
          if GivenFor(r.proofs, c).Some? then GivenFor(r.proofs, c) else Latest(prefix, c)
        {
          LatestGrows(events, prefix, c);
        }
      }
    }
  }

  lemma OpenReason(d: Digests, setupId: string, limit: int, events: seq<Event>, prefix: seq<Event>, s: State)
    returns (first: map<Model, Candidate>)
    requires CollisionFree(d) && Inv(d, setupId, limit, s) && Tracks(d, prefix, s) && s.terminal.None?
    requires Extends(events, prefix) && prefix == events[..|prefix|]
    requires var r := events[|prefix|].request;
      && MatchEntry(d, r).Some?
      && Accept(Admission(s.first, s.candidates, {}), MatchEntry(d, r).value.candidates).Ok?
    ensures var r := events[|prefix|].request;
      var a := Accept(Admission(s.first, s.candidates, {}), MatchEntry(d, r).value.candidates).value;
      var merged := MergeTerminal(None, r.setup, r.bar.closeEpoch, ActiveModels(s.first), ActiveModels(a.first));
      && first == a.first && s.graceFrom.None? && !s.graceConsumed
      && (merged.Ok? <==> ReasonFits(d, events))
      && (merged.Ok? ==>
            merged.value ==
              if r.setup.terminalReason.Some? then Some(TerminalFact(r.setup.terminalReason.value, r.bar.closeEpoch))
              else None)
      && (forall m :: m in ActiveModels(s.first) <==> ActiveModel(m) && Seen(d, prefix, m))
      && (forall m :: m in ActiveModels(first) <==> ActiveModel(m) && Seen(d, events, m))
      && (merged.Ok? && IsBoth(merged.value) ==> Seen(d, events, DirClose))
  {
    hide MatchEntry, Accept, MergeTerminal, EvidenceMeans, HandlingMeans, Seen, Calls, Kept, OnePerModel, AllGood;
    hide GoodLedger, InOrder, ValidShape, EndFact, Latest;
    var e := events[|prefix|];
    MatchFacts(d, e.request);
    RowsMean(d, e);
    var cs := MatchEntry(d, e.request).value.candidates;
    var a := Accept(Admission(s.first, s.candidates, {}), cs).value;
    first := a.first;
    FirstsKept(d, events, prefix, s, cs, a);
    ModelsSeen(d, prefix, s.first);
    ModelsSeen(d, events, a.first);
    ReasonExactly(d, events, prefix, ActiveModels(s.first), ActiveModels(a.first));
  }

  lemma OpenExactly(d: Digests, setupId: string, limit: int, events: seq<Event>, prefix: seq<Event>, s: State)
    requires CollisionFree(d) && Inv(d, setupId, limit, s) && Tracks(d, prefix, s) && s.terminal.None?
    requires Extends(events, prefix) && prefix == events[..|prefix|] && BarsFollow(events)
    requires events[|prefix|].request.setup.setupId == setupId && limit <= events[|prefix|].request.bar.closeEpoch
    ensures OpenStep(d, s, events[|prefix|]).Ok? <==> OpenFits(d, events)
    ensures OpenStep(d, s, events[|prefix|]).Ok? ==> Tracks(d, events, OpenStep(d, s, events[|prefix|]).value)
  {
    hide OpenStep, OpenFits, Holds, AwaitsWick, AllSpanned, EndFact, Latest, Inv, BarsFollow;
    OpenStepExactly(d, setupId, limit, events, prefix, s);
    if OpenStep(d, s, events[|prefix|]).Ok? {
      OpenHolds(d, events, prefix, s, OpenStep(d, s, events[|prefix|]).value);
    }
  }

  lemma GraceExactly(d: Digests, setupId: string, limit: int, events: seq<Event>, prefix: seq<Event>, s: State)
    requires CollisionFree(d) && Inv(d, setupId, limit, s) && Tracks(d, prefix, s) && s.terminal.Some?
    requires Extends(events, prefix) && prefix == events[..|prefix|] && BarsFollow(events)
    ensures GraceStep(d, s, events[|prefix|]).Ok? <==> GraceFits(d, events)
    ensures GraceStep(d, s, events[|prefix|]).Ok? ==> Tracks(d, events, GraceStep(d, s, events[|prefix|]).value)
  {
    hide Means, EvidenceMeans, HandlingMeans, Wick, Merge, Seen, Inv, AllSpanned, EndFact, Latest, ValidShape;
    hide WellShaped, BarsFollow;
    var e := events[|prefix|];
    ShapeExactly(e.request);
    GraceKeeps(d, setupId, limit, s, e);
    if AwaitsWick(d, prefix) {
      EndGrows(prefix, prefix[..|prefix| - 1]);
    }
    if GraceStep(d, s, e).Ok? {
      var t := GraceStep(d, s, e).value;
      GraceHolds(d, events, prefix, s, t);
      EndGrows(events, prefix);
      forall c ensures Latest(events, c) == Latest(prefix, c) {
        LatestGrows(events, prefix, c);
      }
    }
  }

  /** A run is accepted exactly when every event fits those before it. */
  lemma {:induction false} RunExactly(d: Digests, setupId: string, start: int, events: seq<Event>)
    requires CollisionFree(d) && Stream(setupId, start, events) && BarsFollow(events)
    ensures Run(d, events).Ok? <==> AllFit(d, events)
    ensures Run(d, events).Ok? ==> Tracks(d, events, Run(d, events).value)
  {
    hide OpenStep, GraceStep, OpenFits, GraceFits, Tracks, Inv, EndFact;
    if events == [] {
      NothingTracked(d);
    } else {
      var n := |events| - 1;
      var prefix := events[..n];
      RunExactly(d, setupId, start, prefix);
      if Run(d, prefix).Ok? {
        var s := Run(d, prefix).value;
        RunKeeps(d, setupId, start, prefix);
        TracksEnd(d, prefix, s);
        if s.terminal.Some? {
          GraceExactly(d, setupId, LastClose(prefix, start), events, prefix, s);
        } else {
          assert n > 0 ==> events[n - 1].request.bar.closeEpoch <= events[n].request.bar.closeEpoch;
          OpenExactly(d, setupId, LastClose(prefix, start), events, prefix, s);
        }
      }
    }
  }

  lemma TracksEnd(d: Digests, events: seq<Event>, s: State)
    requires Tracks(d, events, s)
    ensures s.terminal == EndFact(events)
  {
  }

  lemma NothingTracked(d: Digests)
    ensures Tracks(d, [], INITIAL)
  {
    NothingHeld(d);
  }

  // Whole streams

  /** The events in order of their closes, and in one scope. */
  ghost predicate Arranges(events: seq<Event>, revision: int, evaluatedAt: int, ordered: seq<Event>)
  {
    && ordered != [] && Elements(ordered) == Elements(events) && StrictlySorted(ordered, EventBefore)
    && Consistent(Elements(events), EventId)
    && (forall e :: e in events ==> InScope(ordered[0].request, e))
    && BarsFollow(ordered) && SafeNat(revision)
    && ordered[|ordered| - 1].request.bar.closeEpoch <= evaluatedAt && SafeNat(evaluatedAt)
  }

  lemma ArrangedExactly(events: seq<Event>, revision: int, evaluatedAt: int, ordered: seq<Event>)
    ensures OrderEvents(events, revision, evaluatedAt) == Ok(ordered) <==>
              Arranges(events, revision, evaluatedAt, ordered)
  {
    hide InScope, BarsFollow, Ordered;
    MergeIndexes(map[], {}, events, EventId);
    assert {} + Elements(events) == Elements(events);
    if OrderEvents(events, revision, evaluatedAt) == Ok(ordered) {
      PreparedIsSorted(events, revision, evaluatedAt);
      forall e | e in events ensures InScope(ordered[0].request, e) {
        assert e in Elements(ordered);
      }
    }
    if Arranges(events, revision, evaluatedAt, ordered) {
      OrderedIs(events, ordered);
      assert ordered[0] in Elements(events);
      forall e | e in ordered ensures InScope(ordered[0].request, e) {
        assert e in Elements(events);
      }
    }
  }

  lemma OrderedIs(events: seq<Event>, ordered: seq<Event>)
    requires Elements(ordered) == Elements(events) && StrictlySorted(ordered, EventBefore)
    ensures Ordered(events) == ordered
  {
    SortsToSame(ordered, Dedup(events));
  }

  /** The setup was invalidated before any active model was seen. */
  ghost predicate DiedUnseen(d: Digests, events: seq<Event>)
  {
    && EndFact(events).Some? && EndFact(events).value.reason == Invalidated
    && !Seen(d, events, DirClose) && !Seen(d, events, HtfFlip)
  }

  /** A stream is accepted exactly when its events can be arranged, each fits those before it, and the flag is right. */
  lemma StreamAcceptedExactly(d: Digests, events: seq<Event>, invalidated: bool, revision: int, evaluatedAt: int)
    requires CollisionFree(d)
    ensures Evaluate(d, events, invalidated, revision, evaluatedAt).Ok? <==>
              exists ordered :: Arranges(events, revision, evaluatedAt, ordered) && AllFit(d, ordered)
                && (invalidated <==> DiedUnseen(d, ordered))
  {
    hide Run, AllFit, Arranges, Inv, Tracks, DiedUnseen, Accepted, Select;
    forall ordered ensures OrderEvents(events, revision, evaluatedAt) == Ok(ordered) <==>
                           Arranges(events, revision, evaluatedAt, ordered)
    {
      ArrangedExactly(events, revision, evaluatedAt, ordered);
    }
    if OrderEvents(events, revision, evaluatedAt).Ok? {
      var ordered := OrderEvents(events, revision, evaluatedAt).value;
      var setupId, start := PreparedIsStream(events, revision, evaluatedAt);
      RunExactly(d, setupId, start, ordered);
      if Run(d, ordered).Ok? {
        RunKeeps(d, setupId, start, ordered);
        FlagExactly(d, ordered, Run(d, ordered).value, setupId, revision, evaluatedAt);
        ArbitrationNeverRejects(d, events, invalidated, revision, evaluatedAt);
      }
    }
  }

  lemma FlagExactly(d: Digests, events: seq<Event>, s: State, setupId: string, revision: int, evaluatedAt: int)
    requires Tracks(d, events, s)
    ensures FinalRequest(s, setupId, revision, evaluatedAt).invalidated <==> DiedUnseen(d, events)
  {
    hide EvidenceMeans, HandlingMeans, Seen, Calls, Kept, AwaitsWick, EndFact, Latest, ValidShape;
    ModelsSeen(d, events, s.first);
    assert ActiveModels(s.first) == {} <==> !Seen(d, events, DirClose) && !Seen(d, events, HtfFlip) by {
      assert DirClose in ActiveModels(s.first) <==> Seen(d, events, DirClose);
      assert HtfFlip in ActiveModels(s.first) <==> Seen(d, events, HtfFlip);
    }
  }
}
