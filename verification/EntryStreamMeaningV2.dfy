/**
 What a version 2 entry stream keeps, stated on the bars, setups and transcripts of its
 events.
 */
module EntryStreamMeaningV2 {
  import opened Common
  import opened EntryTerms
  import opened EntryDomainV2
  import opened EntryMatcherV2
  import opened EntryMatchMeaningV2
  import opened EntryStreamV2
  import opened EntryStreamRunsV2
  import opened EntryStreamTheoremsV2
  import opened EntryArbitratorV2
  import EntrySelectionV2
  import opened Indexing

  // The reference, on the events

  ghost predicate Calls(d: Digests, e: Event, c: Candidate)
  {
    Live(e.request.setup) && CalledFor(d, e.request, c)
  }

  /** Event `i` is the first to call for the model of `c`, and `c` is its candidate of least anchor. */
  ghost predicate FirstCalled(d: Digests, events: seq<Event>, i: int, c: Candidate)
  {
    && 0 <= i < |events| && Calls(d, events[i], c)
    && (forall j, b :: 0 <= j < i && Calls(d, events[j], b) ==> b.key.model != c.key.model)
    && (forall b :: Calls(d, events[i], b) && b.key.model == c.key.model ==> c.key.anchor <= b.key.anchor)
  }

  ghost predicate Kept(d: Digests, events: seq<Event>, c: Candidate)
  {
    exists i :: FirstCalled(d, events, i, c)
  }

  /** Event `i` calls for a kept candidate and gives evidence of it. */
  ghost predicate Supports(d: Digests, events: seq<Event>, i: int, c: Candidate, e: Evidence)
  {
    && 0 <= i < |events| && Kept(d, events, c) && Calls(d, events[i], c)
    && Evidenced(d, events[i].request, e) && e.body.candidateId == c.id
  }

  ghost predicate Supported(d: Digests, events: seq<Event>, e: Evidence)
  {
    exists i, c :: Supports(d, events, i, c, e)
  }

  // Accepting the rows of one event

  ghost predicate OwnModels(first: map<Model, Candidate>)
  {
    forall m :: m in first ==> first[m].key.model == m
  }

  /** `c` is filed under its model. */
  predicate Filed(first: map<Model, Candidate>, c: Candidate)
  {
    c.key.model in first && first[c.key.model] == c
  }

  /** `c` comes before every other candidate of its model. */
  ghost predicate Foremost(cs: seq<Candidate>, c: Candidate)
  {
    c in cs && forall b :: b in cs && b.key.model == c.key.model ==> c.key.anchor <= b.key.anchor
  }

  /** What accepting candidates adds: the foremost of each new model, and the ids of those filed. */
  ghost predicate Takes(a: Admission, cs: seq<Candidate>, b: Admission)
  {
    && OwnModels(b.first)
    && (forall c :: Filed(b.first, c) <==> Filed(a.first, c) || (c.key.model !in a.first && Foremost(cs, c)))
    && (forall c :: c in cs ==> c.key.model in b.first)
    && (forall m :: m in a.first ==> m in b.first)
    && (forall id :: id in b.ids <==> id in a.ids || exists c :: c in cs && Filed(b.first, c) && c.id == id)
  }

  lemma RestInOrder(cs: seq<Candidate>)
    requires cs != [] && InOrder(cs)
    ensures InOrder(cs[1..])
    ensures Foremost(cs, cs[0])
    ensures forall c :: Foremost(cs, c) <==> c == cs[0] || (c.key.model != cs[0].key.model && Foremost(cs[1..], c))
  {
    assert cs == [cs[0]] + cs[1..];
    forall c | c in cs[1..] && c.key.model == cs[0].key.model ensures cs[0].key.anchor < c.key.anchor {
      var i :| 0 <= i < |cs| - 1 && cs[1..][i] == c;
      assert cs[i + 1] == c;
    }
  }

  lemma {:induction false} AcceptTakes(a: Admission, cs: seq<Candidate>)
    requires OwnModels(a.first) && InOrder(cs) && Accept(a, cs).Ok?
    ensures Takes(a, cs, Accept(a, cs).value)
    decreases |cs|
  {
    hide InOrder, Foremost;
    if cs == [] {
      NoForemost();
    } else {
      var c := cs[0];
      RestInOrder(cs);
      var next :=
        if c.key.model in a.first then if a.first[c.key.model] == c then a.(ids := a.ids + {c.id}) else a
        else Admission(a.first[c.key.model := c], a.candidates[c.id := c], a.ids + {c.id});
      AcceptTakes(next, cs[1..]);
      TakesFirst(a, cs, next, Accept(next, cs[1..]).value);
    }
  }

  lemma NoForemost()
    ensures forall c :: !Foremost([], c)
  {
  }

  lemma TakesFirst(a: Admission, cs: seq<Candidate>, next: Admission, b: Admission)
    requires cs != [] && OwnModels(a.first)
    requires forall c :: Foremost(cs, c) <==> c == cs[0] || (c.key.model != cs[0].key.model && Foremost(cs[1..], c))
    requires var c := cs[0];
      next == if c.key.model in a.first then if a.first[c.key.model] == c then a.(ids := a.ids + {c.id}) else a
              else Admission(a.first[c.key.model := c], a.candidates[c.id := c], a.ids + {c.id})
    requires Takes(next, cs[1..], b)
    ensures Takes(a, cs, b)
  {
    hide Foremost;
    var x := cs[0];
    assert forall c :: c in cs <==> c == x || c in cs[1..] by {
      assert cs == [x] + cs[1..];
    }
    forall c ensures Filed(b.first, c) <==> Filed(a.first, c) || (c.key.model !in a.first && Foremost(cs, c)) {
      TakesFiled(a, cs, next, b, c);
    }
    forall id ensures id in b.ids <==> id in a.ids || exists c :: c in cs && Filed(b.first, c) && c.id == id {
      TakesIds(a, cs, next, b, id);
    }
  }

  lemma TakesFiled(a: Admission, cs: seq<Candidate>, next: Admission, b: Admission, c: Candidate)
    requires cs != [] && OwnModels(a.first)
    requires Foremost(cs, c) <==> c == cs[0] || (c.key.model != cs[0].key.model && Foremost(cs[1..], c))
    requires next.first == if cs[0].key.model in a.first then a.first else a.first[cs[0].key.model := cs[0]]
    requires Filed(b.first, c) <==> Filed(next.first, c) || (c.key.model !in next.first && Foremost(cs[1..], c))
    ensures Filed(b.first, c) <==> Filed(a.first, c) || (c.key.model !in a.first && Foremost(cs, c))
  {
    hide Foremost;
  }

  lemma TakesIds(a: Admission, cs: seq<Candidate>, next: Admission, b: Admission, id: Id)
    requires cs != [] && forall c :: c in cs <==> c == cs[0] || c in cs[1..]
    requires id in b.ids <==> id in next.ids || exists c :: c in cs[1..] && Filed(b.first, c) && c.id == id
    requires id in next.ids <==> id in a.ids || (Filed(next.first, cs[0]) && id == cs[0].id)
    requires Filed(b.first, cs[0]) <==> Filed(next.first, cs[0])
    ensures id in b.ids <==> id in a.ids || exists c :: c in cs && Filed(b.first, c) && c.id == id
  {
  }

  // One event

  /** What holds of the state after the events. */
  ghost predicate Means(d: Digests, events: seq<Event>, s: State)
  {
    && OwnModels(s.first)
    && (forall c :: Filed(s.first, c) <==> Kept(d, events, c))
    && (forall i, c :: 0 <= i < |events| && Calls(d, events[i], c) ==> c.key.model in s.first)
    && (forall i :: 0 <= i < |events| ==> ValidShape(events[i].request))
    && (s.graceFrom.Some? ==> DirClose in s.first)
  }

  ghost predicate EvidenceMeans(d: Digests, events: seq<Event>, es: map<Id, Evidence>)
  {
    && (forall k :: k in es ==> es[k].id == k && Supported(d, events, es[k]))
    && (forall e :: Supported(d, events, e) ==> e.id in es && es[e.id] == e)
  }

  ghost predicate Extends(events: seq<Event>, prefix: seq<Event>)
  {
    |events| == |prefix| + 1 && forall i :: 0 <= i < |prefix| ==> events[i] == prefix[i]
  }

  lemma KeptExtends(d: Digests, events: seq<Event>, prefix: seq<Event>, c: Candidate)
    requires Extends(events, prefix)
    ensures Kept(d, events, c) <==> Kept(d, prefix, c) || FirstCalled(d, events, |prefix|, c)
  {
    hide Calls;
    if i :| FirstCalled(d, prefix, i, c) {
      assert FirstCalled(d, events, i, c);
    }
    if i :| FirstCalled(d, events, i, c) {
      if i < |prefix| {
        assert FirstCalled(d, prefix, i, c);
      }
    }
  }

  /** Evidence that earlier events gave stays; the last event adds that of the kept candidates it calls for. */
  lemma SupportExtends(d: Digests, events: seq<Event>, prefix: seq<Event>, e: Evidence)
    requires Extends(events, prefix)
    ensures Supported(d, events, e) <==> Supported(d, prefix, e) || exists c :: Supports(d, events, |prefix|, c, e)
  {
    hide Calls, Evidenced;
    forall i, c | Supports(d, prefix, i, c, e) ensures Supports(d, events, i, c, e) {
      KeptExtends(d, events, prefix, c);
    }
    forall i, c | Supports(d, events, i, c, e) && i < |prefix| ensures Supports(d, prefix, i, c, e) {
      KeptExtends(d, events, prefix, c);
      assert Calls(d, events[i], c);
    }
  }

  lemma RowsMean(d: Digests, e: Event)
    requires MatchEntry(d, e.request).Some?
    ensures var rows := MatchEntry(d, e.request).value;
      && InOrder(rows.candidates)
      && (forall c :: c in rows.candidates <==> Calls(d, e, c))
      && (forall x :: x in rows.evidence <==> Live(e.request.setup) && Evidenced(d, e.request, x))
  {
    hide MatchEntry, CalledFor, Evidenced, InOrder;
    CandidatesInOrder(d, e.request);
    var rows := MatchEntry(d, e.request).value;
    forall c ensures c in rows.candidates <==> Calls(d, e, c) {
      CandidatesExactly(d, e.request, c);
    }
    forall x ensures x in rows.evidence <==> Live(e.request.setup) && Evidenced(d, e.request, x) {
      EvidenceExactly(d, e.request, x);
    }
  }

  lemma ForemostIsFirst(d: Digests, events: seq<Event>, prefix: seq<Event>, s: State, cs: seq<Candidate>, c: Candidate)
    requires Extends(events, prefix) && Means(d, prefix, s)
    requires forall b :: b in cs <==> Calls(d, events[|prefix|], b)
    ensures FirstCalled(d, events, |prefix|, c) <==> c.key.model !in s.first && Foremost(cs, c)
  {
    hide Calls, ValidShape;
    if c.key.model in s.first {
      var b := s.first[c.key.model];
      assert Filed(s.first, b);
      var i :| FirstCalled(d, prefix, i, b);
      assert Calls(d, events[i], b);
    }
    if c.key.model !in s.first && Foremost(cs, c) {
      forall j, b | 0 <= j < |prefix| && Calls(d, events[j], b) ensures b.key.model != c.key.model {
        assert Calls(d, prefix[j], b);
      }
    }
  }

  lemma FirstsKept(d: Digests, events: seq<Event>, prefix: seq<Event>, s: State, cs: seq<Candidate>, a: Admission)
    requires Extends(events, prefix) && Means(d, prefix, s) && InOrder(cs)
    requires forall b :: b in cs <==> Calls(d, events[|prefix|], b)
    requires Accept(Admission(s.first, s.candidates, {}), cs) == Ok(a)
    ensures OwnModels(a.first)
    ensures forall c :: Filed(a.first, c) <==> Kept(d, events, c)
    ensures forall i, c :: 0 <= i < |events| && Calls(d, events[i], c) ==> c.key.model in a.first
    ensures forall id :: id in a.ids <==> exists c :: Calls(d, events[|prefix|], c) && Kept(d, events, c) && c.id == id
    ensures DirClose in s.first ==> DirClose in a.first
  {
    hide Calls, ValidShape, Accept, InOrder, FirstCalled, Foremost, Kept;
    AcceptTakes(Admission(s.first, s.candidates, {}), cs);
    forall c ensures Filed(a.first, c) <==> Kept(d, events, c) {
      KeptExtends(d, events, prefix, c);
      ForemostIsFirst(d, events, prefix, s, cs, c);
    }
    forall i, c | 0 <= i < |events| && Calls(d, events[i], c) ensures c.key.model in a.first {
      if i < |prefix| {
        assert Calls(d, prefix[i], c);
      }
    }
  }

  /** The state after admitting the rows of an event. */
  lemma AdmitMeans(
    d: Digests, events: seq<Event>, prefix: seq<Event>, s: State, wicked: map<Id, Handling>,
    ts: map<Context, Transcript>, t: State)
    requires Extends(events, prefix) && Means(d, prefix, s) && EvidenceMeans(d, prefix, s.evidence)
    requires var e := events[|prefix|];
      MatchEntry(d, e.request).Some? && Admit(s, e, wicked, ts, MatchEntry(d, e.request).value) == Ok(t)
    ensures Means(d, events, t) && EvidenceMeans(d, events, t.evidence)
  {
    hide Calls, Accept, InOrder, FirstCalled, Kept, MatchEntry, Evidenced, MergeTerminal, Supported, KeepEvidence;
    hide Merge, KeepHandling, Filed, OwnModels;
    var e := events[|prefix|];
    var rows := MatchEntry(d, e.request).value;
    MatchShape(d, e.request);
    RowsMean(d, e);
    var a := Accept(Admission(s.first, s.candidates, {}), rows.candidates).value;
    FirstsKept(d, events, prefix, s, rows.candidates, a);
    assert t.first == a.first;
    LedgerMeans(d, events, prefix, s.evidence, rows.evidence, a.ids);
  }

  lemma MatchShape(d: Digests, r: MatchRequest)
    requires MatchEntry(d, r).Some?
    ensures ValidShape(r)
  {
  }

  lemma LedgerMeans(
    d: Digests, events: seq<Event>, prefix: seq<Event>, es: map<Id, Evidence>, rows: seq<Evidence>, ids: set<Id>)
    requires Extends(events, prefix) && EvidenceMeans(d, prefix, es)
    requires var last := events[|prefix|];
      && (forall x :: x in rows <==> Live(last.request.setup) && Evidenced(d, last.request, x))
      && (forall id :: id in ids <==> exists c :: Calls(d, last, c) && Kept(d, events, c) && c.id == id)
    requires Merge(es, KeepEvidence(rows, ids), EvidenceId).Some?
    ensures EvidenceMeans(d, events, Merge(es, KeepEvidence(rows, ids), EvidenceId).value)
  {
    hide Kept, Evidenced, Supported, KeepEvidence, Merge, CalledFor;
    var held := es.Values;
    var kept := KeepEvidence(rows, ids);
    MergeIndexes(es, held, kept, EvidenceId);
    var now := held + Elements(kept);
    forall e ensures e in now <==> Supported(d, events, e) {
      SupportExtends(d, events, prefix, e);
      RowKept(d, events, |prefix|, rows, ids, e);
    }
  }

  lemma RowKept(d: Digests, events: seq<Event>, n: nat, rows: seq<Evidence>, ids: set<Id>, e: Evidence)
    requires n < |events|
    requires e in rows <==> Live(events[n].request.setup) && Evidenced(d, events[n].request, e)
    requires forall id :: id in ids <==> exists c :: Calls(d, events[n], c) && Kept(d, events, c) && c.id == id
    ensures e in KeepEvidence(rows, ids) <==> exists c :: Supports(d, events, n, c, e)
  {
    hide Kept, Evidenced, CalledFor;
    if e in KeepEvidence(rows, ids) {
      var c :| Calls(d, events[n], c) && Kept(d, events, c) && c.id == e.body.candidateId;
      assert Supports(d, events, n, c, e);
    }
  }

  // The event after the terminal

  lemma {:induction false} BarsAscend(events: seq<Event>, i: nat, j: nat)
    requires BarsFollow(events) && i < j < |events|
    requires forall k :: 0 <= k < |events| ==> ValidShape(events[k].request)
    ensures events[i].request.bar.closeEpoch <= events[j].request.bar.openEpoch
    ensures events[i].request.bar.openEpoch < events[i].request.bar.closeEpoch
    ensures events[j].request.bar.openEpoch < events[j].request.bar.closeEpoch
    decreases j
  {
    hide ValidSetup, ValidAttempt, ValidCandle;
    assert ValidShape(events[j].request) && ValidShape(events[i].request);
    if i < j - 1 {
      BarsAscend(events, i, j - 1);
    }
  }

  /** A model that is kept was called for by an earlier event. */
  lemma FiledWasCalled(d: Digests, events: seq<Event>, s: State, m: Model) returns (i: int, c: Candidate)
    requires Means(d, events, s) && m in s.first
    ensures c == s.first[m] && c.key.model == m && FirstCalled(d, events, i, c)
  {
    hide ValidShape, FirstCalled;
    c := s.first[m];
    assert Filed(s.first, c);
    i :| FirstCalled(d, events, i, c);
  }

  lemma CloseCalled(d: Digests, e: Event, c: Candidate)
    requires Calls(d, e, c) && c.key.model == DirClose
    ensures c.key.anchor == e.request.bar.openEpoch && c.observedAt == e.request.bar.closeEpoch
    ensures c.id == IdOf(d, e.request, DirClose, e.request.bar.openEpoch)
    ensures c.key.direction == e.request.setup.direction
    ensures ClosesBeyond(e.request)
  {
    hide Normalizes, ModelClaims;
  }

  lemma OnlyCloseCalled(d: Digests, e: Event, c: Candidate)
    requires Calls(d, e, c) && e.request.proofs == [] && !e.request.genericBreak && !e.request.rejectionRespect
    ensures c.key.model == DirClose
  {
  }

  /** A kept close is called for by one event only. */
  lemma OneCloseCall(d: Digests, events: seq<Event>, i: int, j: int, c: Candidate)
    requires BarsFollow(events) && forall k :: 0 <= k < |events| ==> ValidShape(events[k].request)
    requires 0 <= i < |events| && 0 <= j < |events| && c.key.model == DirClose
    requires Calls(d, events[i], c) && Calls(d, events[j], c)
    ensures i == j
  {
    hide Calls, ValidShape;
    CloseCalled(d, events[i], c);
    CloseCalled(d, events[j], c);
    if i < j {
      BarsAscend(events, i, j);
    } else if j < i {
      BarsAscend(events, j, i);
    }
  }

  lemma GraceMeans(d: Digests, events: seq<Event>, prefix: seq<Event>, s: State, t: State)
    requires Extends(events, prefix) && BarsFollow(events)
    requires Means(d, prefix, s) && EvidenceMeans(d, prefix, s.evidence)
    requires s.terminal.Some? && GraceStep(d, s, events[|prefix|]) == Ok(t)
    ensures Means(d, events, t) && EvidenceMeans(d, events, t.evidence)
  {
    hide Calls, FirstCalled, Kept, Wick, Merge, ValidShape, Supported, OwnModels, Filed;
    var n := |prefix|;
    GraceEffects(d, s, events[n], t);
    assert t.first == s.first && t.evidence == s.evidence && t.graceFrom == s.graceFrom;
    var k, close := FiledWasCalled(d, prefix, s, DirClose);
    forall c | Calls(d, events[n], c) ensures c.key.model == DirClose {
      OnlyCloseCalled(d, events[n], c);
    }
    forall c ensures Kept(d, events, c) <==> Kept(d, prefix, c) {
      KeptExtends(d, events, prefix, c);
      NotFirstAgain(d, events, prefix, k, close, c);
    }
    forall e ensures Supported(d, events, e) <==> Supported(d, prefix, e) {
      SupportExtends(d, events, prefix, e);
      if c :| Supports(d, events, n, c, e) {
        var j :| FirstCalled(d, prefix, j, c) by {
          KeptHas(d, prefix, c);
        }
        FirstIsCall(d, prefix, j, c);
        OneCloseCall(d, events, j, n, c);
      }
    }
  }

  lemma KeptHas(d: Digests, events: seq<Event>, c: Candidate)
    requires Kept(d, events, c)
    ensures exists i :: FirstCalled(d, events, i, c)
  {
  }

  lemma FirstIsCall(d: Digests, events: seq<Event>, i: int, c: Candidate)
    requires FirstCalled(d, events, i, c)
    ensures 0 <= i < |events| && Calls(d, events[i], c)
  {
  }

  lemma NotFirstAgain(
    d: Digests, events: seq<Event>, prefix: seq<Event>, k: int, close: Candidate, c: Candidate)
    requires Extends(events, prefix) && FirstCalled(d, prefix, k, close) && close.key.model == DirClose
    requires Calls(d, events[|prefix|], c) ==> c.key.model == DirClose
    ensures !FirstCalled(d, events, |prefix|, c)
  {
    hide Calls;
    assert Calls(d, events[k], close);
  }

  // Handling

  /** The wick of a bar against the setup: below the body for long, above it for short. */
  function WickTicks(direction: Direction, bar: Candle): Option<int>
  {
    var low, high := Min(bar.openTicks, bar.closeTicks), Max(bar.openTicks, bar.closeTicks);
    if direction == Long then if bar.lowTicks < low then Some(bar.lowTicks) else None
    else if bar.highTicks > high then Some(bar.highTicks) else None
  }

  function CloseEvidenceId(d: Digests, r: MatchRequest): Id
  {
    var body := BarBody(d, r, DirClose);
    d.evidence(EvidenceKeyOf(body, d.payload(body)))
  }

  /** The observation of the wick of `next` after the close of `r`. */
  function WickOf(d: Digests, r: MatchRequest, next: Candle): Handling
  {
    var key := HandlingKey(
      IdOf(d, r, DirClose, r.bar.openEpoch), CloseEvidenceId(d, r), NextCandleWick, r.attempt, next.closeEpoch,
      WickTicks(r.setup.direction, next), Discretionary, NEXT_CANDLE_WICK_CLAIMS);
    Handling(d.handling(key), key)
  }

  predicate Closes(e: Event)
  {
    Live(e.request.setup) && ClosesBeyond(e.request)
  }

  /** The bar right after the first confirmed close has a wick against the setup. */
  ghost predicate Wicked(d: Digests, events: seq<Event>, i: int, h: Handling)
  {
    && 0 < i < |events| && Closes(events[i - 1]) && (forall j :: 0 <= j < i - 1 ==> !Closes(events[j]))
    && var r, next := events[i - 1].request, events[i].request.bar;
       && next.openEpoch == r.bar.closeEpoch && WickTicks(r.setup.direction, next).Some?
       && h == WickOf(d, r, next)
  }

  ghost predicate Noted(d: Digests, events: seq<Event>, i: int, h: Handling)
  {
    exists c, e :: Supports(d, events, i, c, e) && h == ObservationOf(d, events[i].request, e)
  }

  /** An observation that the events call for. */
  ghost predicate Handled(d: Digests, events: seq<Event>, h: Handling)
  {
    exists i :: Noted(d, events, i, h) || Wicked(d, events, i, h)
  }

  ghost predicate HandlingMeans(d: Digests, events: seq<Event>, hs: map<Id, Handling>)
  {
    && (forall k :: k in hs ==> hs[k].id == k && Handled(d, events, hs[k]))
    && (forall h :: Handled(d, events, h) ==> h.id in hs && hs[h.id] == h)
  }

  lemma CalledByClose(d: Digests, e: Event) returns (c: Candidate)
    requires Closes(e)
    ensures Calls(d, e, c) && c.key.model == DirClose
  {
    var r := e.request;
    var key := CandidateKey(r.setup.direction, r.bar.openEpoch, DirClose, r.setup.setupId, r.ordinal);
    c := Candidate(d.candidate(key), key, Matched, ModelClaims(DirClose), None, r.bar.closeEpoch);
  }

  /** The first confirmed close of the events is the kept one. */
  lemma FirstCloseExactly(d: Digests, events: seq<Event>, i: nat)
    requires i < |events|
    ensures Closes(events[i]) && (forall j :: 0 <= j < i ==> !Closes(events[j])) <==>
              exists c :: FirstCalled(d, events, i, c) && c.key.model == DirClose
  {
    hide CalledFor, ClosesBeyond, Live;
    if Closes(events[i]) && (forall j :: 0 <= j < i ==> !Closes(events[j])) {
      var c := CalledByClose(d, events[i]);
      forall j, b | 0 <= j < i && Calls(d, events[j], b) ensures b.key.model != DirClose {
        if b.key.model == DirClose {
          CloseCalled(d, events[j], b);
        }
      }
      forall b | Calls(d, events[i], b) && b.key.model == DirClose ensures c.key.anchor <= b.key.anchor {
        CloseCalled(d, events[i], b);
        CloseCalled(d, events[i], c);
      }
      assert FirstCalled(d, events, i, c);
    }
    if c :| FirstCalled(d, events, i, c) && c.key.model == DirClose {
      CloseCalled(d, events[i], c);
      forall j | 0 <= j < i ensures !Closes(events[j]) {
        if Closes(events[j]) {
          var b := CalledByClose(d, events[j]);
        }
      }
    }
  }

  function CloseEvidenceOf(d: Digests, r: MatchRequest): Evidence
  {
    var body := BarBody(d, r, DirClose);
    Evidence(CloseEvidenceId(d, r), body, d.payload(body), r.bar.closeEpoch)
  }

  /** Evidence on the confirmed plane comes from a bar. */
  lemma ConfirmedIsBar(d: Digests, r: MatchRequest, e: Evidence) returns (model: Model)
    requires Evidenced(d, r, e) && e.body.plane == Confirmed5m
    ensures model != HtfFlip && e.body == BarBody(d, r, model)
  {
    hide BarBody, Normalizes, AgreeingContexts;
    assert BarEvidenced(d, r, e.body);
    model :| Confirms(r, model) && e.body == BarBody(d, r, model);
  }

  /** A kept close has one piece of evidence on the confirmed plane: its own bar. */
  lemma OneCloseEvidence(d: Digests, events: seq<Event>, k: int, c: Candidate, e: Evidence)
    requires CollisionFree(d) && BarsFollow(events)
    requires forall i :: 0 <= i < |events| ==> ValidShape(events[i].request)
    requires FirstCalled(d, events, k, c) && c.key.model == DirClose
    requires Supported(d, events, e) && e.body.candidateId == c.id && e.body.plane == Confirmed5m
    ensures e == CloseEvidenceOf(d, events[k].request)
  {
    hide Evidenced, ValidShape, FirstCalled, Kept, Calls, BarsFollow;
    FirstIsCall(d, events, k, c);
    CloseCalled(d, events[k], c);
    var i, b :| Supports(d, events, i, b, e);
    var model := ConfirmedIsBar(d, events[i].request, e);
    BarIds(d, events[i].request, events[k].request, model);
    if i < k {
      BarsAscend(events, i, k);
    } else if k < i {
      BarsAscend(events, k, i);
    }
    EvidencedBar(d, events[i].request, e);
  }

  lemma BarIds(d: Digests, r: MatchRequest, q: MatchRequest, model: Model)
    requires CollisionFree(d) && BarBody(d, r, model).candidateId == IdOf(d, q, DirClose, q.bar.openEpoch)
    ensures model == DirClose && r.bar.openEpoch == q.bar.openEpoch
  {
  }

  lemma EvidencedBar(d: Digests, r: MatchRequest, e: Evidence)
    requires Evidenced(d, r, e) && e.body == BarBody(d, r, DirClose)
    ensures e == CloseEvidenceOf(d, r)
  {
  }

  lemma CloseIsSupported(d: Digests, events: seq<Event>, k: int, c: Candidate)
    requires FirstCalled(d, events, k, c) && c.key.model == DirClose
    ensures Supported(d, events, CloseEvidenceOf(d, events[k].request))
  {
    hide Calls;
    var r, e := events[k].request, CloseEvidenceOf(d, events[k].request);
    CloseCalled(d, events[k], c);
    assert Confirms(r, DirClose);
    assert BarEvidenced(d, r, e.body);
    assert Supports(d, events, k, c, e);
  }

  lemma CloseEvidenceIs(d: Digests, events: seq<Event>, es: map<Id, Evidence>, k: int, c: Candidate)
    requires CollisionFree(d) && BarsFollow(events)
    requires forall i :: 0 <= i < |events| ==> ValidShape(events[i].request)
    requires FirstCalled(d, events, k, c) && c.key.model == DirClose && EvidenceMeans(d, events, es)
    ensures CloseEvidence(es, c.id, events[k].request.bar.closeEpoch) == Some(CloseEvidenceOf(d, events[k].request))
  {
    hide FirstCalled, Supported, ValidShape, BarsFollow, Calls;
    FirstIsCall(d, events, k, c);
    CloseCalled(d, events[k], c);
    CloseIsSupported(d, events, k, c);
    var epoch, own := events[k].request.bar.closeEpoch, CloseEvidenceOf(d, events[k].request);
    forall x | x in es && es[x].body.candidateId == c.id && es[x].body.plane == Confirmed5m
      ensures x == own.id
    {
      OneCloseEvidence(d, events, k, c, es[x]);
    }
    SoleEvidence(es, c.id, epoch, own.id);
  }

  lemma SoleEvidence(es: map<Id, Evidence>, id: Id, epoch: int, own: Id)
    requires own in es && es[own].body.candidateId == id && es[own].body.plane == Confirmed5m
    requires es[own].body.triggerEpoch == Some(epoch)
    requires forall x :: x in es && es[x].body.candidateId == id && es[x].body.plane == Confirmed5m ==> x == own
    ensures CloseEvidence(es, id, epoch) == Some(es[own])
  {
    var ids := CloseIds(es, id, epoch);
    assert own in ids && LeastId(ids) in ids;
  }

  lemma FirstIsOnce(d: Digests, events: seq<Event>, i: int, j: int, b: Candidate, c: Candidate)
    requires FirstCalled(d, events, i, b) && FirstCalled(d, events, j, c) && b.key.model == c.key.model
    ensures i == j
  {
    hide Calls;
  }

  lemma SameFirsts(d: Digests, events: seq<Event>, prefix: seq<Event>, i: int, c: Candidate)
    requires Extends(events, prefix) && 0 <= i < |prefix|
    ensures FirstCalled(d, events, i, c) <==> FirstCalled(d, prefix, i, c)
  {
    hide Calls;
  }

  /** The wick that the loop records is exactly the one after the first confirmed close. */
  lemma WickExactly(d: Digests, events: seq<Event>, prefix: seq<Event>, s: State, h: Handling)
    requires CollisionFree(d) && BarsFollow(events) && Extends(events, prefix) && prefix != []
    requires forall i :: 0 <= i < |events| ==> ValidShape(events[i].request)
    requires Means(d, prefix, s) && EvidenceMeans(d, prefix, s.evidence)
    ensures var previous := Some(prefix[|prefix| - 1]);
      h in Listed(Wick(d, previous, events[|prefix|], KeptClose(s), s.evidence)) <==> Wicked(d, events, |prefix|, h)
  {
    hide Calls, FirstCalled, ValidShape, EvidenceMeans, CloseEvidence, Closes, Kept, BarBody, ClosesBeyond, OwnModels;
    var n := |prefix|;
    FirstCloseExactly(d, events, n - 1);
    if c :| FirstCalled(d, events, n - 1, c) && c.key.model == DirClose {
      SameFirsts(d, events, prefix, n - 1, c);
      KeptIf(d, prefix, n - 1, c);
      assert Filed(s.first, c);
      assert BarsFollow(prefix);
      FirstIsCall(d, prefix, n - 1, c);
      CloseCalled(d, prefix[n - 1], c);
      CloseEvidenceIs(d, prefix, s.evidence, n - 1, c);
      WickBuilt(d, prefix[n - 1], events[n], c, s.evidence);
    } else if DirClose in s.first {
      var k, c := FiledWasCalled(d, prefix, s, DirClose);
      FirstIsCall(d, prefix, k, c);
      CloseCalled(d, prefix[k], c);
      SameFirsts(d, events, prefix, k, c);
      assert k < n - 1;
      BarsAscend(events, k, n - 1);
    }
  }

  lemma KeptIf(d: Digests, events: seq<Event>, i: int, c: Candidate)
    requires FirstCalled(d, events, i, c)
    ensures Kept(d, events, c)
  {
  }

  lemma WickBuilt(d: Digests, p: Event, e: Event, c: Candidate, es: map<Id, Evidence>)
    requires ValidShape(e.request) && c.observedAt == p.request.bar.closeEpoch
    requires c.key.direction == p.request.setup.direction
    requires c.id == IdOf(d, p.request, DirClose, p.request.bar.openEpoch)
    requires CloseEvidence(es, c.id, p.request.bar.closeEpoch) == Some(CloseEvidenceOf(d, p.request))
    ensures var r, next := p.request, e.request.bar;
      Wick(d, Some(p), e, Some(c), es) ==
        if next.openEpoch == r.bar.closeEpoch && WickTicks(r.setup.direction, next).Some?
        then Some(WickOf(d, r, next)) else None
  {
    hide BarBody, CloseEvidence, ValidSetup, ValidAttempt, ValidCandle;
  }

  lemma HandledExtends(d: Digests, events: seq<Event>, prefix: seq<Event>, h: Handling)
    requires Extends(events, prefix)
    ensures Handled(d, events, h) <==>
              Handled(d, prefix, h) || Noted(d, events, |prefix|, h) || Wicked(d, events, |prefix|, h)
  {
    hide Noted, Wicked;
    forall i | 0 <= i < |prefix|
      ensures Noted(d, events, i, h) <==> Noted(d, prefix, i, h)
      ensures Wicked(d, events, i, h) <==> Wicked(d, prefix, i, h)
    {
      NotedSame(d, events, prefix, i, h);
      WickedSame(d, events, prefix, i, h);
    }
    forall i | Noted(d, prefix, i, h) || Wicked(d, prefix, i, h) ensures 0 <= i < |prefix| {
      HandledInside(d, prefix, i, h);
    }
    forall i | Noted(d, events, i, h) || Wicked(d, events, i, h) ensures 0 <= i <= |prefix| {
      HandledInside(d, events, i, h);
    }
  }

  lemma HandledInside(d: Digests, events: seq<Event>, i: int, h: Handling)
    requires Noted(d, events, i, h) || Wicked(d, events, i, h)
    ensures 0 <= i < |events|
  {
  }

  lemma NotedSame(d: Digests, events: seq<Event>, prefix: seq<Event>, i: int, h: Handling)
    requires Extends(events, prefix) && 0 <= i < |prefix|
    ensures Noted(d, events, i, h) <==> Noted(d, prefix, i, h)
  {
    hide Calls, Evidenced, ObservationOf, Supports;
    forall c, e ensures Supports(d, events, i, c, e) <==> Supports(d, prefix, i, c, e) {
      SupportsSame(d, events, prefix, i, c, e);
    }
  }

  lemma SupportsSame(d: Digests, events: seq<Event>, prefix: seq<Event>, i: int, c: Candidate, e: Evidence)
    requires Extends(events, prefix) && 0 <= i < |prefix|
    ensures Supports(d, events, i, c, e) <==> Supports(d, prefix, i, c, e)
  {
    hide Calls, Evidenced;
    KeptExtends(d, events, prefix, c);
  }

  lemma WickedSame(d: Digests, events: seq<Event>, prefix: seq<Event>, i: int, h: Handling)
    requires Extends(events, prefix) && 0 <= i < |prefix|
    ensures Wicked(d, events, i, h) <==> Wicked(d, prefix, i, h)
  {
    hide Closes, WickOf, WickTicks;
  }

  lemma NotedNow(d: Digests, events: seq<Event>, n: nat, ids: set<Id>, h: Handling)
    requires n < |events| && MatchEntry(d, events[n].request).Some?
    requires forall id :: id in ids <==> exists c :: Calls(d, events[n], c) && Kept(d, events, c) && c.id == id
    ensures h in KeepHandling(MatchEntry(d, events[n].request).value.handling, ids) <==> Noted(d, events, n, h)
  {
    hide Kept, Evidenced, CalledFor, MatchEntry, ObservationOf;
    var r := events[n].request;
    var rows := MatchEntry(d, r).value;
    HandlingExactly(d, r, h);
    if h in rows.handling && h.key.candidateId in ids {
      var e :| e in rows.evidence && h == ObservationOf(d, r, e);
      EvidenceExactly(d, r, e);
      ObservationCandidate(d, r, e);
      var c :| Calls(d, events[n], c) && Kept(d, events, c) && c.id == h.key.candidateId;
      assert Supports(d, events, n, c, e);
    }
    if c, e :| Supports(d, events, n, c, e) && h == ObservationOf(d, r, e) {
      EvidenceExactly(d, r, e);
      ObservationCandidate(d, r, e);
      assert e in rows.evidence;
    }
  }

  lemma ObservationCandidate(d: Digests, r: MatchRequest, e: Evidence)
    ensures ObservationOf(d, r, e).key.candidateId == e.body.candidateId
  {
  }

  /** Merging what the last event adds. */
  lemma HandlingGrows(
    d: Digests, events: seq<Event>, prefix: seq<Event>, hs: map<Id, Handling>, wick: seq<Handling>,
    noted: seq<Handling>)
    requires Extends(events, prefix) && HandlingMeans(d, prefix, hs)
    requires forall h :: h in wick <==> Wicked(d, events, |prefix|, h)
    requires forall h :: h in noted <==> Noted(d, events, |prefix|, h)
    requires Merge(hs, wick, HandlingId).Some? && Merge(Merge(hs, wick, HandlingId).value, noted, HandlingId).Some?
    ensures HandlingMeans(d, events, Merge(Merge(hs, wick, HandlingId).value, noted, HandlingId).value)
  {
    hide Noted, Wicked, Handled, Merge;
    MergeIndexes(hs, hs.Values, wick, HandlingId);
    var wicked := Merge(hs, wick, HandlingId).value;
    MergeIndexes(wicked, hs.Values + Elements(wick), noted, HandlingId);
    var all := hs.Values + Elements(wick) + Elements(noted);
    forall h ensures h in all <==> Handled(d, events, h) {
      HandledExtends(d, events, prefix, h);
      assert h in hs.Values <==> Handled(d, prefix, h);
    }
    assert Indexes(Merge(wicked, noted, HandlingId).value, all, HandlingId);
    AllHandled(d, events, Merge(wicked, noted, HandlingId).value, all);
  }

  lemma AllHandled(d: Digests, events: seq<Event>, hs: map<Id, Handling>, all: set<Handling>)
    requires Indexes(hs, all, HandlingId) && forall h :: h in all <==> Handled(d, events, h)
    ensures HandlingMeans(d, events, hs)
  {
    hide Handled;
    forall k | k in hs ensures hs[k].id == k && Handled(d, events, hs[k]) {
      assert HandlingId(hs[k]) == k;
    }
    forall h | Handled(d, events, h) ensures h.id in hs && hs[h.id] == h {
      assert HandlingId(h) == h.id;
    }
  }

  // The run

  function LastEvent(events: seq<Event>): Option<Event>
  {
    if events == [] then None else Some(events[|events| - 1])
  }

  /** The state holds what the events call for. */
  ghost predicate Holds(d: Digests, events: seq<Event>, s: State)
  {
    && Means(d, events, s) && EvidenceMeans(d, events, s.evidence) && HandlingMeans(d, events, s.handling)
    && s.previous == LastEvent(events)
    && (s.graceFrom.Some? ==> s.terminal.Some?)
    && (s.graceFrom.Some? && !s.graceConsumed ==> s.graceFrom == s.previous)
  }

  lemma NoWickYet(d: Digests, events: seq<Event>, s: State, h: Handling)
    requires |events| == 1
    ensures h in Listed(Wick(d, None, events[0], KeptClose(s), s.evidence)) <==> Wicked(d, events, 0, h)
  {
  }

  lemma WicksMean(d: Digests, events: seq<Event>, prefix: seq<Event>, s: State, previous: Option<Event>)
    requires CollisionFree(d) && BarsFollow(events) && Extends(events, prefix)
    requires forall i :: 0 <= i < |events| ==> ValidShape(events[i].request)
    requires Means(d, prefix, s) && EvidenceMeans(d, prefix, s.evidence) && previous == LastEvent(prefix)
    ensures forall h :: h in Listed(Wick(d, previous, events[|prefix|], KeptClose(s), s.evidence)) <==>
                        Wicked(d, events, |prefix|, h)
  {
    hide Means, EvidenceMeans, Wicked, ValidShape, Wick, Listed;
    forall h ensures h in Listed(Wick(d, previous, events[|prefix|], KeptClose(s), s.evidence)) <==>
                     Wicked(d, events, |prefix|, h)
    {
      if prefix == [] {
        NoWickYet(d, events, s, h);
      } else {
        WickExactly(d, events, prefix, s, h);
      }
    }
  }

  lemma ShapesExtend(d: Digests, events: seq<Event>, prefix: seq<Event>, s: State)
    requires Extends(events, prefix) && Means(d, prefix, s) && ValidShape(events[|prefix|].request)
    ensures forall i :: 0 <= i < |events| ==> ValidShape(events[i].request)
  {
    hide ValidShape, Kept, Calls, OwnModels;
  }

  lemma OpenHolds(d: Digests, events: seq<Event>, prefix: seq<Event>, s: State, t: State)
    requires CollisionFree(d) && BarsFollow(events) && Extends(events, prefix) && Holds(d, prefix, s)
    requires s.terminal.None? && OpenStep(d, s, events[|prefix|]) == Ok(t)
    ensures Holds(d, events, t)
  {
    hide Means, EvidenceMeans, HandlingMeans, MatchEntry, Wick, UpsertProofs, Merge, Admit, BarsFollow, Listed;
    var e := events[|prefix|];
    var wick := Listed(Wick(d, s.previous, e, KeptClose(s), s.evidence));
    var wicked := Merge(s.handling, wick, HandlingId).value;
    var ts := UpsertProofs(d, e.request.setup, s.transcripts, e.request.proofs).value;
    MatchShape(d, e.request);
    ShapesExtend(d, events, prefix, s);
    AdmitMeans(d, events, prefix, s, wicked, ts, t);
    WicksMean(d, events, prefix, s, s.previous);
    AdmitHandling(d, events, prefix, s, wick, ts, t);
    AdmitPrevious(s, e, wicked, ts, MatchEntry(d, e.request).value, t);
  }

  lemma AdmitPrevious(
    s: State, e: Event, wicked: map<Id, Handling>, ts: map<Context, Transcript>, rows: Rows, t: State)
    requires Admit(s, e, wicked, ts, rows) == Ok(t) && s.graceFrom.None?
    ensures t.previous == Some(e)
    ensures t.graceFrom.Some? ==> t.terminal.Some? && t.graceFrom == t.previous
  {
    hide Accept, Merge, KeepEvidence, KeepHandling, MergeTerminal;
  }

  lemma AdmitHandling(
    d: Digests, events: seq<Event>, prefix: seq<Event>, s: State, wick: seq<Handling>, ts: map<Context, Transcript>,
    t: State)
    requires Extends(events, prefix) && Means(d, prefix, s) && HandlingMeans(d, prefix, s.handling)
    requires forall h :: h in wick <==> Wicked(d, events, |prefix|, h)
    requires var e := events[|prefix|];
      && MatchEntry(d, e.request).Some? && Merge(s.handling, wick, HandlingId).Some?
      && Admit(s, e, Merge(s.handling, wick, HandlingId).value, ts, MatchEntry(d, e.request).value) == Ok(t)
    ensures HandlingMeans(d, events, t.handling)
  {
    hide Means, HandlingMeans, MatchEntry, Merge, Accept, MergeTerminal, Wicked, Noted, InOrder, KeepEvidence;
    hide KeepHandling, Calls, Kept;
    var e := events[|prefix|];
    var rows := MatchEntry(d, e.request).value;
    RowsMean(d, e);
    var a := Accept(Admission(s.first, s.candidates, {}), rows.candidates).value;
    FirstsKept(d, events, prefix, s, rows.candidates, a);
    forall h ensures h in KeepHandling(rows.handling, a.ids) <==> Noted(d, events, |prefix|, h) {
      NotedNow(d, events, |prefix|, a.ids, h);
    }
    HandlingGrows(d, events, prefix, s.handling, wick, KeepHandling(rows.handling, a.ids));
  }

  lemma GraceHolds(d: Digests, events: seq<Event>, prefix: seq<Event>, s: State, t: State)
    requires CollisionFree(d) && BarsFollow(events) && Extends(events, prefix) && Holds(d, prefix, s)
    requires s.terminal.Some? && GraceStep(d, s, events[|prefix|]) == Ok(t)
    ensures Holds(d, events, t)
  {
    hide Means, EvidenceMeans, HandlingMeans, Wick, Merge, BarsFollow, Listed, ValidShape, Wicked, Noted;
    var e := events[|prefix|];
    GraceMeans(d, events, prefix, s, t);
    ShapesExtend(d, events, prefix, s);
    WicksMean(d, events, prefix, s, s.graceFrom);
    var wick := Listed(Wick(d, s.graceFrom, e, KeptClose(s), s.evidence));
    NothingMerged(Merge(s.handling, wick, HandlingId).value);
    GraceHasClose(d, prefix, s);
    forall h ensures !Noted(d, events, |prefix|, h) {
      GraceNotesNothing(d, events, prefix, s, h);
    }
    HandlingGrows(d, events, prefix, s.handling, wick, []);
  }

  lemma GraceHasClose(d: Digests, events: seq<Event>, s: State)
    requires Means(d, events, s) && s.graceFrom.Some?
    ensures DirClose in s.first
  {
  }

  lemma NothingMerged(hs: map<Id, Handling>)
    ensures Merge(hs, [], HandlingId) == Some(hs)
  {
  }

  lemma GraceNotesNothing(d: Digests, events: seq<Event>, prefix: seq<Event>, s: State, h: Handling)
    requires Extends(events, prefix) && BarsFollow(events) && Means(d, prefix, s) && DirClose in s.first
    requires forall i :: 0 <= i < |events| ==> ValidShape(events[i].request)
    requires var r := events[|prefix|].request; r.proofs == [] && !r.genericBreak && !r.rejectionRespect
    ensures !Noted(d, events, |prefix|, h)
  {
    hide Calls, FirstCalled, Kept, ValidShape, Supported, OwnModels, Filed, Evidenced, BarsFollow, ObservationOf;
    var n := |prefix|;
    var k, close := FiledWasCalled(d, prefix, s, DirClose);
    forall c, e ensures !Supports(d, events, n, c, e) {
      if Supports(d, events, n, c, e) {
        OnlyCloseCalled(d, events[n], c);
        KeptExtends(d, events, prefix, c);
        NotFirstAgain(d, events, prefix, k, close, c);
        KeptHas(d, prefix, c);
        var j :| FirstCalled(d, prefix, j, c);
        FirstIsCall(d, prefix, j, c);
        OneCloseCall(d, events, j, n, c);
      }
    }
  }

  /** After every accepted run, the state holds exactly what the events call for. */
  lemma {:induction false} RunHolds(d: Digests, events: seq<Event>)
    requires CollisionFree(d) && BarsFollow(events) && Run(d, events).Ok?
    ensures Holds(d, events, Run(d, events).value)
  {
    hide Holds, OpenStep, GraceStep;
    if events == [] {
      NothingHeld(d);
    } else {
      var n := |events| - 1;
      RunHolds(d, events[..n]);
      var s, t := Run(d, events[..n]).value, Run(d, events).value;
      if s.terminal.Some? {
        GraceHolds(d, events, events[..n], s, t);
      } else {
        OpenHolds(d, events, events[..n], s, t);
      }
    }
  }

  lemma NothingHeld(d: Digests)
    ensures Holds(d, [], INITIAL)
  {
  }

  /** An accepted stream returns exactly the candidates, evidence and handling that its events call for. */
  lemma StreamMeans(d: Digests, events: seq<Event>, invalidated: bool, revision: int, evaluatedAt: int)
    requires CollisionFree(d) && Evaluate(d, events, invalidated, revision, evaluatedAt).Ok?
    ensures var v, ordered :=
        Evaluate(d, events, invalidated, revision, evaluatedAt).value, OrderEvents(events, revision, evaluatedAt).value;
      && (forall c :: c in v.candidates <==> Kept(d, ordered, c))
      && (forall e :: e in v.evidence <==> Supported(d, ordered, e))
      && (forall h :: h in v.handling <==> Handled(d, ordered, h))
  {
    hide Kept, Supported, Handled, Run, Inv, Holds, ValuesById;
    var setupId, start := PreparedIsStream(events, revision, evaluatedAt);
    var ordered := OrderEvents(events, revision, evaluatedAt).value;
    RunKeeps(d, setupId, start, ordered);
    RunHolds(d, ordered);
    Returned(d, ordered, setupId, LastClose(ordered, start), Run(d, ordered).value);
  }

  lemma Returned(d: Digests, events: seq<Event>, setupId: string, limit: int, s: State)
    requires Inv(d, setupId, limit, s) && Holds(d, events, s)
    ensures forall c :: c in ValuesById(s.candidates) <==> Kept(d, events, c)
    ensures forall e :: e in ValuesById(s.evidence) <==> Supported(d, events, e)
    ensures forall h :: h in ValuesById(s.handling) <==> Handled(d, events, h)
  {
    hide Kept, Supported, Handled, ValuesById;
    assert OwnIds(s.candidates, CandidateId);
    ValuesOwnIds(s.candidates, CandidateId);
    ValuesOwnIds(s.evidence, EvidenceId);
    ValuesOwnIds(s.handling, HandlingId);
    forall c ensures c in ValuesById(s.candidates) <==> Kept(d, events, c) {
      assert Filed(s.first, c) <==> CandidateId(c) in s.candidates && s.candidates[CandidateId(c)] == c;
    }
    forall e ensures e in ValuesById(s.evidence) <==> Supported(d, events, e) {
      assert EvidenceId(e) == e.id;
    }
    forall h ensures h in ValuesById(s.handling) <==> Handled(d, events, h) {
      assert HandlingId(h) == h.id;
    }
  }

  // The selected entry

  /** An exact entry: the bar closed beyond the zone, or a clean transcript recrossed the open of its candle. */
  ghost predicate ExactEntry(r: MatchRequest, c: Candidate, e: Evidence)
  {
    && r.setup.commonFidelity == Exact
    && if c.key.model == DirClose then
         && ClosesBeyond(r) && c.key.anchor == r.bar.openEpoch
         && e.body.triggerEpoch == Some(r.bar.closeEpoch) && e.body.triggerTicks == Some(r.bar.closeTicks)
       else
         && c.key.model == HtfFlip
         && exists t :: CrossedAt(r, c.key.anchor, t) && Clean(r.setup, t)
              && e.body.triggerEpoch == Some(t.recross.value.closeEpoch) && e.body.triggerTicks == Some(t.htfOpenTicks)
  }

  /** The active candidate of a piece of exact evidence makes an exact entry. */
  lemma ExactIsEntry(d: Digests, r: MatchRequest, c: Candidate, e: Evidence)
    requires CollisionFree(d) && CalledFor(d, r, c) && Evidenced(d, r, e) && e.body.candidateId == c.id
    requires ActiveModel(c.key.model) && ExactEligible(e)
    ensures ExactEntry(r, c, e)
  {
    hide Normalizes, AgreeingContexts, LatestScan, FlipStateAt, Clean, ClosesBeyond;
    if BarEvidenced(d, r, e.body) {
      var model :| Confirms(r, model) && e.body == BarBody(d, r, model);
      BarEntry(d, r, c, e, model);
    } else {
      var anchor :| FlipEvidencedAt(d, r, anchor, e.body);
      var t :| CrossedAt(r, anchor, t) && e.body == FlipBody(d, r, anchor, Normalizes(r, anchor), t, e.body.contexts);
      FlipEntry(d, r, c, e, anchor, t);
    }
  }

  lemma BarEntry(d: Digests, r: MatchRequest, c: Candidate, e: Evidence, model: Model)
    requires CollisionFree(d) && CalledFor(d, r, c) && Confirms(r, model) && e.body == BarBody(d, r, model)
    requires e.body.candidateId == c.id && ActiveModel(c.key.model) && ExactEligible(e)
    ensures ExactEntry(r, c, e)
  {
    hide Normalizes, LatestScan, FlipStateAt, ClosesBeyond;
    assert c.key == CandidateKey(r.setup.direction, r.bar.openEpoch, model, r.setup.setupId, r.ordinal);
  }

  lemma FlipEntry(d: Digests, r: MatchRequest, c: Candidate, e: Evidence, anchor: int, t: Transcript)
    requires CollisionFree(d) && CalledFor(d, r, c) && CrossedAt(r, anchor, t)
    requires e.body == FlipBody(d, r, anchor, Normalizes(r, anchor), t, e.body.contexts)
    requires e.body.candidateId == c.id && ExactEligible(e)
    ensures ExactEntry(r, c, e)
  {
    hide Normalizes, LatestScan, FlipStateAt, ClosesBeyond, Clean, Given;
    assert c.key == CandidateKey(r.setup.direction, anchor, HtfFlip, r.setup.setupId, r.ordinal);
    EligibleExactly(d, r, e, HtfFlip, anchor, t);
  }

  ghost predicate EntryOf(d: Digests, events: seq<Event>, s: Selection, i: int, c: Candidate, e: Evidence)
  {
    && Supports(d, events, i, c, e) && ExactEntry(events[i].request, c, e)
    && s.key.candidate == Some(c.id) && s.key.evidence == Some(e.id) && s.model == Some(c.key.model)
  }

  /** A stream is paper eligible only for an exact entry that one of its events shows. */
  lemma SelectedIsEntry(d: Digests, events: seq<Event>, invalidated: bool, revision: int, evaluatedAt: int)
    requires CollisionFree(d) && Evaluate(d, events, invalidated, revision, evaluatedAt).Ok?
    ensures var v, ordered :=
        Evaluate(d, events, invalidated, revision, evaluatedAt).value, OrderEvents(events, revision, evaluatedAt).value;
      v.selection.key.action == PaperEligible ==> exists i, c, e :: EntryOf(d, ordered, v.selection, i, c, e)
  {
    hide Kept, Calls, Evidenced, ExactEntry, Handled, EntrySelectionV2.OneLeader, OrderEvents, Run;
    var v, ordered :=
      Evaluate(d, events, invalidated, revision, evaluatedAt).value, OrderEvents(events, revision, evaluatedAt).value;
    StreamMeans(d, events, invalidated, revision, evaluatedAt);
    EntrySelectionV2.StreamSelectionCharacterised(d, events, invalidated, revision, evaluatedAt);
    if v.selection.key.action == PaperEligible {
      var p :| EntrySelectionV2.First(v.candidates, v.evidence, p) && v.selection.key.candidate == Some(p.candidate.id)
               && v.selection.key.evidence == Some(p.evidence.id) && v.selection.model == Some(p.candidate.key.model);
      var i, c :| Supports(d, ordered, i, c, p.evidence);
      SameKept(d, ordered, c, p.candidate);
      CallsMeans(d, ordered[i], c);
      ExactIsEntry(d, ordered[i].request, c, p.evidence);
      assert EntryOf(d, ordered, v.selection, i, c, p.evidence);
    }
  }

  lemma CallsMeans(d: Digests, e: Event, c: Candidate)
    requires Calls(d, e, c)
    ensures CalledFor(d, e.request, c) && c.id == d.candidate(c.key)
  {
  }

  /** Kept candidates with one id are one. */
  lemma SameKept(d: Digests, events: seq<Event>, b: Candidate, c: Candidate)
    requires CollisionFree(d) && Kept(d, events, b) && Kept(d, events, c) && b.id == c.id
    ensures b == c
  {
    hide Calls;
    var i :| FirstCalled(d, events, i, b);
    var j :| FirstCalled(d, events, j, c);
    CallsMeans(d, events[i], b);
    CallsMeans(d, events[j], c);
    FirstIsOnce(d, events, i, j, b, c);
    SameCalled(d, events[i], b, c);
  }

  lemma SameCalled(d: Digests, e: Event, b: Candidate, c: Candidate)
    requires Calls(d, e, b) && Calls(d, e, c) && b.key == c.key
    ensures b == c
  {
    hide Normalizes, FlipStateAt;
  }
}
