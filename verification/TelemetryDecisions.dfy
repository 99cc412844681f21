/**
 Which requests telemetry synchronisation admits, stated on the request, the
 account's session and the clock.
 */
module TelemetryDecisions {
  import opened Common
  import opened TelemetryWire
  import opened TelemetryAdmission
  import opened TelemetryRepository
  import opened TelemetryRuns
  import opened TelemetryTheorems

  /** The account is unknown, or known under this identity and registration. */
  predicate Recognised(db: Db, r: Request)
  {
    var account := r.body.identity.accountId;
    account in db.sessions ==>
      db.sessions[account].identity == r.body.identity && db.sessions[account].registration == r.body.registration
  }

  function LastRequest(db: Db, r: Request): int
  {
    var account := r.body.identity.accountId;
    if account in db.sessions then db.sessions[account].lastRequest else 0
  }

  function LastEvent(db: Db, r: Request): int
  {
    var account := r.body.identity.accountId;
    if account in db.sessions then db.sessions[account].lastEvent else 0
  }

  predicate InTime(r: Request, now: int)
  {
    -30 <= now - r.body.sentAt <= 30
  }

  /** The events are numbered from `last + 1` on, without a gap. */
  predicate NumberedFrom(es: seq<Event>, last: int)
  {
    forall i :: 0 <= i < |es| ==> es[i].sequence == last + 1 + i
  }

  /** The next request of its account, sent in time, with the next events. */
  predicate Admissible(db: Db, r: Request, now: int)
  {
    && Recognised(db, r) && r.body.requestSequence == LastRequest(db, r) + 1 && InTime(r, now)
    && NumberedFrom(r.body.events, LastEvent(db, r)) && r.body.lastAcknowledged == LastEvent(db, r)
  }

  // The decision, condition by condition

  lemma UnrecognisedRefused(d: Digests, db: Db, r: Request, now: int)
    requires LogOk(d, db) && Counter(now, 1) && |r.body.events| <= MAX_EVENTS && !Recognised(db, r)
    ensures Prepare(d, db, r, now) == Refuse(IdentityMismatch)
  {
    var account := r.body.identity.accountId;
    assert SessionOk(d, db, account, db.sessions[account]);
  }

  /** What the read finds for a recognised request under a new number. */
  lemma NewNumberLoads(d: Digests, db: Db, r: Request)
    requires CollisionFree(d) && LogOk(d, db) && WireValid(d, r)
    requires Recognised(db, r) && r.body.requestSequence > LastRequest(db, r)
    ensures var account := r.body.identity.accountId;
      var state := if account in db.sessions
                   then Some(Accepted(r.body.identity, LastRequest(db, r), LastEvent(db, r))) else None;
      Load(d, db, r) == Ok(Loaded(state, None)) && StateOk(state)
  {
    hide WireValid, Genuine, AcksGrow;
    var account, scope := r.body.identity.accountId, ScopeOf(d, r);
    if account in db.sessions {
      assert SessionOk(d, db, account, db.sessions[account]);
      assert (scope, r.body.requestSequence) !in db.receipts;
    } else {
      assert !ScopeKnown(db.sessions, scope) by {
        forall a | a in db.sessions ensures db.sessions[a].scope != scope {
          assert SessionOk(d, db, a, db.sessions[a]);
        }
      }
      UnknownScopeEmpty(d, db, scope);
      assert r.body.requestSequence >= 1 by {
        FirstNumber(d, r);
      }
    }
  }

  lemma FirstNumber(d: Digests, r: Request)
    requires WireValid(d, r)
    ensures r.body.requestSequence >= 1
  {
  }

  lemma SequencesContinue(d: Digests, r: Request, now: int, last: int)
    requires WireValid(d, r)
    ensures Continues(last, MetaOf(r, now).eventSequences) <==> NumberedFrom(r.body.events, last)
    ensures MetaOf(r, now).timely <==> InTime(r, now)
  {
    var sequences := MetaOf(r, now).eventSequences;
    if NumberedFrom(r.body.events, last) {
      forall i | 0 <= i < |sequences| ensures sequences[i] == last + 1 + i && last + i < MAX_SAFE {
        assert EventOk(d, r.body.events[i]);
      }
    }
    if Continues(last, sequences) {
      forall i | 0 <= i < |r.body.events| ensures r.body.events[i].sequence == last + 1 + i {
        assert sequences[i] == last + 1 + i;
      }
    }
  }

  /** The decision on a request whose number is not taken. */
  lemma NewNumberDecided(d: Digests, db: Db, r: Request, now: int)
    requires CollisionFree(d) && LogOk(d, db) && WireValid(d, r) && Counter(now, 1)
    requires Recognised(db, r) && r.body.requestSequence > LastRequest(db, r)
    ensures var p := Prepare(d, db, r, now);
      if r.body.requestSequence != LastRequest(db, r) + 1 then p == Refuse(SequenceInvalid)
      else if !InTime(r, now) then p == Refuse(StaleEnvelope)
      else if !NumberedFrom(r.body.events, LastEvent(db, r)) || r.body.lastAcknowledged != LastEvent(db, r)
      then p == Refuse(EventSequenceInvalid)
      else p.Proceed? && p.batch.request == r && p.batch.now == now
  {
    hide WireValid, LogOk, MetaOf, Continues, MakeResponse, ResponseValid, DeriveCoverage;
    NewNumberLoads(d, db, r);
    EventsBounded(d, r);
    MetaIsOk(d, r, now);
    MetaFields(r, now);
    SequencesContinue(d, r, now, LastEvent(db, r));
    var loaded := Load(d, db, r).value;
    if Admissible(db, r, now) {
      NewNeverFails(d, loaded.state, None, r, now);
    }
  }

  lemma EventsBounded(d: Digests, r: Request)
    requires WireValid(d, r)
    ensures |r.body.events| <= MAX_EVENTS && r.body.requestSequence <= MAX_SAFE
  {
  }

  lemma MetaFields(r: Request, now: int)
    ensures var m := MetaOf(r, now);
      m.identity == r.body.identity && m.requestSequence == r.body.requestSequence && m.digest == r.digest
      && |m.eventSequences| == |r.body.events|
  {
  }

  /** The decision on a request whose number is taken. */
  lemma OldNumberDecided(d: Digests, db: Db, r: Request, now: int)
    requires CollisionFree(d) && LogOk(d, db) && WireValid(d, r) && Counter(now, 1)
    requires Recognised(db, r) && r.body.requestSequence <= LastRequest(db, r)
    ensures var key := (ScopeOf(d, r), r.body.requestSequence);
      && key in db.receipts
      && Prepare(d, db, r, now) ==
           if db.receipts[key].digest == r.digest then Answer(db.receipts[key].response) else Refuse(ReplayConflict)
  {
    hide WireValid, MakeResponse, ResponseValid, DeriveCoverage;
    FirstNumber(d, r);
    var account, n := r.body.identity.accountId, r.body.requestSequence;
    var s := db.sessions[account];
    assert SessionOk(d, db, account, s);
    var c := db.receipts[(s.scope, n)];
    assert Genuine(d, s, n, c);
    var original :| ReceiptOf(d, s, n, c, original);
    if c.digest == r.digest {
      SameDigestSameRequest(d, s, n, c, r);
      CommittedIsAnswered(d, db, r, c.response, now);
    } else {
      OtherBodyConflicts(d, db, original, c.response, r, now);
    }
  }

  /**
   A request gets a batch exactly when its account is new or recognised, its number is
   the next one, it was sent within thirty seconds, and its events and acknowledgement
   continue the journal. Otherwise the first failing condition names the refusal, and a
   number that is taken is answered again or conflicts.
   */
  lemma AdmittedExactly(d: Digests, db: Db, r: Request, now: int)
    requires CollisionFree(d) && LogOk(d, db) && WireValid(d, r) && Counter(now, 1)
    ensures Prepare(d, db, r, now).Proceed? <==> Admissible(db, r, now)
    ensures var p := Prepare(d, db, r, now);
      var last := LastRequest(db, r);
      if !Recognised(db, r) then p == Refuse(IdentityMismatch)
      else if r.body.requestSequence <= last then
        var c := db.receipts[(ScopeOf(d, r), r.body.requestSequence)];
        p == if c.digest == r.digest then Answer(c.response) else Refuse(ReplayConflict)
      else if r.body.requestSequence > last + 1 then p == Refuse(SequenceInvalid)
      else if !InTime(r, now) then p == Refuse(StaleEnvelope)
      else if !NumberedFrom(r.body.events, LastEvent(db, r)) || r.body.lastAcknowledged != LastEvent(db, r)
      then p == Refuse(EventSequenceInvalid)
      else p.Proceed?
  {
    hide LogOk, WireValid, Prepare;
    if !Recognised(db, r) {
      EventsBounded(d, r);
      UnrecognisedRefused(d, db, r, now);
    } else if r.body.requestSequence <= LastRequest(db, r) {
      OldNumberDecided(d, db, r, now);
    } else {
      NewNumberDecided(d, db, r, now);
    }
  }

  // The whole call

  /** No stored event of the scope has this id, and a deal continues its chain of revisions. */
  predicate Fits(events: Journal, deals: Deals, scope: nat, e: Event)
  {
    && (scope, e.sequence) !in events
    && (forall k :: k in events && k.0 == scope ==> events[k].eventId != e.eventId)
    && (e.record.Deal? ==>
          && (forall k :: k in events && k.0 == scope && events[k].record.Deal? ==>
                !(events[k].record.dealId == e.record.dealId && events[k].record.revision == e.record.revision))
          && var key := (scope, e.record.dealId);
             if key in deals
             then e.record.revision == deals[key].revision + 1 && e.record.previous == Some(deals[key].digest)
             else e.record.revision == 1 && e.record.previous == None)
  }

  predicate AllFit(events: Journal, deals: Deals, scope: nat, es: seq<Event>)
  {
    forall i :: 0 <= i < |es| ==> Fits(events, deals, scope, es[i])
  }

  lemma OneRowFits(events: Journal, deals: Deals, scope: nat, e: Event)
    ensures RowFits(events, deals, scope, e) <==> Fits(events, deals, scope, e)
  {
  }

  /** Storing one event does not change whether a different later one fits. */
  lemma FitAfter(events: Journal, deals: Deals, scope: nat, x: Event, e: Event)
    requires (scope, x.sequence) !in events && x.sequence != e.sequence && x.eventId != e.eventId
    requires x.record.Deal? && e.record.Deal? ==> x.record.dealId != e.record.dealId
    ensures Fits(events[(scope, x.sequence) := x], deals, scope, e) <==> Fits(events, deals, scope, e)
  {
    var after := events[(scope, x.sequence) := x];
    if Fits(after, deals, scope, e) {
      forall k | k in events ensures after[k] == events[k] {
      }
    }
  }

  lemma {:induction false} InsertedExactly(events: Journal, deals: Deals, scope: nat, base: int, es: seq<Event>)
    requires DistinctEvents(es) && Numbered(es, base)
    ensures InsertEvents(events, deals, scope, es).Some? <==> AllFit(events, deals, scope, es)
    decreases |es|
  {
    hide Fits, RowFits;
    if es != [] {
      var x, tail := es[0], es[1..];
      OneRowFits(events, deals, scope, x);
      if RowFits(events, deals, scope, x) {
        var after := events[(scope, x.sequence) := x];
        assert (scope, x.sequence) !in events by {
          FreshKey(events, deals, scope, x);
        }
        InsertedExactly(after, deals, scope, base + 1, tail);
        forall i | 1 <= i < |es| ensures Fits(after, deals, scope, es[i]) <==> Fits(events, deals, scope, es[i]) {
          FitAfter(events, deals, scope, x, es[i]);
        }
        assert forall i :: 0 <= i < |tail| ==> tail[i] == es[i + 1];
        if AllFit(after, deals, scope, tail) {
          forall i | 0 <= i < |es| ensures Fits(events, deals, scope, es[i]) {
            if i > 0 {
              assert Fits(after, deals, scope, tail[i - 1]);
            }
          }
        }
        if AllFit(events, deals, scope, es) {
          forall i | 0 <= i < |tail| ensures Fits(after, deals, scope, tail[i]) {
            assert Fits(events, deals, scope, es[i + 1]);
          }
        }
      }
    }
  }

  lemma FreshKey(events: Journal, deals: Deals, scope: nat, e: Event)
    requires RowFits(events, deals, scope, e)
    ensures (scope, e.sequence) !in events
  {
  }

  /** The account after an accepted request. */
  predicate Advanced(d: Digests, db: Db, r: Request, now: int, db': Db)
  {
    var body := r.body;
    var scope, ack := d.scope(body.identity), LastEvent(db, r) + |body.events|;
    && db'.sessions == db.sessions[body.identity.accountId :=
         Session(scope, body.identity, body.registration, LastRequest(db, r) + 1, ack, r.digest, now)]
    && db'.receipts.Keys == db.receipts.Keys + {(scope, LastRequest(db, r) + 1)}
    && JournalGrows(db.events, scope, LastEvent(db, r), body.events, db'.events)
  }

  /** The new events under their numbers, the old ones as they were, and no others. */
  predicate JournalGrows(events: Journal, scope: nat, last: int, es: seq<Event>, next: Journal)
  {
    && (forall i :: 0 <= i < |es| ==> (scope, last + 1 + i) in next && next[(scope, last + 1 + i)] == es[i])
    && (forall k :: k in events ==> k in next && next[k] == events[k])
    && (forall k :: k in next ==> k in events || (k.0 == scope && last < k.1 <= last + |es|))
  }

  /** The response to a request accepted at `now`. */
  predicate Acknowledges(db: Db, r: Request, now: int, response: Response)
  {
    var x := response.body;
    && x.identity == r.body.identity && x.requestSequence == r.body.requestSequence && x.requestDigest == r.digest
    && x.acceptedAt == now && x.acknowledged == LastEvent(db, r) + |r.body.events|
    && x.coverage.pending == r.body.collection.produced - x.acknowledged
    && (x.coverage.state == UpToDate <==>
          r.body.collection.recordGap.None? && r.body.collection.scanFinished && x.coverage.pending == 0)
  }

  /**
   One undisturbed call, from tables and request to tables and answer: an admissible
   request whose events fit is acknowledged and advances its account; if they do not fit,
   storage is unavailable; a taken number is answered again or conflicts; everything else
   is refused. Nothing else ever changes the tables.
   */
  lemma AcceptDecided(d: Digests, db: Db, r: Request, now: int, db': Db, answer: Result<Response, Error>)
    requires CollisionFree(d) && LogOk(d, db) && WireValid(d, r) && Counter(now, 1)
    requires Accepts(d, db, r, now, db', answer)
    ensures var scope := ScopeOf(d, r);
      if Admissible(db, r, now) && AllFit(db.events, db.deals, scope, r.body.events) then
        answer.Ok? && Acknowledges(db, r, now, answer.value) && Advanced(d, db, r, now, db')
      else
        && db' == db
        && answer ==
             if !Recognised(db, r) then Err(IdentityMismatch)
             else if r.body.requestSequence <= LastRequest(db, r) then
               var c := db.receipts[(scope, r.body.requestSequence)];
               if c.digest == r.digest then Ok(c.response) else Err(ReplayConflict)
             else if r.body.requestSequence > LastRequest(db, r) + 1 then Err(SequenceInvalid)
             else if !InTime(r, now) then Err(StaleEnvelope)
             else if !NumberedFrom(r.body.events, LastEvent(db, r)) || r.body.lastAcknowledged != LastEvent(db, r)
             then Err(EventSequenceInvalid)
             else Err(StorageUnavailable)
  {
    hide LogOk, WireValid, Prepare, Confirm, Commit, AllFit;
    AdmittedExactly(d, db, r, now);
    if Admissible(db, r, now) {
      var b := Prepare(d, db, r, now).batch;
      PreparedIsOk(d, db, r, now);
      UninterruptedAccept(d, db, r, now);
      AdmissibleFits(d, db, r, now, b);
      if Commit(db, b).Some? {
        AdvancedBy(d, db, r, now, b);
      }
    }
  }

  lemma AdmissibleFits(d: Digests, db: Db, r: Request, now: int, b: Batch)
    requires WireValid(d, r) && Admissible(db, r, now) && b.scope == ScopeOf(d, r)
    ensures InsertEvents(db.events, db.deals, b.scope, r.body.events).Some?
            <==> AllFit(db.events, db.deals, b.scope, r.body.events)
  {
    hide AllFit;
    InsertedExactly(db.events, db.deals, b.scope, LastEvent(db, r), r.body.events);
  }

  lemma AdvancedBy(d: Digests, db: Db, r: Request, now: int, b: Batch)
    requires CollisionFree(d) && LogOk(d, db) && BatchOk(d, db, b) && b.request == r && b.now == now
    requires Admissible(db, r, now) && Commit(db, b).Some?
    ensures Advanced(d, db, r, now, Commit(db, b).value) && Acknowledges(db, r, now, b.response)
  {
    hide LogOk, Commit, Advanced, Acknowledges, Applied, Admissible, BatchShape;
    CommitApplies(d, db, b);
    AppliedAdvances(d, db, b, Commit(db, b).value);
    BatchAcknowledges(d, db, b);
  }

  lemma AppliedAdvances(d: Digests, db: Db, b: Batch, after: Db)
    requires Applied(db, b, after) && BatchShape(d, b) && Admissible(db, b.request, b.now)
    ensures Advanced(d, db, b.request, b.now, after)
  {
    hide WireValid, MakeResponse, Extends, Numbered, NumberedFrom, JournalGrows;
    JournalAdvances(db.events, b.scope, LastEvent(db, b.request), b.request.body.events, after.events);
  }

  lemma JournalAdvances(events: Journal, scope: nat, base: int, es: seq<Event>, next: Journal)
    requires Extends(events, scope, base, es, next)
    ensures JournalGrows(events, scope, base, es, next)
  {
    forall i | 0 <= i < |es| ensures (scope, base + 1 + i) in next && next[(scope, base + 1 + i)] == es[i] {
      assert next[(scope, base + 1 + i)] == es[base + 1 + i - base - 1];
    }
  }

  lemma BatchAcknowledges(d: Digests, db: Db, b: Batch)
    requires BatchShape(d, b) && Admissible(db, b.request, b.now)
    ensures Acknowledges(db, b.request, b.now, b.response)
  {
    hide WireValid, Numbered;
    CoverageMeans(b.request.body.collection, b.acknowledged);
  }
}
