/**
 The promises of telemetry synchronisation, over every run: exact logs, fixed
 identities, exact replay.
 */
module TelemetryTheorems {
  import opened Common
  import opened TelemetryWire
  import opened TelemetryAdmission
  import opened TelemetryRepository
  import opened TelemetryRuns

  // What a read finds

  lemma LoadedState(d: Digests, db: Db, r: Request)
    requires LogOk(d, db) && LoadState(d, db.sessions, r).Ok?
    ensures var account := r.body.identity.accountId;
      match LoadState(d, db.sessions, r).value {
        case None => account !in db.sessions
        case Some(s) =>
          && account in db.sessions && SessionOk(d, db, account, db.sessions[account])
          && s == Accepted(r.body.identity, db.sessions[account].lastRequest, db.sessions[account].lastEvent)
          && db.sessions[account].identity == r.body.identity
          && db.sessions[account].registration == r.body.registration
          && db.sessions[account].scope == ScopeOf(d, r)
      }
  {
  }

  /** Both readers answer from a replay admission, and only from one. */
  lemma AnswersAreReplays(d: Digests, db: Db, r: Request, now: int)
    ensures Confirm(d, db, r, now).Ok? || Prepare(d, db, r, now).Answer? ==>
              && Load(d, db, r).Ok?
              && Admit(Load(d, db, r).value.state, Load(d, db, r).value.receipt, MetaOf(r, now)).Replay?
    ensures Load(d, db, r).Ok? ==>
              match Admit(Load(d, db, r).value.state, Load(d, db, r).value.receipt, MetaOf(r, now)) {
                case Replay(response) =>
                  && Confirm(d, db, r, now) == Ok(response)
                  && (Prepare(d, db, r, now).Answer? ==> Prepare(d, db, r, now).response == response)
                  && (|r.body.events| <= MAX_EVENTS && Counter(now, 1) ==> Prepare(d, db, r, now).Answer?)
                case Reject(code) =>
                  && Confirm(d, db, r, now) == Err(if code == ReplayConflict then code else StorageUnavailable)
                  && (|r.body.events| <= MAX_EVENTS && Counter(now, 1) ==> Prepare(d, db, r, now) == Refuse(code))
                case New(_) => Confirm(d, db, r, now) == Err(StorageUnavailable)
              }
  {
  }

  /** A replay admission comes from the stored receipt with the request's own digest. */
  lemma ReplayHasReceipt(d: Digests, db: Db, r: Request, now: int)
    requires Load(d, db, r).Ok?
    requires Admit(Load(d, db, r).value.state, Load(d, db, r).value.receipt, MetaOf(r, now)).Replay?
    ensures var key := (ScopeOf(d, r), r.body.requestSequence);
      && key in db.receipts && db.receipts[key].digest == r.digest
      && Admit(Load(d, db, r).value.state, Load(d, db, r).value.receipt, MetaOf(r, now))
           == Replay(db.receipts[key].response)
      && LoadState(d, db.sessions, r).Ok? && LoadState(d, db.sessions, r).value.Some?
  {
  }

  lemma SameDigestSameRequest(d: Digests, s: Session, n: int, c: Receipt, r: Request)
    requires CollisionFree(d) && Genuine(d, s, n, c) && WireValid(d, r) && c.digest == r.digest
    ensures ReceiptOf(d, s, n, c, r)
  {
    var r' :| ReceiptOf(d, s, n, c, r');
    assert d.body(r.body) == d.body(r'.body);
  }

  /** A request that is answered from the tables is the one that was accepted under its number. */
  lemma AnswerIsCommitted(d: Digests, db: Db, r: Request, now: int)
    requires CollisionFree(d) && LogOk(d, db) && WireValid(d, r)
    ensures Confirm(d, db, r, now).Ok? ==> Committed(d, db, r, Confirm(d, db, r, now).value)
    ensures Prepare(d, db, r, now).Answer? ==> Committed(d, db, r, Prepare(d, db, r, now).response)
  {
    AnswersAreReplays(d, db, r, now);
    if Confirm(d, db, r, now).Ok? || Prepare(d, db, r, now).Answer? {
      ReplayHasReceipt(d, db, r, now);
      LoadedState(d, db, r);
      var account, n := r.body.identity.accountId, r.body.requestSequence;
      var s := db.sessions[account];
      SameDigestSameRequest(d, s, n, db.receipts[(s.scope, n)], r);
    }
  }

  lemma CommittedState(d: Digests, db: Db, r: Request, response: Response)
    requires LogOk(d, db) && Committed(d, db, r, response)
    ensures var s := db.sessions[r.body.identity.accountId];
      && s.scope == ScopeOf(d, r) && s.scope == d.scope(s.identity)
      && StateOk(Some(Accepted(s.identity, s.lastRequest, s.lastEvent)))
      && r.body.requestSequence <= s.lastRequest
      && db.receipts[(s.scope, r.body.requestSequence)].acknowledged <= s.lastEvent
  {
    var account, n := r.body.identity.accountId, r.body.requestSequence;
    var s := db.sessions[account];
    assert SessionOk(d, db, account, s);
    assert db.receipts[(s.scope, n)].acknowledged <= db.receipts[(s.scope, s.lastRequest)].acknowledged;
  }

  /** The read finds a committed receipt, for its own request and for any other in its place. */
  lemma CommittedLoads(d: Digests, db: Db, r: Request, response: Response, other: Request)
    requires LogOk(d, db) && Committed(d, db, r, response)
    requires other == r || (SameSlot(r, other) && other.digest != r.digest)
    ensures var s := db.sessions[r.body.identity.accountId];
      Load(d, db, other) ==
        Ok(Loaded(Some(Accepted(s.identity, s.lastRequest, s.lastEvent)),
                  Some(ReceiptMeta(s.identity, r.body.requestSequence, r.digest, response))))
  {
    CommittedState(d, db, r, response);
    var s := db.sessions[r.body.identity.accountId];
    var state := Accepted(s.identity, s.lastRequest, s.lastEvent);
    var c := db.receipts[(s.scope, r.body.requestSequence)];
    CommittedReceiptLoads(d, state, c, s, r);
    if other != r {
      ForeignReceiptLoads(d, state, c, s, r, other);
    }
    StateLoads(d, db.sessions, other, s);
    LoadOf(d, db, other, state, c);
  }

  lemma StateLoads(d: Digests, sessions: Sessions, r: Request, s: Session)
    requires r.body.identity.accountId in sessions && sessions[r.body.identity.accountId] == s
    requires s.identity == r.body.identity && s.registration == r.body.registration && s.scope == d.scope(s.identity)
    requires Counter(s.lastRequest, 1) && Counter(s.lastEvent, 0)
    ensures LoadState(d, sessions, r) == Ok(Some(Accepted(s.identity, s.lastRequest, s.lastEvent)))
  {
  }

  lemma LoadOf(d: Digests, db: Db, r: Request, state: Accepted, c: Receipt)
    requires LoadState(d, db.sessions, r) == Ok(Some(state))
    requires (ScopeOf(d, r), r.body.requestSequence) in db.receipts
    requires db.receipts[(ScopeOf(d, r), r.body.requestSequence)] == c
    requires LoadReceipt(d, Some(state), Some(c), r).Ok?
    ensures Load(d, db, r) == Ok(Loaded(Some(state), LoadReceipt(d, Some(state), Some(c), r).value))
  {
  }

  /** A request under the same number, identity and registration. */
  predicate SameSlot(r: Request, other: Request)
  {
    && other.body.identity == r.body.identity && other.body.registration == r.body.registration
    && other.body.requestSequence == r.body.requestSequence
  }

  /** A committed request is answered from the tables, whatever the time. */
  lemma CommittedIsAnswered(d: Digests, db: Db, r: Request, response: Response, now: int)
    requires LogOk(d, db) && Committed(d, db, r, response)
    ensures Confirm(d, db, r, now) == Ok(response)
    ensures Counter(now, 1) ==> Prepare(d, db, r, now) == Answer(response)
  {
    CommittedState(d, db, r, response);
    CommittedLoads(d, db, r, response, r);
    var loaded := Load(d, db, r).value;
    ReplayAdmitted(d, loaded.state.value, loaded.receipt.value, r, now);
    AnswersAreReplays(d, db, r, now);
  }

  lemma CommittedReceiptLoads(d: Digests, state: Accepted, c: Receipt, s: Session, r: Request)
    requires ReceiptOf(d, s, r.body.requestSequence, c, r)
    requires c.acknowledged <= state.lastEvent
    ensures LoadReceipt(d, Some(state), Some(c), r) ==
              Ok(Some(ReceiptMeta(state.identity, r.body.requestSequence, r.digest, c.response)))
  {
  }

  lemma MetaIsOk(d: Digests, r: Request, now: int)
    requires WireValid(d, r)
    ensures MetaOk(MetaOf(r, now))
  {
    var sequences := MetaOf(r, now).eventSequences;
    forall i | 0 <= i < |sequences| ensures Counter(sequences[i], 1) {
      assert EventOk(d, r.body.events[i]);
    }
  }

  lemma ReplayAdmitted(d: Digests, state: Accepted, receipt: ReceiptMeta, r: Request, now: int)
    requires WireValid(d, r) && state.identity == r.body.identity && StateOk(Some(state))
    requires receipt.identity == state.identity
    requires receipt.requestSequence == r.body.requestSequence <= state.lastRequest
    ensures Admit(Some(state), Some(receipt), MetaOf(r, now)) ==
              if receipt.digest == r.digest then Replay(receipt.response) else Reject(ReplayConflict)
  {
    MetaIsOk(d, r, now);
  }

  /** A different body under an accepted number, identity and registration conflicts. */
  lemma OtherBodyConflicts(d: Digests, db: Db, r: Request, response: Response, other: Request, now: int)
    requires CollisionFree(d) && LogOk(d, db) && Committed(d, db, r, response)
    requires WireValid(d, other) && other != r && SameSlot(r, other)
    ensures Confirm(d, db, other, now) == Err(ReplayConflict)
    ensures Counter(now, 1) ==> Prepare(d, db, other, now) == Refuse(ReplayConflict)
  {
    assert d.body(other.body) != d.body(r.body);
    CommittedState(d, db, r, response);
    CommittedLoads(d, db, r, response, other);
    var loaded := Load(d, db, other).value;
    ReplayAdmitted(d, loaded.state.value, loaded.receipt.value, other, now);
    AnswersAreReplays(d, db, other, now);
  }

  lemma ForeignReceiptLoads(d: Digests, state: Accepted, c: Receipt, s: Session, r: Request, other: Request)
    requires ReceiptOf(d, s, r.body.requestSequence, c, r) && c.acknowledged <= state.lastEvent
    requires other.digest != r.digest && other.body.requestSequence == r.body.requestSequence
    ensures LoadReceipt(d, Some(state), Some(c), other) ==
              Ok(Some(ReceiptMeta(state.identity, r.body.requestSequence, r.digest, c.response)))
  {
  }

  // What a call prepares

  /**
   A new request whose acknowledgement matches is never refused while its response
   is made: the coverage and the response validation succeed.
   */
  lemma NewNeverFails(d: Digests, state: Option<Accepted>, receipt: Option<ReceiptMeta>, r: Request, now: int)
    requires WireValid(d, r) && Counter(now, 1)
    requires Admit(state, receipt, MetaOf(r, now)).New?
    requires r.body.lastAcknowledged == if state.Some? then state.value.lastEvent else 0
    ensures PrepareLoaded(d, state, receipt, r, now).Proceed?
    ensures var b := PrepareLoaded(d, state, receipt, r, now).batch;
      && BatchShape(d, b) && b.request == r && b.now == now
      && b.previous == (if state.Some? then state.value.lastRequest else 0)
  {
    var body := r.body;
    var sequences := MetaOf(r, now).eventSequences;
    var base := body.lastAcknowledged;
    assert Continues(base, sequences);
    assert Numbered(body.events, base) by {
      forall i | 0 <= i < |body.events| ensures body.events[i].sequence == base + 1 + i {
        assert sequences[i] == base + 1 + i;
      }
    }
    var ack := base + |body.events|;
    assert ack == ExpectedAck(body);
    assert body.events != [] ==> EventOk(d, body.events[|body.events| - 1]);
    assert ack <= body.collection.produced;
    assert DeriveCoverage(true, body.collection, ack).Some?;
  }

  lemma PreparedIsOk(d: Digests, db: Db, r: Request, now: int)
    requires CollisionFree(d) && LogOk(d, db) && WireValid(d, r) && Prepare(d, db, r, now).Proceed?
    ensures var b := Prepare(d, db, r, now).batch;
      BatchOk(d, db, b) && b.request == r && b.now == now && StandsBefore(Lookup(db.sessions, b), b)
  {
    hide WireValid, BatchShape, LoadReceipt, Genuine, MakeResponse, ResponseValid, DeriveCoverage;
    var loaded := Load(d, db, r).value;
    LoadedState(d, db, r);
    NewNeverFails(d, loaded.state, loaded.receipt, r, now);
    var account := r.body.identity.accountId;
    if account in db.sessions {
      var s := db.sessions[account];
      assert (s.scope, s.lastRequest) in db.receipts;
    }
  }

  // What every step keeps

  lemma AppliedKeepsBatch(d: Digests, db: Db, b: Batch, after: Db, other: Batch)
    requires Applied(db, b, after) && BatchOk(d, db, other)
    ensures BatchOk(d, after, other)
  {
  }

  lemma AppliedKeepsCommitted(d: Digests, db: Db, b: Batch, after: Db, r: Request, response: Response)
    requires Applied(db, b, after) && Committed(d, db, r, response)
    ensures Committed(d, after, r, response)
  {
  }

  lemma PreparedKeeps(d: Digests, w: World, r: Request, outcome: Outcome)
    requires Inv(d, w)
    requires outcome.Answer? ==> Committed(d, w.db, r, outcome.response)
    requires outcome.Proceed? ==> BatchOk(d, w.db, outcome.batch)
    ensures Inv(d, Prepared(w, r, outcome))
  {
    match outcome
    case Refuse(_) =>
    case Answer(response) => AnswerAdded(d, w.db, w.answered, r, response);
    case Proceed(b) => BatchAdded(d, w.db, w.prepared, b);
  }

  lemma AnswerAdded(d: Digests, db: Db, answered: set<(Request, Response)>, r: Request, response: Response)
    requires AllCommitted(d, db, answered) && Committed(d, db, r, response)
    ensures AllCommitted(d, db, answered + {(r, response)})
  {
  }

  lemma BatchAdded(d: Digests, db: Db, prepared: set<Batch>, b: Batch)
    requires BatchesOk(d, db, prepared) && BatchOk(d, db, b)
    ensures BatchesOk(d, db, prepared + {b})
  {
  }

  lemma BeginKeeps(d: Digests, w: World, r: Request, now: int)
    requires CollisionFree(d) && Inv(d, w)
    ensures Inv(d, BeginStep(d, w, r, now))
  {
    if WireValid(d, r) {
      AnswerIsCommitted(d, w.db, r, now);
      if Prepare(d, w.db, r, now).Proceed? {
        PreparedIsOk(d, w.db, r, now);
      }
      PreparedKeeps(d, w, r, Prepare(d, w.db, r, now));
    }
  }

  lemma AppliedKeeps(d: Digests, w: World, b: Batch, after: Db)
    requires Inv(d, w) && Applied(w.db, b, after) && LogOk(d, after)
    ensures Inv(d, w.(db := after))
  {
    forall other | other in w.prepared ensures BatchOk(d, after, other) {
      AppliedKeepsBatch(d, w.db, b, after, other);
    }
    forall p | p in w.answered ensures Committed(d, after, p.0, p.1) {
      AppliedKeepsCommitted(d, w.db, b, after, p.0, p.1);
    }
  }

  lemma ApplyKeeps(d: Digests, w: World, b: Batch)
    requires CollisionFree(d) && Inv(d, w)
    ensures Inv(d, ApplyStep(w, b))
  {
    if b in w.prepared && Commit(w.db, b).Some? {
      CommitApplies(d, w.db, b);
      AppliedKeepsLog(d, w.db, b, Commit(w.db, b).value);
      AppliedKeeps(d, w, b, Commit(w.db, b).value);
    }
  }

  lemma FinishedKeeps(d: Digests, w: World, r: Request, answer: Result<Response, Error>)
    requires Inv(d, w) && (answer.Ok? ==> Committed(d, w.db, r, answer.value))
    ensures Inv(d, Finished(w, r, answer))
  {
    if answer.Ok? {
      AnswerAdded(d, w.db, w.answered, r, answer.value);
    }
  }

  lemma FinishKeeps(d: Digests, w: World, r: Request, now: int)
    requires CollisionFree(d) && Inv(d, w)
    ensures Inv(d, FinishStep(d, w, r, now))
  {
    if WireValid(d, r) {
      AnswerIsCommitted(d, w.db, r, now);
      FinishedKeeps(d, w, r, Confirm(d, w.db, r, now));
    }
  }

  lemma StepKeeps(d: Digests, w: World, l: Label)
    requires CollisionFree(d) && Inv(d, w)
    ensures Inv(d, Next(d, w, l))
  {
    match l
    case Begin(r, now) => BeginKeeps(d, w, r, now);
    case Apply(b) => ApplyKeeps(d, w, b);
    case Finish(r, now) => FinishKeeps(d, w, r, now);
  }

  lemma {:induction false} RunKeeps(d: Digests, w: World, labels: seq<Label>)
    requires CollisionFree(d) && Inv(d, w)
    ensures Inv(d, Run(d, w, labels))
    decreases |labels|
  {
    if labels != [] {
      StepKeeps(d, w, labels[0]);
      RunKeeps(d, Next(d, w, labels[0]), labels[1..]);
    }
  }

  /** Rows are only added, and an account keeps its identity, registration and scope. */
  ghost predicate Grows(db: Db, later: Db)
  {
    && (forall a :: a in db.sessions ==> a in later.sessions && SessionGrows(db.sessions[a], later.sessions[a]))
    && (forall k :: k in db.receipts ==> k in later.receipts && later.receipts[k] == db.receipts[k])
    && (forall k :: k in db.events ==> k in later.events && later.events[k] == db.events[k])
  }

  predicate SessionGrows(s: Session, later: Session)
  {
    && later.scope == s.scope && later.identity == s.identity && later.registration == s.registration
    && later.lastRequest >= s.lastRequest && later.lastEvent >= s.lastEvent
  }

  lemma AppliedGrows(d: Digests, db: Db, b: Batch, after: Db)
    requires Applied(db, b, after) && BatchShape(d, b)
    ensures Grows(db, after)
  {
  }

  lemma GrowsItself(db: Db)
    ensures Grows(db, db)
  {
  }

  /** Later in a run: more rows and more answers. */
  ghost predicate Later(w: World, w': World)
  {
    Grows(w.db, w'.db) && w.answered <= w'.answered
  }

  lemma BatchGrows(d: Digests, db: Db, b: Batch)
    requires CollisionFree(d) && LogOk(d, db) && BatchOk(d, db, b)
    ensures Grows(db, AfterBatch(db, b))
  {
    if Commit(db, b).Some? {
      CommitApplies(d, db, b);
      AppliedGrows(d, db, b, Commit(db, b).value);
    } else {
      GrowsItself(db);
    }
  }

  lemma ReadingsGrow(d: Digests, w: World, r: Request, now: int)
    ensures Later(w, BeginStep(d, w, r, now)) && Later(w, FinishStep(d, w, r, now))
  {
    GrowsItself(w.db);
  }

  lemma ApplyGrows(d: Digests, w: World, b: Batch)
    requires CollisionFree(d) && LogOk(d, w.db) && BatchesOk(d, w.db, w.prepared)
    ensures Later(w, ApplyStep(w, b))
  {
    GrowsItself(w.db);
    if b in w.prepared {
      BatchGrows(d, w.db, b);
    }
  }

  lemma StepGrows(d: Digests, w: World, l: Label)
    requires CollisionFree(d) && Inv(d, w)
    ensures Later(w, Next(d, w, l))
  {
    match l
    case Begin(r, now) => ReadingsGrow(d, w, r, now);
    case Finish(r, now) => ReadingsGrow(d, w, r, now);
    case Apply(b) => ApplyGrows(d, w, b);
  }

  lemma LaterIsTransitive(w: World, w': World, w'': World)
    requires Later(w, w') && Later(w', w'')
    ensures Later(w, w'')
  {
    forall a | a in w.db.sessions
      ensures a in w''.db.sessions && SessionGrows(w.db.sessions[a], w''.db.sessions[a])
    {
      assert SessionGrows(w.db.sessions[a], w'.db.sessions[a]);
    }
  }

  lemma {:induction false} RunGrows(d: Digests, w: World, labels: seq<Label>)
    requires CollisionFree(d) && Inv(d, w)
    ensures Later(w, Run(d, w, labels))
    decreases |labels|
  {
    if labels == [] {
      GrowsItself(w.db);
    } else {
      var w' := Next(d, w, labels[0]);
      StepKeeps(d, w, labels[0]);
      StepGrows(d, w, labels[0]);
      RunGrows(d, w', labels[1..]);
      LaterIsTransitive(w, w', Run(d, w', labels[1..]));
    }
  }

  // Theorems

  /** In every reachable state each account's receipts and events are exactly `1..last`. */
  lemma LogIntegrity(d: Digests, labels: seq<Label>)
    requires CollisionFree(d)
    ensures var db := Run(d, Start, labels).db;
      && (forall a :: a in db.sessions ==>
            && ReceiptsExactly(db.receipts, db.sessions[a].scope, db.sessions[a].lastRequest)
            && EventsExactly(db.events, db.sessions[a].scope, db.sessions[a].lastEvent))
      && RowsOwned(db)
  {
    RunKeeps(d, Start, labels);
    var db := Run(d, Start, labels).db;
    forall a | a in db.sessions
      ensures ReceiptsExactly(db.receipts, db.sessions[a].scope, db.sessions[a].lastRequest)
              && EventsExactly(db.events, db.sessions[a].scope, db.sessions[a].lastEvent)
    {
      assert SessionOk(d, db, a, db.sessions[a]);
    }
  }

  /** Nothing accepted is ever rewritten, and identities and registrations are fixed at the first request. */
  lemma HistoryIsFixed(d: Digests, labels: seq<Label>, more: seq<Label>)
    requires CollisionFree(d)
    ensures Grows(Run(d, Start, labels).db, Run(d, Run(d, Start, labels), more).db)
  {
    RunKeeps(d, Start, labels);
    RunGrows(d, Run(d, Start, labels), more);
  }

  /**
   Once a request has been answered, every later resend of it gets the same answer
   and changes nothing, and another body under its number conflicts.
   */
  lemma ReplayIsExact(
    d: Digests, labels: seq<Label>, more: seq<Label>, r: Request, response: Response, now: int)
    requires CollisionFree(d) && (r, response) in Run(d, Start, labels).answered && Counter(now, 1)
    ensures var w := Run(d, Run(d, Start, labels), more);
      && Prepare(d, w.db, r, now) == Answer(response) && Confirm(d, w.db, r, now) == Ok(response)
      && Next(d, w, Begin(r, now)) == w
      && forall other :: WireValid(d, other) && other != r && SameSlot(r, other) ==>
           Prepare(d, w.db, other, now) == Refuse(ReplayConflict)
  {
    var before := Run(d, Start, labels);
    RunKeeps(d, Start, labels);
    RunKeeps(d, before, more);
    RunGrows(d, before, more);
    ReplayInState(d, Run(d, before, more), r, response, now);
  }

  lemma OtherBodiesConflict(d: Digests, db: Db, r: Request, response: Response, now: int)
    requires CollisionFree(d) && LogOk(d, db) && Committed(d, db, r, response) && Counter(now, 1)
    ensures forall other :: WireValid(d, other) && other != r && SameSlot(r, other) ==>
              Prepare(d, db, other, now) == Refuse(ReplayConflict)
  {
    forall other | WireValid(d, other) && other != r && SameSlot(r, other)
      ensures Prepare(d, db, other, now) == Refuse(ReplayConflict)
    {
      OtherBodyConflicts(d, db, r, response, other, now);
    }
  }

  lemma ReplayInState(d: Digests, w: World, r: Request, response: Response, now: int)
    requires CollisionFree(d) && Inv(d, w) && (r, response) in w.answered && Counter(now, 1)
    ensures Prepare(d, w.db, r, now) == Answer(response) && Confirm(d, w.db, r, now) == Ok(response)
    ensures Next(d, w, Begin(r, now)) == w
    ensures forall other :: WireValid(d, other) && other != r && SameSlot(r, other) ==>
              Prepare(d, w.db, other, now) == Refuse(ReplayConflict)
  {
    assert Committed(d, w.db, (r, response).0, (r, response).1);
    CommittedIsAnswered(d, w.db, r, response, now);
    OtherBodiesConflict(d, w.db, r, response, now);
    AnsweredAgain(d, w, r, response, now);
  }

  lemma AnsweredAgain(d: Digests, w: World, r: Request, response: Response, now: int)
    requires Prepare(d, w.db, r, now) == Answer(response) && (r, response) in w.answered
    ensures Next(d, w, Begin(r, now)) == w
  {
    assert w.answered + {(r, response)} == w.answered;
  }

  lemma StepKeepsCommitted(d: Digests, w: World, l: Label, r: Request, response: Response)
    requires CollisionFree(d) && Inv(d, w) && Committed(d, w.db, r, response)
    ensures Committed(d, Next(d, w, l).db, r, response)
  {
    hide Committed, Applied, LogOk, Commit, Prepare, Confirm, WireValid;
    if l.Apply? && l.batch in w.prepared && Commit(w.db, l.batch).Some? {
      CommitApplies(d, w.db, l.batch);
      AppliedKeepsCommitted(d, w.db, l.batch, Commit(w.db, l.batch).value, r, response);
    }
  }

  lemma {:induction false} RunKeepsCommitted(d: Digests, w: World, labels: seq<Label>, r: Request, response: Response)
    requires CollisionFree(d) && Inv(d, w) && Committed(d, w.db, r, response)
    ensures Committed(d, Run(d, w, labels).db, r, response)
    decreases |labels|
  {
    hide Inv, Committed, Next;
    if labels != [] {
      StepKeeps(d, w, labels[0]);
      StepKeepsCommitted(d, w, labels[0], r, response);
      RunKeepsCommitted(d, Next(d, w, labels[0]), labels[1..], r, response);
    }
  }

  /**
   The same from the moment a batch has applied, even if its worker stopped before it
   could read the answer back: in every later state the request gets the response of the
   batch, the tables stay, and another body under its number conflicts.
   */
  lemma AppliedIsReplayed(d: Digests, labels: seq<Label>, b: Batch, more: seq<Label>, now: int)
    requires CollisionFree(d) && Counter(now, 1)
    requires b in Run(d, Start, labels).prepared && Commit(Run(d, Start, labels).db, b).Some?
    ensures var w := Run(d, Next(d, Run(d, Start, labels), Apply(b)), more);
      && Prepare(d, w.db, b.request, now) == Answer(b.response) && Confirm(d, w.db, b.request, now) == Ok(b.response)
      && Next(d, w, Begin(b.request, now)).db == w.db && Next(d, w, Begin(b.request, now)).prepared == w.prepared
      && forall other :: WireValid(d, other) && other != b.request && SameSlot(b.request, other) ==>
           Prepare(d, w.db, other, now) == Refuse(ReplayConflict)
  {
    hide Run, Prepare, Confirm, WireValid, SameSlot, Committed, LogOk, BatchOk;
    var before := Run(d, Start, labels);
    RunKeeps(d, Start, labels);
    AppliedIsCommitted(d, before, b);
    StepKeeps(d, before, Apply(b));
    var applied := Next(d, before, Apply(b));
    RunKeepsCommitted(d, applied, more, b.request, b.response);
    RunKeeps(d, applied, more);
    var w := Run(d, applied, more);
    CommittedIsAnswered(d, w.db, b.request, b.response, now);
    OtherBodiesConflict(d, w.db, b.request, b.response, now);
    AnswerOnly(d, w, b.request, b.response, now);
  }

  lemma AppliedIsCommitted(d: Digests, w: World, b: Batch)
    requires CollisionFree(d) && Inv(d, w) && b in w.prepared && Commit(w.db, b).Some?
    ensures Committed(d, Next(d, w, Apply(b)).db, b.request, b.response)
  {
    hide Committed, LogOk, Applied;
    CommitApplies(d, w.db, b);
    NowCommitted(d, w.db, b, Commit(w.db, b).value);
  }

  lemma AnswerOnly(d: Digests, w: World, r: Request, response: Response, now: int)
    requires Prepare(d, w.db, r, now) == Answer(response)
    ensures Next(d, w, Begin(r, now)).db == w.db && Next(d, w, Begin(r, now)).prepared == w.prepared
  {
  }

  /**
   Without interference a new request is accepted exactly when the journal's keys
   and deal revisions admit its events; otherwise the tables stay and the caller
   is told that storage is unavailable.
   */
  lemma UninterruptedAccept(d: Digests, db: Db, r: Request, now: int)
    requires CollisionFree(d) && LogOk(d, db) && WireValid(d, r) && Prepare(d, db, r, now).Proceed?
    ensures var b := Prepare(d, db, r, now).batch;
      var fits := InsertEvents(db.events, db.deals, b.scope, r.body.events).Some?;
      && (Commit(db, b).Some? <==> fits)
      && Confirm(d, AfterBatch(db, b), r, now) == if fits then Ok(b.response) else Err(StorageUnavailable)
  {
    PreparedIsOk(d, db, r, now);
    var b := Prepare(d, db, r, now).batch;
    OnlyRowsCanFail(d, db, b);
    if Commit(db, b).Some? {
      CommittedNow(d, db, b);
    } else {
      StillNew(d, db, r, now);
    }
  }

  lemma OnlyRowsCanFail(d: Digests, db: Db, b: Batch)
    requires CollisionFree(d) && LogOk(d, db) && BatchOk(d, db, b) && StandsBefore(Lookup(db.sessions, b), b)
    ensures Commit(db, b).Some? <==> InsertEvents(db.events, db.deals, b.scope, b.request.body.events).Some?
  {
    NextNumberFree(d, db, b);
  }

  /** After its batch has applied, a request is committed. */
  lemma CommittedNow(d: Digests, db: Db, b: Batch)
    requires CollisionFree(d) && LogOk(d, db) && BatchOk(d, db, b) && Commit(db, b).Some?
    ensures forall now :: Confirm(d, Commit(db, b).value, b.request, now) == Ok(b.response)
  {
    var after := Commit(db, b).value;
    CommitApplies(d, db, b);
    AppliedKeepsLog(d, db, b, after);
    NowCommitted(d, db, b, after);
    forall now ensures Confirm(d, after, b.request, now) == Ok(b.response) {
      CommittedIsAnswered(d, after, b.request, b.response, now);
    }
  }

  lemma NowCommitted(d: Digests, db: Db, b: Batch, after: Db)
    requires BatchShape(d, b) && Applied(db, b, after)
    ensures Committed(d, after, b.request, b.response)
  {
  }

  lemma StillNew(d: Digests, db: Db, r: Request, now: int)
    requires Prepare(d, db, r, now).Proceed?
    ensures Confirm(d, db, r, now) == Err(StorageUnavailable)
  {
  }

  lemma NextNumberFree(d: Digests, db: Db, b: Batch)
    requires CollisionFree(d) && LogOk(d, db) && BatchOk(d, db, b) && StandsBefore(Lookup(db.sessions, b), b)
    ensures (b.scope, b.request.body.requestSequence) !in db.receipts
    ensures UpsertSession(db.sessions, b).Some?
  {
    var account := b.request.body.identity.accountId;
    if account in db.sessions {
      assert SessionOk(d, db, account, db.sessions[account]);
    } else {
      assert !ScopeKnown(db.sessions, b.scope) by {
        forall a | a in db.sessions ensures db.sessions[a].scope != b.scope {
          assert SessionOk(d, db, a, db.sessions[a]);
        }
      }
      UnknownScopeEmpty(d, db, b.scope);
    }
  }
}
