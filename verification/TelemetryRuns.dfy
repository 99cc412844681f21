/**
 Telemetry synchronisation over every interleaving of calls.

 A call reads a snapshot and prepares a batch; the batch is applied at any later
 time, any number of times or never; an answer is read back at any later time.
 Other calls, of the same or another account, may act in between.
 */
module TelemetryRuns {
  import opened Common
  import opened TelemetryWire
  import opened TelemetryRepository

  /** The tables, the batches prepared so far, and the answers given so far. */
  datatype World = World(db: Db, prepared: set<Batch>, answered: set<(Request, Response)>)

  datatype Label =
    | Begin(request: Request, now: int)
    | Apply(batch: Batch)
    | Finish(request: Request, now: int)

  function Next(d: Digests, w: World, l: Label): World
  {
    match l
    case Begin(r, now) => BeginStep(d, w, r, now)
    case Apply(b) => ApplyStep(w, b)
    case Finish(r, now) => FinishStep(d, w, r, now)
  }

  function BeginStep(d: Digests, w: World, r: Request, now: int): World
  {
    if WireValid(d, r) then Prepared(w, r, Prepare(d, w.db, r, now)) else w
  }

  function ApplyStep(w: World, b: Batch): World
  {
    if b in w.prepared then w.(db := AfterBatch(w.db, b)) else w
  }

  function FinishStep(d: Digests, w: World, r: Request, now: int): World
  {
    if WireValid(d, r) then Finished(w, r, Confirm(d, w.db, r, now)) else w
  }

  function Prepared(w: World, r: Request, outcome: Outcome): World
  {
    match outcome
    case Refuse(_) => w
    case Answer(response) => w.(answered := w.answered + {(r, response)})
    case Proceed(batch) => w.(prepared := w.prepared + {batch})
  }

  function Finished(w: World, r: Request, answer: Result<Response, Error>): World
  {
    if answer.Ok? then w.(answered := w.answered + {(r, answer.value)}) else w
  }

  function Run(d: Digests, w: World, labels: seq<Label>): World
    decreases |labels|
  {
    if labels == [] then w else Run(d, Next(d, w, labels[0]), labels[1..])
  }

  const Start := World(EmptyDb, {}, {})

  // What every run keeps

  /** A stored receipt is the one its request produced when it was accepted. */
  predicate ReceiptOf(d: Digests, s: Session, n: int, c: Receipt, r: Request)
  {
    && WireValid(d, r) && r.body.identity == s.identity && r.body.registration == s.registration
    && r.body.requestSequence == n
    && c.digest == r.digest && Counter(c.acceptedAt, 1) && c.acknowledged == ExpectedAck(r.body)
    && MakeResponse(d, r, c.acknowledged, c.acceptedAt) == Some(c.response)
  }

  ghost predicate Genuine(d: Digests, s: Session, n: int, c: Receipt)
  {
    exists r :: ReceiptOf(d, s, n, c, r)
  }

  /** The receipts of a scope are exactly `1..last`. */
  ghost predicate ReceiptsExactly(receipts: Receipts, scope: nat, last: int)
  {
    forall n :: (scope, n) in receipts <==> 1 <= n <= last
  }

  /** The events of a scope are exactly `1..last`, each under its own number. */
  ghost predicate EventsExactly(events: Journal, scope: nat, last: int)
  {
    forall n :: ((scope, n) in events <==> 1 <= n <= last)
                && ((scope, n) in events ==> events[(scope, n)].sequence == n)
  }

  /** Later receipts acknowledge at least as many events, and the last one all of them. */
  ghost predicate AcksGrow(receipts: Receipts, s: Session)
  {
    && (forall n, m :: (s.scope, n) in receipts && (s.scope, m) in receipts && n <= m ==>
          receipts[(s.scope, n)].acknowledged <= receipts[(s.scope, m)].acknowledged)
    && (s.scope, s.lastRequest) in receipts && receipts[(s.scope, s.lastRequest)].acknowledged == s.lastEvent
  }

  ghost predicate AccountOk(d: Digests, receipts: Receipts, events: Journal, s: Session)
  {
    && s.scope == d.scope(s.identity) && Counter(s.lastRequest, 1) && Counter(s.lastEvent, 0)
    && ReceiptsExactly(receipts, s.scope, s.lastRequest)
    && EventsExactly(events, s.scope, s.lastEvent)
    && AcksGrow(receipts, s)
    && forall n :: (s.scope, n) in receipts ==> Genuine(d, s, n, receipts[(s.scope, n)])
  }

  ghost predicate ScopeKnown(sessions: Sessions, scope: nat)
  {
    exists a :: a in sessions && sessions[a].scope == scope
  }

  /** Every account's log is exact, and no receipt or event belongs to no account. */
  ghost predicate LogOk(d: Digests, db: Db)
  {
    && (forall a :: a in db.sessions ==> SessionOk(d, db, a, db.sessions[a]))
    && RowsOwned(db)
  }

  ghost predicate SessionOk(d: Digests, db: Db, account: string, s: Session)
  {
    s.identity.accountId == account && AccountOk(d, db.receipts, db.events, s)
  }

  ghost predicate RowsOwned(db: Db)
  {
    && (forall k :: k in db.receipts ==> ScopeKnown(db.sessions, k.0))
    && (forall k :: k in db.events ==> ScopeKnown(db.sessions, k.0))
  }

  /** The numbers of a prepared batch continue the receipt it was prepared from. */
  ghost predicate BatchOk(d: Digests, db: Db, b: Batch)
  {
    && BatchShape(d, b)
    && (b.previous == 0 ==> b.request.body.lastAcknowledged == 0)
    && (b.previous != 0 ==>
          && b.request.body.identity.accountId in db.sessions
          && (b.scope, b.previous) in db.receipts
          && db.receipts[(b.scope, b.previous)].acknowledged == b.request.body.lastAcknowledged)
  }

  predicate BatchShape(d: Digests, b: Batch)
  {
    var body := b.request.body;
    && WireValid(d, b.request) && b.scope == ScopeOf(d, b.request)
    && b.previous >= 0 && body.requestSequence == b.previous + 1 && Counter(b.now, 1)
    && Numbered(body.events, body.lastAcknowledged)
    && b.acknowledged == body.lastAcknowledged + |body.events| <= MAX_SAFE && b.acknowledged == ExpectedAck(body)
    && MakeResponse(d, b.request, b.acknowledged, b.now) == Some(b.response)
  }

  predicate Numbered(es: seq<Event>, base: int)
  {
    forall i :: 0 <= i < |es| ==> es[i].sequence == base + 1 + i
  }

  ghost predicate Inv(d: Digests, w: World)
  {
    LogOk(d, w.db) && BatchesOk(d, w.db, w.prepared) && AllCommitted(d, w.db, w.answered)
  }

  ghost predicate BatchesOk(d: Digests, db: Db, prepared: set<Batch>)
  {
    forall b :: b in prepared ==> BatchOk(d, db, b)
  }

  ghost predicate AllCommitted(d: Digests, db: Db, answered: set<(Request, Response)>)
  {
    forall p :: p in answered ==> Committed(d, db, p.0, p.1)
  }

  /** The tables hold this answer to this request. */
  ghost predicate Committed(d: Digests, db: Db, r: Request, response: Response)
  {
    var account, key := r.body.identity.accountId, (ScopeOf(d, r), r.body.requestSequence);
    && WireValid(d, r) && account in db.sessions && key in db.receipts
    && db.sessions[account].identity == r.body.identity
    && db.receipts[key].response == response
    && ReceiptOf(d, db.sessions[account], r.body.requestSequence, db.receipts[key], r)
  }

  // One batch

  /** The journal after a batch: the old one, and the new events under their own numbers. */
  ghost predicate Extends(events: Journal, scope: nat, base: int, es: seq<Event>, next: Journal)
  {
    && (forall k :: k in next <==> k in events || (k.0 == scope && base < k.1 <= base + |es|))
    && (forall k :: k in events ==> next[k] == events[k])
    && (forall n :: base < n <= base + |es| ==> next[(scope, n)] == es[n - base - 1])
  }

  lemma {:induction false} InsertExtends(events: Journal, deals: Deals, scope: nat, base: int, es: seq<Event>)
    requires Numbered(es, base) && InsertEvents(events, deals, scope, es).Some?
    ensures Extends(events, scope, base, es, InsertEvents(events, deals, scope, es).value)
    decreases |es|
  {
    if es != [] {
      var e := es[0];
      var step := events[(scope, e.sequence) := e];
      assert (scope, e.sequence) !in events;
      assert Numbered(es[1..], base + 1) by {
        forall i | 0 <= i < |es| - 1 ensures es[1..][i].sequence == base + 2 + i {
          assert es[1..][i] == es[i + 1];
        }
      }
      InsertExtends(step, deals, scope, base + 1, es[1..]);
      OneMoreRow(events, scope, base, es, InsertEvents(events, deals, scope, es).value);
    }
  }

  lemma OneMoreRow(events: Journal, scope: nat, base: int, es: seq<Event>, next: Journal)
    requires es != [] && (scope, base + 1) !in events
    requires Extends(events[(scope, base + 1) := es[0]], scope, base + 1, es[1..], next)
    ensures Extends(events, scope, base, es, next)
  {
    var step := events[(scope, base + 1) := es[0]];
    forall n | base < n <= base + |es| ensures next[(scope, n)] == es[n - base - 1] {
      if n == base + 1 {
        assert next[(scope, n)] == step[(scope, n)];
      } else {
        assert es[1..][n - base - 2] == es[n - base - 1];
      }
    }
  }

  function SessionAfter(b: Batch): Session
  {
    Session(b.scope, b.request.body.identity, b.request.body.registration, b.request.body.requestSequence,
            b.acknowledged, b.request.digest, b.now)
  }

  /** The account stands where the batch was prepared. */
  predicate StandsBefore(prior: Option<Session>, b: Batch)
  {
    var body := b.request.body;
    if prior.Some? then
      && prior.value.lastRequest == b.previous && prior.value.lastEvent == body.lastAcknowledged
      && prior.value.scope == b.scope && prior.value.identity == body.identity
      && prior.value.registration == body.registration
    else b.previous == 0 && body.lastAcknowledged == 0
  }

  function Lookup(sessions: Sessions, b: Batch): Option<Session>
  {
    var account := b.request.body.identity.accountId;
    if account in sessions then Some(sessions[account]) else None
  }

  /**
   The optimistic check suffices: a batch applies only while the account stands
   where the batch was prepared, events included.
   */
  lemma GuardMeansUnmoved(d: Digests, db: Db, b: Batch)
    requires CollisionFree(d) && LogOk(d, db) && BatchOk(d, db, b)
    requires UpsertSession(db.sessions, b).Some?
    ensures StandsBefore(Lookup(db.sessions, b), b)
    ensures UpsertSession(db.sessions, b).value == db.sessions[b.request.body.identity.accountId := SessionAfter(b)]
    ensures Lookup(db.sessions, b).None? ==> !ScopeKnown(db.sessions, b.scope)
  {
    var account := b.request.body.identity.accountId;
    if account in db.sessions {
      assert SessionOk(d, db, account, db.sessions[account]);
      GuardOnSession(d, db.receipts, db.sessions, db.sessions[account], b);
    }
  }

  lemma GuardOnSession(d: Digests, receipts: Receipts, sessions: Sessions, s: Session, b: Batch)
    requires forall i, j :: d.scope(i) == d.scope(j) ==> i == j
    requires AcksGrow(receipts, s) && s.scope == d.scope(s.identity) && s.lastRequest >= 1
    requires b.request.body.identity.accountId in sessions && sessions[b.request.body.identity.accountId] == s
    requires b.scope == d.scope(b.request.body.identity) && UpsertSession(sessions, b).Some?
    requires b.previous != 0 ==>
               && (b.scope, b.previous) in receipts
               && receipts[(b.scope, b.previous)].acknowledged == b.request.body.lastAcknowledged
    ensures StandsBefore(Some(s), b)
    ensures UpsertSession(sessions, b).value == sessions[b.request.body.identity.accountId := SessionAfter(b)]
  {
  }

  /** The account of the batch, after it. */
  lemma AccountAdvances(
    d: Digests, receipts: Receipts, events: Journal, next: Journal, b: Batch, c: Receipt, prior: Option<Session>)
    requires BatchShape(d, b)
    requires c == Receipt(b.request.digest, b.response, b.now, b.acknowledged)
    requires StandsBefore(prior, b)
    requires if prior.Some? then AccountOk(d, receipts, events, prior.value)
             else ReceiptsExactly(receipts, b.scope, 0) && EventsExactly(events, b.scope, 0)
    requires Extends(events, b.scope, b.request.body.lastAcknowledged, b.request.body.events, next)
    ensures AccountOk(d, receipts[(b.scope, b.request.body.requestSequence) := c], next, SessionAfter(b))
  {
    assert ReceiptOf(d, SessionAfter(b), b.previous + 1, c, b.request);
    GenuineKept(d, receipts, b, c, prior);
    EventsAdvance(events, next, b);
    AcksAdvance(receipts, b, c, prior);
  }

  lemma GenuineKept(d: Digests, receipts: Receipts, b: Batch, c: Receipt, prior: Option<Session>)
    requires StandsBefore(prior, b) && b.request.body.requestSequence == b.previous + 1
    requires Genuine(d, SessionAfter(b), b.previous + 1, c)
    requires if prior.None? then ReceiptsExactly(receipts, b.scope, 0)
             else forall n :: (b.scope, n) in receipts ==> Genuine(d, prior.value, n, receipts[(b.scope, n)])
    ensures var after := receipts[(b.scope, b.request.body.requestSequence) := c];
      forall n :: (b.scope, n) in after ==> Genuine(d, SessionAfter(b), n, after[(b.scope, n)])
  {
    var s := SessionAfter(b);
    var after := receipts[(b.scope, b.request.body.requestSequence) := c];
    forall n | (s.scope, n) in after ensures Genuine(d, s, n, after[(s.scope, n)]) {
      if n != s.lastRequest {
        assert Genuine(d, prior.value, n, receipts[(s.scope, n)]);
        var r :| ReceiptOf(d, prior.value, n, receipts[(s.scope, n)], r);
        assert ReceiptOf(d, s, n, receipts[(s.scope, n)], r);
      }
    }
  }

  lemma EventsAdvance(events: Journal, next: Journal, b: Batch)
    requires var body := b.request.body;
      && EventsExactly(events, b.scope, body.lastAcknowledged) && Numbered(body.events, body.lastAcknowledged)
      && Extends(events, b.scope, body.lastAcknowledged, body.events, next) && body.lastAcknowledged >= 0
      && b.acknowledged == body.lastAcknowledged + |body.events|
    ensures EventsExactly(next, b.scope, b.acknowledged)
  {
    forall n ensures ((b.scope, n) in next <==> 1 <= n <= b.acknowledged)
                     && ((b.scope, n) in next ==> next[(b.scope, n)].sequence == n)
    {
      assert (b.scope, n) in events ==> next[(b.scope, n)] == events[(b.scope, n)];
    }
  }

  lemma AcksAdvance(receipts: Receipts, b: Batch, c: Receipt, prior: Option<Session>)
    requires c.acknowledged == b.acknowledged >= b.request.body.lastAcknowledged
    requires b.request.body.requestSequence == b.previous + 1
    requires StandsBefore(prior, b) && ReceiptsExactly(receipts, b.scope, b.previous)
    requires prior.Some? ==> AcksGrow(receipts, prior.value)
    ensures AcksGrow(receipts[(b.scope, b.request.body.requestSequence) := c], SessionAfter(b))
  {
  }

  /** Another account's rows are not touched. */
  lemma AccountUntouched(d: Digests, db: Db, after: Db, s: Session)
    requires AccountOk(d, db.receipts, db.events, s) && SameRows(db, after, s.scope)
    ensures AccountOk(d, after.receipts, after.events, s)
  {
  }

  /** What an applied batch does to the sessions, the receipts and the journal. */
  ghost predicate Applied(db: Db, b: Batch, after: Db)
  {
    var body := b.request.body;
    && StandsBefore(Lookup(db.sessions, b), b)
    && (Lookup(db.sessions, b).None? ==> !ScopeKnown(db.sessions, b.scope))
    && after.sessions == db.sessions[body.identity.accountId := SessionAfter(b)]
    && (b.scope, body.requestSequence) !in db.receipts
    && after.receipts ==
         db.receipts[(b.scope, body.requestSequence) := Receipt(b.request.digest, b.response, b.now, b.acknowledged)]
    && Extends(db.events, b.scope, body.lastAcknowledged, body.events, after.events)
  }

  lemma CommitParts(db: Db, b: Batch)
    requires Commit(db, b).Some?
    ensures var after := Commit(db, b).value;
      && UpsertSession(db.sessions, b) == Some(after.sessions)
      && (b.scope, b.request.body.requestSequence) !in db.receipts
      && after.receipts == db.receipts[(b.scope, b.request.body.requestSequence) :=
                                       Receipt(b.request.digest, b.response, b.now, b.acknowledged)]
      && InsertEvents(db.events, db.deals, b.scope, b.request.body.events) == Some(after.events)
      && after.deals == PointDeals(db.deals, b.scope, b.request.body.events)
  {
  }

  lemma CommitApplies(d: Digests, db: Db, b: Batch)
    requires CollisionFree(d) && LogOk(d, db) && BatchOk(d, db, b) && Commit(db, b).Some?
    ensures Applied(db, b, Commit(db, b).value)
  {
    CommitParts(db, b);
    GuardMeansUnmoved(d, db, b);
    var body := b.request.body;
    InsertExtends(db.events, db.deals, b.scope, body.lastAcknowledged, body.events);
  }

  lemma UnknownScopeEmpty(d: Digests, db: Db, scope: nat)
    requires LogOk(d, db) && !ScopeKnown(db.sessions, scope)
    ensures ReceiptsExactly(db.receipts, scope, 0) && EventsExactly(db.events, scope, 0)
  {
    forall n ensures (scope, n) !in db.receipts && (scope, n) !in db.events {
      assert (scope, n) in db.receipts ==> ScopeKnown(db.sessions, (scope, n).0);
      assert (scope, n) in db.events ==> ScopeKnown(db.sessions, (scope, n).0);
    }
  }

  lemma OwnAccountKept(d: Digests, db: Db, b: Batch, after: Db)
    requires LogOk(d, db) && BatchShape(d, b) && Applied(db, b, after)
    ensures SessionOk(d, after, b.request.body.identity.accountId, SessionAfter(b))
  {
    var prior := Lookup(db.sessions, b);
    if prior.None? {
      UnknownScopeEmpty(d, db, b.scope);
    }
    AccountAdvances(d, db.receipts, db.events, after.events, b,
                    Receipt(b.request.digest, b.response, b.now, b.acknowledged), prior);
  }

  /** The rows of one scope are the same in both. */
  ghost predicate SameRows(db: Db, after: Db, scope: nat)
  {
    && (forall n :: ((scope, n) in db.receipts <==> (scope, n) in after.receipts)
                    && ((scope, n) in db.receipts ==> db.receipts[(scope, n)] == after.receipts[(scope, n)]))
    && (forall n :: ((scope, n) in db.events <==> (scope, n) in after.events)
                    && ((scope, n) in db.events ==> db.events[(scope, n)] == after.events[(scope, n)]))
  }

  lemma OtherRowsKept(db: Db, b: Batch, after: Db, scope: nat)
    requires Applied(db, b, after) && scope != b.scope
    ensures SameRows(db, after, scope)
  {
  }

  lemma OtherAccountKept(d: Digests, db: Db, b: Batch, after: Db, a: string, s: Session)
    requires CollisionFree(d) && SessionOk(d, db, a, s) && BatchShape(d, b) && Applied(db, b, after)
    requires a != b.request.body.identity.accountId
    ensures SessionOk(d, after, a, s)
  {
    assert s.scope != b.scope by {
      assert s.identity != b.request.body.identity;
    }
    OtherRowsKept(db, b, after, s.scope);
    AccountUntouched(d, db, after, s);
  }

  lemma AppliedSessions(db: Db, b: Batch, after: Db)
    requires Applied(db, b, after)
    ensures after.sessions == db.sessions[b.request.body.identity.accountId := SessionAfter(b)]
  {
  }

  lemma AppliedKeepsLog(d: Digests, db: Db, b: Batch, after: Db)
    requires CollisionFree(d) && LogOk(d, db) && BatchShape(d, b) && Applied(db, b, after)
    ensures LogOk(d, after)
  {
    hide SessionOk, RowsOwned, Applied, BatchShape, SessionAfter;
    AppliedSessions(db, b, after);
    OwnAccountKept(d, db, b, after);
    forall a | a in after.sessions ensures SessionOk(d, after, a, after.sessions[a]) {
      if a != b.request.body.identity.accountId {
        OtherAccountKept(d, db, b, after, a, db.sessions[a]);
      }
    }
    ScopesStayKnown(db, after, b);
  }

  lemma ScopesStayKnown(db: Db, after: Db, b: Batch)
    requires RowsOwned(db) && Applied(db, b, after)
    ensures RowsOwned(after)
  {
    var account := b.request.body.identity.accountId;
    assert after.sessions[account].scope == b.scope;
    forall scope | ScopeKnown(db.sessions, scope) ensures ScopeKnown(after.sessions, scope) {
      var a :| a in db.sessions && db.sessions[a].scope == scope;
      assert after.sessions[a].scope == scope;
    }
  }
}
