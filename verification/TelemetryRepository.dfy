/**
 The telemetry tables and the two accesses to them: a snapshot read, and one
 batch of inserts that either applies as a whole or not at all.

 `Db` and its functions give the meaning; the class `TelemetryStore` holds the
 tables and updates them.
 */
module TelemetryRepository {
  import opened Common
  import opened TelemetryWire
  import opened TelemetryAdmission

  datatype Session = Session(
    scope: nat, identity: Identity, registration: string, lastRequest: int, lastEvent: int, digest: nat,
    acceptedAt: int)

  datatype Receipt = Receipt(digest: nat, response: Response, acceptedAt: int, acknowledged: int)

  /** The latest revision of a deal. */
  datatype Current = Current(sequence: int, revision: int, digest: nat)

  type Sessions = map<string, Session>
  type Receipts = map<(nat, int), Receipt>
  type Journal = map<(nat, int), Event>
  type Deals = map<(nat, string), Current>

  datatype Db = Db(sessions: Sessions, receipts: Receipts, events: Journal, deals: Deals)

  datatype Loaded = Loaded(state: Option<Accepted>, receipt: Option<ReceiptMeta>)

  /** The values bound into the four statements of a commit. */
  datatype Batch = Batch(request: Request, scope: nat, previous: int, acknowledged: int, now: int, response: Response)

  function ScopeOf(d: Digests, r: Request): nat
  {
    d.scope(r.body.identity)
  }

  // Reading

  function LoadState(d: Digests, sessions: Sessions, r: Request): Result<Option<Accepted>, Error>
  {
    var account := r.body.identity.accountId;
    if account !in sessions then Ok(None)
    else
      var s := sessions[account];
      if s.scope != d.scope(s.identity) then Err(StorageUnavailable)
      else if s.scope != ScopeOf(d, r) || s.identity != r.body.identity || s.registration != r.body.registration then
        Err(IdentityMismatch)
      else if !Counter(s.lastRequest, 1) || !Counter(s.lastEvent, 0) then Err(StorageUnavailable)
      else Ok(Some(Accepted(s.identity, s.lastRequest, s.lastEvent)))
  }

  function LoadReceipt(d: Digests, state: Option<Accepted>, row: Option<Receipt>, r: Request)
    : Result<Option<ReceiptMeta>, Error>
  {
    if row.None? then Ok(None)
    else if state.None? then Err(StorageUnavailable)
    else
      var c := row.value;
      if !Counter(c.acceptedAt, 1) || !Counter(c.acknowledged, 0) then Err(StorageUnavailable)
      else if c.acknowledged > state.value.lastEvent then Err(StorageUnavailable)
      else if c.digest == r.digest
              && !(ResponseValid(d, c.response, r)
                   && c.response.body.acceptedAt == c.acceptedAt
                   && c.response.body.acknowledged == c.acknowledged) then Err(StorageUnavailable)
      else Ok(Some(ReceiptMeta(state.value.identity, r.body.requestSequence, c.digest, c.response)))
  }

  /** `loadV2`. */
  function Load(d: Digests, db: Db, r: Request): Result<Loaded, Error>
  {
    var key := (ScopeOf(d, r), r.body.requestSequence);
    var row := if key in db.receipts then Some(db.receipts[key]) else None;
    var state :- LoadState(d, db.sessions, r);
    var receipt :- LoadReceipt(d, state, row, r);
    Ok(Loaded(state, receipt))
  }

  function MetaOf(r: Request, now: int): Meta
  {
    Meta(r.body.identity, r.body.requestSequence, r.digest,
         seq(|r.body.events|, i requires 0 <= i < |r.body.events| => r.body.events[i].sequence),
         Abs(now - r.body.sentAt) <= 30)
  }

  /** The first half of `acceptTelemetryV2`, up to the batch. */
  datatype Outcome = Answer(response: Response) | Proceed(batch: Batch) | Refuse(error: Error)

  function Prepare(d: Digests, db: Db, r: Request, now: int): Outcome
  {
    if |r.body.events| > MAX_EVENTS || !Counter(now, 1) then Refuse(TelemetryInvalid)
    else
      var loaded := Load(d, db, r);
      if loaded.Err? then Refuse(loaded.error) else PrepareLoaded(d, loaded.value.state, loaded.value.receipt, r, now)
  }

  function PrepareLoaded(d: Digests, state: Option<Accepted>, receipt: Option<ReceiptMeta>, r: Request, now: int)
    : Outcome
  {
    match Admit(state, receipt, MetaOf(r, now))
    case Reject(code) => Refuse(code)
    case Replay(response) => Answer(response)
    case New(acknowledged) =>
      var lastEvent := if state.Some? then state.value.lastEvent else 0;
      var previous := if state.Some? then state.value.lastRequest else 0;
      var response := MakeResponse(d, r, acknowledged, now);
      if r.body.lastAcknowledged != lastEvent then Refuse(EventSequenceInvalid)
      else if response.None? || !ResponseValid(d, response.value, r) then Refuse(TelemetryInvalid)
      else if DeriveCoverage(true, r.body.collection, acknowledged).None? then Refuse(TelemetryInvalid)
      else Proceed(Batch(r, ScopeOf(d, r), previous, acknowledged, now, response.value))
  }

  /** `committedBytes`: the answer after the batch, from a second read. */
  function Confirm(d: Digests, db: Db, r: Request, now: int): Result<Response, Error>
  {
    var loaded :- Load(d, db, r);
    match Admit(loaded.state, loaded.receipt, MetaOf(r, now))
    case Replay(response) => Ok(response)
    case Reject(ReplayConflict) => Err(ReplayConflict)
    case _ => Err(StorageUnavailable)
  }

  // Writing

  function UpsertSession(sessions: Sessions, b: Batch): Option<Sessions>
  {
    var account := b.request.body.identity.accountId;
    var row := Session(b.scope, b.request.body.identity, b.request.body.registration, b.request.body.requestSequence,
                       b.acknowledged, b.request.digest, b.now);
    if account !in sessions then
      if exists a :: a in sessions && sessions[a].scope == b.scope then None
      else if Counter(row.lastRequest, 1) then Some(sessions[account := row])
      else None
    else
      var prior := sessions[account];
      var lastRequest :=
        if prior.lastRequest == b.previous && prior.scope == b.scope && prior.registration == row.registration
        then row.lastRequest
        else 0;
      if !Counter(lastRequest, 1) then None
      else Some(sessions[account := row.(scope := prior.scope, identity := prior.identity,
                                         registration := prior.registration, lastRequest := lastRequest)])
  }

  function InsertReceipt(receipts: Receipts, b: Batch): Option<Receipts>
  {
    var key := (b.scope, b.request.body.requestSequence);
    if key in receipts then None
    else Some(receipts[key := Receipt(b.request.digest, b.response, b.now, b.acknowledged)])
  }

  /** The unique keys and the revision trigger of the event table. */
  predicate RowFits(events: Journal, deals: Deals, scope: nat, e: Event)
  {
    && (scope, e.sequence) !in events
    && (forall k :: k in events && k.0 == scope ==>
          && events[k].eventId != e.eventId
          && (IsDeal(events[k]) && IsDeal(e) && events[k].record.dealId == e.record.dealId ==>
                events[k].record.revision != e.record.revision))
    && (IsDeal(e) ==> RevisionFits(deals, scope, e.record))
  }

  predicate RevisionFits(deals: Deals, scope: nat, deal: Record)
    requires deal.Deal?
  {
    var key := (scope, deal.dealId);
    if key in deals
    then deal.revision == deals[key].revision + 1 && deal.previous == Some(deals[key].digest)
    else deal.revision == 1 && deal.previous.None?
  }

  function InsertEvents(events: Journal, deals: Deals, scope: nat, es: seq<Event>): Option<Journal>
    decreases |es|
  {
    if es == [] then Some(events)
    else if !RowFits(events, deals, scope, es[0]) then None
    else InsertEvents(events[(scope, es[0].sequence) := es[0]], deals, scope, es[1..])
  }

  function PointDeal(deals: Deals, scope: nat, e: Event): Deals
  {
    if IsDeal(e) then deals[(scope, e.record.dealId) := Current(e.sequence, e.record.revision, e.recordDigest)]
    else deals
  }

  function PointDeals(deals: Deals, scope: nat, es: seq<Event>): Deals
    decreases |es|
  {
    if es == [] then deals else PointDeals(PointDeal(deals, scope, es[0]), scope, es[1..])
  }

  /** The batch of `statementsV2`; `None` when a constraint aborts it. */
  function Commit(db: Db, b: Batch): Option<Db>
  {
    var sessions := UpsertSession(db.sessions, b);
    var receipts := InsertReceipt(db.receipts, b);
    var events := InsertEvents(db.events, db.deals, b.scope, b.request.body.events);
    if sessions.None? || receipts.None? || events.None? then None
    else Some(Db(sessions.value, receipts.value, events.value, PointDeals(db.deals, b.scope, b.request.body.events)))
  }

  function AfterBatch(db: Db, b: Batch): Db
  {
    var next := Commit(db, b);
    if next.Some? then next.value else db
  }

  /** One undisturbed call: the tables change only by the whole batch, and the answer is reread. */
  predicate Accepts(d: Digests, db: Db, r: Request, now: int, db': Db, answer: Result<Response, Error>)
  {
    match Prepare(d, db, r, now)
    case Refuse(error) => answer == Err(error) && db' == db
    case Answer(response) => answer == Ok(response) && db' == db
    case Proceed(batch) => db' == AfterBatch(db, batch) && answer == Confirm(d, db', r, now)
  }

  const EmptyDb := Db(map[], map[], map[], map[])

  class TelemetryStore {
    var sessions: Sessions
    var receipts: Receipts
    var events: Journal
    var deals: Deals

    function Value(): Db
      reads this
    {
      Db(sessions, receipts, events, deals)
    }

    constructor ()
      ensures Value() == EmptyDb
    {
      sessions, receipts, events, deals := map[], map[], map[], map[];
    }

    /** Runs the four statements; any violated constraint leaves every table as it was. */
    method RunBatch(b: Batch) returns (applied: bool)
      modifies this
      ensures Value() == AfterBatch(old(Value()), b)
      ensures applied <==> Commit(old(Value()), b).Some?
    {
      var upserted, received := UpsertSession(sessions, b), InsertReceipt(receipts, b);
      if upserted.None? || received.None? {
        return false;
      }
      var es := b.request.body.events;
      var journal, current := events, deals;
      for n := 0 to |es|
        invariant InsertEvents(journal, deals, b.scope, es[n..]) == InsertEvents(events, deals, b.scope, es)
        invariant PointDeals(current, b.scope, es[n..]) == PointDeals(deals, b.scope, es)
      {
        assert es[n..][1..] == es[n + 1..];
        if !RowFits(journal, deals, b.scope, es[n]) {
          return false;
        }
        journal := journal[(b.scope, es[n].sequence) := es[n]];
        current := PointDeal(current, b.scope, es[n]);
      }
      sessions, receipts, events, deals := upserted.value, received.value, journal, current;
      return true;
    }

    /**
     `acceptTelemetryV2`, when no other call interferes: the tables change only by
     the whole batch, and the answer comes from the reread receipt.
     */
    method Accept(d: Digests, r: Request, now: int) returns (answer: Result<Response, Error>)
      modifies this
      ensures Accepts(d, old(Value()), r, now, Value(), answer)
    {
      var p := Prepare(d, Value(), r, now);
      match p {
        case Refuse(error) => answer := Err(error);
        case Answer(response) => answer := Ok(response);
        case Proceed(batch) =>
          var _ := RunBatch(batch);
          answer := Confirm(d, Value(), r, now);
      }
    }
  }
}
