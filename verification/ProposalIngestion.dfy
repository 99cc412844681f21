/**
 Ingestion of execution proposals: each producer numbers its proposals 1, 2, 3, ...;
 a recorded proposal may also put its candidate into the outbox.

 Proposals are taken as already validated, with their derived candidate. Digests
 are parameters.
 */
module ProposalIngestion {
  import opened Common
  import Outbox
  import OutboxRuns

  const CANDIDATE_TTL_SECONDS: int := 300

  datatype Proposal = Proposal(
    producer: string, sequence: int, observedAt: int, candidateId: Outbox.Id, candidateBody: nat, content: string)

  datatype Digests = Digests(proposal: Proposal -> nat, event: (string, int, nat) -> nat)

  ghost predicate CollisionFree(d: Digests)
  {
    && (forall p, q :: d.proposal(p) == d.proposal(q) ==> p == q)
    && (forall s, n, g, s', n', g' :: d.event(s, n, g) == d.event(s', n', g') ==> s == s' && n == n' && g == g')
  }

  datatype Event = Event(id: nat, digest: nat, candidateId: Outbox.Id, candidateBody: nat)

  datatype Response = Response(
    eventId: nat, producer: string, sequence: int, digest: nat, candidateId: Outbox.Id, candidateBody: nat,
    stored: bool, dispatched: bool)

  datatype IncidentKind = SequenceGap | OutOfOrder | BodyConflict | CandidateConflict

  datatype Incident = Incident(
    kind: IncidentKind, producer: string, sequence: int, expected: int, digest: nat, existing: Option<nat>)

  type Key = (string, int)

  datatype Db = Db(
    events: map<Key, Event>, results: map<nat, Response>, checkpoints: set<Key>, payloads: map<Outbox.Id, nat>,
    incidents: seq<Incident>)

  /** The statements of one recording; `store` says whether payload and delivery are among them. */
  datatype Batch = Batch(proposal: Proposal, now: int, emission: bool, dispatch: bool, store: bool)

  datatype Outcome = Recorded(response: Response) | Quarantined(kind: IncidentKind) | Unavailable | Invalid

  function KeyOf(p: Proposal): Key
  {
    (p.producer, p.sequence)
  }

  function EventId(d: Digests, p: Proposal): nat
  {
    d.event(p.producer, p.sequence, d.proposal(p))
  }

  function EventOf(d: Digests, p: Proposal): Event
  {
    Event(EventId(d, p), d.proposal(p), p.candidateId, p.candidateBody)
  }

  function ResponseOf(d: Digests, b: Batch): Response
  {
    var p := b.proposal;
    Response(EventId(d, p), p.producer, p.sequence, d.proposal(p), p.candidateId, p.candidateBody,
             b.emission, b.dispatch)
  }

  function ExpiryOf(p: Proposal): int
  {
    p.observedAt + CANDIDATE_TTL_SECONDS
  }

  // The reads

  ghost predicate IsHighest(checkpoints: set<Key>, producer: string, n: int)
  {
    && (n == 0 || (producer, n) in checkpoints)
    && forall k :: k in checkpoints && k.0 == producer ==> k.1 <= n
  }

  /** The event under `k` gives the proposal's candidate another body. */
  predicate ConflictAt(events: map<Key, Event>, p: Proposal, k: Key)
  {
    k in events && events[k].candidateId == p.candidateId && events[k].candidateBody != p.candidateBody
  }

  predicate Conflicts(events: map<Key, Event>, p: Proposal)
  {
    exists k :: k in events && ConflictAt(events, p, k)
  }

  /** The stored answer to a proposal whose number is taken. */
  function ReplayOf(d: Digests, db: Db, p: Proposal): Option<Outcome>
    requires KeyOf(p) in db.events
  {
    var e := db.events[KeyOf(p)];
    if e.digest != d.proposal(p) then None
    else Some(if e.id in db.results then Recorded(db.results[e.id]) else Unavailable)
  }

  // The batch

  /** The keys and the conflict guard of the tables admit the batch. */
  predicate Admissible(d: Digests, db: Db, rows: Outbox.Rows, b: Batch)
  {
    var p := b.proposal;
    && KeyOf(p) !in db.events && (forall k :: k in db.events ==> db.events[k].id != EventId(d, p))
    && !Conflicts(db.events, p)
    && EventId(d, p) !in db.results && KeyOf(p) !in db.checkpoints
    && (b.store ==> p.candidateId !in db.payloads && p.candidateId !in rows)
  }

  function Recording(d: Digests, db: Db, b: Batch): Db
  {
    var p := b.proposal;
    db.(events := db.events[KeyOf(p) := EventOf(d, p)],
        results := db.results[EventId(d, p) := ResponseOf(d, b)],
        checkpoints := db.checkpoints + {KeyOf(p)},
        payloads := if b.store then db.payloads[p.candidateId := p.candidateBody] else db.payloads)
  }

  function Delivering(rows: Outbox.Rows, b: Batch): Outbox.Rows
  {
    if b.store then rows[b.proposal.candidateId := OutboxRuns.NewRow(b.now, ExpiryOf(b.proposal))] else rows
  }

  /** What a call that is not interleaved with others must do; `n` is the producer's highest checkpoint. */
  ghost predicate Ingested(
    d: Digests, db: Db, rows: Outbox.Rows, p: Proposal, now: int, emission: bool, dispatch: bool, n: int,
    db': Db, rows': Outbox.Rows, o: Outcome)
  {
    var b := BatchFor(db, p, now, emission, dispatch);
    var same := db' == db && rows' == rows;
    if !SafeNat(now) || !Safe(ExpiryOf(p)) then o == Invalid && same
    else if KeyOf(p) in db.events && ReplayOf(d, db, p).Some? then Some(o) == ReplayOf(d, db, p) && same
    else if KeyOf(p) in db.events then
      Quarantines(db, rows, IncidentOf(d, p, BodyConflict, n, Some(db.events[KeyOf(p)].digest)), db', rows', o)
    else if p.sequence != n + 1 then
      var kind := if p.sequence > n + 1 then SequenceGap else OutOfOrder;
      Quarantines(db, rows, IncidentOf(d, p, kind, n, None), db', rows', o)
    else if Conflicts(db.events, p) then
      exists k :: ConflictAt(db.events, p, k)
        && var x := IncidentOf(d, p, CandidateConflict, n, Some(db.events[k].candidateBody));
           Quarantines(db, rows, x, db', rows', o)
    else if emission && p.candidateId in db.payloads && db.payloads[p.candidateId] != p.candidateBody then
      Quarantines(db, rows, IncidentOf(d, p, CandidateConflict, n, Some(db.payloads[p.candidateId])), db', rows', o)
    else if Admissible(d, db, rows, b) then
      o == Recorded(ResponseOf(d, b)) && db' == Recording(d, db, b) && rows' == Delivering(rows, b)
    else o == Unavailable && same
  }

  /** The batch a call plans against these tables: payload and delivery only for a candidate not stored yet. */
  function BatchFor(db: Db, p: Proposal, now: int, emission: bool, dispatch: bool): Batch
  {
    Batch(p, now, emission, dispatch, emission && p.candidateId !in db.payloads)
  }

  function IncidentOf(d: Digests, p: Proposal, kind: IncidentKind, n: int, existing: Option<nat>): Incident
  {
    Incident(kind, p.producer, p.sequence, n + 1, d.proposal(p), existing)
  }

  /** Nothing but this incident is recorded. */
  predicate Quarantines(db: Db, rows: Outbox.Rows, x: Incident, db': Db, rows': Outbox.Rows, o: Outcome)
  {
    o == Quarantined(x.kind) && rows' == rows && db' == db.(incidents := db.incidents + [x])
  }

  class ProposalStore {
    var db: Db
    var rows: Outbox.Rows

    constructor ()
      ensures db == Db(map[], map[], {}, map[], []) && rows == map[]
    {
      db, rows := Db(map[], map[], {}, map[], []), map[];
    }

    /** `expectedProducerSequence`, less one. */
    method HighestCheckpoint(producer: string) returns (n: int)
      ensures IsHighest(db.checkpoints, producer, n)
    {
      n := 0;
      var todo := db.checkpoints;
      while todo != {}
        invariant todo <= db.checkpoints
        invariant n == 0 || (producer, n) in db.checkpoints
        invariant forall k :: k in db.checkpoints && k !in todo && k.0 == producer ==> k.1 <= n
        decreases |todo|
      {
        var k :| k in todo;
        todo := todo - {k};
        if k.0 == producer && k.1 > n {
          n := k.1;
        }
      }
    }

    /** `recordIncident`. */
    method Quarantine(x: Incident) returns (o: Outcome)
      modifies this
      ensures Quarantines(old(db), old(rows), x, db, rows, o)
    {
      db := db.(incidents := db.incidents + [x]);
      o := Quarantined(x.kind);
    }

    /** `ingestValidatedExecutionProposalV1`, without interleaved calls. */
    method Ingest(d: Digests, p: Proposal, now: int, emission: bool, dispatch: bool)
      returns (o: Outcome, ghost n: int)
      modifies this
      ensures IsHighest(old(db).checkpoints, p.producer, n)
      ensures Ingested(d, old(db), old(rows), p, now, emission, dispatch, n, db, rows, o)
    {
      var highest := HighestCheckpoint(p.producer);
      n := highest;
      if !SafeNat(now) || !Safe(ExpiryOf(p)) {
        o := Invalid;
        return;
      }
      if KeyOf(p) in db.events {
        var replay := ReplayOf(d, db, p);
        if replay.Some? {
          o := replay.value;
        } else {
          o := Quarantine(IncidentOf(d, p, BodyConflict, highest, Some(db.events[KeyOf(p)].digest)));
        }
        return;
      }
      if p.sequence != highest + 1 {
        var kind := if p.sequence > highest + 1 then SequenceGap else OutOfOrder;
        o := Quarantine(IncidentOf(d, p, kind, highest, None));
        return;
      }
      if Conflicts(db.events, p) {
        var k :| k in db.events && ConflictAt(db.events, p, k);
        o := Quarantine(IncidentOf(d, p, CandidateConflict, highest, Some(db.events[k].candidateBody)));
        return;
      }
      var stored := emission && p.candidateId in db.payloads;
      if stored && db.payloads[p.candidateId] != p.candidateBody {
        o := Quarantine(IncidentOf(d, p, CandidateConflict, highest, Some(db.payloads[p.candidateId])));
        return;
      }
      var b := BatchFor(db, p, now, emission, dispatch);
      if Admissible(d, db, rows, b) {
        db, rows := Recording(d, db, b), Delivering(rows, b);
        o := Recorded(ResponseOf(d, b));
      } else {
        o := Unavailable;
      }
    }
  }
}
