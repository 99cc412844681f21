/**
 The messages of account telemetry synchronisation, version 2: a request carries
 a batch of journal events, a response acknowledges them.

 Readings that take no part in the protocol (balances, exposure, diagnostics) are
 kept as one text. The digests are parameters.
 */
module TelemetryWire {
  import opened Common

  const MAX_EVENTS: nat := 32

  datatype Identity = Identity(
    accountId: string, installationId: string, trackingId: string, safetyEpoch: nat,
    profile: nat, fingerprint: nat, boundary: nat)

  datatype Record =
    | Deal(dealId: string, revision: int, previous: Option<nat>, content: string)
    | Protection(content: string)

  datatype Event = Event(sequence: int, eventId: string, record: Record, recordDigest: nat)

  datatype Gap = HistoryUnavailable | ClockDiscontinuity | OutboxCorrupt | CaptureFailed | UnsupportedRecord

  datatype Collection = Collection(
    produced: int, scanFinished: bool, scanThrough: Option<int>, recordGap: Option<Gap>, observationGap: bool)

  datatype Body = Body(
    identity: Identity, registration: string, requestSequence: int, lastAcknowledged: int, sentAt: int,
    collection: Collection, localUnsent: int, lastAcceptedRequest: int, events: seq<Event>, readings: string)

  datatype Request = Request(body: Body, digest: nat)

  datatype CoverageState = NotStarted | CatchingUp | UpToDate | DataMissing

  datatype Coverage = Coverage(
    state: CoverageState, through: Option<int>, pending: int, reason: Option<Gap>, observationGap: bool)

  datatype ResponseBody = ResponseBody(
    identity: Identity, requestSequence: int, requestDigest: nat, acceptedAt: int, acknowledged: int,
    coverage: Coverage)

  datatype Response = Response(body: ResponseBody, checksum: nat)

  datatype Digests = Digests(
    scope: Identity -> nat, body: Body -> nat, record: Record -> nat, response: ResponseBody -> nat)

  /** Distinct identities have distinct scopes, distinct bodies distinct digests. */
  ghost predicate CollisionFree(d: Digests)
  {
    && (forall i, j :: d.scope(i) == d.scope(j) ==> i == j)
    && (forall b, c :: d.body(b) == d.body(c) ==> b == c)
  }

  datatype Error =
    | TelemetryInvalid
    | IdentityMismatch
    | ReceiptInvalid
    | ReplayConflict
    | ReceiptMissing
    | SequenceInvalid
    | StaleEnvelope
    | EventSequenceInvalid
    | StorageUnavailable

  /** `readCounterV2`. */
  predicate Counter(n: int, minimum: int)
  {
    Safe(n) && n >= minimum
  }

  /** `deriveCoverageV2`; `None` is the exception. */
  function DeriveCoverage(started: bool, c: Collection, acknowledged: int): Option<Coverage>
  {
    if !Counter(c.produced, 0) || !Counter(acknowledged, 0) || acknowledged > c.produced then None
    else if c.scanThrough.Some? && !Counter(c.scanThrough.value, 1) then None
    else if !started && (c.produced != 0 || acknowledged != 0 || c.scanThrough.Some? || c.scanFinished) then None
    else if started && c.scanFinished && c.scanThrough.None? then None
    else
      var pending := c.produced - acknowledged;
      var state :=
        if !started then NotStarted
        else if c.recordGap.Some? then DataMissing
        else if !c.scanFinished || pending != 0 then CatchingUp
        else UpToDate;
      Some(Coverage(state, if state == UpToDate then c.scanThrough else None, pending, c.recordGap, c.observationGap))
  }

  predicate IsDeal(e: Event)
  {
    e.record.Deal?
  }

  /** The per-event part of `validateEvent` and of the record digest check. */
  predicate EventOk(d: Digests, e: Event)
  {
    && Counter(e.sequence, 1)
    && e.recordDigest == d.record(e.record)
    && (e.record.Deal? ==> Counter(e.record.revision, 1) && (e.record.revision == 1 <==> e.record.previous.None?))
  }

  predicate DistinctEvents(es: seq<Event>)
  {
    && (forall i, j :: 0 <= i < j < |es| ==> es[i].eventId != es[j].eventId)
    && (forall i, j :: 0 <= i < j < |es| && IsDeal(es[i]) && IsDeal(es[j]) ==>
          es[i].record.dealId != es[j].record.dealId)
  }

  /** What the wire validator demands of the sequence numbers, events and digests of a request. */
  predicate WireValid(d: Digests, r: Request)
  {
    var b := r.body;
    && Counter(b.identity.safetyEpoch, 0) && Counter(b.requestSequence, 1) && Counter(b.lastAcknowledged, 0)
    && Counter(b.sentAt, 1) && Counter(b.localUnsent, 0) && Counter(b.lastAcceptedRequest, 0)
    && |b.events| <= MAX_EVENTS
    && (forall i :: 0 <= i < |b.events| ==> EventOk(d, b.events[i]))
    && DistinctEvents(b.events)
    && b.lastAcknowledged <= b.collection.produced
    && (forall i :: 0 <= i < |b.events| ==> b.events[i].sequence <= b.collection.produced)
    && b.localUnsent == b.collection.produced - b.lastAcknowledged
    && b.lastAcceptedRequest == b.requestSequence - 1
    && DeriveCoverage(true, b.collection, b.lastAcknowledged).Some?
    && r.digest == d.body(b)
  }

  /**
   The event loop of `validateRequest`: refuses a repeated event or deal, and finds
   the highest sequence number.
   */
  method CheckEvents(d: Digests, start: int, es: seq<Event>) returns (highest: Option<int>)
    ensures highest.Some? <==> DistinctEvents(es) && forall i :: 0 <= i < |es| ==> EventOk(d, es[i])
    ensures highest.Some? ==>
              && highest.value >= start
              && (forall i :: 0 <= i < |es| ==> es[i].sequence <= highest.value)
              && (highest.value == start || exists i :: 0 <= i < |es| && es[i].sequence == highest.value)
  {
    var ids: set<string>, deals: set<string>, top := {}, {}, start;
    for n := 0 to |es|
      invariant ids == set i | 0 <= i < n :: es[i].eventId
      invariant deals == set i | 0 <= i < n && IsDeal(es[i]) :: es[i].record.dealId
      invariant DistinctEvents(es[..n]) && forall i :: 0 <= i < n ==> EventOk(d, es[i])
      invariant top >= start && (forall i :: 0 <= i < n ==> es[i].sequence <= top)
      invariant top == start || exists i :: 0 <= i < n && es[i].sequence == top
    {
      var e := es[n];
      if e.eventId in ids || (e.record.Deal? && e.record.dealId in deals) || !EventOk(d, e) {
        return None;
      }
      ids := ids + {e.eventId};
      if e.record.Deal? {
        deals := deals + {e.record.dealId};
      }
      if e.sequence > top {
        top := e.sequence;
      }
    }
    assert es[..|es|] == es;
    return Some(top);
  }

  /** `validateRequest`, over the fields modelled here. */
  method ValidateRequest(d: Digests, r: Request) returns (ok: bool)
    ensures ok <==> WireValid(d, r)
  {
    var b := r.body;
    if !Counter(b.identity.safetyEpoch, 0) || !Counter(b.requestSequence, 1) || !Counter(b.lastAcknowledged, 0)
       || !Counter(b.sentAt, 1) || !Counter(b.localUnsent, 0) || !Counter(b.lastAcceptedRequest, 0)
       || |b.events| > MAX_EVENTS
    {
      return false;
    }
    var highest := CheckEvents(d, b.lastAcknowledged, b.events);
    if highest.None? || b.collection.produced < highest.value
       || b.localUnsent != b.collection.produced - b.lastAcknowledged
       || b.lastAcceptedRequest != b.requestSequence - 1
    {
      return false;
    }
    return DeriveCoverage(true, b.collection, b.lastAcknowledged).Some? && r.digest == d.body(b);
  }

  /** The event sequence a request asks to have acknowledged. */
  function ExpectedAck(b: Body): int
  {
    if b.events == [] then b.lastAcknowledged else b.events[|b.events| - 1].sequence
  }

  /** `responseBytesV2`; `None` is the exception. */
  function MakeResponse(d: Digests, r: Request, acknowledged: int, acceptedAt: int): Option<Response>
  {
    var coverage := DeriveCoverage(true, r.body.collection, acknowledged);
    if !Counter(acknowledged, 0) || acknowledged != ExpectedAck(r.body) then None
    else if coverage.None? || !Counter(acceptedAt, 1) then None
    else
      var body := ResponseBody(
        r.body.identity, r.body.requestSequence, r.digest, acceptedAt, acknowledged, coverage.value);
      Some(Response(body, d.response(body)))
  }

  /** `validateResponseV2`: the response is exactly the one this request produces at its own acceptance time. */
  predicate ResponseValid(d: Digests, response: Response, r: Request)
  {
    && response.body.acknowledged == ExpectedAck(r.body)
    && MakeResponse(d, r, ExpectedAck(r.body), response.body.acceptedAt) == Some(response)
  }

  /** The coverage of a response never promises more than the request's journal scan supports. */
  lemma CoverageMeans(c: Collection, acknowledged: int)
    requires DeriveCoverage(true, c, acknowledged).Some?
    ensures var v := DeriveCoverage(true, c, acknowledged).value;
      && v.pending == c.produced - acknowledged >= 0
      && (v.state == UpToDate <==> c.recordGap.None? && c.scanFinished && acknowledged == c.produced)
      && (v.through.Some? <==> v.state == UpToDate) && v.state != NotStarted
  {
  }

  /** Exactly when coverage can be derived, and what it then says. */
  lemma CoverageDerived(started: bool, c: Collection, acknowledged: int)
    ensures DeriveCoverage(started, c, acknowledged).Some? <==>
      && 0 <= acknowledged <= c.produced <= MAX_SAFE
      && (c.scanThrough.Some? ==> 1 <= c.scanThrough.value <= MAX_SAFE)
      && if started then c.scanFinished ==> c.scanThrough.Some?
         else c.produced == 0 && c.scanThrough.None? && !c.scanFinished
    ensures DeriveCoverage(started, c, acknowledged).Some? ==>
      var v := DeriveCoverage(started, c, acknowledged).value;
      && (v.state == NotStarted <==> !started)
      && (v.state == DataMissing <==> started && c.recordGap.Some?)
      && (v.state == CatchingUp <==> started && c.recordGap.None? && !(c.scanFinished && acknowledged == c.produced))
      && v.through == (if v.state == UpToDate then c.scanThrough else None)
      && v.pending == c.produced - acknowledged && v.reason == c.recordGap && v.observationGap == c.observationGap
  {
  }
}
