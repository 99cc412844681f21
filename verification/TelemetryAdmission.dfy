/**
 The admission decision of telemetry synchronisation: a request is new, a replay
 of an accepted one, or refused.
 */
module TelemetryAdmission {
  import opened Common
  import opened TelemetryWire

  datatype Accepted = Accepted(identity: Identity, lastRequest: int, lastEvent: int)

  datatype ReceiptMeta = ReceiptMeta(identity: Identity, requestSequence: int, digest: nat, response: Response)

  datatype Meta = Meta(identity: Identity, requestSequence: int, digest: nat, eventSequences: seq<int>, timely: bool)

  datatype Admission = New(acknowledged: int) | Replay(response: Response) | Reject(code: Error)

  /** The event numbers continue `last` without a gap, inside the safe integers. */
  predicate Continues(last: int, sequences: seq<int>)
  {
    forall i :: 0 <= i < |sequences| ==> sequences[i] == last + 1 + i && last + i < MAX_SAFE
  }

  predicate MetaOk(m: Meta)
  {
    && Counter(m.identity.safetyEpoch, 0) && Counter(m.requestSequence, 1)
    && |m.eventSequences| <= MAX_EVENTS
    && forall i :: 0 <= i < |m.eventSequences| ==> Counter(m.eventSequences[i], 1)
  }

  predicate StateOk(state: Option<Accepted>)
  {
    state.Some? ==> Counter(state.value.lastRequest, 1) && Counter(state.value.lastEvent, 0)
  }

  /** `decideAdmissionV2`; an exception is `TelemetryInvalid`. */
  function Admit(state: Option<Accepted>, receipt: Option<ReceiptMeta>, m: Meta): Admission
  {
    var lastRequest := if state.Some? then state.value.lastRequest else 0;
    var lastEvent := if state.Some? then state.value.lastEvent else 0;
    if !MetaOk(m) || !StateOk(state) then Reject(TelemetryInvalid)
    else if state.Some? && state.value.identity != m.identity then Reject(IdentityMismatch)
    else if receipt.Some? then
      var c := receipt.value;
      if state.None? || c.identity != m.identity then Reject(ReceiptInvalid)
      else if !Counter(c.requestSequence, 1) then Reject(TelemetryInvalid)
      else if c.requestSequence != m.requestSequence || c.requestSequence > lastRequest then Reject(ReceiptInvalid)
      else if c.digest != m.digest then Reject(ReplayConflict)
      else Replay(c.response)
    else if m.requestSequence <= lastRequest then Reject(ReceiptMissing)
    else if lastRequest == MAX_SAFE || m.requestSequence != lastRequest + 1 then Reject(SequenceInvalid)
    else if !m.timely then Reject(StaleEnvelope)
    else if Continues(lastEvent, m.eventSequences) then New(lastEvent + |m.eventSequences|)
    else Reject(EventSequenceInvalid)
  }

  method DecideAdmission(state: Option<Accepted>, receipt: Option<ReceiptMeta>, m: Meta) returns (r: Admission)
    ensures r == Admit(state, receipt, m)
  {
    if !Counter(m.identity.safetyEpoch, 0) || !Counter(m.requestSequence, 1) || |m.eventSequences| > MAX_EVENTS {
      return Reject(TelemetryInvalid);
    }
    for n := 0 to |m.eventSequences|
      invariant forall i :: 0 <= i < n ==> Counter(m.eventSequences[i], 1)
    {
      if !Counter(m.eventSequences[n], 1) {
        return Reject(TelemetryInvalid);
      }
    }
    if !StateOk(state) {
      return Reject(TelemetryInvalid);
    }
    var lastRequest := if state.Some? then state.value.lastRequest else 0;
    var lastEvent := if state.Some? then state.value.lastEvent else 0;
    if state.Some? && state.value.identity != m.identity {
      return Reject(IdentityMismatch);
    }
    if receipt.Some? {
      var c := receipt.value;
      if state.None? || c.identity != m.identity {
        return Reject(ReceiptInvalid);
      }
      if !Counter(c.requestSequence, 1) {
        return Reject(TelemetryInvalid);
      }
      if c.requestSequence != m.requestSequence || c.requestSequence > lastRequest {
        return Reject(ReceiptInvalid);
      }
      if c.digest != m.digest {
        return Reject(ReplayConflict);
      }
      return Replay(c.response);
    }
    if m.requestSequence <= lastRequest {
      return Reject(ReceiptMissing);
    }
    if lastRequest == MAX_SAFE || m.requestSequence != lastRequest + 1 {
      return Reject(SequenceInvalid);
    }
    if !m.timely {
      return Reject(StaleEnvelope);
    }
    var proposed := lastEvent;
    for n := 0 to |m.eventSequences|
      invariant proposed == lastEvent + n
      invariant forall i :: 0 <= i < n ==> m.eventSequences[i] == lastEvent + 1 + i && lastEvent + i < MAX_SAFE
    {
      if proposed == MAX_SAFE || m.eventSequences[n] != proposed + 1 {
        return Reject(EventSequenceInvalid);
      }
      proposed := m.eventSequences[n];
    }
    return New(proposed);
  }
}
