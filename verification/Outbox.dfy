/**
 The candidate outbox: workers claim a delivery under a lease and a fresh token,
 send it, and finalize it, possibly late; a row retries a bounded number of times.

 The functions give the effect of each statement batch on the table; the class
 `DeliveryTable` holds the rows and updates them.
 */
module Outbox {
  import opened Common

  const LEASE_SECONDS: int := 30
  const MAX_ATTEMPTS: int := 5
  const MAX_BACKOFF_SECONDS: int := 300

  type Id = nat
  type Token = nat

  datatype Status = Pending | Retry | Claimed | Acknowledged | Expired | FailedTerminal

  datatype Delivery = Delivery(
    status: Status, attempts: int, nextAttempt: int, owner: Option<string>, leaseExpires: Option<int>,
    token: Option<Token>, acknowledgedAt: Option<int>, createdAt: int, expiresAt: int)

  type Rows = map<Id, Delivery>

  /** What a worker holds after claiming a row. */
  datatype Claim = Claim(id: Id, attempts: int, owner: string, leaseExpires: int, token: Token, expiresAt: int)

  datatype Finalization = Acked(receiverStatus: int) | Transient | Refused(receiverStatus: int)

  datatype Outcome = Empty | Became(status: Status)

  predicate Open(s: Status)
  {
    s == Pending || s == Retry || s == Claimed
  }

  /** The row after its lease, if any, has been taken away. */
  function Release(r: Delivery, status: Status): Delivery
  {
    r.(status := status, owner := None, leaseExpires := None, token := None, acknowledgedAt := None)
  }

  // Expiry and claiming

  predicate Stale(now: int, r: Delivery)
  {
    Open(r.status) && r.expiresAt <= now
  }

  function ExpireRow(now: int, r: Delivery): Delivery
  {
    if Stale(now, r) then Release(r, Expired) else r
  }

  lemma ExpireOne(now: int, r: Delivery)
    ensures ExpireRow(now, r) == if Stale(now, r) then Release(r, Expired) else r
    ensures ExpireRow(now, r) != r <==> Stale(now, r)
    ensures Stale(now, r) ==> Open(r.status) && r.expiresAt <= now
    ensures Open(ExpireRow(now, r).status) ==> now < r.expiresAt
  {
  }

  /** Expiring changes exactly the open rows past their expiry, and leaves none of them open. */
  lemma ExpiredMeans(rows: Rows, now: int)
    ensures var after := ExpireAll(rows, now);
      && after.Keys == rows.Keys
      && (forall k :: k in rows && !Stale(now, rows[k]) ==> after[k] == rows[k])
      && (forall k :: k in rows && after[k] != rows[k] ==>
            Open(rows[k].status) && rows[k].expiresAt <= now && after[k] == Release(rows[k], Expired))
      && (forall k :: k in rows && Open(after[k].status) ==> now < after[k].expiresAt)
      && (set k | k in rows && Stale(now, rows[k])) == (set k | k in rows && after[k] != rows[k])
      && (after == rows <==> (set k | k in rows && Stale(now, rows[k])) == {})
  {
    hide ExpireRow, Stale;
    var after := ExpireAll(rows, now);
    forall k | k in rows
      ensures after[k] == ExpireRow(now, rows[k])
      ensures after[k] == if Stale(now, rows[k]) then Release(rows[k], Expired) else rows[k]
      ensures after[k] != rows[k] <==> Stale(now, rows[k])
      ensures after[k] != rows[k] ==> Open(rows[k].status) && rows[k].expiresAt <= now
      ensures Open(after[k].status) ==> now < after[k].expiresAt
    {
      ExpireOne(now, rows[k]);
    }
    assert (set k | k in rows && Stale(now, rows[k])) == (set k | k in rows && after[k] != rows[k]);
    var stale := set k | k in rows && Stale(now, rows[k]);
    if stale == {} {
      forall k | k in rows ensures after[k] == rows[k] {
        assert k !in stale;
      }
      assert after == rows;
    }
  }

  predicate LeaseOver(now: int, r: Delivery)
  {
    r.status == Claimed && r.leaseExpires.Some? && r.leaseExpires.value <= now && r.expiresAt > now
  }

  function FailLease(now: int, r: Delivery): Delivery
  {
    if LeaseOver(now, r) && r.attempts >= MAX_ATTEMPTS then Release(r, FailedTerminal) else r
  }

  function RetryLease(now: int, r: Delivery): Delivery
  {
    if LeaseOver(now, r) && r.attempts < MAX_ATTEMPTS then Release(r, Retry).(nextAttempt := now) else r
  }

  /** The first three statements of a claim, on one row. */
  function Sweep(now: int, r: Delivery): Delivery
  {
    RetryLease(now, FailLease(now, ExpireRow(now, r)))
  }

  function ExpireAll(rows: Rows, now: int): Rows
  {
    map k | k in rows :: ExpireRow(now, rows[k])
  }

  function SweepAll(rows: Rows, now: int): Rows
  {
    map k | k in rows :: Sweep(now, rows[k])
  }

  predicate Claimable(now: int, r: Delivery)
  {
    && (r.status == Pending || r.status == Retry) && r.attempts < MAX_ATTEMPTS
    && r.nextAttempt <= now && r.expiresAt > now
  }

  /** The order in which claimable rows are served. */
  predicate ServedBefore(i: Id, r: Delivery, j: Id, s: Delivery)
  {
    || r.nextAttempt < s.nextAttempt
    || (r.nextAttempt == s.nextAttempt
        && (r.createdAt < s.createdAt || (r.createdAt == s.createdAt && i < j)))
  }

  /** `id` is the claimable row that comes first. */
  ghost predicate IsNext(rows: Rows, now: int, id: Id)
  {
    && id in rows && Claimable(now, rows[id])
    && forall k :: k in rows && k != id && Claimable(now, rows[k]) ==> ServedBefore(id, rows[id], k, rows[k])
  }

  ghost predicate AnyClaimable(rows: Rows, now: int)
  {
    exists k :: k in rows && Claimable(now, rows[k])
  }

  lemma {:induction false} NextAmong(rows: Rows, now: int, ids: set<Id>) returns (id: Id)
    requires ids != {} && forall k :: k in ids ==> k in rows && Claimable(now, rows[k])
    ensures id in ids && forall k :: k in ids && k != id ==> ServedBefore(id, rows[id], k, rows[k])
    decreases |ids|
  {
    id :| id in ids;
    var rest := ids - {id};
    if rest != {} {
      var other := NextAmong(rows, now, rest);
      if ServedBefore(other, rows[other], id, rows[id]) {
        id := other;
      }
    }
  }

  /** A claim has something to serve exactly when a row is claimable. */
  lemma NextExists(rows: Rows, now: int)
    ensures AnyClaimable(rows, now) <==> exists id :: IsNext(rows, now, id)
  {
    var ids := set k | k in rows && Claimable(now, rows[k]);
    if AnyClaimable(rows, now) {
      var k :| k in rows && Claimable(now, rows[k]);
      assert k in ids;
      var id := NextAmong(rows, now, ids);
      assert IsNext(rows, now, id);
    }
  }

  ghost function NextId(rows: Rows, now: int): (r: Option<Id>)
    ensures r.Some? ==> IsNext(rows, now, r.value)
    ensures r.None? ==> !AnyClaimable(rows, now)
  {
    NextExists(rows, now);
    if exists id :: IsNext(rows, now, id) then
      var id :| IsNext(rows, now, id);
      Some(id)
    else None
  }

  function Lease(r: Delivery, owner: string, now: int, token: Token): Delivery
  {
    r.(status := Claimed, attempts := r.attempts + 1, owner := Some(owner),
       leaseExpires := Some(now + LEASE_SECONDS), token := Some(token), acknowledgedAt := None)
  }

  ghost function ClaimRows(rows: Rows, owner: string, now: int, token: Token): Rows
  {
    var swept := SweepAll(rows, now);
    var next := NextId(swept, now);
    if next.None? then swept else swept[next.value := Lease(swept[next.value], owner, now, token)]
  }

  /** The claim that a row under lease stands for. */
  function ClaimOn(id: Id, r: Delivery): Claim
    requires r.owner.Some? && r.leaseExpires.Some? && r.token.Some?
  {
    Claim(id, r.attempts, r.owner.value, r.leaseExpires.value, r.token.value, r.expiresAt)
  }

  ghost function ClaimResult(rows: Rows, owner: string, now: int, token: Token): Option<Claim>
  {
    var swept := SweepAll(rows, now);
    var next := NextId(swept, now);
    if next.None? then None else Some(ClaimOn(next.value, Lease(swept[next.value], owner, now, token)))
  }

  // Finalization

  /** The row still carries the lease of this claim. */
  predicate Holds(r: Delivery, c: Claim)
  {
    && r.status == Claimed && r.owner == Some(c.owner) && r.leaseExpires == Some(c.leaseExpires)
    && r.token == Some(c.token)
  }

  function Power2(n: int): int
  {
    if n <= 0 then 1 else 2 * Power2(n - 1)
  }

  function Backoff(attempts: int): int
  {
    Min(MAX_BACKOFF_SECONDS, Power2(attempts))
  }

  /** What a finalization makes of the row it holds. */
  function FinalRow(r: Delivery, c: Claim, f: Finalization, now: int): Delivery
  {
    if now >= c.expiresAt then Release(r, Expired)
    else if now >= c.leaseExpires then
      Release(r, if c.attempts >= MAX_ATTEMPTS then FailedTerminal else Retry).(nextAttempt := now)
    else if f.Acked? then Release(r, Acknowledged).(acknowledgedAt := Some(now))
    else if f.Refused? || c.attempts >= MAX_ATTEMPTS then Release(r, FailedTerminal)
    else Release(r, Retry).(nextAttempt := now + Backoff(c.attempts))
  }

  function FinalizeRows(rows: Rows, c: Claim, f: Finalization, now: int): Rows
  {
    if SafeNat(now) && c.id in rows && Holds(rows[c.id], c) then rows[c.id := FinalRow(rows[c.id], c, f, now)] else rows
  }

  class DeliveryTable {
    var rows: Rows

    constructor ()
      ensures rows == map[]
    {
      rows := map[];
    }

    /**
     `expireStaleDeliveries`: closes the open rows past their expiry, leaves every other
     row alone, and reports zero exactly when nothing changed.
     */
    method ExpireStale(now: int) returns (changes: nat)
      modifies this
      ensures rows.Keys == old(rows).Keys
      ensures forall k :: k in rows && Open(rows[k].status) ==> now < rows[k].expiresAt
      ensures forall k :: k in rows && rows[k] != old(rows)[k] ==>
                && Open(old(rows)[k].status) && old(rows)[k].expiresAt <= now && rows[k].status == Expired
                && rows[k].owner.None? && rows[k].leaseExpires.None? && rows[k].token.None?
                && rows[k].attempts == old(rows)[k].attempts && rows[k].expiresAt == old(rows)[k].expiresAt
      ensures changes == |set k | k in rows && rows[k] != old(rows)[k]|
      ensures changes == 0 <==> rows == old(rows)
      ensures rows == ExpireAll(old(rows), now)
    {
      hide ExpireRow, Stale;
      changes := 0;
      var before, todo := rows, rows.Keys;
      ghost var stale: set<Id> := {};
      while todo != {}
        invariant todo <= before.Keys && rows.Keys == before.Keys
        invariant forall k :: k in before ==> rows[k] == if k in todo then before[k] else ExpireRow(now, before[k])
        invariant stale == set k | k in before && k !in todo && Stale(now, before[k])
        invariant changes == |stale|
        decreases |todo|
      {
        var k :| k in todo;
        todo := todo - {k};
        ExpireOne(now, rows[k]);
        if Stale(now, rows[k]) {
          rows := rows[k := Release(rows[k], Expired)];
          changes := changes + 1;
          stale := stale + {k};
        }
      }
      assert rows == ExpireAll(before, now);
      assert stale == set k | k in before && Stale(now, before[k]);
      ExpiredMeans(before, now);
    }

    /** Scans the claimable rows for the one served first. */
    method FindNext(now: int) returns (next: Option<Id>)
      ensures next == NextId(rows, now)
    {
      next := None;
      var todo := rows.Keys;
      while todo != {}
        invariant todo <= rows.Keys
        invariant next.Some? ==> next.value in rows && Claimable(now, rows[next.value])
        invariant forall k :: k in rows && k !in todo && Claimable(now, rows[k]) ==>
                    && next.Some?
                    && (k != next.value ==> ServedBefore(next.value, rows[next.value], k, rows[k]))
        decreases |todo|
      {
        var k :| k in todo;
        todo := todo - {k};
        if Claimable(now, rows[k])
           && (next.None? || ServedBefore(k, rows[k], next.value, rows[next.value]))
        {
          next := Some(k);
        }
      }
      assert next.Some? ==> IsNext(rows, now, next.value);
    }

    method ClaimNext(enabled: bool, owner: string, now: int, token: Token) returns (claim: Option<Claim>)
      modifies this
      ensures !enabled || !SafeNat(now) ==> claim.None? && rows == old(rows)
      ensures enabled && SafeNat(now) ==>
                && rows == ClaimRows(old(rows), owner, now, token)
                && claim == ClaimResult(old(rows), owner, now, token)
    {
      if !enabled || !SafeNat(now) {
        return None;
      }
      rows := SweepAll(rows, now);
      var next := FindNext(now);
      if next.None? {
        return None;
      }
      var leased := Lease(rows[next.value], owner, now, token);
      rows := rows[next.value := leased];
      return Some(ClaimOn(next.value, leased));
    }

    method FinalizeDelivery(c: Claim, f: Finalization, now: int) returns (o: Outcome)
      modifies this
      ensures rows == FinalizeRows(old(rows), c, f, now)
      ensures !SafeNat(now) ==> o == Became(FailedTerminal)
      ensures SafeNat(now) && rows == old(rows) ==> o == Empty
      ensures SafeNat(now) && rows != old(rows) ==> o == Became(rows[c.id].status)
    {
      if !SafeNat(now) {
        return Became(FailedTerminal);
      }
      if c.id !in rows || !Holds(rows[c.id], c) {
        return Empty;
      }
      var after := FinalRow(rows[c.id], c, f, now);
      assert after != rows[c.id];
      rows := rows[c.id := after];
      return Became(after.status);
    }
  }
}
