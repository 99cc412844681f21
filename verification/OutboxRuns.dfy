/**
 The outbox over every interleaving of inserts, expiries, claims and finalizations.

 Clocks are arbitrary, and a worker may finalize a claim at any later time, any
 number of times, with any outcome. Only a token that was never used can claim.
 */
module OutboxRuns {
  import opened Common
  import opened Outbox

  /** The rows, the tokens used so far, and every claim handed out: one send each. */
  datatype World = World(rows: Rows, used: set<Token>, issued: set<Claim>)

  datatype Label =
    | Store(id: Id, createdAt: int, expiresAt: int)
    | Expire(now: int)
    | Grant(owner: string, now: int, token: Token)
    | Finalize(claim: Claim, outcome: Finalization, now: int)

  /** A candidate already past its market expiry is stored as expired. */
  function NewRow(createdAt: int, expiresAt: int): Delivery
  {
    Delivery(if createdAt >= expiresAt then Expired else Pending, 0, createdAt, None, None, None, None,
             createdAt, expiresAt)
  }

  ghost function Next(w: World, l: Label): World
  {
    match l
    case Store(id, createdAt, expiresAt) =>
      if id in w.rows then w else w.(rows := w.rows[id := NewRow(createdAt, expiresAt)])
    case Expire(now) => w.(rows := ExpireAll(w.rows, now))
    case Grant(owner, now, token) => if SafeNat(now) && token !in w.used then GrantStep(w, owner, now, token) else w
    case Finalize(c, f, now) => if c in w.issued then w.(rows := FinalizeRows(w.rows, c, f, now)) else w
  }

  ghost function GrantStep(w: World, owner: string, now: int, token: Token): World
  {
    var claim := ClaimResult(w.rows, owner, now, token);
    World(ClaimRows(w.rows, owner, now, token), w.used + {token},
          w.issued + if claim.Some? then {claim.value} else {})
  }

  ghost function Run(w: World, labels: seq<Label>): World
    decreases |labels|
  {
    if labels == [] then w else Run(Next(w, labels[0]), labels[1..])
  }

  const Start := World(map[], {}, {})

  // What every run keeps

  predicate RowOk(r: Delivery)
  {
    && (r.status == Claimed <==> r.owner.Some?) && (r.status == Claimed <==> r.leaseExpires.Some?)
    && (r.status == Claimed <==> r.token.Some?)
    && (r.status == Acknowledged <==> r.acknowledgedAt.Some?)
    && (r.status == Pending ==> r.attempts == 0)
    && (r.status == Retry ==> 1 <= r.attempts <= 4)
    && (r.status == Claimed ==> 1 <= r.attempts <= MAX_ATTEMPTS)
    && 0 <= r.attempts <= MAX_ATTEMPTS
  }

  ghost function ClaimsOf(issued: set<Claim>, id: Id): set<Claim>
  {
    set c | c in issued && c.id == id
  }

  /** Claims name stored rows and used tokens; tokens tell claims apart. */
  ghost predicate IssuedOk(w: World)
  {
    && (forall c :: c in w.issued ==> c.id in w.rows && c.token in w.used && c.expiresAt == w.rows[c.id].expiresAt)
    && (forall c, c' :: c in w.issued && c' in w.issued && c.token == c'.token ==> c == c')
  }

  ghost predicate RowsOk(w: World)
  {
    forall id :: id in w.rows ==> RowIn(w.issued, id, w.rows[id])
  }

  /** A row under lease has its own claim among those issued, and every attempt was one claim. */
  ghost predicate RowIn(issued: set<Claim>, id: Id, r: Delivery)
  {
    && RowOk(r)
    && (r.status == Claimed ==> ClaimOn(id, r) in issued)
    && |ClaimsOf(issued, id)| == r.attempts
  }

  ghost predicate Inv(w: World)
  {
    IssuedOk(w) && RowsOk(w)
  }

  /** The work a row may still cause. */
  function Measure(r: Delivery): int
  {
    match r.status
    case Pending => 11
    case Retry => 2 * (MAX_ATTEMPTS - r.attempts) + 1
    case Claimed => 2 * (MAX_ATTEMPTS - r.attempts) + 2
    case _ => 0
  }

  /** A row is left alone, or it loses measure; its times of birth and expiry never change. */
  predicate RowStep(r: Delivery, r': Delivery)
  {
    && (r' == r || Measure(r') < Measure(r))
    && r'.createdAt == r.createdAt && r'.expiresAt == r.expiresAt && r'.attempts >= r.attempts
  }

  lemma MeasureBounds(r: Delivery)
    requires RowOk(r)
    ensures 0 <= Measure(r) <= 11 && (Measure(r) == 0 <==> !Open(r.status))
  {
  }

  lemma SweepStep(now: int, r: Delivery)
    requires RowOk(r)
    ensures RowOk(Sweep(now, r)) && RowStep(r, Sweep(now, r)) && Sweep(now, r).attempts == r.attempts
    ensures Sweep(now, r).status == Claimed ==> Sweep(now, r) == r
  {
  }

  lemma LeaseStep(r: Delivery, owner: string, now: int, token: Token)
    requires RowOk(r) && Claimable(now, r)
    ensures RowOk(Lease(r, owner, now, token)) && RowStep(r, Lease(r, owner, now, token))
  {
  }

  lemma FinalStep(r: Delivery, c: Claim, f: Finalization, now: int)
    requires RowOk(r) && Holds(r, c) && c.attempts == r.attempts
    ensures RowOk(FinalRow(r, c, f, now)) && RowStep(r, FinalRow(r, c, f, now))
    ensures FinalRow(r, c, f, now).status != Claimed && FinalRow(r, c, f, now).attempts == r.attempts
  {
  }

  /** The claim that finalizes a row is the one the row stands for. */
  lemma HolderIsCurrent(w: World, c: Claim)
    requires Inv(w) && c in w.issued && Holds(w.rows[c.id], c)
    ensures c == ClaimOn(c.id, w.rows[c.id])
  {
    assert RowIn(w.issued, c.id, w.rows[c.id]);
  }

  lemma ExpireKeeps(w: World, now: int)
    requires Inv(w)
    ensures Inv(Next(w, Expire(now)))
  {
    var w' := Next(w, Expire(now));
    forall id | id in w'.rows ensures RowIn(w'.issued, id, w'.rows[id]) {
      assert RowIn(w.issued, id, w.rows[id]);
    }
  }

  lemma StoreKeeps(w: World, id: Id, createdAt: int, expiresAt: int)
    requires Inv(w)
    ensures Inv(Next(w, Store(id, createdAt, expiresAt)))
  {
    var w' := Next(w, Store(id, createdAt, expiresAt));
    if id !in w.rows {
      assert ClaimsOf(w.issued, id) == {};
    }
    forall k | k in w'.rows ensures RowIn(w'.issued, k, w'.rows[k]) {
      if k != id {
        assert RowIn(w.issued, k, w.rows[k]);
      }
    }
  }

  lemma FinalizeKeeps(w: World, c: Claim, f: Finalization, now: int)
    requires Inv(w)
    ensures Inv(Next(w, Finalize(c, f, now)))
  {
    if c in w.issued && Holds(w.rows[c.id], c) {
      var w' := Next(w, Finalize(c, f, now));
      HolderIsCurrent(w, c);
      assert RowIn(w.issued, c.id, w.rows[c.id]);
      FinalStep(w.rows[c.id], c, f, now);
      forall id | id in w'.rows ensures RowIn(w'.issued, id, w'.rows[id]) {
        assert RowIn(w.issued, id, w.rows[id]);
      }
    }
  }

  lemma SweptKeeps(w: World, now: int)
    requires Inv(w)
    ensures Inv(w.(rows := SweepAll(w.rows, now)))
  {
    var w' := w.(rows := SweepAll(w.rows, now));
    forall id | id in w'.rows ensures RowIn(w'.issued, id, w'.rows[id]) {
      assert RowIn(w.issued, id, w.rows[id]);
      SweepStep(now, w.rows[id]);
    }
  }

  lemma NewClaimIssued(w: World, id: Id, leased: Delivery, token: Token)
    requires IssuedOk(w) && id in w.rows && token !in w.used
    requires leased.owner.Some? && leased.leaseExpires.Some? && leased.token == Some(token)
    requires leased.expiresAt == w.rows[id].expiresAt
    ensures ClaimOn(id, leased) !in w.issued
    ensures IssuedOk(World(w.rows[id := leased], w.used + {token}, w.issued + {ClaimOn(id, leased)}))
  {
  }

  lemma ClaimCounted(issued: set<Claim>, c: Claim)
    requires c !in issued
    ensures |ClaimsOf(issued + {c}, c.id)| == |ClaimsOf(issued, c.id)| + 1
    ensures forall k :: k != c.id ==> ClaimsOf(issued + {c}, k) == ClaimsOf(issued, k)
  {
    assert ClaimsOf(issued + {c}, c.id) == ClaimsOf(issued, c.id) + {c};
  }

  /** One more claim, on a claimable row, under a new token. */
  lemma LeaseKeeps(w: World, id: Id, owner: string, now: int, token: Token)
    requires Inv(w) && id in w.rows && Claimable(now, w.rows[id]) && token !in w.used
    ensures var leased := Lease(w.rows[id], owner, now, token);
      Inv(World(w.rows[id := leased], w.used + {token}, w.issued + {ClaimOn(id, leased)}))
  {
    var leased := Lease(w.rows[id], owner, now, token);
    var claim := ClaimOn(id, leased);
    var w' := World(w.rows[id := leased], w.used + {token}, w.issued + {claim});
    NewClaimIssued(w, id, leased, token);
    ClaimCounted(w.issued, claim);
    forall k | k in w'.rows ensures RowIn(w'.issued, k, w'.rows[k]) {
      assert RowIn(w.issued, k, w.rows[k]);
      if k == id {
        LeaseStep(w.rows[id], owner, now, token);
      }
    }
  }

  lemma GrantKeeps(w: World, owner: string, now: int, token: Token)
    requires Inv(w) && token !in w.used
    ensures Inv(GrantStep(w, owner, now, token))
  {
    SweptKeeps(w, now);
    var swept := w.(rows := SweepAll(w.rows, now));
    var next := NextId(swept.rows, now);
    if next.Some? {
      LeaseKeeps(swept, next.value, owner, now, token);
    } else {
      TokenSpent(swept, token);
      assert w.issued + {} == w.issued;
    }
  }

  lemma TokenSpent(w: World, token: Token)
    requires Inv(w)
    ensures Inv(w.(used := w.used + {token}))
  {
    forall id | id in w.rows ensures RowIn(w.issued, id, w.rows[id]) {
    }
  }

  lemma StepKeeps(w: World, l: Label)
    requires Inv(w)
    ensures Inv(Next(w, l))
  {
    match l
    case Store(id, createdAt, expiresAt) => StoreKeeps(w, id, createdAt, expiresAt);
    case Expire(now) => ExpireKeeps(w, now);
    case Grant(owner, now, token) =>
      if token !in w.used {
        GrantKeeps(w, owner, now, token);
      }
    case Finalize(c, f, now) => FinalizeKeeps(w, c, f, now);
  }

  lemma {:induction false} RunKeeps(w: World, labels: seq<Label>)
    requires Inv(w)
    ensures Inv(Run(w, labels))
    decreases |labels|
  {
    if labels != [] {
      StepKeeps(w, labels[0]);
      RunKeeps(Next(w, labels[0]), labels[1..]);
    }
  }

  // Theorems

  /** No step touches a row without using up some of its measure. */
  lemma StepDecreases(w: World, l: Label, id: Id)
    requires Inv(w) && id in w.rows
    ensures id in Next(w, l).rows && RowStep(w.rows[id], Next(w, l).rows[id])
  {
    assert RowIn(w.issued, id, w.rows[id]);
    match l
    case Store(_, _, _) =>
    case Expire(now) =>
    case Grant(owner, now, token) =>
      if SafeNat(now) && token !in w.used {
        GrantDecreases(w.rows, owner, now, token, id);
      }
    case Finalize(c, f, now) =>
      if c in w.issued && c.id == id && Holds(w.rows[id], c) {
        HolderIsCurrent(w, c);
        FinalStep(w.rows[id], c, f, now);
      }
  }

  lemma GrantDecreases(rows: Rows, owner: string, now: int, token: Token, id: Id)
    requires id in rows && RowOk(rows[id])
    ensures var after := ClaimRows(rows, owner, now, token);
      id in after && RowStep(rows[id], after[id])
  {
    SweepStep(now, rows[id]);
    var swept := SweepAll(rows, now);
    var next := NextId(swept, now);
    if next == Some(id) {
      LeaseStep(swept[id], owner, now, token);
    }
  }

  /** How often a row changes during a run. */
  ghost function Changes(w: World, labels: seq<Label>, id: Id): nat
    decreases |labels|
  {
    if labels == [] then 0
    else
      var w' := Next(w, labels[0]);
      (if id in w.rows && id in w'.rows && w'.rows[id] != w.rows[id] then 1 else 0) + Changes(w', labels[1..], id)
  }

  /** Bounded work: from any reachable state, however long the run, a row changes at most `Measure` times. */
  lemma {:induction false} ChangesAreBounded(w: World, labels: seq<Label>, id: Id)
    requires Inv(w) && id in w.rows
    ensures id in Run(w, labels).rows
    ensures Changes(w, labels, id) + Measure(Run(w, labels).rows[id]) <= Measure(w.rows[id]) <= 11
    decreases |labels|
  {
    assert RowIn(w.issued, id, w.rows[id]);
    if labels != [] {
      StepDecreases(w, labels[0], id);
      StepKeeps(w, labels[0]);
      ChangesAreBounded(Next(w, labels[0]), labels[1..], id);
    }
  }

  /** A terminal row never changes again. */
  lemma {:induction false} TerminalIsAbsorbing(w: World, labels: seq<Label>, id: Id)
    requires Inv(w) && id in w.rows && !Open(w.rows[id].status)
    ensures id in Run(w, labels).rows && Run(w, labels).rows[id] == w.rows[id]
    decreases |labels|
  {
    if labels != [] {
      var w' := Next(w, labels[0]);
      StepDecreases(w, labels[0], id);
      StepKeeps(w, labels[0]);
      assert RowIn(w'.issued, id, w'.rows[id]);
      TerminalIsAbsorbing(w', labels[1..], id);
    }
  }

  /** In every reachable state: lease fields, attempt counts, and at most five sends of a row. */
  lemma OutboxSafety(labels: seq<Label>, id: Id)
    requires id in Run(Start, labels).rows
    ensures var w := Run(Start, labels);
      RowOk(w.rows[id]) && |ClaimsOf(w.issued, id)| == w.rows[id].attempts <= MAX_ATTEMPTS
  {
    RunKeeps(Start, labels);
    var w := Run(Start, labels);
    assert RowIn(w.issued, id, w.rows[id]);
  }

  /** At most one claim holds a row. */
  lemma OneHolder(labels: seq<Label>, c: Claim, c': Claim)
    requires var w := Run(Start, labels);
      && c in w.issued && c' in w.issued && c.id == c'.id
      && c.id in w.rows && Holds(w.rows[c.id], c) && Holds(w.rows[c.id], c')
    ensures c == c'
  {
    RunKeeps(Start, labels);
    var w := Run(Start, labels);
    HolderIsCurrent(w, c);
    HolderIsCurrent(w, c');
  }

  /**
   A row becomes acknowledged only by the claim that holds it, on a positive
   answer, before both its lease and its candidate run out.
   */
  lemma AcknowledgedOnlyByHolder(labels: seq<Label>, l: Label, id: Id)
    requires var w := Run(Start, labels);
      && id in w.rows && w.rows[id].status != Acknowledged
      && id in Next(w, l).rows && Next(w, l).rows[id].status == Acknowledged
    ensures var w := Run(Start, labels);
      && l.Finalize? && l.claim in w.issued && l.claim == ClaimOn(id, w.rows[id]) && l.outcome.Acked?
      && l.now < l.claim.leaseExpires && l.now < w.rows[id].expiresAt
      && Next(w, l).rows[id].acknowledgedAt == Some(l.now)
  {
    RunKeeps(Start, labels);
    var w := Run(Start, labels);
    if l.Grant? && l.token !in w.used && SafeNat(l.now) {
      GrantNeverAcknowledges(w.rows, l.owner, l.now, l.token, id);
    }
    if l.Finalize? {
      HolderIsCurrent(w, l.claim);
    }
  }

  lemma GrantNeverAcknowledges(rows: Rows, owner: string, now: int, token: Token, id: Id)
    requires id in rows && rows[id].status != Acknowledged
    ensures id in ClaimRows(rows, owner, now, token)
    ensures ClaimRows(rows, owner, now, token)[id].status != Acknowledged
  {
  }

  /** A granted claim is for a live candidate whose turn it was, and its row is the only one with its token. */
  lemma GrantIsDue(w: World, owner: string, now: int, token: Token)
    requires Inv(w) && token !in w.used && ClaimResult(w.rows, owner, now, token).Some?
    ensures var c := ClaimResult(w.rows, owner, now, token).value;
      var rows := ClaimRows(w.rows, owner, now, token);
      && c.id in rows && Holds(rows[c.id], c) && now < c.expiresAt && c.leaseExpires == now + LEASE_SECONDS
      && IsNext(SweepAll(w.rows, now), now, c.id)
      && forall id :: id in rows && rows[id].token == Some(token) ==> id == c.id
  {
    var c := ClaimResult(w.rows, owner, now, token).value;
    var swept := SweepAll(w.rows, now);
    var rows := ClaimRows(w.rows, owner, now, token);
    forall id | id in rows && id != c.id ensures rows[id].token != Some(token) {
      assert RowIn(w.issued, id, w.rows[id]);
      SweepStep(now, w.rows[id]);
      assert rows[id] == swept[id];
      assert w.rows[id].status == Claimed ==> ClaimOn(id, w.rows[id]).token in w.used;
    }
  }

  /** After a claim batch no open row is past its candidate's expiry, and no lease is over. */
  lemma GrantLeavesNothingStale(w: World, owner: string, now: int, token: Token, id: Id)
    requires Inv(w) && id in w.rows
    ensures var after := ClaimRows(w.rows, owner, now, token);
      && id in after
      && (Open(after[id].status) ==> now < after[id].expiresAt)
      && (after[id].status == Claimed ==> after[id].leaseExpires.Some? && now < after[id].leaseExpires.value)
  {
    hide NextId, IsNext;
    assert RowIn(w.issued, id, w.rows[id]);
    SweptFresh(now, w.rows[id]);
    NextIsClaimable(SweepAll(w.rows, now), now);
  }

  lemma SweptFresh(now: int, r: Delivery)
    requires RowOk(r)
    ensures var s := Sweep(now, r);
      && (Open(s.status) ==> now < s.expiresAt)
      && (s.status == Claimed ==> s.leaseExpires.Some? && now < s.leaseExpires.value)
  {
  }

  lemma NextIsClaimable(rows: Rows, now: int)
    ensures NextId(rows, now).Some? ==> NextId(rows, now).value in rows && Claimable(now, rows[NextId(rows, now).value])
  {
  }

  /**
   Where the holder of a row takes it: expired once the candidate is, acknowledged
   only in time, retried exactly while attempts are left and nothing final was said.
   */
  lemma FinalizedStatus(w: World, c: Claim, f: Finalization, now: int)
    requires Inv(w) && c in w.issued && Holds(w.rows[c.id], c) && SafeNat(now)
    ensures var r, after := w.rows[c.id], Next(w, Finalize(c, f, now)).rows[c.id];
      var late := now >= c.leaseExpires;
      && (after.status == Expired <==> now >= r.expiresAt)
      && (after.status == Acknowledged <==> now < r.expiresAt && !late && f.Acked?)
      && (after.status == Retry <==>
            now < r.expiresAt && r.attempts < MAX_ATTEMPTS && (late || f.Transient?))
      && (after.status == FailedTerminal <==>
            now < r.expiresAt && (late || !f.Acked?) && (r.attempts == MAX_ATTEMPTS || (!late && f.Refused?)))
  {
    HolderIsCurrent(w, c);
    assert RowIn(w.issued, c.id, w.rows[c.id]);
  }

  /** A transient failure keeps the row away for 2, 4, 8 or 16 seconds; the five-minute cap is never reached. */
  lemma BackoffDoubles(w: World, c: Claim, now: int)
    requires Inv(w) && c in w.issued && Holds(w.rows[c.id], c) && SafeNat(now)
    requires now < c.leaseExpires && now < c.expiresAt && w.rows[c.id].attempts < MAX_ATTEMPTS
    ensures var r, after := w.rows[c.id], Next(w, Finalize(c, Transient, now)).rows[c.id];
      && after.nextAttempt - now == [2, 4, 8, 16][r.attempts - 1] < MAX_BACKOFF_SECONDS
      && forall t :: t < after.nextAttempt ==> !Claimable(t, after)
  {
    HolderIsCurrent(w, c);
    var r := w.rows[c.id];
    assert RowIn(w.issued, c.id, r);
    assert Power2(1) == 2 && Power2(2) == 4 && Power2(3) == 8 && Power2(4) == 16;
  }

  // Service

  /** A waiting row can be claimed exactly from its next attempt until its candidate expires. */
  lemma ServiceWindow(r: Delivery, t: int)
    requires RowOk(r)
    ensures Claimable(t, r) <==> (r.status == Pending || r.status == Retry) && r.nextAttempt <= t < r.expiresAt
  {
  }

  /** Earlier next attempt, then earlier creation, then smaller id. */
  predicate InTurn(i: Id, r: Delivery, j: Id, s: Delivery)
  {
    && r.nextAttempt <= s.nextAttempt
    && (r.nextAttempt == s.nextAttempt ==> r.createdAt <= s.createdAt)
    && (r.nextAttempt == s.nextAttempt && r.createdAt == s.createdAt ==> i <= j)
  }

  /** A claim inside a waiting row's window serves that row, or one whose turn comes before it. */
  lemma WaitingRowIsServed(w: World, owner: string, now: int, token: Token, id: Id)
    requires Inv(w) && id in w.rows
    requires (w.rows[id].status == Pending || w.rows[id].status == Retry)
             && w.rows[id].nextAttempt <= now < w.rows[id].expiresAt
    ensures var claim := ClaimResult(w.rows, owner, now, token);
      && claim.Some? && claim.value.id in w.rows
      && InTurn(claim.value.id, Sweep(now, w.rows[claim.value.id]), id, w.rows[id])
  {
    assert RowIn(w.issued, id, w.rows[id]);
    ServiceWindow(w.rows[id], now);
    ServedFirst(w.rows, owner, now, token, id);
  }

  lemma ServedFirst(rows: Rows, owner: string, now: int, token: Token, id: Id)
    requires id in rows && Claimable(now, Sweep(now, rows[id]))
    ensures var claim := ClaimResult(rows, owner, now, token);
      && claim.Some? && claim.value.id in rows
      && InTurn(claim.value.id, Sweep(now, rows[claim.value.id]), id, Sweep(now, rows[id]))
  {
    hide Sweep, Claimable;
    var swept := SweepAll(rows, now);
    assert id in swept && swept[id] == Sweep(now, rows[id]);
    assert AnyClaimable(swept, now);
    var next := NextId(swept, now);
    assert next.Some? && IsNext(swept, now, next.value);
  }

  /** A lease that ran out with attempts left is up for claim again at once, in the batch that finds it. */
  lemma LapsedLeaseIsServed(w: World, owner: string, now: int, token: Token, id: Id)
    requires Inv(w) && id in w.rows && w.rows[id].status == Claimed && w.rows[id].attempts < MAX_ATTEMPTS
    requires w.rows[id].leaseExpires.value <= now < w.rows[id].expiresAt
    ensures var claim := ClaimResult(w.rows, owner, now, token);
      && claim.Some? && claim.value.id in w.rows
      && InTurn(claim.value.id, Sweep(now, w.rows[claim.value.id]), id, Sweep(now, w.rows[id]))
      && Sweep(now, w.rows[id]).nextAttempt == now
  {
    assert RowIn(w.issued, id, w.rows[id]);
    assert Claimable(now, Sweep(now, w.rows[id]));
    ServedFirst(w.rows, owner, now, token, id);
  }

  /** What a granted claim leaves on its row: one more attempt, a thirty-second lease, the given owner and token. */
  lemma GrantMarksRow(w: World, owner: string, now: int, token: Token)
    requires Inv(w) && ClaimResult(w.rows, owner, now, token).Some?
    ensures var c := ClaimResult(w.rows, owner, now, token).value;
      var after := ClaimRows(w.rows, owner, now, token);
      && c.id in w.rows && c.id in after && after[c.id].status == Claimed
      && after[c.id].attempts == w.rows[c.id].attempts + 1 == c.attempts
      && after[c.id].owner == Some(owner) && after[c.id].token == Some(token) && c.token == token && c.owner == owner
      && after[c.id].leaseExpires == Some(now + 30) && c.leaseExpires == now + 30
      && c.expiresAt == w.rows[c.id].expiresAt > now
  {
    hide NextId;
    var swept := SweepAll(w.rows, now);
    NextIsClaimable(swept, now);
    var c := ClaimResult(w.rows, owner, now, token).value;
    assert RowIn(w.issued, c.id, w.rows[c.id]);
    SweepStep(now, w.rows[c.id]);
  }

  /** What the holder's finalization leaves of a row besides its status. */
  lemma FinalizedRow(w: World, c: Claim, f: Finalization, now: int)
    requires Inv(w) && c in w.issued && Holds(w.rows[c.id], c) && SafeNat(now)
    ensures var r, after := w.rows[c.id], Next(w, Finalize(c, f, now)).rows[c.id];
      && after.owner == None && after.leaseExpires == None && after.token == None
      && after.attempts == r.attempts && after.createdAt == r.createdAt && after.expiresAt == r.expiresAt
      && after.acknowledgedAt == (if after.status == Acknowledged then Some(now) else None)
      && (after.status == Retry ==>
            after.nextAttempt == now + if now >= c.leaseExpires then 0 else [2, 4, 8, 16][r.attempts - 1])
      && forall id :: id in w.rows && id != c.id ==> Next(w, Finalize(c, f, now)).rows[id] == w.rows[id]
  {
    HolderIsCurrent(w, c);
    assert RowIn(w.issued, c.id, w.rows[c.id]);
    var r := w.rows[c.id];
    if now < c.leaseExpires && now < c.expiresAt && r.attempts < MAX_ATTEMPTS && f.Transient? {
      BackoffDoubles(w, c, now);
    }
  }
}
