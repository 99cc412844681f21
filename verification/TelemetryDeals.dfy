/**
 The revision chain of every deal in the telemetry journal, over every run.
 */
module TelemetryDeals {
  import opened Common
  import opened TelemetryWire
  import opened TelemetryRepository
  import opened TelemetryRuns
  import opened TelemetryTheorems

  /** The event under `k` is revision `revision` of a deal. */
  predicate Revises(events: Journal, k: (nat, int), dealId: string, revision: int)
  {
    && k in events && events[k].record.Deal?
    && events[k].record.dealId == dealId && events[k].record.revision == revision
  }

  /** An earlier event of the same scope holds the previous revision, and this one names its digest. */
  ghost predicate Follows(events: Journal, k: (nat, int), dealId: string, revision: int)
    requires Revises(events, k, dealId, revision)
  {
    exists n :: n < k.1 && Revises(events, (k.0, n), dealId, revision - 1)
                && events[k].record.previous == Some(events[(k.0, n)].recordDigest)
  }

  ghost predicate RevisionOk(events: Journal, deals: Deals, k: (nat, int), e: Event)
    requires k in events && events[k] == e
  {
    e.record.Deal? ==>
      && (k.0, e.record.dealId) in deals
      && 1 <= e.record.revision <= deals[(k.0, e.record.dealId)].revision
      && if e.record.revision == 1 then e.record.previous.None?
         else Follows(events, k, e.record.dealId, e.record.revision)
  }

  ghost predicate PointerOk(events: Journal, deals: Deals, k: (nat, string), c: Current)
  {
    && Revises(events, (k.0, c.sequence), k.1, c.revision)
    && events[(k.0, c.sequence)].recordDigest == c.digest
  }

  ghost predicate NoRevisionTwice(events: Journal)
  {
    forall scope, n, m, dealId, revision ::
      Revises(events, (scope, n), dealId, revision) && Revises(events, (scope, m), dealId, revision) ==> n == m
  }

  ghost predicate ChainOk(db: Db)
  {
    && (forall k :: k in db.events ==> RevisionOk(db.events, db.deals, k, db.events[k]))
    && (forall k :: k in db.deals ==> PointerOk(db.events, db.deals, k, db.deals[k]))
    && NoRevisionTwice(db.events)
  }

  // One batch

  lemma {:induction false} InsertedRowsFit(events: Journal, deals: Deals, scope: nat, es: seq<Event>)
    requires InsertEvents(events, deals, scope, es).Some?
    ensures forall i :: 0 <= i < |es| && IsDeal(es[i]) ==> RevisionFits(deals, scope, es[i].record)
    decreases |es|
  {
    if es != [] {
      InsertedRowsFit(events[(scope, es[0].sequence) := es[0]], deals, scope, es[1..]);
      forall i | 0 <= i < |es| && IsDeal(es[i]) ensures RevisionFits(deals, scope, es[i].record) {
        assert i > 0 ==> es[i] == es[1..][i - 1];
      }
    }
  }

  predicate Names(es: seq<Event>, i: int, dealId: string)
  {
    0 <= i < |es| && es[i].record.Deal? && es[i].record.dealId == dealId
  }

  /** The pointers after a batch: the deals it names at its own events, the others as they were. */
  ghost predicate Points(deals: Deals, scope: nat, es: seq<Event>, next: Deals)
  {
    && (forall i, dealId :: Names(es, i, dealId) ==>
          (scope, dealId) in next
          && next[(scope, dealId)] == Current(es[i].sequence, es[i].record.revision, es[i].recordDigest))
    && (forall k: (nat, string) :: (k.0 != scope || forall i :: !Names(es, i, k.1)) ==>
          (k in next <==> k in deals) && (k in deals ==> next[k] == deals[k]))
  }

  lemma {:induction false} PointDealsPoints(deals: Deals, scope: nat, es: seq<Event>)
    requires DistinctEvents(es)
    ensures Points(deals, scope, es, PointDeals(deals, scope, es))
    decreases |es|
  {
    if es != [] {
      var step, tail := PointDeal(deals, scope, es[0]), es[1..];
      var next := PointDeals(deals, scope, es);
      PointDealsPoints(step, scope, tail);
      assert forall i, dealId :: Names(tail, i, dealId) <==> i >= 0 && Names(es, i + 1, dealId);
      forall i, dealId | Names(es, i, dealId)
        ensures (scope, dealId) in next
                && next[(scope, dealId)] == Current(es[i].sequence, es[i].record.revision, es[i].recordDigest)
      {
        if i > 0 {
          assert Names(tail, i - 1, dealId);
        } else {
          assert forall j :: !Names(tail, j, dealId);
        }
      }
      forall k: (nat, string) | k.0 != scope || forall i :: !Names(es, i, k.1)
        ensures (k in next <==> k in deals) && (k in deals ==> next[k] == deals[k])
      {
        assert !Names(es, 0, k.1) || k.0 != scope;
        assert k.0 != scope || forall i :: !Names(tail, i, k.1);
      }
    }
  }

  /** The tables before and after a batch, as its chain lemmas use them. */
  ghost predicate ChainStep(db: Db, b: Batch, after: Db)
  {
    var body := b.request.body;
    && Numbered(body.events, body.lastAcknowledged) && DistinctEvents(body.events)
    && EventsExactly(db.events, b.scope, body.lastAcknowledged)
    && Extends(db.events, b.scope, body.lastAcknowledged, body.events, after.events)
    && Points(db.deals, b.scope, body.events, after.deals)
    && (forall i :: 0 <= i < |body.events| && IsDeal(body.events[i]) ==>
          RevisionFits(db.deals, b.scope, body.events[i].record))
  }

  lemma CommitIsChainStep(d: Digests, db: Db, b: Batch)
    requires CollisionFree(d) && LogOk(d, db) && BatchOk(d, db, b) && Commit(db, b).Some?
    ensures ChainStep(db, b, Commit(db, b).value)
  {
    var es := b.request.body.events;
    CommitApplies(d, db, b);
    CommitParts(db, b);
    InsertedRowsFit(db.events, db.deals, b.scope, es);
    PointDealsPoints(db.deals, b.scope, es);
    var account := b.request.body.identity.accountId;
    if account in db.sessions {
      assert SessionOk(d, db, account, db.sessions[account]);
    } else {
      UnknownScopeEmpty(d, db, b.scope);
    }
  }

  /** The journal only grows, so a link once made stays. */
  lemma FollowsStays(events: Journal, next: Journal, k: (nat, int), dealId: string, revision: int)
    requires Revises(events, k, dealId, revision) && Follows(events, k, dealId, revision)
    requires forall j :: j in events ==> j in next && next[j] == events[j]
    ensures Revises(next, k, dealId, revision) && Follows(next, k, dealId, revision)
  {
    var n :| n < k.1 && Revises(events, (k.0, n), dealId, revision - 1)
             && events[k].record.previous == Some(events[(k.0, n)].recordDigest);
    assert Revises(next, (k.0, n), dealId, revision - 1);
  }

  lemma OldRevisionStays(db: Db, b: Batch, after: Db, k: (nat, int))
    requires ChainOk(db) && ChainStep(db, b, after) && k in db.events
    ensures RevisionOk(after.events, after.deals, k, after.events[k])
  {
    var e := db.events[k];
    assert RevisionOk(db.events, db.deals, k, e);
    if e.record.Deal? {
      if e.record.revision != 1 {
        FollowsStays(db.events, after.events, k, e.record.dealId, e.record.revision);
      }
      var es := b.request.body.events;
      var key := (k.0, e.record.dealId);
      if k.0 == b.scope && exists i :: Names(es, i, key.1) {
        var i :| Names(es, i, key.1);
        assert RevisionFits(db.deals, b.scope, es[i].record);
      }
    }
  }

  lemma NewRevisionFollows(db: Db, b: Batch, after: Db, k: (nat, int))
    requires ChainOk(db) && ChainStep(db, b, after) && k in after.events && k !in db.events
    ensures RevisionOk(after.events, after.deals, k, after.events[k])
  {
    var base, es := b.request.body.lastAcknowledged, b.request.body.events;
    var i := k.1 - base - 1;
    var e := es[i];
    assert after.events[k] == e by {
      assert k == (b.scope, k.1);
    }
    if e.record.Deal? {
      var key := (b.scope, e.record.dealId);
      assert RevisionFits(db.deals, b.scope, e.record) && Names(es, i, e.record.dealId);
      if key in db.deals {
        var c := db.deals[key];
        assert PointerOk(db.events, db.deals, key, c);
        assert RevisionOk(db.events, db.deals, (b.scope, c.sequence), db.events[(b.scope, c.sequence)]);
        assert Revises(after.events, (k.0, c.sequence), e.record.dealId, e.record.revision - 1);
        assert Follows(after.events, k, e.record.dealId, e.record.revision);
      }
    }
  }

  lemma PointersStay(db: Db, b: Batch, after: Db, key: (nat, string))
    requires forall k :: k in db.deals ==> PointerOk(db.events, db.deals, k, db.deals[k])
    requires ChainStep(db, b, after) && key in after.deals
    ensures PointerOk(after.events, after.deals, key, after.deals[key])
  {
    var es := b.request.body.events;
    if key.0 == b.scope && exists i :: Names(es, i, key.1) {
      var i :| Names(es, i, key.1);
      PointerMoves(db, b, after, i);
    } else {
      assert key in db.deals && after.deals[key] == db.deals[key];
      assert PointerOk(db.events, db.deals, key, db.deals[key]);
    }
  }

  lemma PointerMoves(db: Db, b: Batch, after: Db, i: int)
    requires ChainStep(db, b, after) && 0 <= i < |b.request.body.events| && IsDeal(b.request.body.events[i])
    ensures var key := (b.scope, b.request.body.events[i].record.dealId);
      key in after.deals && PointerOk(after.events, after.deals, key, after.deals[key])
  {
    var base, es := b.request.body.lastAcknowledged, b.request.body.events;
    var n := base + 1 + i;
    assert Names(es, i, es[i].record.dealId);
    assert after.events[(b.scope, n)] == es[n - base - 1];
  }

  lemma OldRevisionsBelow(db: Db, scope: nat, dealId: string, revision: int)
    requires ChainOk(db)
    requires revision == if (scope, dealId) in db.deals then db.deals[(scope, dealId)].revision + 1 else 1
    ensures forall n, v :: Revises(db.events, (scope, n), dealId, v) ==> v < revision
  {
    forall n, v | Revises(db.events, (scope, n), dealId, v) ensures v < revision {
      assert RevisionOk(db.events, db.deals, (scope, n), db.events[(scope, n)]);
    }
  }

  /** A new event's revision is above every stored one of its deal, and the batch names a deal once. */
  lemma NewRevisionIsNew(db: Db, b: Batch, after: Db, scope: nat, n: int, m: int, dealId: string, revision: int)
    requires ChainOk(db) && ChainStep(db, b, after) && n <= m
    requires Revises(after.events, (scope, n), dealId, revision) && Revises(after.events, (scope, m), dealId, revision)
    ensures n == m
  {
    var base, es := b.request.body.lastAcknowledged, b.request.body.events;
    if (scope, m) in db.events {
      assert (scope, n) in db.events;
      assert Revises(db.events, (scope, n), dealId, revision) && Revises(db.events, (scope, m), dealId, revision);
    } else {
      assert after.events[(b.scope, m)] == es[m - base - 1];
      assert RevisionFits(db.deals, b.scope, es[m - base - 1].record);
      OldRevisionsBelow(db, scope, dealId, revision);
      assert after.events[(b.scope, n)] == es[n - base - 1];
    }
  }

  lemma RevisionsStayOk(db: Db, b: Batch, after: Db, k: (nat, int))
    requires ChainOk(db) && ChainStep(db, b, after) && k in after.events
    ensures RevisionOk(after.events, after.deals, k, after.events[k])
  {
    if k in db.events {
      OldRevisionStays(db, b, after, k);
    } else {
      NewRevisionFollows(db, b, after, k);
    }
  }

  lemma RevisionsStayUnique(db: Db, b: Batch, after: Db)
    requires ChainOk(db) && ChainStep(db, b, after)
    ensures NoRevisionTwice(after.events)
  {
    forall scope, n, m, dealId, revision
      | Revises(after.events, (scope, n), dealId, revision) && Revises(after.events, (scope, m), dealId, revision)
      ensures n == m
    {
      if n <= m {
        NewRevisionIsNew(db, b, after, scope, n, m, dealId, revision);
      } else {
        NewRevisionIsNew(db, b, after, scope, m, n, dealId, revision);
      }
    }
  }

  lemma ChainStepKeeps(db: Db, b: Batch, after: Db)
    requires ChainOk(db) && ChainStep(db, b, after)
    ensures ChainOk(after)
  {
    forall k | k in after.events ensures RevisionOk(after.events, after.deals, k, after.events[k]) {
      RevisionsStayOk(db, b, after, k);
    }
    forall k | k in after.deals ensures PointerOk(after.events, after.deals, k, after.deals[k]) {
      PointersStay(db, b, after, k);
    }
    RevisionsStayUnique(db, b, after);
  }

  lemma StepKeepsChain(d: Digests, w: World, l: Label)
    requires CollisionFree(d) && Inv(d, w) && ChainOk(w.db)
    ensures ChainOk(Next(d, w, l).db)
  {
    if l.Apply? && l.batch in w.prepared && Commit(w.db, l.batch).Some? {
      CommitIsChainStep(d, w.db, l.batch);
      ChainStepKeeps(w.db, l.batch, Commit(w.db, l.batch).value);
    }
  }

  lemma {:induction false} RunKeepsChain(d: Digests, w: World, labels: seq<Label>)
    requires CollisionFree(d) && Inv(d, w) && ChainOk(w.db)
    ensures ChainOk(Run(d, w, labels).db)
    decreases |labels|
  {
    if labels != [] {
      StepKeeps(d, w, labels[0]);
      StepKeepsChain(d, w, labels[0]);
      RunKeepsChain(d, Next(d, w, labels[0]), labels[1..]);
    }
  }

  /** Every revision up to a stored one is stored, earlier. */
  lemma {:induction false} RevisionStored(db: Db, scope: nat, n: int, dealId: string, top: int, revision: int)
    returns (at: int)
    requires ChainOk(db) && Revises(db.events, (scope, n), dealId, top) && 1 <= revision <= top
    ensures Revises(db.events, (scope, at), dealId, revision) && at <= n
    decreases top
  {
    assert RevisionOk(db.events, db.deals, (scope, n), db.events[(scope, n)]);
    if revision == top {
      at := n;
    } else {
      var before :| before < n && Revises(db.events, (scope, before), dealId, top - 1);
      at := RevisionStored(db, scope, before, dealId, top - 1, revision);
    }
  }

  /**
   In every reachable state each deal's revisions are exactly `1..current`, each
   stored once, and each after the first names the digest of the one before it.
   */
  lemma DealChains(d: Digests, labels: seq<Label>, scope: nat, dealId: string, revision: int)
    requires CollisionFree(d)
    ensures var db := Run(d, Start, labels).db;
      && ((exists n :: Revises(db.events, (scope, n), dealId, revision)) <==>
            (scope, dealId) in db.deals && 1 <= revision <= db.deals[(scope, dealId)].revision)
      && NoRevisionTwice(db.events)
      && forall n :: Revises(db.events, (scope, n), dealId, revision) && revision > 1 ==>
           Follows(db.events, (scope, n), dealId, revision)
  {
    RunKeepsChain(d, Start, labels);
    var db := Run(d, Start, labels).db;
    forall n | Revises(db.events, (scope, n), dealId, revision)
      ensures (scope, dealId) in db.deals && 1 <= revision <= db.deals[(scope, dealId)].revision
              && (revision > 1 ==> Follows(db.events, (scope, n), dealId, revision))
    {
      assert RevisionOk(db.events, db.deals, (scope, n), db.events[(scope, n)]);
    }
    if (scope, dealId) in db.deals && 1 <= revision <= db.deals[(scope, dealId)].revision {
      var c := db.deals[(scope, dealId)];
      assert PointerOk(db.events, db.deals, (scope, dealId), c);
      var at := RevisionStored(db, scope, c.sequence, dealId, c.revision, revision);
    }
  }
}
