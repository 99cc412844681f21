/**
 Proposal ingestion over every interleaving of calls, together with the outbox it
 feeds.

 A call reads the tables several times before its batch; anything may happen
 between two reads, and before the batch. A batch may be applied at any later time.
 Incidents are left out: no other table refers to them.
 */
module IngestionRuns {
  import opened Common
  import opened ProposalIngestion
  import Outbox
  import OutboxRuns

  /** Where a call stands between its reads. */
  datatype Call =
    | Looked(proposal: Proposal, now: int)
    | Checked(proposal: Proposal, now: int, conflict: bool)
    | Sequenced(proposal: Proposal, now: int)

  datatype World = World(
    db: Db, outbox: OutboxRuns.World, calls: set<Call>, ready: set<Batch>, answered: set<(Proposal, Response)>)

  datatype Label =
    | Look(proposal: Proposal, now: int)
    | Check(proposal: Proposal, now: int)
    | Sequence(proposal: Proposal, now: int, highest: int)
    | Plan(proposal: Proposal, now: int, emission: bool, dispatch: bool)
    | Commit(batch: Batch)
    | Deliver(step: OutboxRuns.Label)

  ghost function Next(d: Digests, w: World, l: Label): World
  {
    match l
    case Look(p, now) => LookStep(d, w, p, now)
    case Check(p, now) =>
      if Looked(p, now) in w.calls then w.(calls := w.calls + {Checked(p, now, Conflicts(w.db.events, p))}) else w
    case Sequence(p, now, highest) =>
      if Checked(p, now, false) in w.calls && IsHighest(w.db.checkpoints, p.producer, highest)
         && p.sequence == highest + 1
      then w.(calls := w.calls + {Sequenced(p, now)})
      else w
    case Plan(p, now, emission, dispatch) =>
      var stored := emission && p.candidateId in w.db.payloads;
      if Sequenced(p, now) in w.calls && (stored ==> w.db.payloads[p.candidateId] == p.candidateBody)
      then w.(ready := w.ready + {BatchFor(w.db, p, now, emission, dispatch)})
      else w
    case Commit(b) => if b in w.ready && Admissible(d, w.db, w.outbox.rows, b) then CommitStep(d, w, b) else w
    case Deliver(step) => if step.Store? then w else w.(outbox := OutboxRuns.Next(w.outbox, step))
  }

  function LookStep(d: Digests, w: World, p: Proposal, now: int): World
  {
    if !SafeNat(now) || !Safe(ExpiryOf(p)) then w
    else if KeyOf(p) !in w.db.events then w.(calls := w.calls + {Looked(p, now)})
    else
      match ReplayOf(d, w.db, p)
      case Some(Recorded(response)) => w.(answered := w.answered + {(p, response)})
      case _ => w
  }

  ghost function CommitStep(d: Digests, w: World, b: Batch): World
  {
    var p := b.proposal;
    w.(db := Recording(d, w.db, b),
       outbox := if b.store then OutboxRuns.Next(w.outbox, OutboxRuns.Store(p.candidateId, b.now, ExpiryOf(p)))
                 else w.outbox,
       answered := w.answered + {(p, ResponseOf(d, b))})
  }

  ghost function Run(d: Digests, w: World, labels: seq<Label>): World
    decreases |labels|
  {
    if labels == [] then w else Run(d, Next(d, w, labels[0]), labels[1..])
  }

  const Start := World(Db(map[], map[], {}, map[], []), OutboxRuns.Start, {}, {}, {})

  // What every run keeps

  /** Sequence numbers start at one, have no gaps, and are checkpointed. */
  ghost predicate Contiguous(db: Db)
  {
    && (forall k :: k in db.events ==> k.1 >= 1)
    && (forall k :: k in db.events && k.1 > 1 ==> (k.0, k.1 - 1) in db.events)
    && db.checkpoints == db.events.Keys
  }

  /** The event under `k` records this proposal. */
  predicate Records(d: Digests, db: Db, k: Key, p: Proposal)
  {
    && k in db.events && KeyOf(p) == k && db.events[k] == EventOf(d, p)
    && EventId(d, p) in db.results
    && db.results[EventId(d, p)].eventId == EventId(d, p) && db.results[EventId(d, p)].digest == d.proposal(p)
  }

  ghost predicate IsRecorded(d: Digests, db: Db, k: Key)
  {
    exists p :: Records(d, db, k, p)
  }

  ghost predicate EventsGenuine(d: Digests, db: Db)
  {
    && (forall k :: k in db.events ==> IsRecorded(d, db, k))
    && (forall id :: id in db.results ==> exists k :: k in db.events && db.events[k].id == id)
  }

  /** A logical candidate has one body, in the events and in the payloads. */
  ghost predicate OneBody(db: Db)
  {
    && (forall k, j :: k in db.events && j in db.events && db.events[k].candidateId == db.events[j].candidateId ==>
          db.events[k].candidateBody == db.events[j].candidateBody)
    && (forall id :: id in db.payloads ==> PayloadRecorded(db, id))
  }

  ghost predicate PayloadRecorded(db: Db, id: Outbox.Id)
    requires id in db.payloads
  {
    exists k :: k in db.events && db.events[k].candidateId == id && db.events[k].candidateBody == db.payloads[id]
  }

  ghost predicate DbOk(d: Digests, db: Db)
  {
    Contiguous(db) && EventsGenuine(d, db) && OneBody(db)
  }

  ghost predicate NextInLine(db: Db, p: Proposal)
  {
    p.sequence == 1 || (p.sequence > 1 && (p.producer, p.sequence - 1) in db.checkpoints)
  }

  ghost predicate CallsOk(w: World)
  {
    && (forall c :: c in w.calls && c.Sequenced? ==> NextInLine(w.db, c.proposal))
    && (forall b :: b in w.ready ==> NextInLine(w.db, b.proposal))
  }

  ghost predicate Answered(d: Digests, db: Db, p: Proposal, response: Response)
  {
    Records(d, db, KeyOf(p), p) && db.results[EventId(d, p)] == response
  }

  ghost predicate AnswersOk(d: Digests, w: World)
  {
    forall a :: a in w.answered ==> Answered(d, w.db, a.0, a.1)
  }

  ghost predicate Inv(d: Digests, w: World)
  {
    && DbOk(d, w.db) && CallsOk(w) && AnswersOk(d, w)
    && w.outbox.rows.Keys == w.db.payloads.Keys && OutboxRuns.Inv(w.outbox)
  }

  // One batch

  lemma RecordingContiguous(d: Digests, db: Db, rows: Outbox.Rows, b: Batch)
    requires Contiguous(db) && NextInLine(db, b.proposal) && Admissible(d, db, rows, b)
    ensures Contiguous(Recording(d, db, b))
  {
  }

  lemma RecordingGenuine(d: Digests, db: Db, rows: Outbox.Rows, b: Batch)
    requires EventsGenuine(d, db) && Admissible(d, db, rows, b)
    ensures EventsGenuine(d, Recording(d, db, b))
  {
    var after := Recording(d, db, b);
    assert Records(d, after, KeyOf(b.proposal), b.proposal);
    forall k | k in after.events ensures IsRecorded(d, after, k) {
      if k != KeyOf(b.proposal) {
        assert IsRecorded(d, db, k);
        var p :| Records(d, db, k, p);
        assert Records(d, after, k, p);
      }
    }
    forall id | id in after.results ensures exists k :: k in after.events && after.events[k].id == id {
      if id == EventId(d, b.proposal) {
        assert after.events[KeyOf(b.proposal)].id == id;
      } else {
        var k :| k in db.events && db.events[k].id == id;
        assert after.events[k].id == id;
      }
    }
  }

  lemma RecordingOneBody(d: Digests, db: Db, rows: Outbox.Rows, b: Batch)
    requires OneBody(db) && Admissible(d, db, rows, b)
    ensures OneBody(Recording(d, db, b))
  {
    var after, p := Recording(d, db, b), b.proposal;
    forall id | id in after.payloads ensures PayloadRecorded(after, id) {
      if b.store && id == p.candidateId {
        assert after.events[KeyOf(p)].candidateId == id;
      } else {
        assert PayloadRecorded(db, id);
        var k :| k in db.events && db.events[k].candidateId == id && db.events[k].candidateBody == db.payloads[id];
        assert after.events[k] == db.events[k];
      }
    }
  }

  lemma RecordingKeepsAnswer(d: Digests, db: Db, rows: Outbox.Rows, b: Batch, p: Proposal, response: Response)
    requires Admissible(d, db, rows, b) && Answered(d, db, p, response)
    ensures Answered(d, Recording(d, db, b), p, response)
  {
  }

  lemma CommitKeeps(d: Digests, w: World, b: Batch)
    requires Inv(d, w) && b in w.ready && Admissible(d, w.db, w.outbox.rows, b)
    ensures Inv(d, CommitStep(d, w, b))
  {
    RecordingKeeps(d, w.db, w.outbox.rows, b);
    CommitKeepsOutbox(d, w, b);
    CommitKeepsCalls(d, w, b);
    CommitKeepsAnswers(d, w, b);
  }

  lemma RecordingKeeps(d: Digests, db: Db, rows: Outbox.Rows, b: Batch)
    requires DbOk(d, db) && NextInLine(db, b.proposal) && Admissible(d, db, rows, b)
    ensures DbOk(d, Recording(d, db, b))
  {
    RecordingContiguous(d, db, rows, b);
    RecordingGenuine(d, db, rows, b);
    RecordingOneBody(d, db, rows, b);
  }

  lemma CommitKeepsOutbox(d: Digests, w: World, b: Batch)
    requires OutboxRuns.Inv(w.outbox) && w.outbox.rows.Keys == w.db.payloads.Keys
    ensures var w' := CommitStep(d, w, b);
      OutboxRuns.Inv(w'.outbox) && w'.outbox.rows.Keys == w'.db.payloads.Keys
  {
    if b.store {
      OutboxRuns.StoreKeeps(w.outbox, b.proposal.candidateId, b.now, ExpiryOf(b.proposal));
    }
  }

  lemma CommitKeepsCalls(d: Digests, w: World, b: Batch)
    requires CallsOk(w)
    ensures CallsOk(CommitStep(d, w, b))
  {
  }

  lemma CommitKeepsAnswers(d: Digests, w: World, b: Batch)
    requires AnswersOk(d, w) && Admissible(d, w.db, w.outbox.rows, b)
    ensures AnswersOk(d, CommitStep(d, w, b))
  {
    var w' := CommitStep(d, w, b);
    forall a | a in w'.answered ensures Answered(d, w'.db, a.0, a.1) {
      if a in w.answered {
        RecordingKeepsAnswer(d, w.db, w.outbox.rows, b, a.0, a.1);
      }
    }
  }

  lemma LookKeeps(d: Digests, w: World, p: Proposal, now: int)
    requires CollisionFree(d) && Inv(d, w)
    ensures Inv(d, LookStep(d, w, p, now))
  {
    if KeyOf(p) in w.db.events && ReplayOf(d, w.db, p).Some? {
      assert IsRecorded(d, w.db, KeyOf(p));
      var q :| Records(d, w.db, KeyOf(p), q);
      assert q == p;
    }
  }

  lemma DeliverKeeps(d: Digests, w: World, step: OutboxRuns.Label)
    requires Inv(d, w) && !step.Store?
    ensures Inv(d, w.(outbox := OutboxRuns.Next(w.outbox, step)))
  {
    OutboxRuns.StepKeeps(w.outbox, step);
    var rows, after := w.outbox.rows, OutboxRuns.Next(w.outbox, step).rows;
    forall id | id in rows ensures id in after {
      OutboxRuns.StepDecreases(w.outbox, step, id);
    }
    NoNewRows(w.outbox, step);
  }

  lemma NoNewRows(o: OutboxRuns.World, step: OutboxRuns.Label)
    requires OutboxRuns.Inv(o) && !step.Store?
    ensures OutboxRuns.Next(o, step).rows.Keys <= o.rows.Keys
  {
  }

  lemma ReadsKeep(d: Digests, w: World, l: Label)
    requires Inv(d, w) && (l.Check? || l.Sequence? || l.Plan?)
    ensures Inv(d, Next(d, w, l))
  {
  }

  lemma StepKeeps(d: Digests, w: World, l: Label)
    requires CollisionFree(d) && Inv(d, w)
    ensures Inv(d, Next(d, w, l))
  {
    match l
    case Look(p, now) => LookKeeps(d, w, p, now);
    case Commit(b) =>
      if b in w.ready && Admissible(d, w.db, w.outbox.rows, b) {
        CommitKeeps(d, w, b);
      }
    case Deliver(step) =>
      if !step.Store? {
        DeliverKeeps(d, w, step);
      }
    case _ => ReadsKeep(d, w, l);
  }

  lemma {:induction false} RunKeeps(d: Digests, w: World, labels: seq<Label>)
    requires CollisionFree(d) && Inv(d, w)
    ensures Inv(d, Run(d, w, labels))
    decreases |labels|
  {
    if labels != [] {
      StepKeeps(d, w, labels[0]);
      RunKeeps(d, Next(d, w, labels[0]), labels[1..]);
    }
  }

  lemma AnswersStay(d: Digests, w: World, l: Label)
    ensures w.answered <= Next(d, w, l).answered
  {
  }

  lemma {:induction false} RunKeepsAnswers(d: Digests, w: World, labels: seq<Label>)
    ensures w.answered <= Run(d, w, labels).answered
    decreases |labels|
  {
    if labels != [] {
      AnswersStay(d, w, labels[0]);
      RunKeepsAnswers(d, Next(d, w, labels[0]), labels[1..]);
    }
  }

  // Theorems

  lemma {:induction false} HighestExists(keys: set<Key>, producer: string) returns (n: int)
    requires forall k :: k in keys ==> k.1 >= 1
    ensures n >= 0 && IsHighest(keys, producer, n)
    decreases |keys|
  {
    if keys == {} {
      n := 0;
    } else {
      var k :| k in keys;
      n := HighestExists(keys - {k}, producer);
      if k.0 == producer && k.1 > n {
        n := k.1;
      }
    }
  }

  lemma {:induction false} AllBelow(db: Db, producer: string, m: int, j: int)
    requires Contiguous(db) && (producer, m) in db.events && 1 <= j <= m
    ensures (producer, j) in db.events
    decreases m
  {
    if j < m {
      assert (producer, m).0 == producer;
      AllBelow(db, producer, m - 1, j);
    }
  }

  /** In every reachable state the events of a producer are exactly `1..n`, and so are its checkpoints. */
  lemma IngestionIsContiguous(d: Digests, labels: seq<Label>, producer: string) returns (n: int)
    requires CollisionFree(d)
    ensures n >= 0 && forall m :: (producer, m) in Run(d, Start, labels).db.events <==> 1 <= m <= n
    ensures forall m :: (producer, m) in Run(d, Start, labels).db.checkpoints <==> 1 <= m <= n
  {
    RunKeeps(d, Start, labels);
    var db := Run(d, Start, labels).db;
    n := HighestExists(db.checkpoints, producer);
    forall m ensures (producer, m) in db.events <==> 1 <= m <= n {
      if (producer, m) in db.events {
        assert (producer, m) in db.checkpoints;
      }
      if 1 <= m <= n {
        AllBelow(db, producer, n, m);
      }
    }
  }

  /** Once answered, a proposal gets the same answer in every later state, and its repeat changes nothing. */
  lemma IngestionReplays(
    d: Digests, labels: seq<Label>, more: seq<Label>, p: Proposal, response: Response, now: int)
    requires CollisionFree(d) && (p, response) in Run(d, Start, labels).answered
    ensures var w := Run(d, Run(d, Start, labels), more);
      && KeyOf(p) in w.db.events && ReplayOf(d, w.db, p) == Some(Recorded(response))
      && Next(d, w, Look(p, now)) == w
  {
    var before := Run(d, Start, labels);
    RunKeeps(d, Start, labels);
    RunKeeps(d, before, more);
    RunKeepsAnswers(d, before, more);
    AnsweredAgain(d, Run(d, before, more), p, response, now);
  }

  lemma AnsweredAgain(d: Digests, w: World, p: Proposal, response: Response, now: int)
    requires AnswersOk(d, w) && (p, response) in w.answered
    ensures KeyOf(p) in w.db.events && ReplayOf(d, w.db, p) == Some(Recorded(response))
    ensures Next(d, w, Look(p, now)) == w
  {
    assert Answered(d, w.db, (p, response).0, (p, response).1);
    assert w.answered + {(p, response)} == w.answered;
  }

  /** A logical candidate never has two bodies, and exactly the stored candidates have a delivery row. */
  lemma OneBodyPerCandidate(d: Digests, labels: seq<Label>)
    requires CollisionFree(d)
    ensures var w := Run(d, Start, labels);
      && (forall k, j ::
            k in w.db.events && j in w.db.events && w.db.events[k].candidateId == w.db.events[j].candidateId ==>
              w.db.events[k].candidateBody == w.db.events[j].candidateBody)
      && (forall k :: k in w.db.events && w.db.events[k].candidateId in w.db.payloads ==>
            w.db.payloads[w.db.events[k].candidateId] == w.db.events[k].candidateBody)
      && w.outbox.rows.Keys == w.db.payloads.Keys
  {
    RunKeeps(d, Start, labels);
    var w := Run(d, Start, labels);
    forall k | k in w.db.events && w.db.events[k].candidateId in w.db.payloads
      ensures w.db.payloads[w.db.events[k].candidateId] == w.db.events[k].candidateBody
    {
      assert PayloadRecorded(w.db, w.db.events[k].candidateId);
    }
  }

  /** The outbox guarantees hold of what ingestion feeds it. */
  lemma IngestedDeliveriesAreSafe(d: Digests, labels: seq<Label>, id: Outbox.Id)
    requires CollisionFree(d) && id in Run(d, Start, labels).db.payloads
    ensures var o := Run(d, Start, labels).outbox;
      && id in o.rows && OutboxRuns.RowOk(o.rows[id])
      && |OutboxRuns.ClaimsOf(o.issued, id)| == o.rows[id].attempts <= Outbox.MAX_ATTEMPTS
  {
    RunKeeps(d, Start, labels);
    var o := Run(d, Start, labels).outbox;
    assert OutboxRuns.RowIn(o.issued, id, o.rows[id]);
  }

  // One call at a time

  /** The steps of one call, none of them left out. */
  function CallSteps(db: Db, p: Proposal, now: int, emission: bool, dispatch: bool, n: int): seq<Label>
  {
    [Look(p, now), Check(p, now), Sequence(p, now, n), Plan(p, now, emission, dispatch),
     Commit(BatchFor(db, p, now, emission, dispatch))]
  }

  lemma FiveSteps(d: Digests, w: World, a: Label, b: Label, c: Label, e: Label, f: Label)
    ensures Run(d, w, [a, b, c, e, f]) == Next(d, Next(d, Next(d, Next(d, Next(d, w, a), b), c), e), f)
  {
    hide Next;
    var w1 := Next(d, w, a);
    var w2 := Next(d, w1, b);
    var w3 := Next(d, w2, c);
    var w4 := Next(d, w3, e);
    assert [a, b, c, e, f][1..] == [b, c, e, f] && [b, c, e, f][1..] == [c, e, f] && [c, e, f][1..] == [e, f];
    assert [e, f][1..] == [f] && [f][1..] == [];
    assert Run(d, w4, [f]) == Next(d, w4, f);
    assert Run(d, w3, [e, f]) == Next(d, w4, f);
    assert Run(d, w2, [c, e, f]) == Next(d, w4, f);
    assert Run(d, w1, [b, c, e, f]) == Next(d, w4, f);
  }

  /** A proposal that passes the reads is admitted by the tables, if nothing came in between. */
  lemma PlannedIsAdmissible(d: Digests, w: World, p: Proposal, now: int, emission: bool, dispatch: bool, n: int)
    requires CollisionFree(d) && Inv(d, w)
    requires IsHighest(w.db.checkpoints, p.producer, n) && p.sequence == n + 1 && !Conflicts(w.db.events, p)
    ensures Admissible(d, w.db, w.outbox.rows, BatchFor(w.db, p, now, emission, dispatch))
  {
    assert KeyOf(p) !in w.db.checkpoints;
    forall k | k in w.db.events ensures w.db.events[k].id != EventId(d, p) {
      assert IsRecorded(d, w.db, k);
      var q :| Records(d, w.db, k, q);
      assert KeyOf(q) != KeyOf(p);
    }
  }

  /** A call that meets no obstacle in its reads. */
  predicate Passes(db: Db, p: Proposal, now: int, emission: bool, n: int)
  {
    && SafeNat(now) && Safe(ExpiryOf(p)) && KeyOf(p) !in db.events && p.sequence == n + 1 && !Conflicts(db.events, p)
    && (emission && p.candidateId in db.payloads ==> db.payloads[p.candidateId] == p.candidateBody)
  }

  lemma PassingSteps(d: Digests, w: World, p: Proposal, now: int, emission: bool, dispatch: bool, n: int)
    requires Passes(w.db, p, now, emission, n) && IsHighest(w.db.checkpoints, p.producer, n)
    requires Admissible(d, w.db, w.outbox.rows, BatchFor(w.db, p, now, emission, dispatch))
    ensures var w' := Run(d, w, CallSteps(w.db, p, now, emission, dispatch, n));
      var after := CommitStep(d, w, BatchFor(w.db, p, now, emission, dispatch));
      w'.db == after.db && w'.outbox == after.outbox && w'.answered == after.answered
  {
    hide Admissible, Recording, Conflicts, IsHighest;
    var b := BatchFor(w.db, p, now, emission, dispatch);
    FiveSteps(d, w, Look(p, now), Check(p, now), Sequence(p, now, n), Plan(p, now, emission, dispatch), Commit(b));
  }

  lemma StoppedSteps(d: Digests, w: World, p: Proposal, now: int, emission: bool, dispatch: bool, n: int)
    requires w.calls == {} && w.ready == {} && !Passes(w.db, p, now, emission, n)
    requires IsHighest(w.db.checkpoints, p.producer, n)
    ensures var w' := Run(d, w, CallSteps(w.db, p, now, emission, dispatch, n));
      var after := LookStep(d, w, p, now);
      w'.db == w.db && w'.outbox == w.outbox && w'.answered == after.answered
  {
    hide Admissible, Recording, Conflicts, IsHighest;
    var b := BatchFor(w.db, p, now, emission, dispatch);
    FiveSteps(d, w, Look(p, now), Check(p, now), Sequence(p, now, n), Plan(p, now, emission, dispatch), Commit(b));
  }

  /**
   What `Ingest` does in one piece is what the steps of one call do when no other call is
   under way: the same tables, the same deliveries, the same answer. Storage is then never
   reported unavailable.
   */
  lemma UninterruptedIngest(
    d: Digests, w: World, p: Proposal, now: int, emission: bool, dispatch: bool, n: int,
    db': Db, rows': Outbox.Rows, o: Outcome)
    requires CollisionFree(d) && Inv(d, w) && IsHighest(w.db.checkpoints, p.producer, n)
    requires Ingested(d, w.db, w.outbox.rows, p, now, emission, dispatch, n, db', rows', o)
    ensures o != Unavailable
    ensures var alone := w.(calls := {}, ready := {});
      var w' := Run(d, alone, CallSteps(w.db, p, now, emission, dispatch, n));
      && db' == w'.db.(incidents := db'.incidents) && rows' == w'.outbox.rows
      && w'.answered == w.answered + if o.Recorded? then {(p, o.response)} else {}
  {
    hide Inv, Admissible, Conflicts, IsHighest, Run, CollisionFree, EventOf, ResponseOf, ConflictAt;
    var alone := w.(calls := {}, ready := {});
    if Passes(w.db, p, now, emission, n) {
      PlannedIsAdmissible(d, w, p, now, emission, dispatch, n);
      PassingSteps(d, alone, p, now, emission, dispatch, n);
      StoredNew(w, BatchFor(w.db, p, now, emission, dispatch));
    } else {
      StoppedSteps(d, alone, p, now, emission, dispatch, n);
      if KeyOf(p) in w.db.events {
        ReplayIsRecorded(d, w, p);
      }
      assert w.answered + {} == w.answered;
    }
  }

  lemma StoredNew(w: World, b: Batch)
    requires b.store ==> b.proposal.candidateId !in w.outbox.rows
    ensures var store := OutboxRuns.Store(b.proposal.candidateId, b.now, ExpiryOf(b.proposal));
      Delivering(w.outbox.rows, b) == if b.store then OutboxRuns.Next(w.outbox, store).rows else w.outbox.rows
  {
  }

  lemma ReplayIsRecorded(d: Digests, w: World, p: Proposal)
    requires Inv(d, w) && KeyOf(p) in w.db.events
    ensures ReplayOf(d, w.db, p).Some? ==> ReplayOf(d, w.db, p).value.Recorded?
  {
    assert IsRecorded(d, w.db, KeyOf(p));
    var q :| Records(d, w.db, KeyOf(p), q);
  }

  // What a stored candidate looks like

  /** A delivery that was never claimed, due at `now`, waiting while its candidate is live. */
  predicate FreshDelivery(r: Outbox.Delivery, p: Proposal, now: int)
  {
    && r.attempts == 0 && r.owner.None? && r.leaseExpires.None? && r.token.None? && r.acknowledgedAt.None?
    && r.createdAt == now && r.nextAttempt == now && r.expiresAt == p.observedAt + 300
    && (r.status == Outbox.Pending <==> now < p.observedAt + 300)
    && (r.status == Outbox.Expired <==> now >= p.observedAt + 300)
  }

  /** The payload and the delivery of one candidate are added, and nothing else changes. */
  ghost predicate CandidateStored(
    payloads: map<Outbox.Id, nat>, rows: Outbox.Rows, p: Proposal, now: int, payloads': map<Outbox.Id, nat>,
    rows': Outbox.Rows)
  {
    && payloads' == payloads[p.candidateId := p.candidateBody]
    && rows'.Keys == rows.Keys + {p.candidateId} && FreshDelivery(rows'[p.candidateId], p, now)
    && forall id :: id in rows && id != p.candidateId ==> rows'[id] == rows[id]
  }

  /**
   A recorded proposal stores its candidate exactly when emission is on and the candidate
   is new: as a fresh delivery, pending exactly while the candidate is live.
   */
  lemma RecordedCandidate(
    d: Digests, db: Db, rows: Outbox.Rows, p: Proposal, now: int, emission: bool, dispatch: bool, n: int,
    db': Db, rows': Outbox.Rows, o: Outcome)
    requires Ingested(d, db, rows, p, now, emission, dispatch, n, db', rows', o)
    ensures o.Recorded? && KeyOf(p) !in db.events ==>
              if emission && p.candidateId !in db.payloads
              then CandidateStored(db.payloads, rows, p, now, db'.payloads, rows')
              else db'.payloads == db.payloads && rows' == rows
    ensures !o.Recorded? || KeyOf(p) in db.events ==> db'.payloads == db.payloads && rows' == rows
  {
    hide Admissible, Conflicts;
  }

  /** The same of a batch that applies in the middle of other calls. */
  lemma CommittedCandidate(d: Digests, w: World, b: Batch)
    requires Inv(d, w) && b in w.ready && Admissible(d, w.db, w.outbox.rows, b)
    ensures var w' := Next(d, w, Commit(b));
      if b.store
      then CandidateStored(w.db.payloads, w.outbox.rows, b.proposal, b.now, w'.db.payloads, w'.outbox.rows)
      else w'.db.payloads == w.db.payloads && w'.outbox.rows == w.outbox.rows
  {
    hide Conflicts, DbOk, CallsOk, AnswersOk, OutboxRuns.Inv;
  }

  /** A candidate stored while live is served at once, or after deliveries whose turn comes before. */
  lemma StoredCandidateIsServed(
    d: Digests, w: World, b: Batch, owner: string, token: Outbox.Token)
    requires CollisionFree(d) && Inv(d, w) && b in w.ready && Admissible(d, w.db, w.outbox.rows, b)
    requires b.store && b.now < b.proposal.observedAt + 300
    ensures var rows := Next(d, w, Commit(b)).outbox.rows;
      var claim := Outbox.ClaimResult(rows, owner, b.now, token);
      && b.proposal.candidateId in rows && claim.Some? && claim.value.id in rows
      && OutboxRuns.InTurn(claim.value.id, Outbox.Sweep(b.now, rows[claim.value.id]), b.proposal.candidateId,
                           rows[b.proposal.candidateId])
  {
    hide Admissible, Inv;
    CommittedCandidate(d, w, b);
    StepKeeps(d, w, Commit(b));
    var w' := Next(d, w, Commit(b));
    OutboxKept(d, w');
    OutboxRuns.WaitingRowIsServed(w'.outbox, owner, b.now, token, b.proposal.candidateId);
  }

  lemma OutboxKept(d: Digests, w: World)
    requires Inv(d, w)
    ensures OutboxRuns.Inv(w.outbox)
  {
  }

  /** What a recorded proposal answers, and what it adds to events, results and checkpoints. */
  lemma RecordedEvent(
    d: Digests, db: Db, rows: Outbox.Rows, p: Proposal, now: int, emission: bool, dispatch: bool, n: int,
    db': Db, rows': Outbox.Rows, o: Outcome)
    requires Ingested(d, db, rows, p, now, emission, dispatch, n, db', rows', o)
    requires o.Recorded? && KeyOf(p) !in db.events
    ensures p.sequence == n + 1
    ensures var x := o.response;
      && x.producer == p.producer && x.sequence == p.sequence && x.digest == d.proposal(p)
      && x.candidateId == p.candidateId && x.candidateBody == p.candidateBody
      && x.stored == emission && x.dispatched == dispatch
      && x.eventId == d.event(p.producer, p.sequence, d.proposal(p))
      && db'.events == db.events[(p.producer, p.sequence) :=
           Event(x.eventId, x.digest, p.candidateId, p.candidateBody)]
      && db'.results == db.results[x.eventId := x]
      && db'.checkpoints == db.checkpoints + {(p.producer, p.sequence)} && db'.incidents == db.incidents
  {
    hide Admissible, Conflicts;
  }

  // What decides a call

  /** Only this incident is added: kind, the proposal's number and digest, and the number expected. */
  ghost predicate OnlyIncident(
    d: Digests, db: Db, rows: Outbox.Rows, p: Proposal, kind: IncidentKind, n: int, db': Db, rows': Outbox.Rows)
  {
    && rows' == rows && |db'.incidents| == |db.incidents| + 1 && db'.incidents[..|db.incidents|] == db.incidents
    && db' == db.(incidents := db'.incidents)
    && var x := db'.incidents[|db.incidents|];
       && x.kind == kind && x.producer == p.producer && x.sequence == p.sequence && x.expected == n + 1
       && x.digest == d.proposal(p)
  }

  /** Numbers up to the highest checkpoint are taken, and no others. */
  lemma {:induction false} TakenExactly(db: Db, producer: string, n: int, k: int)
    requires Contiguous(db) && IsHighest(db.checkpoints, producer, n) && k <= n
    ensures (producer, k) in db.events <==> 1 <= k <= n
    decreases n - k
  {
    if 1 <= k < n {
      TakenExactly(db, producer, n, k + 1);
    }
  }

  /**
   On reachable tables a call is decided by its number, the proposal recorded under it and
   the bodies recorded for its candidate: recorded, answered as before, or quarantined.
   */
  lemma IngestDecided(
    d: Digests, w: World, p: Proposal, now: int, emission: bool, dispatch: bool, n: int,
    db': Db, rows': Outbox.Rows, o: Outcome)
    requires CollisionFree(d) && Inv(d, w) && IsHighest(w.db.checkpoints, p.producer, n)
    requires Ingested(d, w.db, w.outbox.rows, p, now, emission, dispatch, n, db', rows', o)
    ensures var db, rows := w.db, w.outbox.rows;
      if !(0 <= now <= MAX_SAFE) || !Safe(p.observedAt + 300) then o == Invalid && db' == db && rows' == rows
      else if 1 <= p.sequence <= n then
        if Records(d, db, (p.producer, p.sequence), p) then
          o == Recorded(db.results[EventId(d, p)]) && db' == db && rows' == rows
        else o == Quarantined(BodyConflict) && OnlyIncident(d, db, rows, p, BodyConflict, n, db', rows')
      else if p.sequence > n + 1 then
        o == Quarantined(SequenceGap) && OnlyIncident(d, db, rows, p, SequenceGap, n, db', rows')
      else if p.sequence <= 0 then
        o == Quarantined(OutOfOrder) && OnlyIncident(d, db, rows, p, OutOfOrder, n, db', rows')
      else if exists k :: k in db.events && db.events[k].candidateId == p.candidateId
                          && db.events[k].candidateBody != p.candidateBody then
        o == Quarantined(CandidateConflict) && OnlyIncident(d, db, rows, p, CandidateConflict, n, db', rows')
      else
        o.Recorded? && KeyOf(p) !in db.events && KeyOf(p) in db'.events && db'.incidents == db.incidents
  {
    hide Inv, Admissible, IsHighest, Records, Ingested, OnlyIncident, CollisionFree;
    TablesKept(d, w);
    var db, rows := w.db, w.outbox.rows;
    CheckpointsNatural(db, p.producer, n);
    if !SafeNat(now) || !Safe(ExpiryOf(p)) {
      InvalidCall(d, db, rows, p, now, emission, dispatch, n, db', rows', o);
    } else if 1 <= p.sequence <= n {
      TakenExactly(db, p.producer, n, p.sequence);
      TakenNumber(d, db, rows, p, now, emission, dispatch, n, db', rows', o);
    } else {
      NotTaken(db, p, n);
      if p.sequence == n + 1 {
        NextNumber(d, w, p, now, emission, dispatch, n, db', rows', o);
      } else {
        WrongNumber(d, db, rows, p, now, emission, dispatch, n, db', rows', o);
      }
    }
  }

  lemma TablesKept(d: Digests, w: World)
    requires Inv(d, w)
    ensures DbOk(d, w.db)
  {
  }

  lemma QuarantineMeans(
    d: Digests, db: Db, rows: Outbox.Rows, p: Proposal, kind: IncidentKind, n: int, existing: Option<nat>,
    db': Db, rows': Outbox.Rows, o: Outcome)
    requires Quarantines(db, rows, IncidentOf(d, p, kind, n, existing), db', rows', o)
    ensures o == Quarantined(kind) && OnlyIncident(d, db, rows, p, kind, n, db', rows')
  {
  }

  lemma InvalidCall(
    d: Digests, db: Db, rows: Outbox.Rows, p: Proposal, now: int, emission: bool, dispatch: bool, n: int,
    db': Db, rows': Outbox.Rows, o: Outcome)
    requires Ingested(d, db, rows, p, now, emission, dispatch, n, db', rows', o)
    requires !SafeNat(now) || !Safe(ExpiryOf(p))
    ensures o == Invalid && db' == db && rows' == rows
  {
    hide Admissible, Conflicts, Quarantines;
  }

  lemma TakenNumber(
    d: Digests, db: Db, rows: Outbox.Rows, p: Proposal, now: int, emission: bool, dispatch: bool, n: int,
    db': Db, rows': Outbox.Rows, o: Outcome)
    requires CollisionFree(d) && DbOk(d, db) && KeyOf(p) in db.events && SafeNat(now) && Safe(ExpiryOf(p))
    requires Ingested(d, db, rows, p, now, emission, dispatch, n, db', rows', o)
    ensures if Records(d, db, KeyOf(p), p) then
              && EventId(d, p) in db.results && o == Recorded(db.results[EventId(d, p)])
              && db' == db && rows' == rows
            else o == Quarantined(BodyConflict) && OnlyIncident(d, db, rows, p, BodyConflict, n, db', rows')
  {
    hide Admissible, Conflicts, Quarantines, OnlyIncident, Records, CollisionFree;
    RecordedBefore(d, db, p);
    if db.events[KeyOf(p)].digest != d.proposal(p) {
      QuarantineMeans(d, db, rows, p, BodyConflict, n, Some(db.events[KeyOf(p)].digest), db', rows', o);
    }
  }

  lemma WrongNumber(
    d: Digests, db: Db, rows: Outbox.Rows, p: Proposal, now: int, emission: bool, dispatch: bool, n: int,
    db': Db, rows': Outbox.Rows, o: Outcome)
    requires KeyOf(p) !in db.events && SafeNat(now) && Safe(ExpiryOf(p)) && p.sequence != n + 1
    requires Ingested(d, db, rows, p, now, emission, dispatch, n, db', rows', o)
    ensures var kind := if p.sequence > n + 1 then SequenceGap else OutOfOrder;
      o == Quarantined(kind) && OnlyIncident(d, db, rows, p, kind, n, db', rows')
  {
    hide Admissible, Conflicts, Quarantines, OnlyIncident;
    QuarantineMeans(
      d, db, rows, p, if p.sequence > n + 1 then SequenceGap else OutOfOrder, n, None, db', rows', o);
  }

  lemma NextNumber(
    d: Digests, w: World, p: Proposal, now: int, emission: bool, dispatch: bool, n: int,
    db': Db, rows': Outbox.Rows, o: Outcome)
    requires CollisionFree(d) && Inv(d, w) && IsHighest(w.db.checkpoints, p.producer, n)
    requires KeyOf(p) !in w.db.events && SafeNat(now) && Safe(ExpiryOf(p)) && p.sequence == n + 1
    requires Ingested(d, w.db, w.outbox.rows, p, now, emission, dispatch, n, db', rows', o)
    ensures var db, rows := w.db, w.outbox.rows;
      if exists k :: k in db.events && ConflictAt(db.events, p, k) then
        o == Quarantined(CandidateConflict) && OnlyIncident(d, db, rows, p, CandidateConflict, n, db', rows')
      else o.Recorded? && KeyOf(p) in db'.events && db'.incidents == db.incidents
  {
    hide Admissible, Quarantines, OnlyIncident, Inv, IsHighest, CollisionFree;
    var db, rows := w.db, w.outbox.rows;
    if Conflicts(db.events, p) {
      var k :| ConflictAt(db.events, p, k)
        && var x := IncidentOf(d, p, CandidateConflict, n, Some(db.events[k].candidateBody));
           Quarantines(db, rows, x, db', rows', o);
      QuarantineMeans(d, db, rows, p, CandidateConflict, n, Some(db.events[k].candidateBody), db', rows', o);
    } else {
      TablesKept(d, w);
      PlannedIsAdmissible(d, w, p, now, emission, dispatch, n);
      if p.candidateId in db.payloads {
        PayloadAgrees(db, p);
      }
    }
  }

  lemma CheckpointsNatural(db: Db, producer: string, n: int)
    requires Contiguous(db) && IsHighest(db.checkpoints, producer, n)
    ensures n >= 0
  {
  }

  lemma NotTaken(db: Db, p: Proposal, n: int)
    requires Contiguous(db) && IsHighest(db.checkpoints, p.producer, n) && !(1 <= p.sequence <= n)
    ensures KeyOf(p) !in db.events
  {
  }

  /** The proposal recorded under a number is recognised by its digest. */
  lemma RecordedBefore(d: Digests, db: Db, p: Proposal)
    requires CollisionFree(d) && EventsGenuine(d, db) && KeyOf(p) in db.events
    ensures db.events[KeyOf(p)].digest == d.proposal(p) <==> Records(d, db, KeyOf(p), p)
    ensures Records(d, db, KeyOf(p), p) ==> db.events[KeyOf(p)].id == EventId(d, p) && EventId(d, p) in db.results
  {
    assert IsRecorded(d, db, KeyOf(p));
    var q :| Records(d, db, KeyOf(p), q);
  }

  lemma PayloadAgrees(db: Db, p: Proposal)
    requires OneBody(db) && !Conflicts(db.events, p) && p.candidateId in db.payloads
    ensures db.payloads[p.candidateId] == p.candidateBody
  {
    var k :| k in db.events && db.events[k].candidateId == p.candidateId
             && db.events[k].candidateBody == db.payloads[p.candidateId];
    assert !ConflictAt(db.events, p, k);
  }
}
