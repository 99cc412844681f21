/**
 Evaluation of one version 3 bundle: validate, match, arbitrate, and re-check the
 result with the independently written validator (`evaluateEntryV3Bundle`).
 */
module EntryEvaluatorV3 {
  import opened Common
  import opened EntryTerms
  import opened EntryDomainV3
  import opened EntryMatcherV3
  import opened EntryArbitratorV3
  import opened Sorting
  import opened Indexing

  function RequestOf(input: ArbitrationInput): MatchRequest
  {
    MatchRequest(SetupOf(input), input.bocProof, input.directionalClose, input.confirmedBar,
                 input.closeTriggerSequence, input.flipProof, input.observedAt)
  }

  /** The input that re-creates the selection of an already opened setup. */
  function SeededInput(input: ArbitrationInput, seed: Seed): ArbitrationInput
  {
    input.(commonFidelity := Exact, setupInvalidated := false, bocProof := None,
           directionalClose := true, confirmedBar := Some(seed.confirmedBar),
           closeTriggerSequence := seed.triggerSequence, flipProof := None,
           observedAt := seed.evaluatedAt, revision := seed.revision,
           evaluatedAt := seed.evaluatedAt, openedSeed := None)
  }

  function Effective(input: ArbitrationInput): ArbitrationInput
  {
    if input.openedSeed.Some? then SeededInput(input, input.openedSeed.value) else input
  }

  /**
   What the input validator does not ask for and the result validator does: a
   confirmed bar has closed by the time of observation, and a flip proof carries
   both of its candles.
   */
  predicate Settled(input: ArbitrationInput)
  {
    && (input.confirmedBar.Some? ==> input.confirmedBar.value.closeEpoch <= input.observedAt)
    && (input.flipProof.Some? ==> input.flipProof.value.contact.Some? && input.flipProof.value.recross.Some?)
  }

  // ---------------------------------------------------------------- selections are well formed

  lemma ChosenIsValid(cs: set<Candidate>, ps: set<EligiblePair>, s: Selection)
    requires Chooses(cs, ps, s)
    requires forall p :: p in ps ==>
               ValidDigest(p.candidate.id) && ValidDigest(p.evidence.id) && p.evidence.body.fidelity == Exact
    requires ValidDigest(s.id) && s.key.setupId != "" && SafeNat(s.key.revision) && SafeNat(s.evaluatedAt)
    requires IdsAscend(s.key.considered)
    ensures ValidSelection(s)
  {
    if SeveralTied(ps) && PricesAgree(ps) {
      var p :| Canonical(ps, p) && Picks(s, p, CoTriggerSameEvent);
      SeveralListed(ps, s.key.coTriggered);
    } else if !SeveralTied(ps) {
      var p :| Canonical(ps, p) && Picks(s, p, LoneReason(cs, ps, p.candidate));
    }
  }

  lemma SeveralListed(ps: set<EligiblePair>, models: seq<Model>)
    requires SeveralTied(ps) && ListsTied(models, ps)
    ensures |models| > 1
  {
    var m, m' :| Tied(ps, m) && Tied(ps, m') && m != m';
    assert m in models && m' in models;
  }

  lemma PickedPair(cs: set<Candidate>, ps: set<EligiblePair>, s: Selection) returns (p: EligiblePair)
    requires Chooses(cs, ps, s) && s.key.candidate.Some?
    ensures Canonical(ps, p) && Picks(s, p, s.key.reason)
    ensures s.key.reason == CoTriggerSameEvent ==> PricesAgree(ps)
    ensures s.key.reason != CoTriggerSameEvent ==> !SeveralTied(ps)
  {
    if SeveralTied(ps) {
      p :| Canonical(ps, p) && Picks(s, p, CoTriggerSameEvent);
    } else {
      p :| Canonical(ps, p) && Picks(s, p, LoneReason(cs, ps, p.candidate));
    }
  }

  lemma EligibleFacts(cs: set<Candidate>, es: set<Evidence>)
    ensures forall p :: p in EligiblePairs(cs, es) ==>
              p.candidate in cs && p.evidence in es && p.evidence.body.candidateId == p.candidate.id
              && ExactEligible(p.candidate, p.evidence)
  {
  }

  lemma SelectionIsValid(
    d: Digests, setupId: string, cs: set<Candidate>, es: set<Evidence>, invalidated: bool,
    revision: int, evaluatedAt: int, cohort: Cohort, s: Selection)
    requires CollisionFree(d) && setupId != "" && SafeNat(revision) && SafeNat(evaluatedAt)
    requires forall c :: c in cs ==> ValidDigest(c.id)
    requires forall e :: e in es ==> ValidDigest(e.id)
    requires Decides(d, setupId, cs, es, invalidated, revision, evaluatedAt, cohort, s)
    ensures ValidSelection(s)
  {
    var ps := EligiblePairs(cs, es);
    EligibleFacts(cs, es);
    if !invalidated && cs != {} && ps != {} && cohort != OneCandle {
      ChosenIsValid(cs, ps, s);
    }
  }

  lemma SelectionGraph(
    d: Digests, setupId: string, cs: set<Candidate>, es: set<Evidence>, invalidated: bool,
    revision: int, evaluatedAt: int, cohort: Cohort, s: Selection) returns (c: Candidate, e: Evidence)
    requires Decides(d, setupId, cs, es, invalidated, revision, evaluatedAt, cohort, s)
    requires s.key.candidate.Some?
    ensures c in cs && e in es && c.id == s.key.candidate.value && Some(e.id) == s.key.evidence
    ensures ValidCanonical(s, c, e)
  {
    var ps := EligiblePairs(cs, es);
    EligibleFacts(cs, es);
    var p := PickedPair(cs, ps, s);
    c, e := p.candidate, p.evidence;
  }

  // ---------------------------------------------------------------- the matcher's lists

  /** Different models give different candidates, hence different candidate and evidence ids. */
  lemma MatchesDistinct(d: Digests, r: MatchRequest)
    requires CollisionFree(d) && GoodRequest(r)
    ensures var ms := Matches(d, r);
      forall i, j :: 0 <= i < j < |ms| ==>
        ms[i].candidate.id != ms[j].candidate.id && ms[i].evidence.id != ms[j].evidence.id
  {
    var ms := Matches(d, r);
    forall i, j | 0 <= i < j < |ms|
      ensures ms[i].candidate.id != ms[j].candidate.id && ms[i].evidence.id != ms[j].evidence.id
    {
      assert ms[i].candidate.key.model != ms[j].candidate.key.model;
      assert ms[i].candidate.id == d.candidate(ms[i].candidate.key);
      assert ms[j].candidate.id == d.candidate(ms[j].candidate.key);
      var x := EvidenceKeyOf(ms[i].evidence.body, ms[i].evidence.payloadDigest);
      var y := EvidenceKeyOf(ms[j].evidence.body, ms[j].evidence.payloadDigest);
      assert ms[i].evidence.id == d.evidence(x) && ms[j].evidence.id == d.evidence(y);
      assert x.candidateId != y.candidateId;
    }
  }

  lemma SortedCandidates(ms: seq<Match>)
    requires forall i, j :: 0 <= i < j < |ms| ==> ms[i].candidate.id != ms[j].candidate.id
    ensures var cs := Sort(CandidatesOf(ms), CandidateBefore);
      && IdsAscend(CandidateIds(cs))
      && (forall c :: c in cs <==> exists m :: m in ms && m.candidate == c)
  {
    var cs := Sort(CandidatesOf(ms), CandidateBefore);
    SortKeeps(CandidatesOf(ms), CandidateBefore);
    SortSorts(CandidatesOf(ms), CandidateBefore);
    forall c | c in cs ensures exists m :: m in ms && m.candidate == c {
      var i :| 0 <= i < |ms| && CandidatesOf(ms)[i] == c;
      assert ms[i] in ms;
    }
    forall m | m in ms ensures m.candidate in cs {
      var i :| 0 <= i < |ms| && ms[i] == m;
      assert CandidatesOf(ms)[i] == m.candidate;
    }
  }

  lemma SortedEvidence(ms: seq<Match>)
    requires forall i, j :: 0 <= i < j < |ms| ==> ms[i].evidence.id != ms[j].evidence.id
    ensures var es := Sort(EvidenceOf(ms), EvidenceIdBefore);
      && IdsAscend(EvidenceIds(es))
      && (forall e :: e in es <==> exists m :: m in ms && m.evidence == e)
  {
    var es := Sort(EvidenceOf(ms), EvidenceIdBefore);
    SortKeeps(EvidenceOf(ms), EvidenceIdBefore);
    SortSorts(EvidenceOf(ms), EvidenceIdBefore);
    forall e | e in es ensures exists m :: m in ms && m.evidence == e {
      var i :| 0 <= i < |ms| && EvidenceOf(ms)[i] == e;
      assert ms[i] in ms;
    }
    forall m | m in ms ensures m.evidence in es {
      var i :| 0 <= i < |ms| && ms[i] == m;
      assert EvidenceOf(ms)[i] == m.evidence;
    }
  }

  /** A matched pair that passes the record and graph checks, its evidence record aside. */
  ghost predicate GoodPair(input: ArbitrationInput, m: Match)
  {
    && ValidCandidate(m.candidate) && ValidLink(m.candidate, m.evidence)
    && m.candidate.claims == ExpectedClaims(m.candidate.key)
    && m.candidate.id == m.evidence.body.candidateId
    && m.candidate.key.setupId == input.setupId
    && m.candidate.observedAt == m.evidence.observedAt == input.observedAt
    && ValidDigest(m.evidence.id)
  }

  /** Every pair the matcher produces passes the checks, and its evidence does as far as `Settled` goes. */
  lemma MatchesMeetChecker(d: Digests, input: ArbitrationInput)
    requires CollisionFree(d) && GoodRequest(RequestOf(input))
    ensures forall m :: m in Matches(d, RequestOf(input)) ==> GoodPair(input, m)
    ensures Settled(input) <==> forall m :: m in Matches(d, RequestOf(input)) ==> ValidEvidence(m.evidence)
  {
    var r := RequestOf(input);
    var ms := Matches(d, r);
    if r.bocProof.Some? {
      BocMeetsChecker(d, r);
    }
    if r.confirmedBar.Some? {
      CloseMeetsChecker(d, r);
      assert MatchClose(d, r, r.confirmedBar.value) in ms;
    }
    if r.flipProof.Some? {
      FlipMeetsChecker(d, r);
      assert MatchFlip(d, r, r.flipProof.value) in ms;
    }
  }

  /** `cs` and `es` are the candidates and the evidence of `ms`, each sorted by id. */
  ghost predicate Lists(ms: seq<Match>, cs: seq<Candidate>, es: seq<Evidence>)
  {
    && IdsAscend(CandidateIds(cs)) && IdsAscend(EvidenceIds(es))
    && (forall c :: c in cs <==> exists m :: m in ms && m.candidate == c)
    && (forall e :: e in es <==> exists m :: m in ms && m.evidence == e)
  }

  lemma MatchLists(d: Digests, r: MatchRequest)
    requires CollisionFree(d) && GoodRequest(r)
    ensures MatchEntry(d, r).Ok?
    ensures Lists(Matches(d, r), MatchEntry(d, r).value.candidates, MatchEntry(d, r).value.evidence)
  {
    var ms := Matches(d, r);
    MatchesDistinct(d, r);
    SortedCandidates(ms);
    SortedEvidence(ms);
  }

  /** The arbitrator never refuses what the matcher produced. */
  lemma ListsRecordsOk(input: ArbitrationInput, ms: seq<Match>, cs: seq<Candidate>, es: seq<Evidence>)
    requires Lists(ms, cs, es) && forall m :: m in ms ==> GoodPair(input, m)
    ensures RecordsOk(input.setupId, Elements(cs), Elements(es))
    ensures forall c :: c in cs ==> c.observedAt == input.observedAt
    ensures forall e :: e in es ==> e.observedAt == input.observedAt
  {
    AscendingIdsConsistent(cs);
    AscendingEvidenceConsistent(es);
    forall e | e in Elements(es) ensures exists c :: c in Elements(cs) && c.id == e.body.candidateId {
      var m :| m in ms && m.evidence == e;
      assert m.candidate in Elements(cs);
    }
  }

  lemma AscendingIdsConsistent(cs: seq<Candidate>)
    requires IdsAscend(CandidateIds(cs))
    ensures Consistent(Elements(cs), CandidateId)
  {
    forall x, y | x in Elements(cs) && y in Elements(cs) && CandidateId(x) == CandidateId(y) ensures x == y {
      var i :| 0 <= i < |cs| && cs[i] == x;
      var j :| 0 <= j < |cs| && cs[j] == y;
      assert CandidateIds(cs)[i] == CandidateIds(cs)[j];
    }
  }

  lemma AscendingEvidenceConsistent(es: seq<Evidence>)
    requires IdsAscend(EvidenceIds(es))
    ensures Consistent(Elements(es), EvidenceId)
  {
    forall x, y | x in Elements(es) && y in Elements(es) && EvidenceId(x) == EvidenceId(y) ensures x == y {
      var i :| 0 <= i < |es| && es[i] == x;
      var j :| 0 <= j < |es| && es[j] == y;
      assert EvidenceIds(es)[i] == EvidenceIds(es)[j];
    }
  }

  lemma ConsideredAreListed(cs: seq<Candidate>, considered: seq<Id>)
    requires IdsAscend(CandidateIds(cs)) && ListsIds(considered, Elements(cs))
    ensures considered == CandidateIds(cs)
  {
    var ids := CandidateIds(cs);
    forall id ensures id in considered <==> id in ids {
      if id in considered {
        var c :| c in Elements(cs) && c.id == id;
        var i :| 0 <= i < |cs| && cs[i] == c;
        assert ids[i] == id;
      }
      if id in ids {
        var i :| 0 <= i < |ids| && ids[i] == id;
        assert cs[i] in Elements(cs) && cs[i].id == id;
      }
    }
    AscendingListsEqual(considered, ids);
  }

  /** Everything `validateEntryEvaluationV3` asks of the records and their links. */
  lemma RecordsMeetChecker(input: ArbitrationInput, ms: seq<Match>, cs: seq<Candidate>, es: seq<Evidence>)
    requires Lists(ms, cs, es) && forall m :: m in ms ==> GoodPair(input, m)
    ensures forall c :: c in cs ==> ValidCandidate(c) && c.claims == ExpectedClaims(c.key)
    ensures forall e :: e in es ==> exists c :: c in cs && c.id == e.body.candidateId && ValidLink(c, e)
    ensures (forall e :: e in es ==> ValidEvidence(e)) <==> (forall m :: m in ms ==> ValidEvidence(m.evidence))
  {
    forall e | e in es ensures exists c :: c in cs && c.id == e.body.candidateId && ValidLink(c, e) {
      var m :| m in ms && m.evidence == e;
      assert GoodPair(input, m) && m.candidate in cs;
    }
  }

  /** Once every evidence record is valid, the whole evaluation is. */
  lemma CheckerAccepts(
    d: Digests, input: ArbitrationInput, ms: seq<Match>, cs: seq<Candidate>, es: seq<Evidence>, s: Selection)
    requires CollisionFree(d) && Lists(ms, cs, es) && forall m :: m in ms ==> GoodPair(input, m)
    requires forall e :: e in es ==> ValidEvidence(e)
    requires input.setupId != "" && SafeNat(input.revision) && SafeNat(input.evaluatedAt)
    requires input.observedAt <= input.evaluatedAt
    requires Decides(d, input.setupId, Elements(cs), Elements(es), input.setupInvalidated,
                     input.revision, input.evaluatedAt, CohortOf(input), s)
    ensures ValidEvaluation(Evaluation(cs, es, s))
  {
    RecordsMeetChecker(input, ms, cs, es);
    ListsRecordsOk(input, ms, cs, es);
    ConsideredAreListed(cs, s.key.considered);
    SelectionIsValid(d, input.setupId, Elements(cs), Elements(es), input.setupInvalidated,
                     input.revision, input.evaluatedAt, CohortOf(input), s);
    if s.key.candidate.Some? {
      var c, e := SelectionGraph(d, input.setupId, Elements(cs), Elements(es), input.setupInvalidated,
                                 input.revision, input.evaluatedAt, CohortOf(input), s);
      assert c in cs && e in es;
    }
  }

  /**
   The producer meets the checker exactly on settled inputs: whatever the matcher
   lists and the arbitrator then selects passes `validateEntryEvaluationV3` if and
   only if `Settled` holds.
   */
  lemma ProducerMeetsChecker(
    d: Digests, input: ArbitrationInput, cs: seq<Candidate>, es: seq<Evidence>, s: Selection)
    requires CollisionFree(d) && GoodRequest(RequestOf(input))
    requires Lists(Matches(d, RequestOf(input)), cs, es)
    requires input.observedAt <= input.evaluatedAt && SafeNat(input.revision) && SafeNat(input.evaluatedAt)
    requires Decides(d, input.setupId, Elements(cs), Elements(es), input.setupInvalidated,
                     input.revision, input.evaluatedAt, CohortOf(input), s)
    ensures ValidEvaluation(Evaluation(cs, es, s)) <==> Settled(input)
  {
    var ms := Matches(d, RequestOf(input));
    MatchesMeetChecker(d, input);
    RecordsMeetChecker(input, ms, cs, es);
    if Settled(input) {
      CheckerAccepts(d, input, ms, cs, es, s);
    }
  }

  // ---------------------------------------------------------------- the bundle evaluator

  lemma EffectiveIsGood(input: ArbitrationInput)
    requires ValidInput(input)
    ensures GoodRequest(RequestOf(Effective(input)))
    ensures var i := Effective(input);
      && i.observedAt <= i.evaluatedAt && SafeNat(i.revision) && SafeNat(i.evaluatedAt)
  {
  }

  /** `evaluateEntryV3Bundle`: a result exactly for valid, settled inputs, and then the decided one. */
  method EvaluateBundle(d: Digests, input: ArbitrationInput) returns (r: Result<Evaluation, ()>)
    requires CollisionFree(d)
    ensures r.Ok? <==> ValidInput(input) && Settled(Effective(input))
    ensures r.Ok? ==> ValidEvaluation(r.value)
    ensures r.Ok? ==> var i := Effective(input);
      && GoodRequest(RequestOf(i))
      && Lists(Matches(d, RequestOf(i)), r.value.candidates, r.value.evidence)
      && Decides(d, i.setupId, Elements(r.value.candidates), Elements(r.value.evidence),
                 i.setupInvalidated, i.revision, i.evaluatedAt, CohortOf(i), r.value.selection)
  {
    hide ValidInput, ValidEvaluation, GoodRequest, Decides, Settled, Lists, Matches;
    if !ValidInput(input) {
      return Err(());
    }
    EffectiveIsGood(input);
    r := EvaluateWithoutSeed(d, Effective(input));
  }

  lemma MatchesAreArbitrable(d: Digests, i: ArbitrationInput, cs: seq<Candidate>, es: seq<Evidence>)
    requires CollisionFree(d) && GoodRequest(RequestOf(i)) && Lists(Matches(d, RequestOf(i)), cs, es)
    requires i.observedAt <= i.evaluatedAt && SafeNat(i.revision) && SafeNat(i.evaluatedAt)
    ensures RequestOk(i.setupId, cs, es, i.revision, i.evaluatedAt)
    ensures RecordsOk(i.setupId, Elements(cs), Elements(es))
  {
    hide Lists, Matches, RecordsOk, GoodPair;
    MatchesMeetChecker(d, i);
    ListsRecordsOk(i, Matches(d, RequestOf(i)), cs, es);
  }

  /** `evaluateWithoutOpenedSeed`: match, arbitrate, validate. */
  method EvaluateWithoutSeed(d: Digests, i: ArbitrationInput) returns (r: Result<Evaluation, ()>)
    requires CollisionFree(d) && GoodRequest(RequestOf(i))
    requires i.observedAt <= i.evaluatedAt && SafeNat(i.revision) && SafeNat(i.evaluatedAt)
    ensures r.Ok? <==> Settled(i)
    ensures r.Ok? ==> ValidEvaluation(r.value)
    ensures r.Ok? ==>
      && Lists(Matches(d, RequestOf(i)), r.value.candidates, r.value.evidence)
      && Decides(d, i.setupId, Elements(r.value.candidates), Elements(r.value.evidence),
                 i.setupInvalidated, i.revision, i.evaluatedAt, CohortOf(i), r.value.selection)
  {
    hide ValidEvaluation, Decides, Settled, Lists, GoodRequest, RecordsOk, RequestOk;
    MatchLists(d, RequestOf(i));
    var matched := MatchEntry(d, RequestOf(i)).value;
    MatchesAreArbitrable(d, i, matched.candidates, matched.evidence);
    var selection := Arbitrate(d, i.setupId, matched.candidates, matched.evidence, i.setupInvalidated,
                               i.revision, i.evaluatedAt, None, CohortOf(i));
    ProducerMeetsChecker(d, i, matched.candidates, matched.evidence, selection.value);
    var result := Evaluation(matched.candidates, matched.evidence, selection.value);
    if !ValidEvaluation(result) {
      return Err(());
    }
    return Ok(result);
  }

  // ---------------------------------------------------------------- consequences

  /** A selection points at the least event of all exact-eligible pairs, and tied models agree on its price. */
  lemma SelectionMinimal(
    d: Digests, setupId: string, cs: set<Candidate>, es: set<Evidence>, invalidated: bool,
    revision: int, evaluatedAt: int, cohort: Cohort, s: Selection) returns (chosen: EligiblePair)
    requires Decides(d, setupId, cs, es, invalidated, revision, evaluatedAt, cohort, s)
    requires s.key.candidate.Some?
    ensures s.key.candidate == Some(chosen.candidate.id) && s.key.evidence == Some(chosen.evidence.id)
    ensures chosen in EligiblePairs(cs, es)
    ensures forall c, e :: c in cs && e in es && e.body.candidateId == c.id && ExactEligible(c, e) ==>
              !EventBefore(e, chosen.evidence)
    ensures forall p ::
              Representative(EligiblePairs(cs, es), p) && p.candidate.key.model != chosen.candidate.key.model ==>
                p.evidence.body.triggerTicks == chosen.evidence.body.triggerTicks
  {
    var ps := EligiblePairs(cs, es);
    chosen := PickedPair(cs, ps, s);
    forall c, e | c in cs && e in es && e.body.candidateId == c.id && ExactEligible(c, e)
      ensures !EventBefore(e, chosen.evidence)
    {
      assert Pair(c, e) in ps;
    }
    forall p | Representative(ps, p) && p.candidate.key.model != chosen.candidate.key.model
      ensures p.evidence.body.triggerTicks == chosen.evidence.body.triggerTicks
    {
      assert Tied(ps, p.candidate.key.model) && Tied(ps, chosen.candidate.key.model);
    }
  }

  /** Permuting or repeating candidates and evidence changes nothing. */
  lemma ArbitrationIgnoresOrder(
    d: Digests, setupId: string, cs: seq<Candidate>, es: seq<Evidence>, cs': seq<Candidate>, es': seq<Evidence>,
    invalidated: bool, revision: int, evaluatedAt: int, cohort: Cohort, s: Selection, t: Selection)
    requires Elements(cs) == Elements(cs') && Elements(es) == Elements(es')
    requires RecordsOk(setupId, Elements(cs), Elements(es))
    requires Decides(d, setupId, Elements(cs), Elements(es), invalidated, revision, evaluatedAt, cohort, s)
    requires Decides(d, setupId, Elements(cs'), Elements(es'), invalidated, revision, evaluatedAt, cohort, t)
    ensures s == t
    ensures RequestOk(setupId, cs, es, revision, evaluatedAt) == RequestOk(setupId, cs', es', revision, evaluatedAt)
  {
    DecisionUnique(d, setupId, Elements(cs), Elements(es), invalidated, revision, evaluatedAt, cohort, s, t);
    assert forall c :: c in cs <==> c in Elements(cs');
    assert forall e :: e in es <==> e in Elements(es');
  }

  /** A matched and exact pair is eligible unless a flip or break rests on a confirmed bar alone. */
  lemma EligibleExactly(d: Digests, r: MatchRequest, m: Match)
    requires CollisionFree(d) && GoodRequest(r) && m in Matches(d, r)
    requires m.candidate.state == Matched && m.evidence.body.fidelity == Exact
    ensures ExactEligible(m.candidate, m.evidence) <==>
              m.candidate.key.model == DirClose || m.evidence.body.plane != Confirmed5m
  {
    if r.bocProof.Some? && m == MatchBoc(d, r, r.bocProof.value) {
      BocEligibleExactly(d, r, r.bocProof.value);
    } else if r.directionalClose && m == MatchClose(d, r, r.confirmedBar.value) {
      CloseEligibleExactly(d, r, r.confirmedBar.value);
    } else {
      FlipEligibleExactly(d, r, r.flipProof.value);
    }
  }

  lemma BocEligibleExactly(d: Digests, r: MatchRequest, proof: BocProof)
    requires CollisionFree(d) && GoodRequest(r) && r.bocProof == Some(proof)
    ensures var m := MatchBoc(d, r, proof);
      m.candidate.state == Matched && m.evidence.body.fidelity == Exact ==>
        (ExactEligible(m.candidate, m.evidence) <==> m.evidence.body.plane != Confirmed5m)
  {
    TriggerOpenOfProof(proof, r.observedAt);
  }

  lemma CloseEligibleExactly(d: Digests, r: MatchRequest, bar: Candle)
    requires CollisionFree(d) && GoodRequest(r) && r.directionalClose && r.confirmedBar == Some(bar)
    ensures var m := MatchClose(d, r, bar);
      m.candidate.state == Matched && m.evidence.body.fidelity == Exact ==> ExactEligible(m.candidate, m.evidence)
  {
  }

  lemma FlipEligibleExactly(d: Digests, r: MatchRequest, proof: FlipProof)
    requires CollisionFree(d) && GoodRequest(r) && r.flipProof == Some(proof)
    ensures var m := MatchFlip(d, r, proof);
      m.candidate.state == Matched && m.evidence.body.fidelity == Exact ==>
        (ExactEligible(m.candidate, m.evidence) <==> m.evidence.body.plane != Confirmed5m)
  {
  }

  /** A one-candle bundle yields no eligible pair. */
  lemma OneCandleNeverEligible(d: Digests, r: MatchRequest, cs: seq<Candidate>, es: seq<Evidence>)
    requires CollisionFree(d) && GoodRequest(r) && Lists(Matches(d, r), cs, es)
    requires r.setup.cohort == OneCandle
    ensures EligiblePairs(Elements(cs), Elements(es)) == {}
  {
    forall c | c in Elements(cs) ensures c.state != Matched {
      var m :| m in Matches(d, r) && m.candidate == c;
      OneCandleNeverMatches(d, r, m);
    }
  }

  lemma OneCandleNeverMatches(d: Digests, r: MatchRequest, m: Match)
    requires GoodRequest(r) && m in Matches(d, r) && r.setup.cohort == OneCandle
    ensures m.candidate.state != Matched
  {
  }

  /** Hence the arbitrator's cohort branch never decides: the other cohort would select the same. */
  lemma CohortNeverDecides(
    d: Digests, r: MatchRequest, cs: seq<Candidate>, es: seq<Evidence>,
    invalidated: bool, revision: int, evaluatedAt: int, s: Selection)
    requires CollisionFree(d) && GoodRequest(r) && Lists(Matches(d, r), cs, es)
    ensures var id := r.setup.setupId;
      Decides(d, id, Elements(cs), Elements(es), invalidated, revision, evaluatedAt, r.setup.cohort, s)
      <==> Decides(d, id, Elements(cs), Elements(es), invalidated, revision, evaluatedAt, TwoPlusCandles, s)
  {
    if r.setup.cohort == OneCandle {
      OneCandleNeverEligible(d, r, cs, es);
    }
  }

  /** The input validator alone does not suffice: a bar observed before it closed gets past it. */
  lemma UnsettledExample() returns (input: ArbitrationInput)
    ensures ValidInput(input) && input.openedSeed.None? && !Settled(input)
  {
    input := ArbitrationInput(
      "setup", Long, 2, 1, Some(0), Exact, None, false, None,
      true, Some(Candle(0, 300, 1, 4, 1, 3)), 0, None, 299, 0, 299, None);
  }
}
