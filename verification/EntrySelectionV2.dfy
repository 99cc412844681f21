/**
 Which entry a version 2 stream selects, stated on its candidates and evidence alone.
 */
module EntrySelectionV2 {
  import opened Common
  import opened EntryTerms
  import opened EntryDomainV2
  import opened EntryArbitratorV2
  import opened EntryStreamV2
  import opened EntryStreamRunsV2
  import opened EntryStreamTheoremsV2
  import opened Sorting

  /** Exact-eligible evidence of an active candidate. */
  ghost predicate ExactTrigger(cs: seq<Candidate>, es: seq<Evidence>, p: ExactPair)
  {
    && p.candidate in cs && IsActive(p.candidate)
    && p.evidence in es && p.evidence.body.candidateId == p.candidate.id && ExactEligible(p.evidence)
  }

  /** No exact-eligible evidence triggered earlier. */
  ghost predicate First(cs: seq<Candidate>, es: seq<Evidence>, p: ExactPair)
  {
    && ExactTrigger(cs, es, p)
    && forall q :: ExactTrigger(cs, es, q) ==> Trigger(p.evidence) <= Trigger(q.evidence)
  }

  ghost predicate Leads(cs: seq<Candidate>, es: seq<Evidence>, m: Model)
  {
    exists p :: First(cs, es, p) && p.candidate.key.model == m
  }

  /** Exactly one model attains the earliest exact trigger. */
  ghost predicate OneLeader(cs: seq<Candidate>, es: seq<Evidence>)
  {
    exists m :: Leads(cs, es, m) && forall m' :: Leads(cs, es, m') ==> m' == m
  }

  /** Paper eligible exactly when one model leads, and then pointing at its earliest exact evidence. */
  ghost predicate SelectsLeader(cs: seq<Candidate>, es: seq<Evidence>, s: Selection)
  {
    && (s.key.action == PaperEligible <==> OneLeader(cs, es))
    && (s.key.action == PaperEligible ==>
          exists p :: First(cs, es, p) && s.key.candidate == Some(p.candidate.id)
                      && s.key.evidence == Some(p.evidence.id) && s.model == Some(p.candidate.key.model))
  }

  /** At most one active candidate per model, as every run keeps it. */
  ghost predicate OneActivePerModel(cs: seq<Candidate>)
  {
    forall c, c' :: c in cs && c' in cs && IsActive(c) && IsActive(c') && c.key.model == c'.key.model ==> c == c'
  }

  /** `pairs` lists the active candidates that have exact evidence, each with its earliest. */
  ghost predicate ListsFirsts(cs: seq<Candidate>, es: seq<Evidence>, pairs: seq<ExactPair>)
  {
    && (forall p :: p in pairs ==> ExactTrigger(cs, es, p))
    && (forall q :: ExactTrigger(cs, es, q) ==> Covered(pairs, q))
    && (forall p, p' :: p in pairs && p' in pairs && p.candidate.key.model == p'.candidate.key.model ==> p == p')
  }

  ghost predicate Covered(pairs: seq<ExactPair>, q: ExactPair)
  {
    exists p :: p in pairs && p.candidate == q.candidate && Trigger(p.evidence) <= Trigger(q.evidence)
  }

  lemma ExactPairsList(cs: seq<Candidate>, es: seq<Evidence>)
    requires OneActivePerModel(cs)
    ensures ListsFirsts(cs, es, ExactPairs(Active(cs), es))
  {
    var pairs := ExactPairs(Active(cs), es);
    forall p | p in pairs ensures ExactTrigger(cs, es, p) {
      BestExactIsLeast(es, p.candidate.id);
    }
    forall q | ExactTrigger(cs, es, q) ensures Covered(pairs, q) {
      BestExactIsLeast(es, q.candidate.id);
      var p := ExactPair(q.candidate, BestExact(es, q.candidate.id).value);
      assert p in pairs;
    }
  }

  lemma {:induction false} ExactPairsDistinct(active: seq<Candidate>, es: seq<Evidence>)
    requires NoDuplicates(active)
    ensures NoDuplicates(ExactPairs(active, es))
  {
    if active != [] {
      ExactPairsDistinct(active[1..], es);
      assert active[0] !in active[1..];
    }
  }

  lemma {:induction false} ActiveDistinct(cs: seq<Candidate>)
    requires NoDuplicates(cs)
    ensures NoDuplicates(Active(cs))
  {
    if cs != [] {
      ActiveDistinct(cs[1..]);
      assert cs[0] !in cs[1..];
    }
  }

  lemma ListedSeparate(cs: seq<Candidate>, es: seq<Evidence>, pairs: seq<ExactPair>)
    requires ListsFirsts(cs, es, pairs)
    ensures Separates(PairBefore, Elements(pairs))
  {
    forall p, q | p in Elements(pairs) && q in Elements(pairs) && p != q
      ensures PairBefore(p, q) || PairBefore(q, p)
    {
      assert p.candidate.key.model != q.candidate.key.model;
    }
  }

  /** The same pairs in another order list the same. */
  lemma ListsReordered(cs: seq<Candidate>, es: seq<Evidence>, pairs: seq<ExactPair>, exact: seq<ExactPair>)
    requires ListsFirsts(cs, es, pairs) && forall p :: p in pairs <==> p in exact
    ensures ListsFirsts(cs, es, exact)
  {
    forall q | ExactTrigger(cs, es, q) ensures Covered(exact, q) {
      assert Covered(pairs, q);
    }
  }

  lemma HeadIsFirst(cs: seq<Candidate>, es: seq<Evidence>, exact: seq<ExactPair>)
    requires ListsFirsts(cs, es, exact) && exact != []
    requires forall i :: 0 < i < |exact| ==> Trigger(exact[0].evidence) <= Trigger(exact[i].evidence)
    ensures First(cs, es, exact[0])
  {
    assert exact[0] in exact;
    forall q | ExactTrigger(cs, es, q) ensures Trigger(exact[0].evidence) <= Trigger(q.evidence) {
      assert Covered(exact, q);
      var p :| p in exact && p.candidate == q.candidate && Trigger(p.evidence) <= Trigger(q.evidence);
      var i :| 0 <= i < |exact| && exact[i] == p;
    }
  }

  /** Sorting puts an earliest pair first. */
  lemma SortedFirst(cs: seq<Candidate>, es: seq<Evidence>, pairs: seq<ExactPair>)
    requires ListsFirsts(cs, es, pairs) && NoDuplicates(pairs) && pairs != []
    ensures var exact := Sort(pairs, PairBefore);
      && |exact| == |pairs| && NoDuplicates(exact)
      && ListsFirsts(cs, es, exact) && First(cs, es, exact[0])
  {
    var exact := Sort(pairs, PairBefore);
    ListedSeparate(cs, es, pairs);
    SortSorts(pairs, PairBefore);
    SortKeeps(pairs, PairBefore);
    ListsReordered(cs, es, pairs, exact);
    forall i | 0 < i < |exact| ensures Trigger(exact[0].evidence) <= Trigger(exact[i].evidence) {
      assert PairBefore(exact[0], exact[i]);
    }
    HeadIsFirst(cs, es, exact);
  }

  /** Exactly the listed pairs that share the first trigger are first. */
  lemma LeadersListed(cs: seq<Candidate>, es: seq<Evidence>, exact: seq<ExactPair>, m: Model)
    requires ListsFirsts(cs, es, exact) && exact != [] && First(cs, es, exact[0])
    ensures Leads(cs, es, m) <==>
              exists i :: 0 <= i < |exact| && exact[i].candidate.key.model == m
                          && Trigger(exact[i].evidence) == Trigger(exact[0].evidence)
  {
    if Leads(cs, es, m) {
      var p :| First(cs, es, p) && p.candidate.key.model == m;
      assert Covered(exact, p);
      var q :| q in exact && q.candidate == p.candidate && Trigger(q.evidence) <= Trigger(p.evidence);
      var i :| 0 <= i < |exact| && exact[i] == q;
      assert ExactTrigger(cs, es, q) && ExactTrigger(cs, es, exact[0]);
    }
    forall i | 0 <= i < |exact| && exact[i].candidate.key.model == m
               && Trigger(exact[i].evidence) == Trigger(exact[0].evidence)
      ensures Leads(cs, es, m)
    {
      assert exact[i] in exact;
      assert First(cs, es, exact[i]);
    }
  }

  lemma SharedMeansSeveral(cs: seq<Candidate>, es: seq<Evidence>, exact: seq<ExactPair>)
    requires ListsFirsts(cs, es, exact) && exact != [] && First(cs, es, exact[0])
    ensures OneLeader(cs, es) <==> !SharedFirstTrigger(exact)
  {
    var m := exact[0].candidate.key.model;
    LeadersListed(cs, es, exact, m);
    forall m' | m' != m ensures Leads(cs, es, m') ==> SharedFirstTrigger(exact) {
      LeadersListed(cs, es, exact, m');
    }
    if SharedFirstTrigger(exact) {
      var i :| 0 <= i < |exact| && Trigger(exact[i].evidence) == Trigger(exact[0].evidence)
               && exact[i].candidate.key.model != m;
      LeadersListed(cs, es, exact, exact[i].candidate.key.model);
    }
  }

  lemma OnlyOne<T>(s: seq<T>, x: T)
    requires NoDuplicates(s) && x in s && forall k :: 0 <= k < |s| ==> s[k] == x
    ensures s == [x]
  {
    assert s[0] == s[|s| - 1];
  }

  /** With one candidate per model, the close fallback happens only when the close is the sole exact candidate. */
  lemma FallbackIsSole(cs: seq<Candidate>, es: seq<Evidence>, exact: seq<ExactPair>, close: ExactPair)
    requires OneActivePerModel(cs) && ListsFirsts(cs, es, exact) && NoDuplicates(exact)
    requires close in exact && close.candidate.key.model == DirClose
    requires EarlierNonExactFlip(Active(cs), es, close)
    ensures exact == [close]
  {
    var active := Active(cs);
    var i :| 0 <= i < |active| && active[i].key.model == HtfFlip && BestExact(es, active[i].id).None?;
    var flip := active[i];
    assert flip in active;
    BestExactIsLeast(es, flip.id);
    forall k | 0 <= k < |exact| ensures exact[k] == close {
      assert exact[k] in exact;
      assert ExactTrigger(cs, es, exact[k]);
    }
    OnlyOne(exact, close);
  }

  /** The decision among exact candidates, once the setup is open and some candidate is active. */
  lemma DecisionCharacterised(cs: seq<Candidate>, es: seq<Evidence>, exact: seq<ExactPair>)
    requires OneActivePerModel(cs) && ListsFirsts(cs, es, exact) && NoDuplicates(exact)
    requires Active(cs) != [] && (exact != [] ==> First(cs, es, exact[0]))
    ensures var k := Decide(false, Active(cs), exact, es);
      && (k.action == PaperEligible <==> OneLeader(cs, es))
      && (k.action == PaperEligible <==> k.pair.Some?)
      && (k.pair.Some? ==> First(cs, es, k.pair.value))
  {
    if exact != [] {
      SharedMeansSeveral(cs, es, exact);
      var close := FirstClose(exact);
      if close.Some? && EarlierNonExactFlip(Active(cs), es, close.value) {
        FallbackIsSole(cs, es, exact, close.value);
      }
    }
  }

  /**
   A request is paper eligible exactly when one model attains the earliest exact
   trigger, and the selected evidence has that trigger, on the fallback path too.
   */
  lemma SelectionCharacterised(d: Digests, q: Request)
    requires NoDuplicates(q.candidates) && NoDuplicates(q.evidence) && OneActivePerModel(q.candidates)
    requires q.invalidated ==> Active(q.candidates) == []
    ensures SelectsLeader(q.candidates, q.evidence, Select(d, q))
  {
    hide Sort, ExactPairs, Active, ListsFirsts, Dedup, OneLeader, First;
    var cs, es := q.candidates, q.evidence;
    DedupOfDistinct(cs);
    DedupOfDistinct(es);
    var exact := Sort(ExactPairs(Active(cs), es), PairBefore);
    ExactListed(cs, es);
    if q.invalidated || Active(cs) == [] {
      NobodyLeads(cs, es);
    } else {
      DecisionCharacterised(cs, es, exact);
      var k := Decide(false, Active(cs), exact, es);
      assert DecisionOf(q) == k;
    }
  }

  // The reason

  /** Replayed evidence of a candidate that is not exact, triggered before `limit`. */
  ghost predicate NonExactBefore(es: seq<Evidence>, id: Id, e: Evidence, limit: int)
  {
    && e in es && e.body.candidateId == id && !ExactEligible(e)
    && e.body.plane != RealtimeTick && e.body.triggerEpoch.Some? && e.body.triggerEpoch.value < limit
  }

  lemma {:induction false} FirstNonExactIsLeast(es: seq<Evidence>, id: Id, limit: int)
    ensures FirstNonExact(es, id).Some? && FirstNonExact(es, id).value < limit <==>
              exists e :: NonExactBefore(es, id, e, limit)
  {
    hide ExactEligible;
    if es != [] {
      var init, last := es[..|es| - 1], es[|es| - 1];
      assert es == init + [last];
      FirstNonExactIsLeast(init, id, limit);
      if e :| NonExactBefore(init, id, e, limit) {
        assert NonExactBefore(es, id, e, limit);
      }
      if e :| NonExactBefore(es, id, e, limit) {
        assert e == last || NonExactBefore(init, id, e, limit);
      }
      if FirstNonExact(es, id).Some? && FirstNonExact(es, id) != FirstNonExact(init, id)
         && FirstNonExact(es, id).value < limit {
        assert NonExactBefore(es, id, last, limit);
      }
    }
  }

  /** A flip without exact evidence triggered before the confirmed close that leads. */
  ghost predicate FlipCameEarlier(cs: seq<Candidate>, es: seq<Evidence>, close: ExactPair, flip: Candidate)
  {
    && First(cs, es, close) && close.candidate.key.model == DirClose
    && flip in cs && IsActive(flip) && flip.key.model == HtfFlip
    && (forall q :: ExactTrigger(cs, es, q) ==> q.candidate != flip)
    && exists e :: NonExactBefore(es, flip.id, e, Trigger(close.evidence))
  }

  ghost predicate FallsBack(cs: seq<Candidate>, es: seq<Evidence>)
  {
    exists close, flip :: FlipCameEarlier(cs, es, close, flip)
  }

  ghost predicate SeveralExact(cs: seq<Candidate>, es: seq<Evidence>)
  {
    exists p, q :: ExactTrigger(cs, es, p) && ExactTrigger(cs, es, q) && p.candidate != q.candidate
  }

  /** The reason that candidates and evidence call for, once the setup is open and some candidate is active. */
  ghost function ReasonFor(cs: seq<Candidate>, es: seq<Evidence>): Reason
  {
    if forall p :: !ExactTrigger(cs, es, p) then NoExactCandidate
    else if !OneLeader(cs, es) then UnresolvedSourcePriority
    else if SeveralExact(cs, es) then EarliestExactTrigger
    else if FallsBack(cs, es) then FallbackToConfirmedClose
    else OnlyExactTrigger
  }

  function ActionOf(r: Reason): Action
  {
    match r
    case SetupInvalidated => NoAction
    case NoCandidate => NoAction
    case NoExactCandidate => ShadowOnly
    case UnresolvedSourcePriority => ShadowOnly
    case _ => PaperEligible
  }

  lemma EarlierFlipMeans(cs: seq<Candidate>, es: seq<Evidence>, close: ExactPair)
    requires First(cs, es, close) && close.candidate.key.model == DirClose
    ensures EarlierNonExactFlip(Active(cs), es, close) <==> exists flip :: FlipCameEarlier(cs, es, close, flip)
  {
    hide ExactEligible, First, IsActive;
    var active := Active(cs);
    forall flip | flip in cs && IsActive(flip)
      ensures BestExact(es, flip.id).None? <==> forall q :: ExactTrigger(cs, es, q) ==> q.candidate != flip
      ensures FirstNonExact(es, flip.id).Some? && FirstNonExact(es, flip.id).value < Trigger(close.evidence) <==>
                exists e :: NonExactBefore(es, flip.id, e, Trigger(close.evidence))
    {
      NoExactOf(cs, es, flip);
      FirstNonExactIsLeast(es, flip.id, Trigger(close.evidence));
    }
    if flip :| FlipCameEarlier(cs, es, close, flip) {
      assert flip in active;
      var i :| 0 <= i < |active| && active[i] == flip;
    }
    if EarlierNonExactFlip(active, es, close) {
      var i :| 0 <= i < |active| && active[i].key.model == HtfFlip && BestExact(es, active[i].id).None?
        && FirstNonExact(es, active[i].id).Some? && FirstNonExact(es, active[i].id).value < Trigger(close.evidence);
      assert active[i] in active;
      assert FlipCameEarlier(cs, es, close, active[i]);
    }
  }

  lemma NoExactOf(cs: seq<Candidate>, es: seq<Evidence>, c: Candidate)
    requires c in cs && IsActive(c)
    ensures BestExact(es, c.id).None? <==> forall q :: ExactTrigger(cs, es, q) ==> q.candidate != c
  {
    hide IsActive, ExactEligible;
    BestExactIsLeast(es, c.id);
    if BestExact(es, c.id).Some? {
      assert ExactTrigger(cs, es, ExactPair(c, BestExact(es, c.id).value));
    }
  }

  lemma SeveralListed(cs: seq<Candidate>, es: seq<Evidence>, exact: seq<ExactPair>)
    requires ListsFirsts(cs, es, exact) && NoDuplicates(exact)
    ensures exact == [] <==> forall p :: !ExactTrigger(cs, es, p)
    ensures |exact| > 1 <==> SeveralExact(cs, es)
  {
    hide ExactTrigger;
    if exact != [] {
      assert exact[0] in exact;
      assert ExactTrigger(cs, es, exact[0]);
    }
    if |exact| > 1 {
      var p, q := exact[0], exact[1];
      assert p in exact && q in exact && p != q;
      assert ExactTrigger(cs, es, p) && ExactTrigger(cs, es, q) && p.candidate != q.candidate;
    }
    if p, q :| ExactTrigger(cs, es, p) && ExactTrigger(cs, es, q) && p.candidate != q.candidate {
      assert Covered(exact, p) && Covered(exact, q);
    }
  }

  /** A first close that is the only exact candidate is the one the fallback looks at. */
  lemma SoleClose(cs: seq<Candidate>, es: seq<Evidence>, exact: seq<ExactPair>)
    requires ListsFirsts(cs, es, exact) && NoDuplicates(exact) && |exact| == 1 && First(cs, es, exact[0])
    ensures FallsBack(cs, es) <==>
              exact[0].candidate.key.model == DirClose && EarlierNonExactFlip(Active(cs), es, exact[0])
  {
    hide ExactTrigger, EarlierNonExactFlip;
    if close, flip :| FlipCameEarlier(cs, es, close, flip) {
      assert Covered(exact, close);
      assert exact[0].candidate == close.candidate && Trigger(exact[0].evidence) == Trigger(close.evidence);
      assert FlipCameEarlier(cs, es, exact[0], flip);
    }
    if exact[0].candidate.key.model == DirClose {
      EarlierFlipMeans(cs, es, exact[0]);
    }
  }

  lemma DecisionReason(cs: seq<Candidate>, es: seq<Evidence>, exact: seq<ExactPair>)
    requires OneActivePerModel(cs) && ListsFirsts(cs, es, exact) && NoDuplicates(exact)
    requires Active(cs) != [] && (exact != [] ==> First(cs, es, exact[0]))
    ensures var k := Decide(false, Active(cs), exact, es);
      k.reason == ReasonFor(cs, es) && k.action == ActionOf(k.reason)
  {
    hide ExactTrigger, First, OneLeader, EarlierNonExactFlip, FallsBack, SeveralExact, SharedFirstTrigger, ListsFirsts;
    SeveralListed(cs, es, exact);
    if exact != [] {
      SharedMeansSeveral(cs, es, exact);
      var close := FirstClose(exact);
      if close.Some? && EarlierNonExactFlip(Active(cs), es, close.value) {
        FallbackIsSole(cs, es, exact, close.value);
      }
      if |exact| == 1 {
        SoleIsFirst(exact);
        SoleClose(cs, es, exact);
      }
    }
  }

  lemma SoleIsFirst(exact: seq<ExactPair>)
    requires |exact| == 1
    ensures FirstClose(exact).Some? <==> exact[0].candidate.key.model == DirClose
    ensures FirstClose(exact).Some? ==> FirstClose(exact).value == exact[0]
    ensures !SharedFirstTrigger(exact)
  {
  }

  /** Every selection gives the reason that its candidates and evidence call for, and the action that goes with it. */
  lemma ReasonCharacterised(d: Digests, q: Request)
    requires NoDuplicates(q.candidates) && NoDuplicates(q.evidence) && OneActivePerModel(q.candidates)
    ensures var k := Select(d, q).key;
      && k.action == ActionOf(k.reason)
      && k.reason ==
           if q.invalidated then SetupInvalidated
           else if forall c :: c in q.candidates ==> !IsActive(c) then NoCandidate
           else ReasonFor(q.candidates, q.evidence)
  {
    hide Sort, ExactPairs, ListsFirsts, Dedup, OneLeader, First, ReasonFor, IsActive, Decide, Active, PairBefore;
    hide ActionOf;
    var cs, es := q.candidates, q.evidence;
    DedupOfDistinct(cs);
    DedupOfDistinct(es);
    var exact := Sort(ExactPairs(Active(cs), es), PairBefore);
    ExactListed(cs, es);
    NobodyActive(cs);
    if q.invalidated || Active(cs) == [] {
      EarlyDecision(q.invalidated, Active(cs), exact, es);
    } else {
      DecisionReason(cs, es, exact);
    }
  }

  lemma NobodyActive(cs: seq<Candidate>)
    ensures Active(cs) == [] <==> forall c :: c in cs ==> !IsActive(c)
  {
    hide IsActive;
    if Active(cs) != [] {
      assert Active(cs)[0] in Active(cs);
    }
  }

  lemma EarlyDecision(invalidated: bool, active: seq<Candidate>, exact: seq<ExactPair>, es: seq<Evidence>)
    requires invalidated || active == []
    ensures var k := Decide(invalidated, active, exact, es);
      k.reason == (if invalidated then SetupInvalidated else NoCandidate) && k.action == ActionOf(k.reason)
  {
  }

  lemma ExactListed(cs: seq<Candidate>, es: seq<Evidence>)
    requires NoDuplicates(cs) && OneActivePerModel(cs)
    ensures var exact := Sort(ExactPairs(Active(cs), es), PairBefore);
      ListsFirsts(cs, es, exact) && NoDuplicates(exact) && (exact != [] ==> First(cs, es, exact[0]))
  {
    hide ExactPairs, Active, ListsFirsts, First;
    var pairs := ExactPairs(Active(cs), es);
    ExactPairsList(cs, es);
    ActiveDistinct(cs);
    ExactPairsDistinct(Active(cs), es);
    if pairs != [] {
      SortedFirst(cs, es, pairs);
    }
  }

  lemma NobodyLeads(cs: seq<Candidate>, es: seq<Evidence>)
    requires Active(cs) == []
    ensures !OneLeader(cs, es)
  {
  }

  /** The same of every accepted stream. */
  lemma StreamSelectionCharacterised(
    d: Digests, events: seq<Event>, invalidated: bool, revision: int, evaluatedAt: int)
    requires CollisionFree(d)
    requires Evaluate(d, events, invalidated, revision, evaluatedAt).Ok?
    ensures var v := Evaluate(d, events, invalidated, revision, evaluatedAt).value;
      SelectsLeader(v.candidates, v.evidence, v.selection)
  {
    var setupId, start := PreparedIsStream(events, revision, evaluatedAt);
    var ordered := OrderEvents(events, revision, evaluatedAt).value;
    EvaluationParts(d, events, invalidated, revision, evaluatedAt);
    RunKeeps(d, setupId, start, ordered);
    FinalSelection(d, setupId, LastClose(ordered, start), Run(d, ordered).value, revision, evaluatedAt);
  }

  lemma EvaluationParts(d: Digests, events: seq<Event>, invalidated: bool, revision: int, evaluatedAt: int)
    requires OrderEvents(events, revision, evaluatedAt).Ok? && OrderEvents(events, revision, evaluatedAt).value != []
    requires Evaluate(d, events, invalidated, revision, evaluatedAt).Ok?
    ensures var ordered := OrderEvents(events, revision, evaluatedAt).value;
      && Run(d, ordered).Ok?
      && var q := FinalRequest(Run(d, ordered).value, ordered[0].request.setup.setupId, revision, evaluatedAt);
         var v := Evaluate(d, events, invalidated, revision, evaluatedAt).value;
         v.candidates == q.candidates && v.evidence == q.evidence && v.selection == Select(d, q)
  {
  }

  lemma FinalSelection(d: Digests, setupId: string, limit: int, s: State, revision: int, evaluatedAt: int)
    requires Inv(d, setupId, limit, s)
    ensures var q := FinalRequest(s, setupId, revision, evaluatedAt);
      SelectsLeader(q.candidates, q.evidence, Select(d, q))
  {
    FinalIsOnePerModel(d, setupId, limit, s, revision, evaluatedAt);
    SelectionCharacterised(d, FinalRequest(s, setupId, revision, evaluatedAt));
  }

  lemma FinalIsOnePerModel(d: Digests, setupId: string, limit: int, s: State, revision: int, evaluatedAt: int)
    requires Inv(d, setupId, limit, s)
    ensures var q := FinalRequest(s, setupId, revision, evaluatedAt);
      && NoDuplicates(q.candidates) && NoDuplicates(q.evidence) && OneActivePerModel(q.candidates)
      && (q.invalidated ==> Active(q.candidates) == [])
  {
    ValuesOwnIds(s.evidence, EvidenceId);
    assert OwnIds(s.candidates, CandidateId);
    KeptIsOnePerModel(s.first, s.candidates);
    var cs := ValuesById(s.candidates);
    if ActiveModels(s.first) == {} {
      NoneActive(s.first, cs);
    }
  }

  lemma KeptIsOnePerModel(first: map<Model, Candidate>, kept: map<Id, Candidate>)
    requires OnePerModel(first, kept) && OwnIds(kept, CandidateId)
    ensures var cs := ValuesById(kept);
      && NoDuplicates(cs) && (forall c :: c in cs ==> c.key.model in first && first[c.key.model] == c)
  {
    ValuesOwnIds(kept, CandidateId);
    forall c | c in ValuesById(kept) ensures c.key.model in first && first[c.key.model] == c {
      assert kept[CandidateId(c)] == c;
    }
  }

  lemma NoneActive(first: map<Model, Candidate>, cs: seq<Candidate>)
    requires forall c :: c in cs ==> c.key.model in first && first[c.key.model] == c
    requires ActiveModels(first) == {}
    ensures Active(cs) == []
  {
    forall c | c in cs ensures !IsActive(c) {
      assert c.key.model !in ActiveModels(first);
    }
    var active := Active(cs);
    assert forall i :: 0 <= i < |active| ==> active[i] !in active;
  }

  /** The same of every accepted stream. */
  lemma StreamReasonCharacterised(
    d: Digests, events: seq<Event>, invalidated: bool, revision: int, evaluatedAt: int)
    requires CollisionFree(d)
    requires Evaluate(d, events, invalidated, revision, evaluatedAt).Ok?
    ensures var v := Evaluate(d, events, invalidated, revision, evaluatedAt).value;
      && v.selection.key.action == ActionOf(v.selection.key.reason)
      && v.selection.key.reason ==
           if invalidated then SetupInvalidated
           else if forall c :: c in v.candidates ==> !IsActive(c) then NoCandidate
           else ReasonFor(v.candidates, v.evidence)
  {
    hide Select, Run, ReasonFor, IsActive, Inv;
    var setupId, start := PreparedIsStream(events, revision, evaluatedAt);
    var ordered := OrderEvents(events, revision, evaluatedAt).value;
    EvaluationParts(d, events, invalidated, revision, evaluatedAt);
    RunKeeps(d, setupId, start, ordered);
    var s := Run(d, ordered).value;
    FinalIsOnePerModel(d, setupId, LastClose(ordered, start), s, revision, evaluatedAt);
    ReasonCharacterised(d, FinalRequest(s, setupId, revision, evaluatedAt));
  }

  // Which evidence of the selected candidate

  /** Earliest trigger, finest resolution, most contexts, earliest end of coverage, least id. */
  function Rank(e: Evidence): seq<int>
  {
    [Trigger(e), e.body.resolution, -|e.body.contexts|, e.body.coverageEnd, e.id]
  }

  predicate LexAtMost(a: seq<int>, b: seq<int>)
  {
    a == [] || (b != [] && (a[0] < b[0] || (a[0] == b[0] && LexAtMost(a[1..], b[1..]))))
  }

  /** At the first place where the ranks differ, the first is less. */
  lemma LexFive(a: seq<int>, b: seq<int>)
    requires |a| == |b| == 5
    ensures LexAtMost(a, b) <==>
              || a[0] < b[0]
              || (a[0] == b[0]
                  && (|| a[1] < b[1]
                      || (a[1] == b[1]
                          && (|| a[2] < b[2]
                              || (a[2] == b[2] && (a[3] < b[3] || (a[3] == b[3] && a[4] <= b[4])))))))
  {
    assert LexAtMost(a[4..], b[4..]) <==> a[4] <= b[4] by {
      assert a[4..][1..] == [] && b[4..][1..] == [];
    }
    assert LexAtMost(a[3..], b[3..]) <==> a[3] < b[3] || (a[3] == b[3] && a[4] <= b[4]) by {
      assert a[3..][1..] == a[4..] && b[3..][1..] == b[4..];
    }
    assert LexAtMost(a[2..], b[2..]) <==> a[2] < b[2] || (a[2] == b[2] && LexAtMost(a[3..], b[3..])) by {
      assert a[2..][1..] == a[3..] && b[2..][1..] == b[3..];
    }
    assert LexAtMost(a[1..], b[1..]) <==> a[1] < b[1] || (a[1] == b[1] && LexAtMost(a[2..], b[2..])) by {
      assert a[1..][1..] == a[2..] && b[1..][1..] == b[2..];
    }
  }

  lemma RankIsLex(a: Evidence, b: Evidence)
    ensures !RankBefore(b, a) <==> LexAtMost(Rank(a), Rank(b))
  {
    LexFive(Rank(a), Rank(b));
  }

  lemma RankTransitive(a: Evidence, b: Evidence, c: Evidence)
    requires RankBefore(a, b) && !RankBefore(c, b)
    ensures !RankBefore(c, a)
  {
  }

  lemma {:induction false} BestIsPreferred(es: seq<Evidence>, id: Id)
    requires BestExact(es, id).Some?
    ensures forall e :: e in es && e.body.candidateId == id && ExactEligible(e) ==>
              LexAtMost(Rank(BestExact(es, id).value), Rank(e))
  {
    hide ExactEligible, RankBefore, Rank, LexAtMost;
    var init, last := es[..|es| - 1], es[|es| - 1];
    assert es == init + [last];
    var best := BestExact(es, id).value;
    forall e | e in es && e.body.candidateId == id && ExactEligible(e) ensures LexAtMost(Rank(best), Rank(e)) {
      RankIsLex(best, e);
      RankIrreflexive(best);
      if BestExact(init, id).Some? {
        var kept := BestExact(init, id).value;
        BestIsPreferred(init, id);
        RankIsLex(kept, e);
        if best != kept && e in init {
          RankTransitive(best, kept, e);
        }
      } else {
        BestExactIsLeast(init, id);
      }
    }
  }

  lemma RankIrreflexive(e: Evidence)
    ensures !RankBefore(e, e)
  {
  }

  /** The selected evidence is exact, of the selected candidate, and of least rank among all such. */
  ghost predicate SelectsPreferred(cs: seq<Candidate>, es: seq<Evidence>, s: Selection)
  {
    s.key.evidence.Some? ==>
      exists p :: ExactTrigger(cs, es, p)
        && s.key.candidate == Some(p.candidate.id) && s.key.evidence == Some(p.evidence.id)
        && s.key.fidelity == Some(Exact) && s.model == Some(p.candidate.key.model)
        && forall e :: e in es && e.body.candidateId == p.candidate.id && ExactEligible(e) ==>
             LexAtMost(Rank(p.evidence), Rank(e))
  }

  lemma DecidedPair(invalidated: bool, active: seq<Candidate>, exact: seq<ExactPair>, es: seq<Evidence>)
    ensures var k := Decide(invalidated, active, exact, es); k.pair.Some? ==> k.pair.value in exact
  {
    hide EarlierNonExactFlip, SharedFirstTrigger;
  }

  lemma PreferredSelected(d: Digests, q: Request)
    requires NoDuplicates(q.candidates) && NoDuplicates(q.evidence)
    ensures SelectsPreferred(q.candidates, q.evidence, Select(d, q))
  {
    hide Sort, ExactPairs, Dedup, IsActive, Decide, LexAtMost, Rank;
    var cs, es := q.candidates, q.evidence;
    DedupOfDistinct(cs);
    DedupOfDistinct(es);
    var pairs := ExactPairs(Active(cs), es);
    var exact := Sort(pairs, PairBefore);
    var k := Decide(q.invalidated, Active(cs), exact, es);
    DecidedPair(q.invalidated, Active(cs), exact, es);
    if k.pair.Some? {
      var p := k.pair.value;
      SortKeeps(pairs, PairBefore);
      assert p in pairs;
      ListedBest(Active(cs), es, p);
      BestExactIsLeast(es, p.candidate.id);
      BestIsPreferred(es, p.candidate.id);
      assert ExactTrigger(cs, es, p);
    }
  }

  lemma ListedBest(active: seq<Candidate>, es: seq<Evidence>, p: ExactPair)
    requires p in ExactPairs(active, es)
    ensures p.candidate in active && BestExact(es, p.candidate.id) == Some(p.evidence)
  {
  }

  /** In every accepted stream. */
  lemma StreamSelectsPreferred(
    d: Digests, events: seq<Event>, invalidated: bool, revision: int, evaluatedAt: int)
    requires CollisionFree(d)
    requires Evaluate(d, events, invalidated, revision, evaluatedAt).Ok?
    ensures var v := Evaluate(d, events, invalidated, revision, evaluatedAt).value;
      SelectsPreferred(v.candidates, v.evidence, v.selection)
  {
    hide Select, Run, SelectsPreferred, Inv;
    var setupId, start := PreparedIsStream(events, revision, evaluatedAt);
    var ordered := OrderEvents(events, revision, evaluatedAt).value;
    EvaluationParts(d, events, invalidated, revision, evaluatedAt);
    RunKeeps(d, setupId, start, ordered);
    var s := Run(d, ordered).value;
    FinalIsOnePerModel(d, setupId, LastClose(ordered, start), s, revision, evaluatedAt);
    PreferredSelected(d, FinalRequest(s, setupId, revision, evaluatedAt));
  }

  /** The selection names exactly the active candidates, and bears the revision and time it was asked for. */
  lemma SelectionBears(d: Digests, q: Request)
    requires NoDuplicates(q.candidates)
    ensures var s := Select(d, q);
      && s.id == d.selection(s.key) && s.key.setupId == q.setupId && s.key.revision == q.revision
      && s.evaluatedAt == q.evaluatedAt
      && (forall id :: id in s.key.considered <==> exists c :: c in q.candidates && IsActive(c) && c.id == id)
  {
    hide Sort, ExactPairs, Dedup, IsActive, Decide;
    var cs := q.candidates;
    DedupOfDistinct(cs);
    var ids := Ids(Active(cs));
    SortKeeps(ids, IdLess);
    forall id ensures id in ids <==> exists c :: c in cs && IsActive(c) && c.id == id {
      if id in ids {
        var i :| 0 <= i < |ids| && ids[i] == id;
        assert Active(cs)[i] in Active(cs);
      }
      if c :| c in cs && IsActive(c) && c.id == id {
        assert c in Active(cs);
        var i :| 0 <= i < |Active(cs)| && Active(cs)[i] == c;
        assert ids[i] == id;
      }
    }
  }
}
