/**
 What becomes of each command of a paper-trading batch, stated on the snapshot, the
 totals given out so far and the safety gate.
 */
module PaperDecisions {
  import opened Common
  import opened Paper

  /** How a command moved the four counts and the conflicts. */
  predicate Moved(st: State, st': State, opens: int, settles: int, duplicates: int, blocked: int, conflicts: int)
  {
    && st'.opens == st.opens + opens && st'.settles == st.settles + settles
    && st'.duplicates == st.duplicates + duplicates && st'.blocked == st.blocked + blocked
    && st'.conflicts == st.conflicts + conflicts
  }

  // Readiness in plain numbers

  /** `a` is less than `limit` basis points of `b`. */
  predicate Below(a: int, b: int, limit: int)
  {
    a * 10000 < b * limit
  }

  lemma RatioBelow(a: int, b: int, limit: int)
    requires b > 0 && 0 < limit <= MAX_SAFE
    ensures RatioBps(a, b) < limit <==> Below(a, b, limit)
  {
    if a <= 0 {
      assert b * limit > 0;
      assert a * 10000 <= 0;
    } else {
      QuotientBelow(a * 10000, b, limit);
    }
  }

  lemma QuotientBelow(x: int, b: int, limit: int)
    requires x >= 0 && b > 0 && limit > 0
    ensures x / b < limit <==> x < b * limit
  {
    var q, rest := x / b, x % b;
    assert x == b * q + rest && 0 <= rest < b;
    if q < limit {
      Scale(b, q + 1, limit);
      assert b * (q + 1) == b * q + b;
    } else {
      Scale(b, limit, q);
    }
  }

  lemma Scale(b: int, p: int, q: int)
    requires b >= 0 && p <= q
    ensures b * p <= b * q
  {
    assert b * q == b * p + b * (q - p);
    Product(b, q - p);
  }

  lemma Product(a: int, b: int)
    requires a >= 0 && b >= 0
    ensures a * b >= 0
  {
  }

  /**
   An account takes a new open of `riskBps`, on top of the risk and positions already given
   to it, when its numbers are sane, its losses are below five and ten percent of its
   opening balance, and its open risk and positions stay within two percent and four.
   */
  predicate Takes(m: Metric, given: int, positions: int, riskBps: int)
  {
    var risk := m.balance * riskBps / 10000;
    && MetricSafe(m) && m.balance > 0 && 0 < risk <= MAX_SAFE
    && Below(-m.dailyPnl, m.openingBalance, 500) && Below(m.maxDrawdown, m.openingBalance, 1000)
    && (m.openRisk + given + risk) * 10000 <= m.balance * 200 && m.openPositions + positions + 1 <= 4
    && 0 < given + risk && Safe(given + risk) && Safe(m.openRisk + given + risk)
    && 0 <= positions && Safe(m.openPositions + positions + 1)
  }

  lemma ReadyMeans(m: Metric)
    requires m.openingBalance > 0
    ensures Ready(m) <==>
              && m.balance > 0 && Below(-m.dailyPnl, m.openingBalance, 500)
              && Below(m.maxDrawdown, m.openingBalance, 1000)
              && m.openRisk * 10000 <= m.balance * 200 && m.openPositions <= 4
    requires m.openRisk >= 0
  {
    hide RatioBps;
    RatioBelow(Max(0, -m.dailyPnl), m.openingBalance, 500);
    RatioBelow(m.maxDrawdown, m.openingBalance, 1000);
    if m.dailyPnl >= 0 {
      Scale(m.openingBalance, 1, 500);
    }
    if m.balance > 0 {
      Product(m.balance, 200);
    }
  }

  lemma RiskMeans(m: Metric, riskBps: int)
    requires riskBps >= 1
    ensures m.balance > 0 ==> RiskOf(m, riskBps) == m.balance * riskBps / 10000
    ensures m.balance <= 0 ==> RiskOf(m, riskBps) <= 0
  {
    if m.balance > 0 {
      Product(m.balance, riskBps);
    } else {
      Product(-m.balance, riskBps);
      assert m.balance * riskBps == -((-m.balance) * riskBps);
    }
  }

  lemma TakesExactly(s: Snapshot, st: State, riskBps: int, a: string)
    requires riskBps >= 1 && Get(st.risk, a) >= 0 && Get(st.positions, a) >= 0
    ensures AccountReason(s, st, riskBps, a).None? <==>
              a in s.metrics && Takes(s.metrics[a], Get(st.risk, a), Get(st.positions, a), riskBps)
  {
    hide Ready, RiskOf;
    if a in s.metrics && MetricSafe(s.metrics[a]) {
      var m := s.metrics[a];
      RiskMeans(m, riskBps);
      var risk := RiskOf(m, riskBps);
      if risk > 0 {
        ReadyMeans(m.(openRisk := m.openRisk + (Get(st.risk, a) + risk),
                      openPositions := m.openPositions + (Get(st.positions, a) + 1)));
      }
    }
  }

  // OPEN

  /** The gate is open and every account of the intent takes it. */
  predicate Opens(s: Snapshot, kill: KillSwitch, force: bool, st: State, intent: Intent)
  {
    && kill == Off && !force
    && forall i :: 0 <= i < |intent.accounts| ==>
         var a := intent.accounts[i];
         a in s.metrics && Takes(s.metrics[a], Get(st.risk, a), Get(st.positions, a), intent.riskBps)
  }

  predicate TotalsNatural(st: State)
  {
    (forall a :: a in st.risk ==> st.risk[a] >= 0) && (forall a :: a in st.positions ==> st.positions[a] >= 0)
  }

  /**
   An OPEN whose trade is stored is a duplicate under the same digest and a blocked
   conflict under another; one that was blocked before stays blocked, as a conflict only
   under another digest; any other is opened exactly when the gate and all its accounts
   allow it, and blocked without conflict otherwise.
   */
  lemma OpenDecided(s: Snapshot, kill: KillSwitch, force: bool, st: State, intent: Intent)
    requires intent.riskBps >= 1 && TotalsNatural(st)
    ensures var st' := OpenStep(s, kill, force, st, intent);
      if intent.id in s.bundles then
        if s.bundles[intent.id].digest == intent.digest then st' == st.(duplicates := st.duplicates + 1)
        else st' == st.(blocked := st.blocked + 1, conflicts := st.conflicts + 1)
      else if intent.id in s.blockedIntents then
        if s.blockedIntents[intent.id] == intent.digest then st' == st.(blocked := st.blocked + 1)
        else st' == st.(blocked := st.blocked + 1, conflicts := st.conflicts + 1)
      else if Opens(s, kill, force, st, intent) then
        Moved(st, st', 1, 0, 0, 0, 0) && st'.statements == st.statements + OpenStatements(intent)
      else
        && Moved(st, st', 0, 0, 0, 1, 0) && st'.risk == st.risk && st'.positions == st.positions
        && exists reason :: st'.statements == st.statements + [InsertBlocked(intent.id, reason)]
             && (force || kill == Unavailable ==> reason == SafetyGateRace)
             && (!force && kill == On ==> reason == KillSwitchEnabled)
  {
    hide FirstReason, AccountReason, Takes, AddRisk, AddPositions, OpenStatements;
    NoReasonMeans(s, st, intent.riskBps, intent.accounts);
    forall i | 0 <= i < |intent.accounts|
      ensures AccountReason(s, st, intent.riskBps, intent.accounts[i]).None? <==>
                intent.accounts[i] in s.metrics
                && Takes(s.metrics[intent.accounts[i]], Get(st.risk, intent.accounts[i]),
                         Get(st.positions, intent.accounts[i]), intent.riskBps)
    {
      TakesExactly(s, st, intent.riskBps, intent.accounts[i]);
    }
    var st' := OpenStep(s, kill, force, st, intent);
    if intent.id !in s.bundles && intent.id !in s.blockedIntents && !Opens(s, kill, force, st, intent) {
      var reason := st'.statements[|st.statements|].reason;
      assert st'.statements == st.statements + [InsertBlocked(intent.id, reason)];
    }
  }

  // SETTLE

  /** `n` is `a / b` cut towards zero. */
  predicate CutQuotient(n: int, a: int, b: int)
  {
    b * Abs(n) <= Abs(a) < b * (Abs(n) + 1) && (n > 0 ==> a > 0) && (n < 0 ==> a < 0)
  }

  lemma QuotientCuts(a: int, b: int)
    requires b > 0
    ensures CutQuotient(Quotient(a, b), a, b)
  {
    DivisionBounds(Abs(a), b);
  }

  lemma DivisionBounds(x: nat, b: int)
    requires b > 0
    ensures x / b >= 0 && b * (x / b) <= x < b * (x / b + 1) && (x / b > 0 ==> x > 0)
  {
    var q, rest := x / b, x % b;
    assert x == b * q + rest && 0 <= rest < b;
    assert b * (q + 1) == b * q + b;
  }

  /** The account of an allocation exists, is sane, and can bear the outcome. */
  predicate Bears(s: Snapshot, a: Allocation, pnl: int)
  {
    && a.account in s.projections && ProjectionSafe(s.projections[a.account])
    && Safe(pnl) && Safe(s.projections[a.account].balance + pnl)
  }

  predicate Settles(s: Snapshot, allocations: seq<Allocation>, outcome: int)
  {
    forall i :: 0 <= i < |allocations| ==> Bears(s, allocations[i], Pnl(allocations[i].risk, outcome))
  }

  lemma {:induction false} ClearMeans(s: Snapshot, allocations: seq<Allocation>, outcome: int)
    ensures FirstVerdict(s, allocations, outcome) == Clear <==> Settles(s, allocations, outcome)
  {
    hide Pnl, ProjectionSafe;
    if allocations != [] {
      ClearMeans(s, allocations[1..], outcome);
      assert forall i :: 1 <= i < |allocations| ==> allocations[i] == allocations[1..][i - 1];
      if Settles(s, allocations[1..], outcome) && Bears(s, allocations[0], Pnl(allocations[0].risk, outcome)) {
        forall i | 0 <= i < |allocations| ensures Bears(s, allocations[i], Pnl(allocations[i].risk, outcome)) {
          if i > 0 {
            assert Bears(s, allocations[1..][i - 1], Pnl(allocations[1..][i - 1].risk, outcome));
          }
        }
      }
      if Settles(s, allocations, outcome) {
        forall i | 0 <= i < |allocations| - 1
          ensures Bears(s, allocations[1..][i], Pnl(allocations[1..][i].risk, outcome))
        {
          assert allocations[1..][i] == allocations[i + 1];
        }
      }
    }
  }

  /** The first allocation that cannot be settled has a sane account and an outcome beyond the safe integers. */
  ghost predicate Breaks(s: Snapshot, allocations: seq<Allocation>, outcome: int)
  {
    exists i :: 0 <= i < |allocations| && BreaksAt(s, allocations, outcome, i)
  }

  predicate BreaksAt(s: Snapshot, allocations: seq<Allocation>, outcome: int, i: int)
    requires 0 <= i < |allocations|
  {
    var a := allocations[i];
    && a.account in s.projections && ProjectionSafe(s.projections[a.account]) && !Safe(Pnl(a.risk, outcome))
    && Settles(s, allocations[..i], outcome)
  }

  lemma {:induction false} BrokenMeans(s: Snapshot, allocations: seq<Allocation>, outcome: int)
    ensures FirstVerdict(s, allocations, outcome) == Broken <==> Breaks(s, allocations, outcome)
  {
    hide Pnl, ProjectionSafe;
    if allocations != [] {
      var tail := allocations[1..];
      BrokenMeans(s, tail, outcome);
      if Bears(s, allocations[0], Pnl(allocations[0].risk, outcome)) {
        forall i | 0 <= i < |tail| ensures BreaksAt(s, tail, outcome, i) <==> BreaksAt(s, allocations, outcome, i + 1) {
          ConsSettles(s, allocations, outcome, i);
        }
        assert forall i :: 0 < i < |allocations| ==>
          (BreaksAt(s, allocations, outcome, i) <==> BreaksAt(s, tail, outcome, i - 1));
      } else {
        forall i | 0 < i < |allocations| ensures !BreaksAt(s, allocations, outcome, i) {
          assert allocations[..i][0] == allocations[0];
        }
        assert allocations[..0] == [];
        assert BreaksAt(s, allocations, outcome, 0) <==> AllocationVerdict(s, allocations[0], outcome) == Broken;
      }
    }
  }

  lemma ConsSettles(s: Snapshot, allocations: seq<Allocation>, outcome: int, i: nat)
    requires i + 1 < |allocations| && Bears(s, allocations[0], Pnl(allocations[0].risk, outcome))
    ensures Settles(s, allocations[1..][..i], outcome) <==> Settles(s, allocations[..i + 1], outcome)
    ensures allocations[1..][i] == allocations[i + 1]
  {
    hide Bears;
    var xs, ys := allocations[1..][..i], allocations[..i + 1];
    assert forall k :: 0 <= k < i ==> xs[k] == ys[k + 1];
    if Settles(s, xs, outcome) {
      forall k | 0 <= k < |ys| ensures Bears(s, ys[k], Pnl(ys[k].risk, outcome)) {
        if k > 0 {
          assert ys[k] == xs[k - 1];
        }
      }
    }
  }

  /**
   A SETTLE of a trade that is not stored is blocked, as a conflict unless the intent was
   blocked before; of a settled trade it is a duplicate under the same digest and a
   conflict under another; of an open trade it is written exactly when every allocation's
   account can bear the outcome, and a conflict or the exception otherwise.
   */
  lemma SettleDecided(s: Snapshot, st: State, id: string, digest: nat, outcome: int)
    ensures var next := SettleStep(s, st, id, digest, outcome);
      var conflict := st.(blocked := st.blocked + 1, conflicts := st.conflicts + 1);
      if id !in s.bundles then
        next == Some(if id in s.blockedIntents then st.(blocked := st.blocked + 1) else conflict)
      else if s.bundles[id].settlement.Some? then
        next == Some(if s.bundles[id].settlement.value == digest then st.(duplicates := st.duplicates + 1)
                     else conflict)
      else if Settles(s, s.bundles[id].allocations, outcome) then
        next == Some(st.(settles := st.settles + 1, statements := st.statements + [InsertSettlement(id, outcome)]))
      else next == if Breaks(s, s.bundles[id].allocations, outcome) then None else Some(conflict)
    ensures forall risk :: CutQuotient(Pnl(risk, outcome), risk * outcome, 1000)
  {
    hide FirstVerdict, Settles, Breaks, Quotient;
    if id in s.bundles {
      ClearMeans(s, s.bundles[id].allocations, outcome);
      BrokenMeans(s, s.bundles[id].allocations, outcome);
    }
    forall risk ensures CutQuotient(Pnl(risk, outcome), risk * outcome, 1000) {
      QuotientCuts(risk * outcome, 1000);
    }
  }

  // The reason of a blocked open

  /** Why an account does not take an open of `riskBps`; `None` if it takes it. */
  function Obstacle(s: Snapshot, given: int, positions: int, riskBps: int, a: string): Option<Reason>
  {
    if a !in s.metrics then Some(AccountNotFound)
    else if !MetricSafe(s.metrics[a]) then Some(SafetyGateRace)
    else if s.metrics[a].balance * riskBps < 10000 then Some(NonPositiveBalance)
    else if !Takes(s.metrics[a], given, positions, riskBps) then Some(RiskLimitReached)
    else None
  }

  function ObstacleFor(s: Snapshot, st: State, riskBps: int, a: string): Option<Reason>
  {
    Obstacle(s, Get(st.risk, a), Get(st.positions, a), riskBps, a)
  }

  /** The first of the accounts that does not take the open. */
  predicate FirstBlocks(s: Snapshot, st: State, riskBps: int, accounts: seq<string>, i: int)
  {
    && 0 <= i < |accounts| && ObstacleFor(s, st, riskBps, accounts[i]).Some?
    && forall j :: 0 <= j < i ==> ObstacleFor(s, st, riskBps, accounts[j]) == None
  }

  lemma ObstacleExactly(s: Snapshot, st: State, riskBps: int, a: string)
    requires riskBps >= 1 && Get(st.risk, a) >= 0 && Get(st.positions, a) >= 0
    ensures AccountReason(s, st, riskBps, a) == ObstacleFor(s, st, riskBps, a)
  {
    hide Takes, Ready, RiskOf, AllowsOpen;
    TakesExactly(s, st, riskBps, a);
    if a in s.metrics {
      RiskIsPositive(s.metrics[a], riskBps);
    }
  }

  lemma RiskIsPositive(m: Metric, riskBps: int)
    ensures RiskOf(m, riskBps) <= 0 <==> m.balance * riskBps < 10000
  {
    var x := m.balance * riskBps;
    QuotientCuts(x, 10000);
  }

  lemma {:induction false} FirstObstacle(s: Snapshot, st: State, riskBps: int, accounts: seq<string>)
    requires riskBps >= 1 && TotalsNatural(st) && FirstReason(s, st, riskBps, accounts).Some?
    ensures exists i :: FirstBlocks(s, st, riskBps, accounts, i)
              && FirstReason(s, st, riskBps, accounts) == ObstacleFor(s, st, riskBps, accounts[i])
  {
    hide ObstacleFor, AccountReason;
    ObstacleExactly(s, st, riskBps, accounts[0]);
    if AccountReason(s, st, riskBps, accounts[0]).None? {
      FirstObstacle(s, st, riskBps, accounts[1..]);
      var rest := accounts[1..];
      var i :| FirstBlocks(s, st, riskBps, rest, i)
               && FirstReason(s, st, riskBps, rest) == ObstacleFor(s, st, riskBps, rest[i]);
      assert accounts[i + 1] == rest[i];
      forall j | 0 <= j < i + 1 ensures ObstacleFor(s, st, riskBps, accounts[j]) == None {
        if j > 0 {
          assert accounts[j] == rest[j - 1];
        }
      }
      assert FirstBlocks(s, st, riskBps, accounts, i + 1);
    } else {
      assert FirstBlocks(s, st, riskBps, accounts, 0);
    }
  }

  /** A blocked open names the gate, or else the obstacle of its first account that has one. */
  lemma BlockedReason(s: Snapshot, kill: KillSwitch, force: bool, st: State, intent: Intent)
    requires intent.riskBps >= 1 && TotalsNatural(st) && intent.id !in s.bundles && intent.id !in s.blockedIntents
    requires !Opens(s, kill, force, st, intent)
    ensures var st' := OpenStep(s, kill, force, st, intent);
      && |st'.statements| == |st.statements| + 1
      && var added := st'.statements[|st.statements|];
         && added.InsertBlocked? && added == InsertBlocked(intent.id, added.reason)
         && if force || kill == Unavailable then added.reason == SafetyGateRace
            else if kill == On then added.reason == KillSwitchEnabled
            else exists i :: FirstBlocks(s, st, intent.riskBps, intent.accounts, i)
                   && Some(added.reason) == ObstacleFor(s, st, intent.riskBps, intent.accounts[i])
  {
    hide FirstReason, Opens, AddRisk, AddPositions, OpenStatements, ObstacleFor, FirstBlocks;
    OpenDecided(s, kill, force, st, intent);
    if FirstReason(s, st, intent.riskBps, intent.accounts).Some? {
      FirstObstacle(s, st, intent.riskBps, intent.accounts);
    }
  }
}
