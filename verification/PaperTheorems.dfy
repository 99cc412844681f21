/**
 What the paper-trading allocator guarantees of a whole batch.
 */
module PaperTheorems {
  import opened Common
  import opened Paper

  /** As the intent validator admits them: an account at most once, risk of at least one basis point. */
  predicate ValidCommand(c: Command)
  {
    c.Open? ==> NoDuplicates(c.intent.accounts) && c.intent.accounts != [] && 1 <= c.intent.riskBps <= 500
  }

  predicate ValidCommands(cs: seq<Command>)
  {
    forall i :: 0 <= i < |cs| ==> ValidCommand(cs[i])
  }

  // Counting

  function Handled(st: State): nat
  {
    st.opens + st.settles + st.duplicates + st.blocked
  }

  /** Every command ends in exactly one of the four counts. */
  lemma {:induction false} EveryCommandCounted(s: Snapshot, kill: KillSwitch, force: bool, st: State, cs: seq<Command>)
    requires RunFrom(s, kill, force, st, cs).Some?
    ensures var r := RunFrom(s, kill, force, st, cs).value;
      Handled(r) == Handled(st) + |cs| && r.conflicts - st.conflicts <= r.blocked - st.blocked
    decreases |cs|
  {
    if cs != [] {
      StepCounts(s, kill, force, st, cs[0]);
      EveryCommandCounted(s, kill, force, Step(s, kill, force, st, cs[0]).value, cs[1..]);
    }
  }

  lemma StepCounts(s: Snapshot, kill: KillSwitch, force: bool, st: State, c: Command)
    requires Step(s, kill, force, st, c).Some?
    ensures var r := Step(s, kill, force, st, c).value;
      Handled(r) == Handled(st) + 1 && 0 <= r.conflicts - st.conflicts <= r.blocked - st.blocked
  {
    hide FirstReason, FirstVerdict, AddRisk, AddPositions, OpenStatements;
  }

  // Limits

  /** The account, with what the batch gives it, stays within both limits. */
  predicate WithinLimits(m: Metric, risk: int, positions: int)
  {
    && m.balance > 0 && (m.openRisk + risk) * 10000 <= m.balance * MAX_OPEN_RISK_BPS
    && m.openPositions + positions <= MAX_OPEN_POSITIONS
  }

  ghost predicate LimitsKept(s: Snapshot, risk: Amounts, positions: Amounts)
  {
    && risk.Keys == positions.Keys
    && forall a :: a in risk ==>
         && a in s.metrics && risk[a] > 0 && positions[a] > 0
         && WithinLimits(s.metrics[a], risk[a], positions[a])
  }

  /** What an open adds to one account. */
  lemma {:induction false} AddedRisk(s: Snapshot, risk: Amounts, riskBps: int, accounts: seq<string>, a: string)
    requires NoDuplicates(accounts) && forall b :: b in accounts ==> b in s.metrics
    ensures var after := AddRisk(s, risk, riskBps, accounts);
      && (a in after <==> a in risk || a in accounts)
      && Get(after, a) == Get(risk, a) + if a in accounts then RiskOf(s.metrics[a], riskBps) else 0
    decreases |accounts|
  {
    hide RiskOf;
    if accounts != [] {
      var b := accounts[0];
      assert accounts == [b] + accounts[1..] && b !in accounts[1..];
      AddedRisk(s, risk[b := Get(risk, b) + RiskOf(s.metrics[b], riskBps)], riskBps, accounts[1..], a);
    }
  }

  lemma {:induction false} AddedPositions(positions: Amounts, accounts: seq<string>, a: string)
    requires NoDuplicates(accounts)
    ensures var after := AddPositions(positions, accounts);
      && (a in after <==> a in positions || a in accounts)
      && Get(after, a) == Get(positions, a) + if a in accounts then 1 else 0
    decreases |accounts|
  {
    if accounts != [] {
      var b := accounts[0];
      assert accounts == [b] + accounts[1..] && b !in accounts[1..];
      AddedPositions(positions[b := Get(positions, b) + 1], accounts[1..], a);
    }
  }

  /** An account that gives no reason stays within the limits with the new open. */
  lemma NoReasonWithinLimits(s: Snapshot, st: State, riskBps: int, a: string)
    requires AccountReason(s, st, riskBps, a).None?
    ensures a in s.metrics && RiskOf(s.metrics[a], riskBps) > 0
    ensures WithinLimits(s.metrics[a], Get(st.risk, a) + RiskOf(s.metrics[a], riskBps), Get(st.positions, a) + 1)
  {
    hide RiskOf, RatioBps;
  }

  lemma OpenKeepsLimits(s: Snapshot, st: State, intent: Intent)
    requires LimitsKept(s, st.risk, st.positions) && NoDuplicates(intent.accounts)
    requires FirstReason(s, st, intent.riskBps, intent.accounts).None?
    requires forall a :: a in intent.accounts ==> a in s.metrics
    ensures LimitsKept(s, AddRisk(s, st.risk, intent.riskBps, intent.accounts),
                       AddPositions(st.positions, intent.accounts))
  {
    hide AddRisk, AddPositions, WithinLimits, RiskOf, FirstReason, AccountReason;
    var accounts := intent.accounts;
    var risk, positions := AddRisk(s, st.risk, intent.riskBps, accounts), AddPositions(st.positions, accounts);
    NoReasonMeans(s, st, intent.riskBps, accounts);
    forall a ensures a in risk <==> a in positions {
      AddedRisk(s, st.risk, intent.riskBps, accounts, a);
      AddedPositions(st.positions, accounts, a);
      assert a in st.risk.Keys <==> a in st.positions.Keys;
    }
    assert risk.Keys == positions.Keys;
    forall a | a in risk
      ensures a in s.metrics && risk[a] > 0 && positions[a] > 0
              && WithinLimits(s.metrics[a], risk[a], positions[a])
    {
      AddedRisk(s, st.risk, intent.riskBps, accounts, a);
      AddedPositions(st.positions, accounts, a);
      if a in accounts {
        var i :| 0 <= i < |accounts| && accounts[i] == a;
        NoReasonWithinLimits(s, st, intent.riskBps, accounts[i]);
      }
    }
  }

  lemma StepKeepsLimits(s: Snapshot, kill: KillSwitch, force: bool, st: State, c: Command)
    requires LimitsKept(s, st.risk, st.positions) && ValidCommand(c) && Step(s, kill, force, st, c).Some?
    ensures var r := Step(s, kill, force, st, c).value; LimitsKept(s, r.risk, r.positions)
  {
    hide FirstReason, FirstVerdict, AddRisk, AddPositions, OpenStatements, LimitsKept;
    if c.Open? && FirstReason(s, st, c.intent.riskBps, c.intent.accounts).None? {
      AllowedAccountsKnown(s, st, c.intent.riskBps, c.intent.accounts);
      OpenKeepsLimits(s, st, c.intent);
    }
  }

  /** Over a whole batch, no account is taken past two percent of open risk or four positions. */
  lemma {:induction false} BatchKeepsLimits(s: Snapshot, kill: KillSwitch, force: bool, st: State, cs: seq<Command>)
    requires ValidCommands(cs) && LimitsKept(s, st.risk, st.positions) && RunFrom(s, kill, force, st, cs).Some?
    ensures var r := RunFrom(s, kill, force, st, cs).value; LimitsKept(s, r.risk, r.positions)
    decreases |cs|
  {
    hide LimitsKept, Step;
    if cs != [] {
      StepKeepsLimits(s, kill, force, st, cs[0]);
      BatchKeepsLimits(s, kill, force, Step(s, kill, force, st, cs[0]).value, cs[1..]);
    }
  }

  // The totals are those of the statements

  /** How many allocations of the account the statements insert. */
  function AllocationsFor(xs: seq<Statement>, a: string): nat
  {
    if xs == [] then 0
    else AllocationsFor(xs[..|xs| - 1], a) + if IsAllocation(xs[|xs| - 1], a) then 1 else 0
  }

  predicate IsAllocation(x: Statement, a: string)
  {
    x.InsertAllocation? && x.account == a
  }

  /** The risk of the intents that the statements open for the account. */
  function RiskFor(s: Snapshot, xs: seq<Statement>, a: string): int
  {
    if xs == [] then 0
    else RiskFor(s, xs[..|xs| - 1], a) + IntentRisk(s, xs[|xs| - 1], a)
  }

  function IntentRisk(s: Snapshot, x: Statement, a: string): int
  {
    if x.InsertIntent? && a in x.intent.accounts && a in s.metrics then RiskOf(s.metrics[a], x.intent.riskBps) else 0
  }

  ghost predicate Accounted(s: Snapshot, st: State)
  {
    forall a ::
      Get(st.positions, a) == AllocationsFor(st.statements, a) && Get(st.risk, a) == RiskFor(s, st.statements, a)
  }

  lemma {:induction false} AppendTotals(s: Snapshot, xs: seq<Statement>, ys: seq<Statement>, a: string)
    ensures AllocationsFor(xs + ys, a) == AllocationsFor(xs, a) + AllocationsFor(ys, a)
    ensures RiskFor(s, xs + ys, a) == RiskFor(s, xs, a) + RiskFor(s, ys, a)
    decreases |ys|
  {
    hide IntentRisk, IsAllocation;
    if ys == [] {
      assert xs + ys == xs;
    } else {
      AppendTotals(s, xs, ys[..|ys| - 1], a);
      assert (xs + ys)[..|xs + ys| - 1] == xs + ys[..|ys| - 1];
    }
  }

  function AllocationRows(id: string, accounts: seq<string>): seq<Statement>
  {
    seq(|accounts|, i requires 0 <= i < |accounts| => InsertAllocation(id, accounts[i]))
  }

  lemma {:induction false} AllocationRowsTotal(s: Snapshot, id: string, accounts: seq<string>, a: string)
    requires NoDuplicates(accounts)
    ensures AllocationsFor(AllocationRows(id, accounts), a) == if a in accounts then 1 else 0
    ensures RiskFor(s, AllocationRows(id, accounts), a) == 0
    decreases |accounts|
  {
    if accounts != [] {
      var n := |accounts| - 1;
      var rows := AllocationRows(id, accounts);
      AllocationRowsTotal(s, id, accounts[..n], a);
      assert rows[..n] == AllocationRows(id, accounts[..n]);
      assert accounts == accounts[..n] + [accounts[n]];
      assert accounts[n] !in accounts[..n];
    }
  }

  lemma SingleTotals(s: Snapshot, x: Statement, a: string)
    ensures AllocationsFor([x], a) == if IsAllocation(x, a) then 1 else 0
    ensures RiskFor(s, [x], a) == IntentRisk(s, x, a)
  {
    assert [x][..0] == [];
  }

  lemma OpenTotals(s: Snapshot, intent: Intent, a: string)
    requires NoDuplicates(intent.accounts) && forall b :: b in intent.accounts ==> b in s.metrics
    ensures AllocationsFor(OpenStatements(intent), a) == if a in intent.accounts then 1 else 0
    ensures RiskFor(s, OpenStatements(intent), a) ==
              if a in intent.accounts then RiskOf(s.metrics[a], intent.riskBps) else 0
  {
    hide RiskOf;
    var rows := AllocationRows(intent.id, intent.accounts);
    assert OpenStatements(intent) == [InsertIntent(intent)] + rows;
    AppendTotals(s, [InsertIntent(intent)], rows, a);
    SingleTotals(s, InsertIntent(intent), a);
    AllocationRowsTotal(s, intent.id, intent.accounts, a);
  }

  lemma OpenAccounted(s: Snapshot, st: State, intent: Intent, a: string)
    requires Accounted(s, st) && NoDuplicates(intent.accounts) && forall b :: b in intent.accounts ==> b in s.metrics
    ensures var xs := st.statements + OpenStatements(intent);
      && Get(AddPositions(st.positions, intent.accounts), a) == AllocationsFor(xs, a)
      && Get(AddRisk(s, st.risk, intent.riskBps, intent.accounts), a) == RiskFor(s, xs, a)
  {
    hide AddRisk, AddPositions, RiskOf, OpenStatements, AllocationsFor, RiskFor;
    AppendTotals(s, st.statements, OpenStatements(intent), a);
    OpenTotals(s, intent, a);
    AddedRisk(s, st.risk, intent.riskBps, intent.accounts, a);
    AddedPositions(st.positions, intent.accounts, a);
  }

  lemma OtherAccounted(s: Snapshot, st: State, x: Statement, a: string)
    requires Accounted(s, st) && !x.InsertIntent? && !x.InsertAllocation?
    ensures AllocationsFor(st.statements + [x], a) == Get(st.positions, a)
    ensures RiskFor(s, st.statements + [x], a) == Get(st.risk, a)
  {
    hide AllocationsFor, RiskFor;
    AppendTotals(s, st.statements, [x], a);
    SingleTotals(s, x, a);
  }

  lemma StepAccounted(s: Snapshot, kill: KillSwitch, force: bool, st: State, c: Command)
    requires Accounted(s, st) && ValidCommand(c) && Step(s, kill, force, st, c).Some?
    ensures Accounted(s, Step(s, kill, force, st, c).value)
  {
    hide FirstReason, FirstVerdict, AddRisk, AddPositions, OpenStatements, AllocationsFor, RiskFor;
    var r := Step(s, kill, force, st, c).value;
    forall a
      ensures Get(r.positions, a) == AllocationsFor(r.statements, a)
              && Get(r.risk, a) == RiskFor(s, r.statements, a)
    {
      if r.opens > st.opens {
        AllowedAccountsKnown(s, st, c.intent.riskBps, c.intent.accounts);
        OpenAccounted(s, st, c.intent, a);
      } else if r.statements != st.statements {
        OtherAccounted(s, st, r.statements[|st.statements|], a);
      }
    }
  }

  /** The running totals are those of the statements, over a whole batch. */
  lemma {:induction false} BatchIsAccounted(s: Snapshot, kill: KillSwitch, force: bool, st: State, cs: seq<Command>)
    requires ValidCommands(cs) && Accounted(s, st) && RunFrom(s, kill, force, st, cs).Some?
    ensures Accounted(s, RunFrom(s, kill, force, st, cs).value)
    decreases |cs|
  {
    hide Accounted, Step;
    if cs != [] {
      StepAccounted(s, kill, force, st, cs[0]);
      BatchIsAccounted(s, kill, force, Step(s, kill, force, st, cs[0]).value, cs[1..]);
    }
  }

  /**
   Against one snapshot, whatever the commands: each account stays within two
   percent of open risk and four positions, counting every allocation the batch
   inserts for it and the risk of every intent it opens there.
   */
  lemma StatementsWithinLimits(s: Snapshot, kill: KillSwitch, force: bool, cs: seq<Command>, a: string)
    requires ValidCommands(cs) && RunFrom(s, kill, force, Fresh, cs).Some?
    ensures var xs := RunFrom(s, kill, force, Fresh, cs).value.statements;
      AllocationsFor(xs, a) > 0 ==>
        a in s.metrics && WithinLimits(s.metrics[a], RiskFor(s, xs, a), AllocationsFor(xs, a))
  {
    hide RunFrom, WithinLimits;
    BatchKeepsLimits(s, kill, force, Fresh, cs);
    BatchIsAccounted(s, kill, force, Fresh, cs);
  }

  // All or nothing

  /** Every opened intent comes with all its allocations, and no allocation comes alone. */
  ghost predicate Whole(xs: seq<Statement>)
  {
    && (forall i :: 0 <= i < |xs| && xs[i].InsertIntent? ==> FollowedByAll(xs, i))
    && (forall k :: 0 <= k < |xs| && xs[k].InsertAllocation? ==> exists i :: Belongs(xs, i, k))
  }

  predicate FollowedByAll(xs: seq<Statement>, i: int)
    requires 0 <= i < |xs| && xs[i].InsertIntent?
  {
    var intent := xs[i].intent;
    i + |intent.accounts| < |xs|
    && forall j :: 0 <= j < |intent.accounts| ==> xs[i + 1 + j] == InsertAllocation(intent.id, intent.accounts[j])
  }

  predicate Belongs(xs: seq<Statement>, i: int, k: int)
    requires 0 <= k < |xs|
  {
    0 <= i < k && xs[i].InsertIntent? && k - i - 1 < |xs[i].intent.accounts|
    && xs[k] == InsertAllocation(xs[i].intent.id, xs[i].intent.accounts[k - i - 1])
  }

  lemma WholeAppend(xs: seq<Statement>, ys: seq<Statement>)
    requires Whole(xs) && Whole(ys)
    ensures Whole(xs + ys)
  {
    var zs := xs + ys;
    forall i | 0 <= i < |zs| && zs[i].InsertIntent? ensures FollowedByAll(zs, i) {
      if i < |xs| {
        assert FollowedByAll(xs, i);
      } else {
        assert FollowedByAll(ys, i - |xs|);
        forall j | 0 <= j < |zs[i].intent.accounts|
          ensures zs[i + 1 + j] == InsertAllocation(zs[i].intent.id, zs[i].intent.accounts[j])
        {
          assert ys[i - |xs| + 1 + j] == zs[i + 1 + j];
        }
      }
    }
    forall k | 0 <= k < |zs| && zs[k].InsertAllocation? ensures exists i :: Belongs(zs, i, k) {
      if k < |xs| {
        var i :| Belongs(xs, i, k);
        assert Belongs(zs, i, k);
      } else {
        var i :| Belongs(ys, i, k - |xs|);
        assert Belongs(zs, i + |xs|, k);
      }
    }
  }

  lemma OpenIsWhole(intent: Intent)
    ensures Whole(OpenStatements(intent))
  {
    var xs := OpenStatements(intent);
    assert FollowedByAll(xs, 0);
    forall k | 0 <= k < |xs| && xs[k].InsertAllocation? ensures exists i :: Belongs(xs, i, k) {
      assert Belongs(xs, 0, k);
    }
  }

  lemma {:induction false} OpensAreWhole(s: Snapshot, kill: KillSwitch, force: bool, st: State, cs: seq<Command>)
    requires Whole(st.statements) && RunFrom(s, kill, force, st, cs).Some?
    ensures Whole(RunFrom(s, kill, force, st, cs).value.statements)
    decreases |cs|
  {
    hide Whole, Step;
    if cs != [] {
      StepIsWhole(s, kill, force, st, cs[0]);
      OpensAreWhole(s, kill, force, Step(s, kill, force, st, cs[0]).value, cs[1..]);
    }
  }

  lemma OtherIsWhole(x: Statement)
    requires !x.InsertIntent? && !x.InsertAllocation?
    ensures Whole([x])
  {
  }

  lemma StepIsWhole(s: Snapshot, kill: KillSwitch, force: bool, st: State, c: Command)
    requires Whole(st.statements) && Step(s, kill, force, st, c).Some?
    ensures Whole(Step(s, kill, force, st, c).value.statements)
  {
    hide FirstReason, FirstVerdict, AddRisk, AddPositions, OpenStatements, Whole;
    var r := Step(s, kill, force, st, c).value;
    if r.opens > st.opens {
      OpenIsWhole(c.intent);
      WholeAppend(st.statements, OpenStatements(c.intent));
    } else if r.statements != st.statements {
      var x := r.statements[|st.statements|];
      OtherIsWhole(x);
      WholeAppend(st.statements, [x]);
      assert r.statements == st.statements + [x];
    }
  }

  // Settlements and the safety gate

  function Settlements(xs: seq<Statement>): seq<Statement>
  {
    if xs == [] then []
    else
      Settlements(xs[..|xs| - 1]) + if xs[|xs| - 1].InsertSettlement? then [xs[|xs| - 1]] else []
  }

  lemma {:induction false} SettlementsAppend(xs: seq<Statement>, ys: seq<Statement>)
    ensures Settlements(xs + ys) == Settlements(xs) + Settlements(ys)
    decreases |ys|
  {
    if ys == [] {
      assert xs + ys == xs;
    } else {
      SettlementsAppend(xs, ys[..|ys| - 1]);
      assert (xs + ys)[..|xs + ys| - 1] == xs + ys[..|ys| - 1];
    }
  }

  lemma {:induction false} NoSettlements(xs: seq<Statement>)
    requires forall i :: 0 <= i < |xs| ==> !xs[i].InsertSettlement?
    ensures Settlements(xs) == []
    decreases |xs|
  {
    if xs != [] {
      NoSettlements(xs[..|xs| - 1]);
    }
  }

  /** The settling side of two states is the same. */
  predicate SameSettling(st: State, st': State)
  {
    st.settles == st'.settles && Settlements(st.statements) == Settlements(st'.statements)
  }

  lemma OpenDoesNotSettle(s: Snapshot, kill: KillSwitch, force: bool, st: State, intent: Intent)
    ensures SameSettling(st, OpenStep(s, kill, force, st, intent))
  {
    hide FirstReason, AddRisk, AddPositions, Settlements;
    var r := OpenStep(s, kill, force, st, intent);
    if r.opens > st.opens {
      SettlementsAppend(st.statements, OpenStatements(intent));
      NoSettlements(OpenStatements(intent));
    } else if r.statements != st.statements {
      var x := r.statements[|st.statements|];
      SettlementsAppend(st.statements, [x]);
      NoSettlements([x]);
    }
  }

  lemma SettleAlike(s: Snapshot, st: State, st': State, id: string, digest: nat, outcome: int)
    requires SameSettling(st, st')
    ensures SettleStep(s, st, id, digest, outcome).Some? <==> SettleStep(s, st', id, digest, outcome).Some?
    ensures SettleStep(s, st, id, digest, outcome).Some? ==>
              SameSettling(SettleStep(s, st, id, digest, outcome).value, SettleStep(s, st', id, digest, outcome).value)
  {
    hide FirstVerdict, Settlements;
    SettlementsAppend(st.statements, [InsertSettlement(id, outcome)]);
    SettlementsAppend(st'.statements, [InsertSettlement(id, outcome)]);
  }

  /**
   The two states agree on everything but which OPEN commands were let through: the
   settlements, the duplicates, the conflicts, and what was opened or blocked taken together.
   */
  predicate SameButForOpens(st: State, st': State)
  {
    && SameSettling(st, st') && st.duplicates == st'.duplicates && st.conflicts == st'.conflicts
    && st.opens + st.blocked == st'.opens + st'.blocked
  }

  /** On an OPEN the gate decides at most between opened and blocked. */
  lemma OpenAlike(
    s: Snapshot, kill: KillSwitch, force: bool, kill': KillSwitch, force': bool, st: State, st': State,
    intent: Intent)
    requires SameButForOpens(st, st')
    ensures SameButForOpens(OpenStep(s, kill, force, st, intent), OpenStep(s, kill', force', st', intent))
  {
    hide FirstReason, AddRisk, AddPositions, Settlements, OpenStatements;
    OpenDoesNotSettle(s, kill, force, st, intent);
    OpenDoesNotSettle(s, kill', force', st', intent);
  }

  /** A SETTLE ends in the same way, with the same counts and statement, whatever was opened before it. */
  lemma SettleResultAlike(s: Snapshot, st: State, st': State, id: string, digest: nat, outcome: int)
    requires SameButForOpens(st, st')
    ensures var next, next' := SettleStep(s, st, id, digest, outcome), SettleStep(s, st', id, digest, outcome);
      && (next.Some? <==> next'.Some?)
      && (next.Some? ==>
            && SameButForOpens(next.value, next'.value)
            && next.value.settles - st.settles == next'.value.settles - st'.settles
            && next.value.duplicates - st.duplicates == next'.value.duplicates - st'.duplicates
            && next.value.blocked - st.blocked == next'.value.blocked - st'.blocked
            && next.value.conflicts - st.conflicts == next'.value.conflicts - st'.conflicts
            && next.value.opens == st.opens && next'.value.opens == st'.opens)
  {
    hide FirstVerdict, Settlements;
    SettleAlike(s, st, st', id, digest, outcome);
  }

  /**
   Whatever the kill switch and the force flag: the same batches fail, every SETTLE ends
   as settled, duplicate, blocked or conflict alike, and the gate only moves OPEN commands
   between opened and blocked.
   */
  lemma {:induction false} SettlingIgnoresGate(
    s: Snapshot, kill: KillSwitch, force: bool, kill': KillSwitch, force': bool, st: State, st': State,
    cs: seq<Command>)
    requires SameButForOpens(st, st')
    ensures RunFrom(s, kill, force, st, cs).Some? <==> RunFrom(s, kill', force', st', cs).Some?
    ensures RunFrom(s, kill, force, st, cs).Some? ==>
              SameButForOpens(RunFrom(s, kill, force, st, cs).value, RunFrom(s, kill', force', st', cs).value)
    decreases |cs|
  {
    hide SettleStep, OpenStep, SameButForOpens;
    if cs != [] {
      match cs[0]
      case Open(intent) =>
        OpenAlike(s, kill, force, kill', force', st, st', intent);
        var next, next' := OpenStep(s, kill, force, st, intent), OpenStep(s, kill', force', st', intent);
        SettlingIgnoresGate(s, kill, force, kill', force', next, next', cs[1..]);
      case Settle(id, digest, outcome) =>
        SettleResultAlike(s, st, st', id, digest, outcome);
        if SettleStep(s, st, id, digest, outcome).Some? {
          SettlingIgnoresGate(s, kill, force, kill', force', SettleStep(s, st, id, digest, outcome).value,
                              SettleStep(s, st', id, digest, outcome).value, cs[1..]);
        }
    }
  }

  /** A closed gate lets nothing open. */
  lemma {:induction false} ClosedGateOpensNothing(
    s: Snapshot, kill: KillSwitch, force: bool, st: State, cs: seq<Command>)
    requires (force || kill != Off) && RunFrom(s, kill, force, st, cs).Some?
    ensures var r := RunFrom(s, kill, force, st, cs).value;
      r.opens == st.opens && r.risk == st.risk && r.positions == st.positions
    decreases |cs|
  {
    hide Step;
    if cs != [] {
      ClosedGateStep(s, kill, force, st, cs[0]);
      ClosedGateOpensNothing(s, kill, force, Step(s, kill, force, st, cs[0]).value, cs[1..]);
    }
  }

  lemma ClosedGateStep(s: Snapshot, kill: KillSwitch, force: bool, st: State, c: Command)
    requires (force || kill != Off) && Step(s, kill, force, st, c).Some?
    ensures var r := Step(s, kill, force, st, c).value;
      r.opens == st.opens && r.risk == st.risk && r.positions == st.positions
  {
    hide FirstReason, FirstVerdict, AddRisk, AddPositions, OpenStatements;
  }
}
