/**
 The paper-trading batch allocator: against one snapshot of the ledger, each
 command of a batch is opened, settled, recognised as a duplicate, or blocked.
 */
module Paper {
  import opened Common

  const MAX_DAILY_LOSS_BPS: int := 500
  const MAX_DRAWDOWN_BPS: int := 1000
  const MAX_OPEN_RISK_BPS: int := 200
  const MAX_OPEN_POSITIONS: int := 4

  datatype Metric = Metric(
    openingBalance: int, balance: int, dailyPnl: int, openRisk: int, openPositions: int, maxDrawdown: int)

  datatype Intent = Intent(id: string, digest: nat, riskBps: int, accounts: seq<string>)

  datatype Command =
    | Open(intent: Intent)
    | Settle(intentId: string, digest: nat, outcome: int)

  datatype Allocation = Allocation(account: string, risk: int)

  datatype Projection = Projection(openingBalance: int, ledgerDelta: int, balance: int, lastSequence: int)

  /** A stored trade: its payload digest, its allocations, and the digest of its settlement. */
  datatype Bundle = Bundle(digest: nat, allocations: seq<Allocation>, settlement: Option<nat>)

  /** What the batch reads; nothing it writes is visible to it. */
  datatype Snapshot = Snapshot(
    bundles: map<string, Bundle>, blockedIntents: map<string, nat>, metrics: map<string, Metric>,
    projections: map<string, Projection>)

  datatype KillSwitch = Off | On | Unavailable

  datatype Reason =
    | SafetyGateRace | KillSwitchEnabled | AccountNotFound | NonPositiveBalance | RiskLimitReached

  datatype Statement =
    | InsertIntent(intent: Intent)
    | InsertAllocation(intentId: string, account: string)
    | InsertBlocked(intentId: string, reason: Reason)
    | InsertSettlement(intentId: string, outcome: int)

  type Amounts = map<string, int>

  /** The counters, the statements, and the risk and positions given out so far. */
  datatype State = State(
    statements: seq<Statement>, opens: nat, settles: nat, duplicates: nat, blocked: nat, conflicts: nat,
    risk: Amounts, positions: Amounts)

  const Fresh := State([], 0, 0, 0, 0, 0, map[], map[])

  // Readiness

  /** BigInt division, towards zero. */
  function Quotient(a: int, b: int): int
    requires b > 0
  {
    if a >= 0 then a / b else -((-a) / b)
  }

  function RatioBps(numerator: int, denominator: int): int
  {
    if numerator <= 0 || denominator <= 0 then 0 else Min(MAX_SAFE, Quotient(numerator * 10000, denominator))
  }

  predicate RatioExceeds(numerator: int, denominator: int, limit: int)
  {
    numerator > 0 && denominator > 0 && numerator * 10000 > denominator * limit
  }

  /** `accountReport` finds no reason to stop. */
  predicate Ready(m: Metric)
  {
    && m.balance > 0
    && RatioBps(Max(0, -m.dailyPnl), m.openingBalance) < MAX_DAILY_LOSS_BPS
    && RatioBps(m.maxDrawdown, m.openingBalance) < MAX_DRAWDOWN_BPS
    && !RatioExceeds(m.openRisk, m.balance, MAX_OPEN_RISK_BPS)
    && m.openPositions <= MAX_OPEN_POSITIONS
  }

  /** `paperAccountAllowsNewOpen`. */
  predicate AllowsOpen(m: Metric, risk: int, positions: int)
  {
    && Safe(risk) && risk > 0 && Safe(positions) && positions >= 1
    && Safe(m.openRisk + risk) && Safe(m.openPositions + positions)
    && Ready(m.(openRisk := m.openRisk + risk, openPositions := m.openPositions + positions))
  }

  /** `paperReadinessAccountInputIsSafe`. */
  predicate MetricSafe(m: Metric)
  {
    && Safe(m.openingBalance) && m.openingBalance > 0 && Safe(m.balance) && Safe(m.dailyPnl)
    && SafeNat(m.openRisk) && SafeNat(m.openPositions) && SafeNat(m.maxDrawdown)
  }

  // Opening

  function Get(amounts: Amounts, account: string): int
  {
    if account in amounts then amounts[account] else 0
  }

  function RiskOf(m: Metric, riskBps: int): int
  {
    Quotient(m.balance * riskBps, 10000)
  }

  /** Why one account of an intent cannot take it; `None` if it can. */
  function AccountReason(s: Snapshot, st: State, riskBps: int, account: string): Option<Reason>
  {
    if account !in s.metrics then Some(AccountNotFound)
    else
      var m := s.metrics[account];
      var risk := RiskOf(m, riskBps);
      if !MetricSafe(m) then Some(SafetyGateRace)
      else if risk <= 0 then Some(NonPositiveBalance)
      else if risk > MAX_SAFE then Some(RiskLimitReached)
      else if !AllowsOpen(m, Get(st.risk, account) + risk, Get(st.positions, account) + 1) then Some(RiskLimitReached)
      else None
  }

  /** The first reason along the accounts of an intent. */
  function FirstReason(s: Snapshot, st: State, riskBps: int, accounts: seq<string>): Option<Reason>
  {
    if accounts == [] then None
    else
      var reason := AccountReason(s, st, riskBps, accounts[0]);
      if reason.Some? then reason else FirstReason(s, st, riskBps, accounts[1..])
  }

  function GateReason(kill: KillSwitch, force: bool): Option<Reason>
  {
    if force || kill == Unavailable then Some(SafetyGateRace)
    else if kill == On then Some(KillSwitchEnabled)
    else None
  }

  function AddRisk(s: Snapshot, risk: Amounts, riskBps: int, accounts: seq<string>): Amounts
    requires forall a :: a in accounts ==> a in s.metrics
    decreases |accounts|
  {
    if accounts == [] then risk
    else
      var a := accounts[0];
      AddRisk(s, risk[a := Get(risk, a) + RiskOf(s.metrics[a], riskBps)], riskBps, accounts[1..])
  }

  function AddPositions(positions: Amounts, accounts: seq<string>): Amounts
    decreases |accounts|
  {
    if accounts == [] then positions
    else AddPositions(positions[accounts[0] := Get(positions, accounts[0]) + 1], accounts[1..])
  }

  function OpenStatements(intent: Intent): seq<Statement>
  {
    [InsertIntent(intent)]
    + seq(|intent.accounts|, i requires 0 <= i < |intent.accounts| => InsertAllocation(intent.id, intent.accounts[i]))
  }

  lemma {:induction false} NoReasonMeans(s: Snapshot, st: State, riskBps: int, accounts: seq<string>)
    ensures FirstReason(s, st, riskBps, accounts).None? <==>
              forall i :: 0 <= i < |accounts| ==> AccountReason(s, st, riskBps, accounts[i]).None?
  {
    hide AccountReason;
    if accounts != [] {
      NoReasonMeans(s, st, riskBps, accounts[1..]);
      assert forall i :: 1 <= i < |accounts| ==> accounts[i] == accounts[1..][i - 1];
    }
  }

  lemma AllowedAccountsKnown(s: Snapshot, st: State, riskBps: int, accounts: seq<string>)
    requires FirstReason(s, st, riskBps, accounts).None?
    ensures forall a :: a in accounts ==> a in s.metrics
  {
    NoReasonMeans(s, st, riskBps, accounts);
    forall a | a in accounts ensures a in s.metrics {
      var i :| 0 <= i < |accounts| && accounts[i] == a;
      assert AccountReason(s, st, riskBps, accounts[i]).None?;
    }
  }

  function OpenStep(s: Snapshot, kill: KillSwitch, force: bool, st: State, intent: Intent): State
  {
    var gate := GateReason(kill, force);
    if intent.id in s.bundles then
      if s.bundles[intent.id].digest != intent.digest
      then st.(blocked := st.blocked + 1, conflicts := st.conflicts + 1)
      else st.(duplicates := st.duplicates + 1)
    else if intent.id in s.blockedIntents then
      if s.blockedIntents[intent.id] != intent.digest
      then st.(blocked := st.blocked + 1, conflicts := st.conflicts + 1)
      else st.(blocked := st.blocked + 1)
    else
      var reason := if gate.Some? then gate else FirstReason(s, st, intent.riskBps, intent.accounts);
      if reason.Some? then
        st.(blocked := st.blocked + 1, statements := st.statements + [InsertBlocked(intent.id, reason.value)])
      else
        AllowedAccountsKnown(s, st, intent.riskBps, intent.accounts);
        st.(opens := st.opens + 1, statements := st.statements + OpenStatements(intent),
            risk := AddRisk(s, st.risk, intent.riskBps, intent.accounts),
            positions := AddPositions(st.positions, intent.accounts))
  }

  // Settling

  /** `projectionIsSafe`. */
  predicate ProjectionSafe(p: Projection)
  {
    Safe(p.openingBalance) && Safe(p.ledgerDelta) && Safe(p.balance) && SafeNat(p.lastSequence)
  }

  /** `simulationPnlMinor`. */
  function Pnl(risk: int, outcome: int): int
  {
    Quotient(risk * outcome, 1000)
  }

  datatype Verdict = Clear | Stopped | Broken

  /** One allocation of a settlement; `Broken` is an exception that ends the whole batch. */
  function AllocationVerdict(s: Snapshot, a: Allocation, outcome: int): Verdict
  {
    if a.account !in s.projections || !ProjectionSafe(s.projections[a.account]) then Stopped
    else if !Safe(Pnl(a.risk, outcome)) then Broken
    else if !Safe(s.projections[a.account].balance + Pnl(a.risk, outcome)) then Stopped
    else Clear
  }

  /** The first verdict that is not clear. */
  function FirstVerdict(s: Snapshot, allocations: seq<Allocation>, outcome: int): Verdict
  {
    if allocations == [] then Clear
    else
      var v := AllocationVerdict(s, allocations[0], outcome);
      if v != Clear then v else FirstVerdict(s, allocations[1..], outcome)
  }

  function SettleStep(s: Snapshot, st: State, id: string, digest: nat, outcome: int): Option<State>
  {
    var conflict := Some(st.(blocked := st.blocked + 1, conflicts := st.conflicts + 1));
    if id !in s.bundles then
      if id in s.blockedIntents then Some(st.(blocked := st.blocked + 1)) else conflict
    else
      var b := s.bundles[id];
      if b.settlement.Some? then
        if b.settlement.value != digest then conflict else Some(st.(duplicates := st.duplicates + 1))
      else
        match FirstVerdict(s, b.allocations, outcome)
        case Broken => None
        case Stopped => conflict
        case Clear =>
          Some(st.(settles := st.settles + 1, statements := st.statements + [InsertSettlement(id, outcome)]))
  }

  // The batch

  function Step(s: Snapshot, kill: KillSwitch, force: bool, st: State, c: Command): Option<State>
  {
    match c
    case Open(intent) => Some(OpenStep(s, kill, force, st, intent))
    case Settle(id, digest, outcome) => SettleStep(s, st, id, digest, outcome)
  }

  /** `preparePaperAutomation` from a given state; `None` is an exception. */
  function RunFrom(s: Snapshot, kill: KillSwitch, force: bool, st: State, cs: seq<Command>): Option<State>
    decreases |cs|
  {
    if cs == [] then Some(st)
    else
      var next := Step(s, kill, force, st, cs[0]);
      if next.None? then None else RunFrom(s, kill, force, next.value, cs[1..])
  }

  /** The accounts of an open, one after the other, up to the first that cannot take it. */
  method CheckAccounts(s: Snapshot, st: State, intent: Intent) returns (reason: Option<Reason>)
    ensures reason == FirstReason(s, st, intent.riskBps, intent.accounts)
  {
    hide AccountReason;
    var accounts := intent.accounts;
    for n := 0 to |accounts|
      invariant FirstReason(s, st, intent.riskBps, accounts) == FirstReason(s, st, intent.riskBps, accounts[n..])
    {
      assert accounts[n..][1..] == accounts[n + 1..];
      reason := AccountReason(s, st, intent.riskBps, accounts[n]);
      if reason.Some? {
        return;
      }
    }
    return None;
  }

  method CheckAllocations(s: Snapshot, allocations: seq<Allocation>, outcome: int) returns (v: Verdict)
    ensures v == FirstVerdict(s, allocations, outcome)
  {
    hide AllocationVerdict;
    for n := 0 to |allocations|
      invariant FirstVerdict(s, allocations, outcome) == FirstVerdict(s, allocations[n..], outcome)
    {
      assert allocations[n..][1..] == allocations[n + 1..];
      v := AllocationVerdict(s, allocations[n], outcome);
      if v != Clear {
        return;
      }
    }
    return Clear;
  }

  /** The allocator as written: counters, statements and per-account totals updated command by command. */
  class Allocator {
    var statements: seq<Statement>
    var opens: nat
    var settles: nat
    var duplicates: nat
    var blocked: nat
    var conflicts: nat
    var risk: Amounts
    var positions: Amounts

    constructor ()
      ensures Value() == Fresh
    {
      statements, opens, settles, duplicates, blocked, conflicts := [], 0, 0, 0, 0, 0;
      risk, positions := map[], map[];
    }

    function Value(): State
      reads this
    {
      State(statements, opens, settles, duplicates, blocked, conflicts, risk, positions)
    }

    method OpenCommand(s: Snapshot, kill: KillSwitch, force: bool, intent: Intent)
      modifies this
      ensures Value() == OpenStep(s, kill, force, old(Value()), intent)
    {
      hide FirstReason, AddRisk, AddPositions;
      if intent.id in s.bundles {
        if s.bundles[intent.id].digest != intent.digest {
          blocked, conflicts := blocked + 1, conflicts + 1;
        } else {
          duplicates := duplicates + 1;
        }
        return;
      }
      if intent.id in s.blockedIntents {
        if s.blockedIntents[intent.id] != intent.digest {
          conflicts := conflicts + 1;
        }
        blocked := blocked + 1;
        return;
      }
      var reason := GateReason(kill, force);
      if reason.None? {
        reason := CheckAccounts(s, Value(), intent);
      }
      if reason.Some? {
        statements := statements + [InsertBlocked(intent.id, reason.value)];
        blocked := blocked + 1;
        return;
      }
      AllowedAccountsKnown(s, Value(), intent.riskBps, intent.accounts);
      Charge(s, intent);
      statements := statements + OpenStatements(intent);
      opens := opens + 1;
    }

    /** Adds the risk and the position of an accepted intent to each of its accounts. */
    method Charge(s: Snapshot, intent: Intent)
      requires forall a :: a in intent.accounts ==> a in s.metrics
      modifies this`risk, this`positions
      ensures risk == AddRisk(s, old(risk), intent.riskBps, intent.accounts)
      ensures positions == AddPositions(old(positions), intent.accounts)
    {
      hide RiskOf;
      var accounts := intent.accounts;
      for n := 0 to |accounts|
        invariant AddRisk(s, risk, intent.riskBps, accounts[n..]) == AddRisk(s, old(risk), intent.riskBps, accounts)
        invariant AddPositions(positions, accounts[n..]) == AddPositions(old(positions), accounts)
      {
        assert accounts[n..][1..] == accounts[n + 1..];
        var a := accounts[n];
        risk := risk[a := Get(risk, a) + RiskOf(s.metrics[a], intent.riskBps)];
        positions := positions[a := Get(positions, a) + 1];
      }
    }

    method SettleCommand(s: Snapshot, id: string, digest: nat, outcome: int) returns (ok: bool)
      modifies this
      ensures ok <==> SettleStep(s, old(Value()), id, digest, outcome).Some?
      ensures ok ==> SettleStep(s, old(Value()), id, digest, outcome) == Some(Value())
    {
      hide FirstVerdict;
      if id !in s.bundles {
        if id !in s.blockedIntents {
          conflicts := conflicts + 1;
        }
        blocked := blocked + 1;
        return true;
      }
      var b := s.bundles[id];
      if b.settlement.Some? {
        if b.settlement.value != digest {
          blocked, conflicts := blocked + 1, conflicts + 1;
        } else {
          duplicates := duplicates + 1;
        }
        return true;
      }
      var verdict := CheckAllocations(s, b.allocations, outcome);
      if verdict == Broken {
        return false;
      }
      if verdict == Stopped {
        blocked, conflicts := blocked + 1, conflicts + 1;
        return true;
      }
      statements := statements + [InsertSettlement(id, outcome)];
      settles := settles + 1;
      return true;
    }

    /** `preparePaperAutomation`. */
    method Prepare(s: Snapshot, kill: KillSwitch, force: bool, cs: seq<Command>) returns (ok: bool)
      modifies this
      ensures ok <==> RunFrom(s, kill, force, old(Value()), cs).Some?
      ensures ok ==> RunFrom(s, kill, force, old(Value()), cs) == Some(Value())
    {
      hide OpenStep, SettleStep;
      for n := 0 to |cs|
        invariant RunFrom(s, kill, force, old(Value()), cs) == RunFrom(s, kill, force, Value(), cs[n..])
      {
        assert cs[n..][1..] == cs[n + 1..];
        match cs[n]
        case Open(intent) => OpenCommand(s, kill, force, intent);
        case Settle(id, digest, outcome) =>
          var fine := SettleCommand(s, id, digest, outcome);
          if !fine {
            return false;
          }
      }
      return true;
    }
  }
}
