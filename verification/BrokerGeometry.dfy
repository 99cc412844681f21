/**
 Reconstruction of a candidate's geometry from a broker's own bars, on a tick grid
 that may differ from the candidate's. All comparisons are exact, in price units.
 */
module BrokerGeometry {
  import opened Common
  import opened ExactPrice

  datatype Side = Long | Short

  datatype Symbol = Eurusd | Gbpjpy | Usdjpy | Xauusd | Nas100

  datatype Bar = Bar(openEpoch: int, closeEpoch: int, open: int, high: int, low: int, close: int)

  /** Tick sizes are in price units. */
  datatype Candidate = Candidate(
    symbol: Symbol, tick: nat, side: Side, zoneTop: int, zoneBottom: int, zoneActive: int, engagement: Bar,
    source: Bar, buffer: int, entry: int, stop: int, risk: int, target: int, observedAt: int)

  datatype Capability = Capability(
    digest: nat, profile: nat, symbol: Symbol, brokerSymbol: string, sourceTick: nat, brokerTick: nat,
    sourceBuffer: int, brokerBuffer: int, tolerance: int)

  datatype Timeframe = M5 | M1

  datatype Evidence = Evidence(
    capability: nat, profile: nat, symbol: Symbol, brokerSymbol: string, timeframe: Timeframe, bars: seq<Bar>,
    observedAt: int)

  datatype Geometry = Geometry(
    engagementOpen: int, sourceClose: int, entry: int, wick: int, stop: int, risk: int, target: int, divergence: int)

  datatype Outcome =
    | Match(geometry: Geometry)
    | CapabilityMismatch
    | GeometryMismatch
    | EvidenceMissing
    | EvidenceGap

  function PolicyBuffer(s: Symbol): int
  {
    match s case Eurusd => 2 case Gbpjpy => 3 case Usdjpy => 2 case Xauusd => 5 case Nas100 => 10
  }

  function PolicyTolerance(s: Symbol): int
  {
    match s case Eurusd => 3 case Gbpjpy => 5 case Usdjpy => 5 case Xauusd => 10 case Nas100 => 20
  }

  // Validation

  function Duration(t: Timeframe): int
  {
    if t == M5 then 300 else 60
  }

  predicate ValidBar(b: Bar, duration: int)
    requires duration > 0
  {
    && SafeNat(b.openEpoch) && SafeNat(b.closeEpoch) && Safe(b.open) && Safe(b.high) && Safe(b.low) && Safe(b.close)
    && b.openEpoch % duration == 0 && b.closeEpoch - b.openEpoch == duration
    && b.low <= b.open <= b.high && b.low <= b.close <= b.high
  }

  /** Signed by the side: up for long, down for short. */
  function Toward(side: Side, from: int, distance: int): int
  {
    if side == Long then from + distance else from - distance
  }

  function Wick(side: Side, b: Bar): int
  {
    if side == Long then b.low else b.high
  }

  /** `validateExecutionCandidateV2`, over the fields modelled here. */
  predicate ValidCandidate(c: Candidate)
  {
    && c.tick > 0 && ValidBar(c.engagement, 300) && ValidBar(c.source, 300)
    && Safe(c.zoneTop) && Safe(c.zoneBottom) && SafeNat(c.zoneActive) && SafeNat(c.observedAt)
    && Safe(c.entry) && Safe(c.stop) && Safe(c.target) && Safe(c.risk) && c.risk >= 1
    && c.buffer == PolicyBuffer(c.symbol)
    && c.zoneTop > c.zoneBottom && c.engagement.high >= c.zoneBottom && c.engagement.low <= c.zoneTop
    && c.zoneActive % 300 == 0 && c.zoneActive <= c.engagement.openEpoch && c.zoneActive < c.source.closeEpoch
    && c.engagement.closeEpoch <= c.source.closeEpoch <= c.observedAt <= c.source.closeEpoch + 30
    && c.stop == Toward(c.side, Wick(c.side, c.engagement), -c.buffer)
    && c.risk == (if c.side == Long then c.entry - c.stop else c.stop - c.entry)
    && c.target == Toward(c.side, c.entry, 4 * c.risk) && c.entry == c.source.close
    && (c.side == Long ==> c.source.close > c.source.open && c.source.close > c.zoneTop)
    && (c.side == Short ==> c.source.close < c.source.open && c.source.close < c.zoneBottom)
  }

  /** `validateBrokerSymbolCapabilityV1`: the buffer is the policy's, rounded up onto the broker's grid. */
  predicate ValidCapability(k: Capability)
  {
    && k.sourceTick > 0 && k.brokerTick > 0
    && k.sourceBuffer == PolicyBuffer(k.symbol) && k.tolerance == PolicyTolerance(k.symbol)
    && k.brokerBuffer == CeilTicks(k.sourceBuffer * k.sourceTick, k.brokerTick) && Safe(k.brokerBuffer)
  }

  predicate BarsValid(e: Evidence)
  {
    && 1 <= |e.bars| <= 512 && SafeNat(e.observedAt)
    && (forall i :: 0 <= i < |e.bars| ==> ValidBar(e.bars[i], Duration(e.timeframe)))
    && var last := e.bars[|e.bars| - 1].closeEpoch; last <= e.observedAt <= last + 30
  }

  /** Bar `i` starts where the one before it ends. */
  predicate Adjoins(bars: seq<Bar>, i: int)
    requires 0 < i < |bars|
  {
    bars[i].openEpoch == bars[i - 1].closeEpoch
  }

  predicate Contiguous(bars: seq<Bar>)
  {
    forall i :: 0 < i < |bars| ==> Adjoins(bars, i)
  }

  predicate Apart(bars: seq<Bar>)
  {
    forall i :: 0 < i < |bars| ==> bars[i].openEpoch >= bars[i - 1].closeEpoch
  }

  /** Valid evidence has no gap; otherwise gaps between bars are its only fault. */
  predicate ValidEvidence(e: Evidence)
  {
    BarsValid(e) && Apart(e.bars)
  }

  /** The index loop of `validateBrokerBarEvidenceV1`, and the fallback for gaps. */
  method CheckEvidence(e: Evidence) returns (valid: bool, gap: bool)
    ensures valid <==> ValidEvidence(e)
    ensures valid ==> (gap <==> !Contiguous(e.bars))
  {
    hide ValidBar, Adjoins;
    valid, gap := false, false;
    var bars := e.bars;
    if |bars| < 1 || |bars| > 512 || !SafeNat(e.observedAt) {
      return;
    }
    for i := 0 to |bars|
      invariant forall k :: 0 <= k < i ==> ValidBar(bars[k], Duration(e.timeframe))
      invariant forall k :: 0 < k < i ==> bars[k].openEpoch >= bars[k - 1].closeEpoch
      invariant gap <==> exists k :: 0 < k < i && !Adjoins(bars, k)
    {
      if !ValidBar(bars[i], Duration(e.timeframe)) {
        return;
      }
      if i > 0 && bars[i].openEpoch < bars[i - 1].closeEpoch {
        return;
      }
      gap := gap || (i > 0 && !Adjoins(bars, i));
    }
    var last := bars[|bars| - 1].closeEpoch;
    valid := last <= e.observedAt <= last + 30;
  }

  // The reconstruction, declaratively

  predicate Comparable(c: Candidate, e: Evidence, k: Capability)
  {
    && c.symbol == k.symbol == e.symbol && c.tick == k.sourceTick && e.brokerSymbol == k.brokerSymbol
    && e.profile == k.profile && e.timeframe == M5 && e.capability == k.digest
  }

  predicate Covered(c: Candidate, e: Evidence)
    requires e.bars != []
  {
    var first, last := e.bars[0], e.bars[|e.bars| - 1];
    && first.openEpoch <= c.zoneActive && last.closeEpoch >= c.source.closeEpoch
    && Abs(last.closeEpoch - c.observedAt) <= 30
  }

  predicate InWindow(c: Candidate, b: Bar)
  {
    b.openEpoch >= c.zoneActive && b.closeEpoch <= c.source.closeEpoch
  }

  predicate Touches(c: Candidate, tick: nat, b: Bar)
  {
    b.low * tick <= c.zoneTop * c.tick && b.high * tick >= c.zoneBottom * c.tick
  }

  /** The bar closes in the candidate's direction, beyond the zone. */
  predicate Directional(c: Candidate, tick: nat, b: Bar)
  {
    if c.side == Long then b.close * tick > b.open * tick && b.close * tick > c.zoneTop * c.tick
    else b.close * tick < b.open * tick && b.close * tick < c.zoneBottom * c.tick
  }

  /** The bar closes back at or through the zone. */
  predicate Invalidates(c: Candidate, tick: nat, b: Bar)
  {
    if c.side == Long then b.close * tick <= c.zoneTop * c.tick else b.close * tick >= c.zoneBottom * c.tick
  }

  predicate Waits(c: Candidate, tick: nat, b: Bar)
  {
    !Directional(c, tick, b) && !Invalidates(c, tick, b)
  }

  predicate Candidacy(c: Candidate, tick: nat, b: Bar)
  {
    InWindow(c, b) && Touches(c, tick, b)
  }

  /** The first bar of the window that touches the zone. */
  predicate FirstTouch(c: Candidate, tick: nat, bars: seq<Bar>, i: int)
  {
    0 <= i < |bars| && Candidacy(c, tick, bars[i]) && forall n :: 0 <= n < i ==> !Candidacy(c, tick, bars[n])
  }

  /** From the engagement on, the first bar of the window that does not wait, if it closes in direction. */
  predicate FirstClose(c: Candidate, tick: nat, bars: seq<Bar>, i: int, j: int)
  {
    && 0 <= i <= j < |bars| && InWindow(c, bars[j]) && Directional(c, tick, bars[j])
    && forall n :: i <= n < j && InWindow(c, bars[n]) ==> Waits(c, tick, bars[n])
  }

  function GeometryOf(c: Candidate, k: Capability, engagement: Bar, source: Bar): Geometry
  {
    var entry := source.close;
    var wick := Wick(c.side, engagement);
    var stop := Toward(c.side, wick, -k.brokerBuffer);
    var risk := if c.side == Long then entry - stop else stop - entry;
    Geometry(engagement.openEpoch, source.closeEpoch, entry, wick, stop, risk, Toward(c.side, entry, 4 * risk),
             Divergence(c, k, engagement, source, risk))
  }

  function Prices(b: Bar): seq<int>
  {
    [b.open, b.high, b.low, b.close]
  }

  function Difference(c: Candidate, k: Capability, sourceTicks: int, brokerTicks: int): nat
  {
    Abs(sourceTicks * c.tick - brokerTicks * k.brokerTick)
  }

  function Differences(c: Candidate, k: Capability, xs: seq<int>, ys: seq<int>): (ds: seq<nat>)
    requires |xs| == |ys|
    ensures |ds| == |xs| && forall i :: 0 <= i < |xs| ==> ds[i] == Difference(c, k, xs[i], ys[i])
  {
    seq(|xs|, i requires 0 <= i < |xs| => Difference(c, k, xs[i], ys[i]))
  }

  function Largest(ds: seq<nat>): (m: nat)
    ensures forall i :: 0 <= i < |ds| ==> ds[i] <= m
    ensures m == 0 || m in ds
  {
    if ds == [] then 0
    else
      var n := |ds| - 1;
      assert ds == ds[..n] + [ds[n]];
      Max(Largest(ds[..n]), ds[n])
  }

  /** The differences that are compared with the tolerance: eight prices, and the risk. */
  function Compared(c: Candidate, k: Capability, engagement: Bar, source: Bar, risk: int): seq<nat>
  {
    Differences(c, k, Prices(c.engagement) + Prices(c.source) + [c.risk],
                Prices(engagement) + Prices(source) + [risk])
  }

  function Divergence(c: Candidate, k: Capability, engagement: Bar, source: Bar, risk: int): nat
  {
    Largest(Compared(c, k, engagement, source, risk))
  }

  predicate PositiveTicks(n: int)
  {
    1 <= n <= MAX_SAFE
  }

  /** The numbers are in order, within the tolerance, and can be written on the wire. */
  predicate Fits(c: Candidate, k: Capability, g: Geometry)
  {
    && g.risk > 0 && (if c.side == Long then g.stop < g.wick else g.stop > g.wick)
    && g.divergence <= k.tolerance * c.tick && SafeNat(g.divergence)
    && PositiveTicks(g.entry) && PositiveTicks(g.wick) && PositiveTicks(g.stop) && PositiveTicks(g.risk)
    && PositiveTicks(g.target)
  }

  predicate Reconstructs(c: Candidate, e: Evidence, k: Capability, i: int, j: int)
  {
    && FirstTouch(c, k.brokerTick, e.bars, i) && e.bars[i].openEpoch == c.engagement.openEpoch
    && FirstClose(c, k.brokerTick, e.bars, i, j) && e.bars[j].closeEpoch == c.source.closeEpoch
    && Fits(c, k, GeometryOf(c, k, e.bars[i], e.bars[j]))
  }

  lemma FirstIsUnique(c: Candidate, tick: nat, bars: seq<Bar>, i: int, i': int)
    requires FirstTouch(c, tick, bars, i) && FirstTouch(c, tick, bars, i')
    ensures i == i'
  {
  }

  // The reconstruction, as written

  method FindEngagement(c: Candidate, tick: nat, bars: seq<Bar>) returns (i: Option<nat>)
    ensures i.Some? ==> FirstTouch(c, tick, bars, i.value)
    ensures i.None? ==> forall n :: 0 <= n < |bars| ==> !Candidacy(c, tick, bars[n])
  {
    hide Candidacy;
    for n := 0 to |bars|
      invariant forall m :: 0 <= m < n ==> !Candidacy(c, tick, bars[m])
    {
      if Candidacy(c, tick, bars[n]) {
        return Some(n);
      }
    }
    return None;
  }

  /** The loop from the engagement, left at the first directional or invalidating close. */
  method FindSource(c: Candidate, tick: nat, bars: seq<Bar>, i: nat) returns (j: Option<nat>)
    requires i < |bars|
    ensures j.Some? ==> FirstClose(c, tick, bars, i, j.value)
    ensures j.None? ==> forall n :: !FirstClose(c, tick, bars, i, n)
  {
    hide InWindow, Directional, Invalidates;
    for n := i to |bars|
      invariant forall m :: i <= m < n && InWindow(c, bars[m]) ==> Waits(c, tick, bars[m])
    {
      if InWindow(c, bars[n]) {
        if Directional(c, tick, bars[n]) {
          return Some(n);
        }
        if Invalidates(c, tick, bars[n]) {
          return None;
        }
      }
    }
    return None;
  }

  /** `reconstructBrokerGeometryV1`: an error exactly for invalid input, and a match exactly when one exists. */
  method Reconstruct(c: Candidate, e: Evidence, k: Capability) returns (r: Option<Outcome>)
    ensures r.Some? <==> ValidCandidate(c) && ValidCapability(k) && ValidEvidence(e)
    ensures r.Some? && !Comparable(c, e, k) ==> r.value == CapabilityMismatch
    ensures r.Some? && Comparable(c, e, k) && !Contiguous(e.bars) ==> r.value == EvidenceGap
    ensures r.Some? && Comparable(c, e, k) && Contiguous(e.bars) && !Covered(c, e) ==> r.value == EvidenceMissing
    ensures r.Some? && Comparable(c, e, k) && Contiguous(e.bars) && Covered(c, e) ==>
              if exists i, j :: Reconstructs(c, e, k, i, j)
              then exists i, j :: Reconstructs(c, e, k, i, j)
                                  && r.value == Match(GeometryOf(c, k, e.bars[i], e.bars[j]))
              else r.value == GeometryMismatch
  {
    hide ValidCandidate, ValidCapability, ValidBar, Candidacy, Fits, GeometryOf, Contiguous;
    var valid, gap := CheckEvidence(e);
    if !ValidCandidate(c) || !ValidCapability(k) || !valid {
      return None;
    }
    if !Comparable(c, e, k) {
      return Some(CapabilityMismatch);
    }
    if gap {
      return Some(EvidenceGap);
    }
    if !Covered(c, e) {
      return Some(EvidenceMissing);
    }
    var i := FindEngagement(c, k.brokerTick, e.bars);
    if i.None? || e.bars[i.value].openEpoch != c.engagement.openEpoch {
      return Some(GeometryMismatch);
    }
    var j := FindSource(c, k.brokerTick, e.bars, i.value);
    if j.None? || e.bars[j.value].closeEpoch != c.source.closeEpoch {
      OnlyThisPair(c, e, k, i.value, j);
      return Some(GeometryMismatch);
    }
    var g := GeometryOf(c, k, e.bars[i.value], e.bars[j.value]);
    OnlyThisPair(c, e, k, i.value, j);
    if !Fits(c, k, g) {
      return Some(GeometryMismatch);
    }
    assert Reconstructs(c, e, k, i.value, j.value);
    return Some(Match(g));
  }

  /** A reconstruction can only use the first touch and the first close after it. */
  lemma OnlyThisPair(c: Candidate, e: Evidence, k: Capability, i: nat, j: Option<nat>)
    requires FirstTouch(c, k.brokerTick, e.bars, i)
    requires j.Some? ==> FirstClose(c, k.brokerTick, e.bars, i, j.value)
    requires j.None? ==> forall n :: !FirstClose(c, k.brokerTick, e.bars, i, n)
    ensures forall i', j' :: Reconstructs(c, e, k, i', j') ==> i' == i && j == Some(j')
  {
    hide Candidacy, Fits, GeometryOf, Directional, Invalidates, InWindow;
    forall i', j' | Reconstructs(c, e, k, i', j') ensures i' == i && j == Some(j') {
      FirstIsUnique(c, k.brokerTick, e.bars, i, i');
    }
  }
}
