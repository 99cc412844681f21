/**
 What a geometry match means, and when one is certain.
 */
module BrokerGeometryTheorems {
  import opened Common
  import opened ExactPrice
  import opened BrokerGeometry

  /** The inputs of a reconstruction that gets as far as the geometry. */
  predicate Prepared(c: Candidate, e: Evidence, k: Capability)
  {
    && ValidCandidate(c) && ValidCapability(k) && ValidEvidence(e)
    && Comparable(c, e, k) && Contiguous(e.bars) && Covered(c, e)
  }

  /** Contiguous five-minute bars follow each other on the grid. */
  lemma {:induction false} Epochs(bars: seq<Bar>, n: nat)
    requires n < |bars| && Contiguous(bars) && forall i :: 0 <= i < |bars| ==> ValidBar(bars[i], 300)
    ensures bars[n].openEpoch == bars[0].openEpoch + 300 * n
    ensures bars[n].closeEpoch == bars[0].openEpoch + 300 * n + 300 && bars[n].closeEpoch % 300 == 0
  {
    assert ValidBar(bars[n], 300);
    if n > 0 {
      Epochs(bars, n - 1);
      assert Adjoins(bars, n);
    }
  }

  /** The evidence ends with the candidate's own five minutes. */
  lemma EndsAtSource(c: Candidate, e: Evidence, k: Capability)
    requires Prepared(c, e, k)
    ensures e.bars[|e.bars| - 1].closeEpoch == c.source.closeEpoch
  {
    hide ValidCandidate, ValidCapability;
    Epochs(e.bars, |e.bars| - 1);
    CandidateTimes(c);
    OneGridPoint(e.bars[|e.bars| - 1].closeEpoch, c.source.closeEpoch);
  }

  lemma CandidateTimes(c: Candidate)
    requires ValidCandidate(c)
    ensures c.source.closeEpoch % 300 == 0 && c.source.closeEpoch <= c.observedAt <= c.source.closeEpoch + 30
  {
  }

  lemma OneGridPoint(a: int, b: int)
    requires a % 300 == 0 && b % 300 == 0 && 0 <= a - b <= 60
    ensures a == b
  {
  }

  /** A bar whose close lies beyond the zone on the candidate's side. */
  predicate Beyond(c: Candidate, tick: nat, b: Bar)
  {
    if c.side == Long then b.close * tick > c.zoneTop * c.tick else b.close * tick < c.zoneBottom * c.tick
  }

  /** What a match promises about the bars. */
  predicate PathOk(c: Candidate, tick: nat, bars: seq<Bar>, i: int, j: int)
  {
    && 0 <= i <= j == |bars| - 1 && bars[j].closeEpoch == c.source.closeEpoch
    && bars[i].openEpoch == c.engagement.openEpoch && Touches(c, tick, bars[i])
    && (forall n :: 0 <= n < i && bars[n].openEpoch >= c.zoneActive ==> !Touches(c, tick, bars[n]))
    && (forall n :: i <= n <= j ==> Beyond(c, tick, bars[n]))
    && (forall n :: i <= n < j ==> !Directional(c, tick, bars[n])) && Directional(c, tick, bars[j])
  }

  /** What a match promises about the numbers. */
  predicate NumbersOk(c: Candidate, k: Capability, engagement: Bar, source: Bar, g: Geometry)
  {
    && g.entry == source.close && g.wick == Wick(c.side, engagement)
    && g.stop == Toward(c.side, g.wick, -k.brokerBuffer) && k.brokerBuffer * k.brokerTick >= k.sourceBuffer * c.tick
    && g.risk == Abs(g.entry - g.stop) && g.risk > 0
    && g.target == Toward(c.side, g.entry, 4 * g.risk)
    && (forall n :: 0 <= n < 4 ==>
          && Difference(c, k, Prices(c.engagement)[n], Prices(engagement)[n]) <= k.tolerance * c.tick
          && Difference(c, k, Prices(c.source)[n], Prices(source)[n]) <= k.tolerance * c.tick)
    && Difference(c, k, c.risk, g.risk) <= k.tolerance * c.tick
  }

  /** A match is sound: the right bars, the right geometry, every difference within tolerance. */
  lemma MatchIsSound(c: Candidate, e: Evidence, k: Capability, i: int, j: int)
    requires Prepared(c, e, k) && Reconstructs(c, e, k, i, j)
    ensures PathOk(c, k.brokerTick, e.bars, i, j)
    ensures NumbersOk(c, k, e.bars[i], e.bars[j], GeometryOf(c, k, e.bars[i], e.bars[j]))
  {
    PathIsSound(c, e, k, i, j);
    NumbersAreSound(c, k, e.bars[i], e.bars[j]);
  }

  lemma PathIsSound(c: Candidate, e: Evidence, k: Capability, i: int, j: int)
    requires Prepared(c, e, k)
    requires FirstTouch(c, k.brokerTick, e.bars, i) && e.bars[i].openEpoch == c.engagement.openEpoch
    requires FirstClose(c, k.brokerTick, e.bars, i, j) && e.bars[j].closeEpoch == c.source.closeEpoch
    ensures PathOk(c, k.brokerTick, e.bars, i, j)
  {
    hide ValidCandidate, ValidCapability, Touches, Directional;
    var bars := e.bars;
    EndsAtSource(c, e, k);
    Epochs(bars, |bars| - 1);
    Epochs(bars, j);
    Epochs(bars, i);
    forall n | 0 <= n < |bars| ensures bars[n].closeEpoch <= c.source.closeEpoch
                                       && (n >= i ==> bars[n].openEpoch >= bars[i].openEpoch)
    {
      Epochs(bars, n);
    }
    forall n | i <= n <= j
      ensures Beyond(c, k.brokerTick, bars[n]) && (n < j ==> !Directional(c, k.brokerTick, bars[n]))
    {
      assert InWindow(c, bars[n]);
      if n == j {
        DirectionalIsBeyond(c, k.brokerTick, bars[j]);
      }
    }
  }

  lemma DirectionalIsBeyond(c: Candidate, tick: nat, b: Bar)
    requires Directional(c, tick, b)
    ensures Beyond(c, tick, b)
  {
  }

  lemma NumbersAreSound(c: Candidate, k: Capability, engagement: Bar, source: Bar)
    requires ValidCapability(k) && k.sourceTick == c.tick && Fits(c, k, GeometryOf(c, k, engagement, source))
    ensures NumbersOk(c, k, engagement, source, GeometryOf(c, k, engagement, source))
  {
    hide Difference;
    var g := GeometryOf(c, k, engagement, source);
    var xs := Prices(c.engagement) + Prices(c.source) + [c.risk];
    var ys := Prices(engagement) + Prices(source) + [g.risk];
    var ds := Compared(c, k, engagement, source, g.risk);
    forall n | 0 <= n < 9 ensures Difference(c, k, xs[n], ys[n]) <= k.tolerance * c.tick {
      assert ds[n] <= g.divergence;
    }
    forall n | 0 <= n < 4
      ensures Difference(c, k, Prices(c.engagement)[n], Prices(engagement)[n]) <= k.tolerance * c.tick
              && Difference(c, k, Prices(c.source)[n], Prices(source)[n]) <= k.tolerance * c.tick
    {
      assert xs[n] == Prices(c.engagement)[n] && ys[n] == Prices(engagement)[n];
      assert xs[n + 4] == Prices(c.source)[n] && ys[n + 4] == Prices(source)[n];
    }
    assert xs[8] == c.risk && ys[8] == g.risk;
  }

  // Completeness

  /** The evidence repeats the candidate's own story on the candidate's own grid. */
  predicate Repeats(c: Candidate, e: Evidence, k: Capability, i: int)
  {
    && ValidCandidate(c) && ValidCapability(k) && ValidEvidence(e) && Comparable(c, e, k) && Contiguous(e.bars)
    && k.brokerTick == k.sourceTick
    && 0 <= i < |e.bars| && e.bars[i] == c.engagement && e.bars[|e.bars| - 1] == c.source
    && e.bars[0].openEpoch <= c.zoneActive
    && (forall n :: 0 <= n < i && e.bars[n].openEpoch >= c.zoneActive ==> !Touches(c, c.tick, e.bars[n]))
    && (forall n :: i <= n < |e.bars| - 1 ==> Waits(c, c.tick, e.bars[n]))
    && c.stop > 0 && c.target > 0 && Wick(c.side, c.engagement) > 0 && c.entry > 0
  }

  lemma {:induction false} ZeroLargest(ds: seq<nat>)
    requires forall i :: 0 <= i < |ds| ==> ds[i] == 0
    ensures Largest(ds) == 0
  {
  }

  lemma SameGridGeometry(c: Candidate, k: Capability)
    requires ValidCandidate(c) && ValidCapability(k) && c.symbol == k.symbol
    requires c.tick == k.sourceTick == k.brokerTick
    ensures GeometryOf(c, k, c.engagement, c.source) ==
              Geometry(c.engagement.openEpoch, c.source.closeEpoch, c.entry, Wick(c.side, c.engagement), c.stop,
                       c.risk, c.target, 0)
  {
    CeilExact(k.sourceBuffer, k.sourceTick);
    ZeroLargest(Compared(c, k, c.engagement, c.source, c.risk));
  }

  lemma SameGridFits(c: Candidate, k: Capability)
    requires ValidCandidate(c) && ValidCapability(k) && c.symbol == k.symbol
    requires c.tick == k.sourceTick == k.brokerTick
    requires c.stop > 0 && c.target > 0 && Wick(c.side, c.engagement) > 0 && c.entry > 0
    ensures Fits(c, k, GeometryOf(c, k, c.engagement, c.source))
  {
    hide GeometryOf;
    SameGridGeometry(c, k);
    assert k.tolerance * c.tick >= 0;
  }

  /** Scaling by a positive tick size keeps order. */
  lemma ScaleOrder(a: int, b: int, tick: nat)
    requires tick > 0
    ensures a < b <==> a * tick < b * tick
    ensures a <= b <==> a * tick <= b * tick
  {
    if a < b {
      assert (b - a) * tick >= 1;
    } else {
      assert (a - b) * tick >= 0;
    }
  }

  lemma OwnBarsQualify(c: Candidate)
    requires ValidCandidate(c)
    ensures Touches(c, c.tick, c.engagement) && Directional(c, c.tick, c.source)
  {
    ScaleOrder(c.engagement.low, c.zoneTop, c.tick);
    ScaleOrder(c.zoneBottom, c.engagement.high, c.tick);
    ScaleOrder(c.source.open, c.source.close, c.tick);
    ScaleOrder(c.source.close, c.source.open, c.tick);
    ScaleOrder(c.zoneTop, c.source.close, c.tick);
    ScaleOrder(c.source.close, c.zoneBottom, c.tick);
  }

  /**
   Such evidence always matches, with the candidate's own entry, stop, risk and
   target and no divergence at all.
   */
  lemma RepeatedStoryMatches(c: Candidate, e: Evidence, k: Capability, i: int)
    requires Repeats(c, e, k, i)
    ensures Prepared(c, e, k) && Reconstructs(c, e, k, i, |e.bars| - 1)
    ensures GeometryOf(c, k, e.bars[i], e.bars[|e.bars| - 1]) ==
              Geometry(c.engagement.openEpoch, c.source.closeEpoch, c.entry, Wick(c.side, c.engagement), c.stop,
                       c.risk, c.target, 0)
  {
    OwnBarsQualify(c);
    SameGridGeometry(c, k);
    SameGridFits(c, k);
    RepeatedPath(c, e, k, i);
    RepeatedCovers(c, e, k, i);
  }

  lemma RepeatedCovers(c: Candidate, e: Evidence, k: Capability, i: int)
    requires Repeats(c, e, k, i)
    ensures Prepared(c, e, k)
  {
    hide ValidCapability, ValidEvidence, Touches, Waits;
  }

  lemma RepeatedPath(c: Candidate, e: Evidence, k: Capability, i: int)
    requires Repeats(c, e, k, i) && Touches(c, c.tick, c.engagement) && Directional(c, c.tick, c.source)
    ensures FirstTouch(c, k.brokerTick, e.bars, i) && FirstClose(c, k.brokerTick, e.bars, i, |e.bars| - 1)
  {
    hide Touches, Directional, Waits, ValidCapability;
    var bars, last := e.bars, |e.bars| - 1;
    Epochs(bars, i);
    Epochs(bars, last);
  }

  // A match, told on the bars' own numbers

  /** Counted in the candidate's direction: up for long, down for short. */
  function Along(side: Side, x: int): int
  {
    if side == Long then x else -x
  }

  /** The edge of the zone that an entry must close beyond. */
  function FarEdge(c: Candidate): int
  {
    if c.side == Long then c.zoneTop else c.zoneBottom
  }

  /** The price range of the bar and the zone have a price in common. */
  predicate Overlaps(c: Candidate, tick: nat, b: Bar)
  {
    !(b.high * tick < c.zoneBottom * c.tick || c.zoneTop * c.tick < b.low * tick)
  }

  predicate ClosesBeyond(c: Candidate, tick: nat, b: Bar)
  {
    Along(c.side, b.close * tick) > Along(c.side, FarEdge(c) * c.tick)
  }

  /** The bars from the first after activation to the source close, and what each of them did. */
  predicate Story(c: Candidate, tick: nat, bars: seq<Bar>, i: int)
  {
    var last := |bars| - 1;
    && 0 <= i <= last && bars[0].openEpoch <= c.zoneActive && bars[last].closeEpoch == c.source.closeEpoch
    && bars[i].openEpoch == c.engagement.openEpoch && Overlaps(c, tick, bars[i])
    && (forall n :: 0 <= n < i && bars[n].openEpoch >= c.zoneActive ==> !Overlaps(c, tick, bars[n]))
    && (forall n :: i <= n <= last ==> ClosesBeyond(c, tick, bars[n]))
    && (forall n :: i <= n < last ==> Along(c.side, bars[n].close) <= Along(c.side, bars[n].open))
    && Along(c.side, bars[last].close) > Along(c.side, bars[last].open)
  }

  predicate Near(c: Candidate, k: Capability, sourceTicks: int, brokerTicks: int)
  {
    var gap := Abs(sourceTicks * c.tick - brokerTicks * k.brokerTick);
    gap <= k.tolerance * c.tick && gap <= MAX_SAFE
  }

  /** All prices and the risk are near the candidate's, and every number is a positive safe integer. */
  predicate NumbersAgree(c: Candidate, k: Capability, engagement: Bar, source: Bar)
  {
    var wick := if c.side == Long then engagement.low else engagement.high;
    var stop := if c.side == Long then wick - k.brokerBuffer else wick + k.brokerBuffer;
    var risk := Along(c.side, source.close - stop);
    var target := if c.side == Long then source.close + 4 * risk else source.close - 4 * risk;
    && Near(c, k, c.engagement.open, engagement.open) && Near(c, k, c.engagement.high, engagement.high)
    && Near(c, k, c.engagement.low, engagement.low) && Near(c, k, c.engagement.close, engagement.close)
    && Near(c, k, c.source.open, source.open) && Near(c, k, c.source.high, source.high)
    && Near(c, k, c.source.low, source.low) && Near(c, k, c.source.close, source.close)
    && Near(c, k, c.risk, risk)
    && PositiveTicks(source.close) && PositiveTicks(wick) && PositiveTicks(stop) && PositiveTicks(risk)
    && PositiveTicks(target)
  }

  lemma PredicatesOnTicks(c: Candidate, tick: nat, b: Bar)
    requires tick > 0
    ensures Touches(c, tick, b) <==> Overlaps(c, tick, b)
    ensures Directional(c, tick, b) <==> Along(c.side, b.close) > Along(c.side, b.open) && ClosesBeyond(c, tick, b)
    ensures Waits(c, tick, b) <==> Along(c.side, b.close) <= Along(c.side, b.open) && ClosesBeyond(c, tick, b)
    ensures Invalidates(c, tick, b) <==> !ClosesBeyond(c, tick, b)
  {
    ScaleOrder(b.open, b.close, tick);
    ScaleOrder(b.close, b.open, tick);
  }

  lemma DivergenceNear(c: Candidate, k: Capability, engagement: Bar, source: Bar, risk: int)
    requires k.tolerance * c.tick >= 0
    ensures Divergence(c, k, engagement, source, risk) <= k.tolerance * c.tick
            && Divergence(c, k, engagement, source, risk) <= MAX_SAFE
            <==> && Near(c, k, c.engagement.open, engagement.open) && Near(c, k, c.engagement.high, engagement.high)
                 && Near(c, k, c.engagement.low, engagement.low) && Near(c, k, c.engagement.close, engagement.close)
                 && Near(c, k, c.source.open, source.open) && Near(c, k, c.source.high, source.high)
                 && Near(c, k, c.source.low, source.low) && Near(c, k, c.source.close, source.close)
                 && Near(c, k, c.risk, risk)
  {
    hide Difference, Largest, Near;
    var xs := Prices(c.engagement) + Prices(c.source) + [c.risk];
    var ys := Prices(engagement) + Prices(source) + [risk];
    var ds := Compared(c, k, engagement, source, risk);
    forall n | 0 <= n < 9
      ensures Near(c, k, xs[n], ys[n]) <==> ds[n] <= k.tolerance * c.tick && ds[n] <= MAX_SAFE
    {
      NearMeans(c, k, xs[n], ys[n]);
    }
    assert ds == [ds[0], ds[1], ds[2], ds[3], ds[4], ds[5], ds[6], ds[7], ds[8]];
    LargestBelow(ds, k.tolerance * c.tick);
    LargestBelow(ds, MAX_SAFE);
    assert Near(c, k, xs[0], ys[0]) <==> ds[0] <= k.tolerance * c.tick && ds[0] <= MAX_SAFE;
    assert Near(c, k, xs[8], ys[8]) <==> ds[8] <= k.tolerance * c.tick && ds[8] <= MAX_SAFE;
  }

  lemma NearMeans(c: Candidate, k: Capability, x: int, y: int)
    ensures Near(c, k, x, y) <==> Difference(c, k, x, y) <= k.tolerance * c.tick && Difference(c, k, x, y) <= MAX_SAFE
  {
  }

  lemma LargestBelow(ds: seq<nat>, bound: int)
    requires bound >= 0
    ensures Largest(ds) <= bound <==> forall i :: 0 <= i < |ds| ==> ds[i] <= bound
  {
  }

  lemma FitsMeans(c: Candidate, k: Capability, engagement: Bar, source: Bar)
    requires ValidCapability(k) && c.tick > 0
    ensures Fits(c, k, GeometryOf(c, k, engagement, source)) <==> NumbersAgree(c, k, engagement, source)
  {
    hide Divergence, Near, CeilTicks;
    var g := GeometryOf(c, k, engagement, source);
    BufferPositive(k);
    ToleranceNatural(c, k);
    DivergenceNear(c, k, engagement, source, g.risk);
  }

  lemma ToleranceNatural(c: Candidate, k: Capability)
    requires ValidCapability(k)
    ensures k.tolerance * c.tick >= 0
  {
  }

  lemma BufferPositive(k: Capability)
    requires ValidCapability(k)
    ensures k.brokerBuffer >= 1
  {
    var n := CeilTicks(k.sourceBuffer * k.sourceTick, k.brokerTick);
    assert n * k.brokerTick >= k.sourceBuffer * k.sourceTick >= 1;
  }

  lemma PathMeans(c: Candidate, e: Evidence, k: Capability, i: int, j: int)
    requires ValidCandidate(c) && ValidCapability(k) && ValidEvidence(e) && Comparable(c, e, k) && Contiguous(e.bars)
    ensures Covered(c, e) && FirstTouch(c, k.brokerTick, e.bars, i) && e.bars[i].openEpoch == c.engagement.openEpoch
            && FirstClose(c, k.brokerTick, e.bars, i, j) && e.bars[j].closeEpoch == c.source.closeEpoch
            <==> Story(c, k.brokerTick, e.bars, i) && j == |e.bars| - 1
  {
    hide Overlaps, ClosesBeyond, Touches, Directional, Waits, Invalidates, Along;
    var bars, tick := e.bars, k.brokerTick;
    forall n | 0 <= n < |bars|
      ensures Touches(c, tick, bars[n]) <==> Overlaps(c, tick, bars[n])
      ensures Directional(c, tick, bars[n]) <==>
                Along(c.side, bars[n].close) > Along(c.side, bars[n].open) && ClosesBeyond(c, tick, bars[n])
      ensures Waits(c, tick, bars[n]) <==>
                Along(c.side, bars[n].close) <= Along(c.side, bars[n].open) && ClosesBeyond(c, tick, bars[n])
    {
      PredicatesOnTicks(c, tick, bars[n]);
    }
    if Covered(c, e) {
      EndsAtSource(c, e, k);
    }
    if bars[|bars| - 1].closeEpoch == c.source.closeEpoch {
      WindowMeans(c, e, k);
      if 0 <= j < |bars| {
        Epochs(bars, j);
      }
    }
  }

  /** In evidence that ends at the source close, the window is exactly the bars from activation on. */
  lemma WindowMeans(c: Candidate, e: Evidence, k: Capability)
    requires ValidCandidate(c) && ValidEvidence(e) && Comparable(c, e, k) && Contiguous(e.bars)
    requires e.bars[|e.bars| - 1].closeEpoch == c.source.closeEpoch
    ensures forall n :: 0 <= n < |e.bars| ==> (InWindow(c, e.bars[n]) <==> e.bars[n].openEpoch >= c.zoneActive)
    ensures forall m, n :: 0 <= m <= n < |e.bars| ==> e.bars[m].openEpoch <= e.bars[n].openEpoch
    ensures forall n :: 0 <= n < |e.bars| && e.bars[n].closeEpoch == c.source.closeEpoch ==> n == |e.bars| - 1
    ensures Covered(c, e) <==> e.bars[0].openEpoch <= c.zoneActive
  {
    hide ValidCandidate;
    CandidateTimes(c);
    Epochs(e.bars, |e.bars| - 1);
    forall n | 0 <= n < |e.bars|
      ensures e.bars[n].openEpoch == e.bars[0].openEpoch + 300 * n
              && e.bars[n].closeEpoch == e.bars[0].openEpoch + 300 * n + 300
    {
      Epochs(e.bars, n);
    }
  }

  predicate SameParties(c: Candidate, e: Evidence, k: Capability)
  {
    && e.symbol == c.symbol && k.symbol == c.symbol && k.sourceTick == c.tick
    && e.brokerSymbol == k.brokerSymbol && e.profile == k.profile && e.capability == k.digest && e.timeframe == M5
  }

  /**
   A reconstruction exists exactly when the parties are the same, the bars follow each
   other without a gap, and the story and the numbers told above hold; it then starts at
   the engagement and ends with the last bar.
   */
  lemma MatchExactly(c: Candidate, e: Evidence, k: Capability, i: int, j: int)
    requires ValidCandidate(c) && ValidCapability(k) && ValidEvidence(e)
    ensures Prepared(c, e, k) && Reconstructs(c, e, k, i, j) <==>
              && SameParties(c, e, k)
              && (forall n :: 0 < n < |e.bars| ==> e.bars[n].openEpoch == e.bars[n - 1].closeEpoch)
              && Story(c, k.brokerTick, e.bars, i) && j == |e.bars| - 1
              && NumbersAgree(c, k, e.bars[i], e.bars[j])
  {
    hide ValidCandidate, ValidCapability, ValidEvidence, Story, NumbersAgree, Fits, GeometryOf, FirstTouch, FirstClose;
    CandidateTick(c);
    ContiguousMeans(e.bars);
    if Comparable(c, e, k) && Contiguous(e.bars) {
      PathMeans(c, e, k, i, j);
      StoryBounds(c, k.brokerTick, e.bars, i);
      TouchBounds(c, k.brokerTick, e.bars, i, j);
      if 0 <= i < |e.bars| && 0 <= j < |e.bars| {
        FitsMeans(c, k, e.bars[i], e.bars[j]);
      }
    }
  }

  lemma CandidateTick(c: Candidate)
    requires ValidCandidate(c)
    ensures c.tick > 0
  {
  }

  lemma ContiguousMeans(bars: seq<Bar>)
    ensures Contiguous(bars) <==> forall n :: 0 < n < |bars| ==> bars[n].openEpoch == bars[n - 1].closeEpoch
  {
    if Contiguous(bars) {
      forall n | 0 < n < |bars| ensures bars[n].openEpoch == bars[n - 1].closeEpoch {
        assert Adjoins(bars, n);
      }
    }
  }

  lemma StoryBounds(c: Candidate, tick: nat, bars: seq<Bar>, i: int)
    ensures Story(c, tick, bars, i) ==> 0 <= i < |bars|
  {
  }

  lemma TouchBounds(c: Candidate, tick: nat, bars: seq<Bar>, i: int, j: int)
    ensures FirstTouch(c, tick, bars, i) ==> 0 <= i < |bars|
    ensures FirstClose(c, tick, bars, i, j) ==> 0 <= j < |bars|
  {
  }

  /** The numbers of a match, whatever the side. */
  lemma MatchNumbers(c: Candidate, k: Capability, engagement: Bar, source: Bar)
    ensures var g := GeometryOf(c, k, engagement, source);
      && g.engagementOpen == engagement.openEpoch && g.sourceClose == source.closeEpoch && g.entry == source.close
      && Along(c.side, g.wick - g.stop) == k.brokerBuffer && Along(c.side, g.entry - g.stop) == g.risk
      && Along(c.side, g.target - g.entry) == 4 * g.risk
      && g.wick == (if c.side == Long then engagement.low else engagement.high)
  {
    hide Divergence;
  }
}
