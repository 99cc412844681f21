/**
 Terms that both generations of the RD entry evaluator share: candles,
 directions, fidelities, proof planes and the catalogue of source claims.
 */
module EntryTerms {
  import opened Common

  /** A SHA-256 digest. Only its identity and its place in the digest order matter. */
  type Id = nat

  /** The all-zero digest is refused everywhere. */
  predicate ValidDigest(id: Id)
  {
    id != 0
  }

  datatype Direction = Long | Short

  datatype Fidelity = Exact | Calibrated | Discretionary | Unresolved

  datatype ProofPlane = Confirmed5m | LowerTimeframeReplay | RealtimeTick | ExternalArchivedTick

  datatype Ambiguity = SameChildBarOrder | MissingIntrabarCoverage | RealtimeOnlyNotReplayable

  datatype Action = Observe | PaperEligible | ShadowOnly | NoAction

  /** Higher-timeframe contexts, in minutes. */
  type Context = c: int | c == 15 || c == 30 || c == 60 witness 15

  function Seconds(c: Context): (r: int)
    ensures r % 300 == 0 && 900 <= r <= 3600
  {
    60 * (c as int)
  }

  datatype SourceClaim =
    | StandardClose202403 | ClosureOrFlip202503 | DirectionalClose202508
    | DirectionalCloseRequired202606 | ModelContinuation202607
    | HtfFlip202403 | HtfContextSet202508 | HtfFlipDefinition202508 | PureFlipNarrowing202605
    | GoldBreakException202503 | DiscretionaryBreak202511 | RejectNonHtfBreak202605
    | BreakNormalizedToFlip202606 | HtfTimedBoc202606
    | NextCandleWick202505 | PromptClose202505 | CloseFallback202511
    | HtfBoundaryCaution202508

  const DIR_CLOSE_CLAIMS: seq<SourceClaim> :=
    [StandardClose202403, ClosureOrFlip202503, DirectionalClose202508,
     DirectionalCloseRequired202606, ModelContinuation202607]

  const HTF_FLIP_CLAIMS: seq<SourceClaim> :=
    [HtfFlip202403, HtfContextSet202508, HtfFlipDefinition202508,
     PureFlipNarrowing202605, ModelContinuation202607]

  datatype Candle = Candle(
    openEpoch: int, closeEpoch: int,
    openTicks: int, highTicks: int, lowTicks: int, closeTicks: int)

  predicate ValidCandle(c: Candle)
  {
    && SafeNat(c.openEpoch) && SafeNat(c.closeEpoch)
    && Safe(c.openTicks) && Safe(c.highTicks) && Safe(c.lowTicks) && Safe(c.closeTicks)
    && c.openEpoch < c.closeEpoch
    && c.highTicks >= Max(c.openTicks, Max(c.closeTicks, c.lowTicks))
    && c.lowTicks <= Min(c.openTicks, Min(c.closeTicks, c.highTicks))
  }

  /** The characters `String.prototype.trim` removes. */
  predicate IsSpace(c: char)
  {
    || c in "\t\n\r "
    || c in ['\U{000B}', '\U{000C}', '\U{00A0}', '\U{1680}', '\U{2028}', '\U{2029}']
    || '\U{2000}' <= c <= '\U{200A}'
    || c in ['\U{202F}', '\U{205F}', '\U{3000}', '\U{FEFF}']
  }

  /** Non-empty text with nothing to trim at either end. */
  predicate ClosedText(s: string)
  {
    s != "" && !IsSpace(s[0]) && !IsSpace(s[|s| - 1])
  }

  predicate ContextsAscend(contexts: seq<Context>)
  {
    forall i, j :: 0 <= i < j < |contexts| ==> contexts[i] < contexts[j]
  }
}
