/**
 * Price records of the price oracle: a single node's submission, the
 * aggregate built from many submissions, and the predicates that decide
 * whether each may be trusted. Also the oracle's error symbols.
 */
module OraclePrices {
  import opened Common

  /** Age in seconds beyond which a submission or aggregate is stale. */
  const PRICE_STALENESS_THRESHOLD: nat := 300
  /** Largest accepted deviation, in percent, of an aggregate or of a price from the median. */
  const MAX_PRICE_DEVIATION: nat := 10
  /** Smallest confidence, in percent, of a valid submission or a reliable aggregate. */
  const MIN_CONFIDENCE_LEVEL: nat := 70
  /** Length of the per-asset aggregate history. */
  const MAX_HISTORY_ENTRIES: nat := 100
  /** Sources a reliable aggregate needs. */
  const MIN_RELIABLE_SOURCES: nat := 3

  /** The error symbols the oracle contract returns. */
  datatype OracleError =
    | AlreadyInitialized
    | NotInitialized
    | Unauthorized
    | EmergencyStopActive
    | NodeAlreadyRegistered
    | InsufficientStake
    | NodeNotFound
    | UnregisteredNode
    | NodeNotEligible
    | RateLimitExceeded
    | InvalidPriceZero
    | PriceTooHigh
    | PriceTooLow
    | InvalidAssetSymbol
    | TimestampTooOld
    | TimestampInFuture
    | MissingSignature
    | InvalidSignatureFormat
    | NoPriceData
    | NoValidSubmissions
    | NoSubmissions
    | NoWeightedData
    | UnreliablePrice
    | NoFallbackAvailable
    | PriceNotAvailable
    | StalePrice

  /** One node's price for one asset, with the confidence the validator gave it. */
  datatype PriceData = PriceData(
    assetSymbol: Symbol,
    price: nat,
    timestamp: nat,
    oracleNode: Address,
    confidence: nat)

  /** The result of one aggregation round. */
  datatype AggregatedPrice = AggregatedPrice(
    assetSymbol: Symbol,
    price: nat,
    timestamp: nat,
    numSources: nat,
    confidence: nat,
    deviation: nat)

  /** What a node sends to `submit_price`; the signature is a placeholder string. */
  datatype PriceUpdateRequest = PriceUpdateRequest(
    assetSymbol: Symbol,
    price: nat,
    timestamp: nat,
    signature: string)

  /** The prices of a run of submissions, in the same order. */
  function Prices(s: seq<PriceData>): (r: seq<nat>)
    ensures |r| == |s|
    ensures forall i :: 0 <= i < |s| ==> r[i] == s[i].price
  {
    seq(|s|, i requires 0 <= i < |s| => s[i].price)
  }

  lemma PricesAppend(a: seq<PriceData>, b: seq<PriceData>)
    ensures Prices(a + b) == Prices(a) + Prices(b)
  {
  }

  /** The truncated percentage distance of `price` from `avg`. */
  function DeviationPercent(price: nat, avg: nat): nat
    requires avg > 0
  {
    AbsDiff(price, avg) * 100 / avg
  }

  /** More than five minutes old; an entry dated in the future is never stale. */
  predicate IsStale(p: PriceData, now: nat) {
    SatSub(now, p.timestamp) > PRICE_STALENESS_THRESHOLD
  }

  /** A positive price with at least the minimum confidence. */
  predicate IsValid(p: PriceData) {
    p.price > 0 && p.confidence >= MIN_CONFIDENCE_LEVEL
  }

  /** Enough sources, enough confidence, and a small enough spread. */
  predicate IsReliable(a: AggregatedPrice) {
    a.numSources >= MIN_RELIABLE_SOURCES
    && a.confidence >= MIN_CONFIDENCE_LEVEL
    && a.deviation <= MAX_PRICE_DEVIATION
  }

  /** `PriceData::new`: copies its arguments and stamps the ledger time. */
  function NewPriceData(asset: Symbol, price: nat, node: Address, confidence: nat, now: nat): (p: PriceData)
    ensures p.assetSymbol == asset && p.price == price && p.oracleNode == node && p.confidence == confidence
    ensures p.timestamp == now
    ensures !IsStale(p, now)
    ensures IsValid(p) <==> price > 0 && confidence >= 70
  {
    PriceData(asset, price, now, node, confidence)
  }

  /** `AggregatedPrice::new`: copies its arguments and stamps the ledger time. */
  function NewAggregatedPrice(asset: Symbol, price: nat, numSources: nat, confidence: nat, deviation: nat, now: nat)
    : (a: AggregatedPrice)
    ensures a.assetSymbol == asset && a.price == price && a.numSources == numSources
    ensures a.confidence == confidence && a.deviation == deviation
    ensures a.timestamp == now
    ensures IsReliable(a) <==> numSources >= 3 && confidence >= 70 && deviation <= 10
  {
    AggregatedPrice(asset, price, now, numSources, confidence, deviation)
  }

  /** Staleness is a strict age bound of 300 s, and an entry dated at or after `now` is fresh. */
  lemma StalenessCharacterized(p: PriceData, now: nat)
    ensures IsStale(p, now) <==> now > p.timestamp + 300
    ensures p.timestamp >= now ==> !IsStale(p, now)
    ensures now == p.timestamp + 300 ==> !IsStale(p, now)
  {
  }

  /** Validity: a zero price or a confidence below 70 (such as the default 50) is invalid. */
  lemma ValidityCharacterized(p: PriceData)
    ensures IsValid(p) <==> p.price >= 1 && p.confidence >= 70
    ensures p.price == 0 ==> !IsValid(p)
    ensures p.confidence == 50 ==> !IsValid(p)
  {
  }

  /** The two aggregates the test suite checks: (5, 85, 3) is reliable and (2, 60, 15) is not. */
  lemma ReliabilityExamples(asset: Symbol, now: nat)
    ensures IsReliable(NewAggregatedPrice(asset, 1000000, 5, 85, 3, now))
    ensures !IsReliable(NewAggregatedPrice(asset, 1000000, 2, 60, 15, now))
  {
  }

  /** Reliability is monotone: more sources, more confidence or less deviation keep it. */
  lemma ReliabilityMonotone(a: AggregatedPrice, b: AggregatedPrice)
    requires IsReliable(a)
    requires b.numSources >= a.numSources && b.confidence >= a.confidence && b.deviation <= a.deviation
    ensures IsReliable(b)
  {
  }
}
