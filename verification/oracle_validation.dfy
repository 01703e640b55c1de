/**
 * The price oracle's validation engine: the checks a price update must pass
 * before it is stored, the confidence a new price earns from the asset's
 * recent history, and the detectors for anomalous submission patterns.
 */
module OracleValidation {
  import opened Common
  import opened Wrappers
  import opened OraclePrices
  import opened OracleNodes
  import opened Seqs

  /** Largest accepted price, in stroops. */
  const MAX_PRICE: nat := 1_000_000_0000000
  /** Smallest accepted price, in stroops. */
  const MIN_PRICE: nat := 1
  /** Seconds a submission may be dated ahead of the ledger clock. */
  const FUTURE_TOLERANCE: nat := 60
  /** Shortest accepted signature, in characters. */
  const EXPECTED_SIGNATURE_LENGTH: nat := 64
  /** Age in seconds of the history used for the confidence estimate. */
  const RECENT_THRESHOLD: nat := 86400
  /** Confidence a price earns when the asset has no usable history. */
  const DEFAULT_CONFIDENCE: nat := 50
  /** Window in seconds of the rapid-submission detector. */
  const RAPID_THRESHOLD: nat := 300
  /** Window in seconds within which other nodes' prices are compared. */
  const OUTLIER_WINDOW: nat := 300
  /** Deviation in percent beyond which a price counts as an outlier. */
  const OUTLIER_DEVIATION: nat := 15

  /** `validate_price_data`: a positive price within bounds, for a named asset. */
  function ValidatePriceData(req: PriceUpdateRequest): (r: Outcome<OracleError>)
    ensures req.price == 0 ==> r == Fail(InvalidPriceZero)
    ensures req.price > MAX_PRICE ==> r == Fail(PriceTooHigh)
    ensures 0 < req.price <= MAX_PRICE && |req.assetSymbol| == 0 ==> r == Fail(InvalidAssetSymbol)
    ensures r == Pass <==> 1 <= req.price <= 1_000_000_0000000 && |req.assetSymbol| > 0
    ensures r != Fail(PriceTooLow)
  {
    if req.price == 0 then Fail(InvalidPriceZero)
    else if req.price > MAX_PRICE then Fail(PriceTooHigh)
    else if req.price < MIN_PRICE then Fail(PriceTooLow)
    else if |req.assetSymbol| == 0 then Fail(InvalidAssetSymbol)
    else Pass
  }

  /** `validate_timestamp`: at most 300 s old and at most 60 s ahead of the ledger clock. */
  function ValidateTimestamp(timestamp: nat, now: nat): (r: Outcome<OracleError>)
    ensures now > timestamp + 300 ==> r == Fail(TimestampTooOld)
    ensures now <= timestamp + 300 && timestamp > now + 60 ==> r == Fail(TimestampInFuture)
    ensures r == Pass <==> now <= timestamp + 300 && timestamp <= now + 60
  {
    if SatSub(now, timestamp) > PRICE_STALENESS_THRESHOLD then Fail(TimestampTooOld)
    else if timestamp > now + FUTURE_TOLERANCE then Fail(TimestampInFuture)
    else Pass
  }

  /** `validate_signature`: only the length of the placeholder string is checked. */
  function ValidateSignature(signature: string): (r: Outcome<OracleError>)
    ensures |signature| == 0 ==> r == Fail(MissingSignature)
    ensures 0 < |signature| < 64 ==> r == Fail(InvalidSignatureFormat)
    ensures r == Pass <==> |signature| >= 64
  {
    if |signature| == 0 then Fail(MissingSignature)
    else if |signature| < EXPECTED_SIGNATURE_LENGTH then Fail(InvalidSignatureFormat)
    else Pass
  }

  /**
   * The signature string the test suite submits is 59 characters long, so
   * the signature check refuses it.
   */
  lemma TestSignatureRefused()
    ensures ValidateSignature("test_signature_64_chars_long_placeholder_for_real_signature") == Fail(InvalidSignatureFormat)
  {
  }

  /** The submitter is registered, eligible, and within its rate limit if it has one. */
  predicate SubmitterAdmitted(
    nodes: map<Address, OracleNode>, rateLimits: map<Address, RateLimitInfo>, submitter: Address, now: nat)
  {
    submitter in nodes
    && IsEligible(nodes[submitter], now)
    && (submitter in rateLimits ==> CanSubmit(nodes[submitter], rateLimits[submitter], now))
  }

  /** `validate_price_update`: the submitter checks, then the price, timestamp and signature checks. */
  function ValidatePriceUpdate(
    req: PriceUpdateRequest, nodes: map<Address, OracleNode>, rateLimits: map<Address, RateLimitInfo>,
    submitter: Address, now: nat): (r: Outcome<OracleError>)
    ensures submitter !in nodes ==> r == Fail(UnregisteredNode)
    ensures submitter in nodes && !IsEligible(nodes[submitter], now) ==> r == Fail(NodeNotEligible)
    ensures (submitter in nodes && IsEligible(nodes[submitter], now) && submitter in rateLimits
             && !CanSubmit(nodes[submitter], rateLimits[submitter], now)) ==> r == Fail(RateLimitExceeded)
    ensures (SubmitterAdmitted(nodes, rateLimits, submitter, now) && ValidatePriceData(req).Fail?)
            ==> r == ValidatePriceData(req)
    ensures r == Pass <==>
      SubmitterAdmitted(nodes, rateLimits, submitter, now)
      && 1 <= req.price <= MAX_PRICE && |req.assetSymbol| > 0
      && now <= req.timestamp + 300 && req.timestamp <= now + 60
      && |req.signature| >= 64
  {
    if submitter !in nodes then Fail(UnregisteredNode)
    else
      var node := nodes[submitter];
      if !IsEligible(node, now) then Fail(NodeNotEligible)
      else if submitter in rateLimits && !CanSubmit(node, rateLimits[submitter], now) then Fail(RateLimitExceeded)
      else if ValidatePriceData(req).Fail? then ValidatePriceData(req)
      else if ValidateTimestamp(req.timestamp, now).Fail? then ValidateTimestamp(req.timestamp, now)
      else ValidateSignature(req.signature)
  }

  /**
   * `get_recent_valid_prices`: walks the history from its newest entry, stops
   * at the first entry older than 24 hours and keeps the prices of the valid
   * entries it passes, newest first.
   */
  function GetRecentValidPrices(history: seq<PriceData>, now: nat): (r: seq<nat>)
    ensures |r| <= |history|
    ensures forall i :: 0 <= i < |r| ==> r[i] > 0
    ensures forall i :: 0 <= i < |r| ==> exists k :: 0 <= k < |history| && IsValid(history[k]) && history[k].price == r[i]
  {
    if |history| == 0 then []
    else
      var last := history[|history| - 1];
      if SatSub(now, last.timestamp) <= RECENT_THRESHOLD then
        var rest := GetRecentValidPrices(history[..|history| - 1], now);
        (if IsValid(last) then [last.price] else []) + rest
      else []
  }

  /** An entry within the last 24 hours. */
  predicate IsRecent(p: PriceData, now: nat) {
    SatSub(now, p.timestamp) <= RECENT_THRESHOLD
  }

  /**
   * When every entry is within 24 hours the scan sees the whole history: the
   * result is the prices of the valid entries, newest first.
   */
  lemma {:induction false} RecentScanOfFreshHistory(history: seq<PriceData>, now: nat)
    requires forall k :: 0 <= k < |history| ==> IsRecent(history[k], now)
    ensures GetRecentValidPrices(history, now) == Reverse(Prices(Filter(history, IsValid)))
  {
    if |history| > 0 {
      var n := |history|;
      var init := history[..n - 1];
      var last := history[n - 1];
      assert forall k :: 0 <= k < |init| ==> init[k] == history[k];
      RecentScanOfFreshHistory(init, now);
      assert history == init + [last];
      RecentScanStep(init, last, now);
    }
  }

  /** One step of the induction above: appending a recent entry. */
  lemma RecentScanStep(init: seq<PriceData>, last: PriceData, now: nat)
    requires IsRecent(last, now)
    requires GetRecentValidPrices(init, now) == Reverse(Prices(Filter(init, IsValid)))
    ensures GetRecentValidPrices(init + [last], now) == Reverse(Prices(Filter(init + [last], IsValid)))
  {
    RecentScanUnfold(init, last, now);
    FilterAppend(init, [last], IsValid);
    if IsValid(last) {
      RecentScanStepValid(init, last, now);
    } else {
      assert Filter([last], IsValid) == [];
      assert Filter(init + [last], IsValid) == Filter(init, IsValid);
    }
  }

  /** The scan of a history ending in a recent entry, in terms of the scan of the rest. */
  lemma RecentScanUnfold(init: seq<PriceData>, last: PriceData, now: nat)
    requires IsRecent(last, now)
    ensures GetRecentValidPrices(init + [last], now)
         == (if IsValid(last) then [last.price] else []) + GetRecentValidPrices(init, now)
  {
    var history := init + [last];
    assert history[..|history| - 1] == init;
  }

  lemma RecentScanStepValid(init: seq<PriceData>, last: PriceData, now: nat)
    requires IsValid(last)
    ensures [last.price] + Reverse(Prices(Filter(init, IsValid))) == Reverse(Prices(Filter(init, IsValid) + Filter([last], IsValid)))
  {
    var kept := Filter(init, IsValid);
    assert Filter([last], IsValid) == [last];
    PricesAppend(kept, [last]);
    ReverseSnoc(Prices(kept), last.price);
  }

  /** The scan never looks past an entry older than 24 hours: everything up to it is ignored. */
  lemma {:induction false} RecentScanStopsAtOldEntry(history: seq<PriceData>, k: nat, now: nat)
    requires k < |history| && !IsRecent(history[k], now)
    ensures GetRecentValidPrices(history, now) == GetRecentValidPrices(history[k + 1..], now)
    decreases |history|
  {
    var n := |history|;
    var init := history[..n - 1];
    var last := history[n - 1];
    assert history == init + [last];
    if k == n - 1 {
      RecentScanOldLast(init, last, now);
      assert history[k + 1..] == [];
    } else {
      assert init[k] == history[k];
      RecentScanStopsAtOldEntry(init, k, now);
      assert history[k + 1..] == init[k + 1..] + [last];
      if IsRecent(last, now) {
        RecentScanUnfold(init, last, now);
        RecentScanUnfold(init[k + 1..], last, now);
      } else {
        RecentScanOldLast(init, last, now);
        RecentScanOldLast(init[k + 1..], last, now);
      }
    }
  }

  /** A history ending in an entry older than 24 hours yields nothing. */
  lemma RecentScanOldLast(init: seq<PriceData>, last: PriceData, now: nat)
    requires !IsRecent(last, now)
    ensures GetRecentValidPrices(init + [last], now) == []
  {
    var history := init + [last];
    assert history[|history| - 1] == last;
  }

  /** Confidence for a deviation percentage: the match table of `calculate_historical_confidence`. */
  function ConfidenceTier(pct: nat): (c: nat)
    ensures 50 <= c <= 95 && c % 5 == 0
    ensures pct <= 1 <==> c == 95
    ensures pct > 50 <==> c == 50
  {
    if pct <= 1 then 95
    else if pct <= 3 then 90
    else if pct <= 5 then 85
    else if pct <= 8 then 80
    else if pct <= 12 then 75
    else if pct <= 18 then 70
    else if pct <= 25 then 65
    else if pct <= 35 then 60
    else if pct <= 50 then 55
    else 50
  }

  /** A larger deviation never earns a higher confidence. */
  lemma ConfidenceTierAntitone(p: nat, q: nat)
    requires p <= q
    ensures ConfidenceTier(q) <= ConfidenceTier(p)
  {
  }

  /** A deviation of at most 18 % reaches the validity threshold of 70; a larger one does not. */
  lemma ConfidenceTierValidity(pct: nat)
    ensures ConfidenceTier(pct) >= MIN_CONFIDENCE_LEVEL <==> pct <= 18
  {
  }

  /** `calculate_historical_confidence`: the tier of the new price's deviation from the floor mean. */
  function CalculateHistoricalConfidence(recent: seq<nat>, newPrice: nat): (c: nat)
    ensures |recent| == 0 ==> c == DEFAULT_CONFIDENCE
    ensures |recent| > 0 && Mean(recent) == 0 ==> c == 0
    ensures |recent| > 0 && Mean(recent) > 0 ==>
      c == ConfidenceTier(DeviationPercent(newPrice, Mean(recent))) && 50 <= c <= 95
    ensures |recent| > 0 && Mean(recent) > 0 && newPrice == Mean(recent) ==> c == 95
  {
    if |recent| == 0 then DEFAULT_CONFIDENCE
    else
      var avg := Mean(recent);
      if avg == 0 then 0
      else ConfidenceTier(DeviationPercent(newPrice, avg))
  }

  /**
   * `validate_against_historical_data`, given the asset's stored submissions
   * (an absent buffer is the empty sequence): the default 50 unless some
   * valid entry within the last 24 hours gives an average to compare with.
   */
  function ValidateAgainstHistoricalData(newPrice: nat, history: seq<PriceData>, now: nat): (c: nat)
    ensures 50 <= c <= 95 && c % 5 == 0
    ensures c != DEFAULT_CONFIDENCE ==> exists k :: 0 <= k < |history| && IsValid(history[k])
    ensures |GetRecentValidPrices(history, now)| == 0 ==> c == DEFAULT_CONFIDENCE
    ensures |GetRecentValidPrices(history, now)| > 0 ==>
      c == CalculateHistoricalConfidence(GetRecentValidPrices(history, now), newPrice)
  {
    if |history| == 0 then DEFAULT_CONFIDENCE
    else
      var recent := GetRecentValidPrices(history, now);
      if |recent| == 0 then DEFAULT_CONFIDENCE
      else
        MeanAtLeast(recent, 1);
        CalculateHistoricalConfidence(recent, newPrice)
  }

  /**
   * A buffer with no valid entry earns every new price the default
   * confidence of 50, which is itself below the validity threshold.
   */
  lemma NoValidHistoryGivesDefault(newPrice: nat, history: seq<PriceData>, now: nat)
    requires forall k :: 0 <= k < |history| ==> !IsValid(history[k])
    ensures ValidateAgainstHistoricalData(newPrice, history, now) == DEFAULT_CONFIDENCE
    ensures ValidateAgainstHistoricalData(newPrice, history, now) < MIN_CONFIDENCE_LEVEL
  {
  }

  /**
   * A history whose newest entry is older than 24 hours earns every new
   * price the default confidence, whatever valid entries lie behind it.
   */
  lemma StaleHistoryGivesDefault(newPrice: nat, history: seq<PriceData>, now: nat)
    requires |history| > 0 && !IsRecent(history[|history| - 1], now)
    ensures ValidateAgainstHistoricalData(newPrice, history, now) == DEFAULT_CONFIDENCE
  {
    RecentScanOldLast(history[..|history| - 1], history[|history| - 1], now);
    assert history == history[..|history| - 1] + [history[|history| - 1]];
  }

  /** The submissions of one node, in their stored order. */
  function NodeSubmissions(submissions: seq<PriceData>, submitter: Address): (r: seq<PriceData>)
    ensures |r| <= |submissions|
    ensures forall i :: 0 <= i < |r| ==> r[i].oracleNode == submitter
    ensures SubsequenceOf(r, submissions)
    ensures forall x :: multiset(r)[x] == if x.oracleNode == submitter then multiset(submissions)[x] else 0
  {
    var mine := (s: PriceData) => s.oracleNode == submitter;
    FilterIsSubsequence(submissions, mine);
    FilterMultiplicities(submissions, mine);
    Filter(submissions, mine)
  }

  /** Submissions dated within `RAPID_THRESHOLD` seconds of `now`. */
  function RecentSubmissions(subs: seq<PriceData>, now: nat): (r: seq<PriceData>)
    ensures |r| <= |subs|
  {
    Filter(subs, (s: PriceData) => SatSub(now, s.timestamp) <= RAPID_THRESHOLD)
  }

  /** `detect_rapid_submissions`: at least five submissions in the last five minutes. */
  function DetectRapidSubmissions(nodeSubs: seq<PriceData>, now: nat): (flagged: bool)
    ensures |nodeSubs| < 5 ==> !flagged
  {
    |nodeSubs| >= 5 && |RecentSubmissions(nodeSubs, now)| >= 5
  }

  /** The length guard is redundant: the detector fires exactly when five recent submissions exist. */
  lemma RapidIffFiveRecent(nodeSubs: seq<PriceData>, now: nat)
    ensures DetectRapidSubmissions(nodeSubs, now) <==> |RecentSubmissions(nodeSubs, now)| >= 5
  {
  }

  /** Five submissions dated `now` are flagged. */
  lemma FiveAtOnceAreRapid(p: PriceData, now: nat)
    requires p.timestamp == now
    ensures DetectRapidSubmissions([p, p, p, p, p], now)
  {
    FilterKeepsAll([p, p, p, p, p], (s: PriceData) => SatSub(now, s.timestamp) <= RAPID_THRESHOLD);
  }

  /** The comparison window of `detect_consistent_outliers`, as written. */
  predicate InOutlierWindow(ns: PriceData, s: PriceData) {
    SatSub(ns.timestamp, s.timestamp) <= OUTLIER_WINDOW || SatSub(s.timestamp, ns.timestamp) <= OUTLIER_WINDOW
  }

  /**
   * The window test holds for every pair of timestamps: one of the two
   * saturating differences is always zero, so no submission is ever excluded
   * by time.
   */
  lemma OutlierWindowVacuous(ns: PriceData, s: PriceData)
    ensures InOutlierWindow(ns, s)
  {
  }

  /** Other nodes' prices for the same asset within the window of `ns`. */
  function OtherPrices(all: seq<PriceData>, ns: PriceData): (r: seq<nat>)
    ensures |r| <= |all|
  {
    Prices(Filter(all, (s: PriceData) =>
      s.oracleNode != ns.oracleNode && s.assetSymbol == ns.assetSymbol && InOutlierWindow(ns, s)))
  }

  /** Because the window is vacuous, the comparison set is every other node's price for the asset. */
  lemma OtherPricesIgnoreTime(all: seq<PriceData>, ns: PriceData)
    ensures OtherPrices(all, ns) ==
      Prices(Filter(all, (s: PriceData) => s.oracleNode != ns.oracleNode && s.assetSymbol == ns.assetSymbol))
  {
    forall i | 0 <= i < |all| {
      OutlierWindowVacuous(ns, all[i]);
    }
    FilterCongruent(all,
      (s: PriceData) => s.oracleNode != ns.oracleNode && s.assetSymbol == ns.assetSymbol && InOutlierWindow(ns, s),
      (s: PriceData) => s.oracleNode != ns.oracleNode && s.assetSymbol == ns.assetSymbol);
  }

  /** One iteration of the outlier loop: at least two other prices, and a deviation above 15 %. */
  predicate IsOutlier(ns: PriceData, all: seq<PriceData>) {
    var others := OtherPrices(all, ns);
    |others| >= 2 && Mean(others) > 0 && DeviationPercent(ns.price, Mean(others)) > OUTLIER_DEVIATION
  }

  function OutlierCount(nodeSubs: seq<PriceData>, all: seq<PriceData>): (k: nat)
    ensures k <= |nodeSubs|
  {
    |Filter(nodeSubs, (ns: PriceData) => IsOutlier(ns, all))|
  }

  /** `detect_consistent_outliers`: more than 60 % (truncated) of the node's submissions are outliers. */
  function DetectConsistentOutliers(nodeSubs: seq<PriceData>, all: seq<PriceData>): (flagged: bool)
    ensures |nodeSubs| < 3 || |all| < 5 ==> !flagged
  {
    if |nodeSubs| < 3 || |all| < 5 then false
    else OutlierCount(nodeSubs, all) * 100 / |nodeSubs| > 60
  }

  /** The 60 % rule without division: at least 61 outliers per 100 submissions. */
  lemma ConsistentOutliersCharacterized(nodeSubs: seq<PriceData>, all: seq<PriceData>)
    ensures DetectConsistentOutliers(nodeSubs, all) <==>
      |nodeSubs| >= 3 && |all| >= 5 && OutlierCount(nodeSubs, all) * 100 >= 61 * |nodeSubs|
  {
    if |nodeSubs| >= 3 && |all| >= 5 {
      DivExceeds(OutlierCount(nodeSubs, all) * 100, |nodeSubs|, 60);
    }
  }

  /** `find(|s| s.price == p).timestamp`: the timestamp of the first submission at price `p`. */
  function FirstTimestamp(subs: seq<PriceData>, p: nat): nat {
    if |subs| == 0 then 0
    else if subs[0].price == p then subs[0].timestamp
    else FirstTimestamp(subs[1..], p)
  }

  /** Ordered by the key of `detect_suspicious_patterns`' comparator. */
  predicate KeySorted(s: seq<nat>, subs: seq<PriceData>) {
    forall i, j :: 0 <= i < j < |s| ==> FirstTimestamp(subs, s[i]) <= FirstTimestamp(subs, s[j])
  }

  /** Inserts `x` after every element whose key is at most its own (a stable insertion). */
  function InsertByKey(x: nat, s: seq<nat>, subs: seq<PriceData>): (r: seq<nat>)
    requires KeySorted(s, subs)
    ensures KeySorted(r, subs)
    ensures |r| == |s| + 1
    ensures r[0] == (if |s| == 0 || FirstTimestamp(subs, x) < FirstTimestamp(subs, s[0]) then x else s[0])
    ensures multiset(r) == multiset(s) + multiset{x}
  {
    if |s| == 0 then [x]
    else if FirstTimestamp(subs, x) < FirstTimestamp(subs, s[0]) then [x] + s
    else
      assert s == [s[0]] + s[1..];
      [s[0]] + InsertByKey(x, s[1..], subs)
  }

  /** `sort_by` on the comparator of `detect_suspicious_patterns`: a stable sort by key. */
  function SortByKey(s: seq<nat>, subs: seq<PriceData>): (r: seq<nat>)
    ensures KeySorted(r, subs)
    ensures multiset(r) == multiset(s)
  {
    if |s| == 0 then []
    else
      assert s == s[..|s| - 1] + [s[|s| - 1]];
      InsertByKey(s[|s| - 1], SortByKey(s[..|s| - 1], subs), subs)
  }

  /** The elements whose key is `k`, in their order in `s`. */
  function KeyClass(s: seq<nat>, subs: seq<PriceData>, k: nat): seq<nat> {
    if |s| == 0 then []
    else (if FirstTimestamp(subs, s[0]) == k then [s[0]] else []) + KeyClass(s[1..], subs, k)
  }

  lemma {:induction false} KeyClassAppend(a: seq<nat>, b: seq<nat>, subs: seq<PriceData>, k: nat)
    ensures KeyClass(a + b, subs, k) == KeyClass(a, subs, k) + KeyClass(b, subs, k)
  {
    if |a| == 0 {
      assert a + b == b;
    } else {
      assert (a + b)[0] == a[0];
      assert (a + b)[1..] == a[1..] + b;
      KeyClassAppend(a[1..], b, subs, k);
    }
  }

  lemma {:induction false} KeyClassAbove(s: seq<nat>, subs: seq<PriceData>, k: nat)
    requires forall i :: 0 <= i < |s| ==> FirstTimestamp(subs, s[i]) > k
    ensures KeyClass(s, subs, k) == []
  {
    if |s| > 0 {
      KeyClassAbove(s[1..], subs, k);
    }
  }

  /** A stable insertion puts `x` after every element of its key class. */
  lemma {:induction false} InsertByKeyStable(x: nat, s: seq<nat>, subs: seq<PriceData>, k: nat)
    requires KeySorted(s, subs)
    ensures KeyClass(InsertByKey(x, s, subs), subs, k) == KeyClass(s, subs, k) + KeyClass([x], subs, k)
  {
    if |s| == 0 {
      assert KeyClass([], subs, k) == [];
    } else if FirstTimestamp(subs, x) < FirstTimestamp(subs, s[0]) {
      assert InsertByKey(x, s, subs) == [x] + s;
      assert forall i :: 0 <= i < |s| ==> FirstTimestamp(subs, s[0]) <= FirstTimestamp(subs, s[i]);
      InsertBeforeLargerKeys(x, s, subs, k);
    } else {
      var t := InsertByKey(x, s[1..], subs);
      assert InsertByKey(x, s, subs) == [s[0]] + t;
      InsertByKeyStable(x, s[1..], subs, k);
      KeyClassCons(s[0], t, s[1..], KeyClass([x], subs, k), subs, k);
      assert [s[0]] + s[1..] == s;
    }
  }

  /** Putting `x` before elements of larger keys puts it after its (empty) key class among them. */
  lemma InsertBeforeLargerKeys(x: nat, s: seq<nat>, subs: seq<PriceData>, k: nat)
    requires forall i :: 0 <= i < |s| ==> FirstTimestamp(subs, x) < FirstTimestamp(subs, s[i])
    ensures KeyClass([x] + s, subs, k) == KeyClass(s, subs, k) + KeyClass([x], subs, k)
  {
    KeyClassAppend([x], s, subs, k);
    assert KeyClass([x], subs, k) == (if FirstTimestamp(subs, x) == k then [x] else []) + KeyClass([], subs, k);
    if FirstTimestamp(subs, x) == k {
      KeyClassAbove(s, subs, k);
    }
  }

  /** Prefixing the same element keeps two key classes related by a common suffix. */
  lemma KeyClassCons(h: nat, t: seq<nat>, u: seq<nat>, e: seq<nat>, subs: seq<PriceData>, k: nat)
    requires KeyClass(t, subs, k) == KeyClass(u, subs, k) + e
    ensures KeyClass([h] + t, subs, k) == KeyClass([h] + u, subs, k) + e
  {
    KeyClassAppend([h], t, subs, k);
    KeyClassAppend([h], u, subs, k);
  }

  /**
   * `sort_by` is stable: within each key class the prices keep the order
   * they had before sorting.
   */
  lemma {:induction false} SortByKeyStable(s: seq<nat>, subs: seq<PriceData>, k: nat)
    ensures KeyClass(SortByKey(s, subs), subs, k) == KeyClass(s, subs, k)
  {
    if |s| > 0 {
      var init := s[..|s| - 1];
      var last := s[|s| - 1];
      SortByKeyStable(init, subs, k);
      InsertByKeyStable(last, SortByKey(init, subs), subs, k);
      assert s == init + [last];
      KeyClassAppend(init, [last], subs, k);
    }
  }

  /** `windows(2).all(|w| w[1] > w[0])`. */
  predicate StrictlyAscending(s: seq<nat>) {
    forall i :: 0 <= i < |s| - 1 ==> s[i] < s[i + 1]
  }

  /** `windows(2).all(|w| w[1] < w[0])`. */
  predicate StrictlyDescending(s: seq<nat>) {
    forall i :: 0 <= i < |s| - 1 ==> s[i] > s[i + 1]
  }

  /** `detect_suspicious_patterns`: four or more prices that, ordered by key, move strictly one way. */
  function DetectSuspiciousPatterns(nodeSubs: seq<PriceData>): (flagged: bool)
    ensures |nodeSubs| < 4 ==> !flagged
  {
    if |nodeSubs| < 4 then false
    else
      var prices := SortByKey(Prices(nodeSubs), nodeSubs);
      StrictlyAscending(prices) || StrictlyDescending(prices)
  }

  lemma {:induction false} AscendingPair(s: seq<nat>, i: nat, j: nat)
    requires StrictlyAscending(s) && i < j < |s|
    ensures s[i] < s[j]
    decreases j - i
  {
    if j > i + 1 {
      AscendingPair(s, i, j - 1);
    }
  }

  lemma {:induction false} DescendingPair(s: seq<nat>, i: nat, j: nat)
    requires StrictlyDescending(s) && i < j < |s|
    ensures s[i] > s[j]
    decreases j - i
  {
    if j > i + 1 {
      DescendingPair(s, i, j - 1);
    }
  }

  /** A strictly monotone sequence holds every value at most once. */
  lemma MonotoneHasNoRepeats(s: seq<nat>, x: nat)
    requires StrictlyAscending(s) || StrictlyDescending(s)
    ensures multiset(s)[x] <= 1
  {
    forall i, j | 0 <= i < j < |s|
      ensures s[i] != s[j]
    {
      if StrictlyAscending(s) {
        AscendingPair(s, i, j);
      } else {
        DescendingPair(s, i, j);
      }
    }
    DistinctMultiplicity(s, x);
  }

  /**
   * A node that ever submits the same price twice is never flagged for a
   * suspicious pattern: the sorted prices then hold a repeat, and a repeat
   * breaks both strict orders.
   */
  lemma RepeatedPriceNeverSuspicious(nodeSubs: seq<PriceData>, i: nat, j: nat)
    requires i < j < |nodeSubs| && nodeSubs[i].price == nodeSubs[j].price
    ensures !DetectSuspiciousPatterns(nodeSubs)
  {
    var prices := Prices(nodeSubs);
    var sorted := SortByKey(prices, nodeSubs);
    RepeatedMultiplicity(prices, i, j);
    var p := prices[i];
    assert multiset(sorted)[p] >= 2;
    if StrictlyAscending(sorted) || StrictlyDescending(sorted) {
      MonotoneHasNoRepeats(sorted, p);
    }
  }

  /** The anomaly symbols `detect_anomalous_patterns` can report. */
  datatype Anomaly = RapidSubmissions | ConsistentOutliers | SuspiciousPatterns

  /** `detect_anomalous_patterns`: the detectors run on the submitter's submissions, in this order. */
  function DetectAnomalousPatterns(submissions: seq<PriceData>, submitter: Address, now: nat): (r: seq<Anomaly>)
    ensures |r| <= 3
    ensures RapidSubmissions in r <==> DetectRapidSubmissions(NodeSubmissions(submissions, submitter), now)
    ensures ConsistentOutliers in r <==>
      DetectConsistentOutliers(NodeSubmissions(submissions, submitter), submissions)
    ensures SuspiciousPatterns in r <==> DetectSuspiciousPatterns(NodeSubmissions(submissions, submitter))
    ensures |NodeSubmissions(submissions, submitter)| < 3 ==> r == []
  {
    var nodeSubs := NodeSubmissions(submissions, submitter);
    Reported(DetectRapidSubmissions(nodeSubs, now), DetectConsistentOutliers(nodeSubs, submissions),
             DetectSuspiciousPatterns(nodeSubs))
  }

  /** The anomalies whose detectors fired, in detector order. */
  function Reported(rapid: bool, outliers: bool, patterns: bool): (r: seq<Anomaly>)
    ensures |r| <= 3
    ensures RapidSubmissions in r <==> rapid
    ensures ConsistentOutliers in r <==> outliers
    ensures SuspiciousPatterns in r <==> patterns
  {
    (if rapid then [RapidSubmissions] else [])
    + (if outliers then [ConsistentOutliers] else [])
    + (if patterns then [SuspiciousPatterns] else [])
  }
}
