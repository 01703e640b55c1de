/**
 * The price oracle's aggregator: which submissions take part in a round, the
 * outlier band around their median, the stake- and reputation-weighted
 * median, the confidence and spread of the result, the fallback price taken
 * from the aggregate history, and the reputation update that follows a round.
 */
module OracleAggregation {
  import opened Common
  import opened Wrappers
  import opened OraclePrices
  import opened OracleNodes
  import opened Seqs

  /** Age in seconds beyond which a history entry is not used as a fallback. */
  const FALLBACK_STALENESS_THRESHOLD: nat := 1800
  /** Largest deviation in percent from the aggregate that counts as accurate. */
  const ACCURACY_TOLERANCE: nat := 5

  /** A submission that takes part in a round: valid, fresh, and from an eligible registered node. */
  predicate Usable(s: PriceData, nodes: map<Address, OracleNode>, now: nat) {
    IsValid(s) && !IsStale(s, now) && s.oracleNode in nodes && IsEligible(nodes[s.oracleNode], now)
  }

  /** The median of the submitted prices, around which the outlier band is drawn. */
  function OutlierMedian(subs: seq<PriceData>): nat
    requires |subs| > 0
  {
    Median(Sort(Prices(subs)))
  }

  /** Within `MAX_PRICE_DEVIATION` percent (truncated) of the median. */
  predicate InBand(price: nat, median: nat) {
    AbsDiff(price, median) <= median * MAX_PRICE_DEVIATION / 100
  }

  /** `remove_outliers`: with three or more submissions, keeps, in order, those within 10 % of the median. */
  function RemoveOutliers(subs: seq<PriceData>): (r: seq<PriceData>)
    ensures |subs| < 3 ==> r == subs
    ensures |r| <= |subs|
    ensures forall i :: 0 <= i < |r| ==> r[i] in subs
    ensures |subs| >= 3 ==> forall i :: 0 <= i < |r| ==> InBand(r[i].price, OutlierMedian(subs))
    ensures |subs| >= 3 ==> forall i :: 0 <= i < |subs| && InBand(subs[i].price, OutlierMedian(subs)) ==> subs[i] in r
    ensures |subs| >= 3 && (forall i :: 0 <= i < |subs| ==> !InBand(subs[i].price, OutlierMedian(subs))) ==> r == []
    ensures |subs| >= 3 ==> SubsequenceOf(r, subs)
    ensures |subs| >= 3 ==>
      forall x :: multiset(r)[x] == if InBand(x.price, OutlierMedian(subs)) then multiset(subs)[x] else 0
  {
    if |subs| < 3 then subs
    else
      var median := OutlierMedian(subs);
      var inBand := (s: PriceData) => InBand(s.price, median);
      FilterIsSubsequence(subs, inBand);
      FilterMultiplicities(subs, inBand);
      Filter(subs, inBand)
  }

  /**
   * With an odd number (at least three) of submissions the median is one of
   * the submitted prices, so that submission survives and the result is
   * never empty.
   */
  lemma OddCountKeepsMedianSubmission(subs: seq<PriceData>)
    requires |subs| >= 3 && |subs| % 2 == 1
    ensures |RemoveOutliers(subs)| >= 1
  {
    var prices := Prices(subs);
    var sorted := Sort(prices);
    var m := sorted[|sorted| / 2];
    assert m == OutlierMedian(subs);
    assert m in multiset(prices);
    var i :| 0 <= i < |prices| && prices[i] == m;
    assert InBand(subs[i].price, m);
  }

  /**
   * With an even count the median is the floor average of the two middle
   * prices and may lie far from every submission: two submissions at 1 and
   * two at 100 give a median of 50 and a band of 5, and none survives.
   */
  lemma EvenSplitRemovesEverySubmission(a: PriceData, b: PriceData, c: PriceData, d: PriceData)
    requires a.price == 1 && b.price == 1 && c.price == 100 && d.price == 100
    ensures RemoveOutliers([a, b, c, d]) == []
  {
    var subs := [a, b, c, d];
    EvenSplitMedian(subs);
    assert forall i :: 0 <= i < |subs| ==> !InBand(subs[i].price, 50);
  }

  lemma EvenSplitMedian(subs: seq<PriceData>)
    requires |subs| == 4
    requires subs[0].price == 1 && subs[1].price == 1 && subs[2].price == 100 && subs[3].price == 100
    ensures OutlierMedian(subs) == 50
  {
    var prices := Prices(subs);
    assert Sorted(prices);
    SortedUnique(Sort(prices), prices);
  }

  /**
   * `filter_valid_submissions`: the usable submissions, in order, then
   * `remove_outliers` on them.
   */
  function FilterValidSubmissions(subs: seq<PriceData>, nodes: map<Address, OracleNode>, now: nat): (r: seq<PriceData>)
    ensures |r| <= |Filter(subs, (s: PriceData) => Usable(s, nodes, now))| <= |subs|
    ensures forall i :: 0 <= i < |r| ==> r[i] in subs && Usable(r[i], nodes, now)
    ensures SubsequenceOf(r, subs)
    ensures forall x :: multiset(r)[x] == if Participates(x, subs, nodes, now) then multiset(subs)[x] else 0
  {
    var usable := Filter(subs, (s: PriceData) => Usable(s, nodes, now));
    var kept := RemoveOutliers(usable);
    ValidSubmissionsOrder(subs, nodes, now);
    ValidSubmissionsMultiplicities(subs, nodes, now);
    assert forall i :: 0 <= i < |kept| ==> kept[i] in usable;
    kept
  }

  /**
   * A submission takes part in a round when it is usable and, once there are
   * at least three usable ones, within the outlier band around their median.
   */
  predicate Participates(x: PriceData, subs: seq<PriceData>, nodes: map<Address, OracleNode>, now: nat) {
    var usable := Filter(subs, (s: PriceData) => Usable(s, nodes, now));
    Usable(x, nodes, now) && (|usable| >= 3 ==> InBand(x.price, OutlierMedian(usable)))
  }

  lemma ValidSubmissionsOrder(subs: seq<PriceData>, nodes: map<Address, OracleNode>, now: nat)
    ensures SubsequenceOf(RemoveOutliers(Filter(subs, (s: PriceData) => Usable(s, nodes, now))), subs)
  {
    var isUsable := (s: PriceData) => Usable(s, nodes, now);
    var usable := Filter(subs, isUsable);
    FilterIsSubsequence(subs, isUsable);
    if |usable| >= 3 {
      SubsequenceTransitive(RemoveOutliers(usable), usable, subs);
    }
  }

  lemma ValidSubmissionsMultiplicities(subs: seq<PriceData>, nodes: map<Address, OracleNode>, now: nat)
    ensures forall x :: multiset(RemoveOutliers(Filter(subs, (s: PriceData) => Usable(s, nodes, now))))[x]
                        == if Participates(x, subs, nodes, now) then multiset(subs)[x] else 0
  {
    var isUsable := (s: PriceData) => Usable(s, nodes, now);
    var usable := Filter(subs, isUsable);
    forall x {
      FilterMultiplicity(subs, isUsable, x);
    }
  }

  /** A buffer in which no submission is valid yields no participant. */
  lemma NoValidSubmissionNoParticipant(subs: seq<PriceData>, nodes: map<Address, OracleNode>, now: nat)
    requires forall i :: 0 <= i < |subs| ==> !IsValid(subs[i])
    ensures FilterValidSubmissions(subs, nodes, now) == []
  {
    FilterDropsAll(subs, (s: PriceData) => Usable(s, nodes, now));
  }

  /** `max(score, 1) / 10`. */
  function ReputationMultiplier(score: nat): (m: nat)
    ensures score < 10 <==> m == 0
    ensures score >= 70 ==> m >= 7
    ensures score <= 100 ==> m <= 10
  {
    (if score >= 1 then score else 1) / 10
  }

  /** `max(confidence, 1) / 20`. */
  function ConfidenceMultiplier(confidence: nat): (m: nat)
    ensures confidence < 20 <==> m == 0
    ensures confidence >= 70 ==> m >= 3
    ensures confidence <= 100 ==> m <= 5
  {
    (if confidence >= 1 then confidence else 1) / 20
  }

  /** `(stake / MIN_STAKE_AMOUNT).max(1).min(5)`. */
  function StakeMultiplier(stake: nat): (m: nat)
    ensures 1 <= m <= 5
    ensures stake < 2 * MIN_STAKE_AMOUNT ==> m == 1
    ensures stake >= 5 * MIN_STAKE_AMOUNT ==> m == 5
  {
    var q := stake / MIN_STAKE_AMOUNT;
    if q < 1 then 1 else if q > 5 then 5 else q
  }

  lemma MulLe(x: nat, y: nat, k: nat)
    requires x <= y
    ensures x * k <= y * k
  {
  }

  lemma Distribute(a: nat, b: nat, c: nat)
    ensures a * (b + c) == a * b + a * c
  {
  }

  /** The bounds of a product of three multipliers that `NodeWeight` relies on. */
  lemma ProductBounds(a: nat, b: nat, c: nat)
    ensures a >= 7 && b >= 3 && c >= 1 ==> a * b * c >= 21
    ensures a <= 10 && b <= 5 && c <= 5 ==> a * b * c <= 250
    ensures a >= 1 && b >= 1 && c >= 1 ==> a * b * c >= 1
  {
    if a >= 7 && b >= 3 && c >= 1 {
      MulLe(7, a, b);
      MulLe(3, b, 7);
      MulLe(1, c, a * b);
    }
    if a <= 10 && b <= 5 && c <= 5 {
      MulLe(a, 10, b);
      MulLe(b, 5, 10);
      MulLe(c, 5, a * b);
    }
    if a >= 1 && b >= 1 && c >= 1 {
      MulLe(1, a, b);
      MulLe(1, c, a * b);
    }
  }

  /** `calculate_node_weight`: reputation, confidence and stake multipliers. */
  function NodeWeight(node: OracleNode, s: PriceData): (w: nat)
    ensures w == 0 <==> node.reputationScore < 10 || s.confidence < 20
    ensures node.reputationScore >= 70 && s.confidence >= 70 ==> w >= 21
    ensures node.reputationScore <= 100 && s.confidence <= 100 ==> w <= 250
  {
    var rep := ReputationMultiplier(node.reputationScore);
    var conf := ConfidenceMultiplier(s.confidence);
    var stake := StakeMultiplier(node.stakeAmount);
    ProductBounds(rep, conf, stake);
    rep * conf * stake
  }

  /** The weight a submission carries: zero when its node is not registered. */
  function WeightOf(s: PriceData, nodes: map<Address, OracleNode>): nat {
    if s.oracleNode in nodes then NodeWeight(nodes[s.oracleNode], s) else 0
  }

  /** Every usable submission carries a weight of at least 21. */
  lemma UsableWeight(s: PriceData, nodes: map<Address, OracleNode>, now: nat)
    requires Usable(s, nodes, now)
    ensures WeightOf(s, nodes) >= 21
  {
  }

  function TotalWeight(subs: seq<PriceData>, nodes: map<Address, OracleNode>): nat {
    if |subs| == 0 then 0 else WeightOf(subs[0], nodes) + TotalWeight(subs[1..], nodes)
  }

  /** The `weighted_prices` vector: each price repeated as many times as its weight. */
  function WeightedPrices(subs: seq<PriceData>, nodes: map<Address, OracleNode>): (r: seq<nat>)
    ensures |r| == TotalWeight(subs, nodes)
  {
    if |subs| == 0 then []
    else Replicate(subs[0].price, WeightOf(subs[0], nodes)) + WeightedPrices(subs[1..], nodes)
  }

  /** Some submission with positive weight quotes `p`. */
  predicate HasWeightedSource(subs: seq<PriceData>, nodes: map<Address, OracleNode>, p: nat) {
    exists i :: 0 <= i < |subs| && WeightOf(subs[i], nodes) > 0 && subs[i].price == p
  }

  /** Every entry of the weighted vector is the price of a submission with positive weight. */
  lemma {:induction false} WeightedPricesMember(subs: seq<PriceData>, nodes: map<Address, OracleNode>, k: nat)
    requires k < |WeightedPrices(subs, nodes)|
    ensures HasWeightedSource(subs, nodes, WeightedPrices(subs, nodes)[k])
  {
    var w := WeightOf(subs[0], nodes);
    var rest := WeightedPrices(subs[1..], nodes);
    assert WeightedPrices(subs, nodes) == Replicate(subs[0].price, w) + rest;
    if k < w {
      assert WeightedPrices(subs, nodes)[k] == subs[0].price;
    } else {
      WeightedPricesMember(subs[1..], nodes, k - w);
      var j :| 0 <= j < |subs[1..]| && WeightOf(subs[1..][j], nodes) > 0 && subs[1..][j].price == rest[k - w];
      assert subs[j + 1] == subs[1..][j];
    }
  }

  /** The forall form of `WeightedPricesMember`. */
  lemma WeightedPricesMembers(subs: seq<PriceData>, nodes: map<Address, OracleNode>)
    ensures forall k :: 0 <= k < |WeightedPrices(subs, nodes)| ==>
      HasWeightedSource(subs, nodes, WeightedPrices(subs, nodes)[k])
  {
    forall k | 0 <= k < |WeightedPrices(subs, nodes)| {
      WeightedPricesMember(subs, nodes, k);
    }
  }

  lemma {:induction false} WeightedPricesAppend(a: seq<PriceData>, b: seq<PriceData>, nodes: map<Address, OracleNode>)
    ensures WeightedPrices(a + b, nodes) == WeightedPrices(a, nodes) + WeightedPrices(b, nodes)
  {
    if |a| == 0 {
      assert a + b == b;
    } else {
      assert (a + b)[0] == a[0];
      assert (a + b)[1..] == a[1..] + b;
      WeightedPricesAppend(a[1..], b, nodes);
    }
  }

  /** A non-empty list of usable submissions has a positive total weight. */
  lemma {:induction false} UsableTotalWeight(subs: seq<PriceData>, nodes: map<Address, OracleNode>, now: nat)
    requires forall i :: 0 <= i < |subs| ==> Usable(subs[i], nodes, now)
    ensures TotalWeight(subs, nodes) >= 21 * |subs|
  {
    if |subs| > 0 {
      UsableWeight(subs[0], nodes, now);
      UsableTotalWeight(subs[1..], nodes, now);
    }
  }

  /**
   * `calculate_weighted_median`: the median of the weighted price vector; it
   * fails only on an empty input or when every submission weighs nothing.
   */
  function CalculateWeightedMedian(subs: seq<PriceData>, nodes: map<Address, OracleNode>): (r: Result<nat, OracleError>)
    ensures |subs| == 0 ==> r == Err(NoSubmissions)
    ensures |subs| > 0 ==> (r == Err(NoWeightedData) <==> TotalWeight(subs, nodes) == 0)
    ensures r.Err? ==> r.error == NoSubmissions || r.error == NoWeightedData
    ensures r.Ok? ==> exists i :: 0 <= i < |subs| && WeightOf(subs[i], nodes) > 0 && subs[i].price <= r.value
    ensures r.Ok? ==> exists j :: 0 <= j < |subs| && WeightOf(subs[j], nodes) > 0 && r.value <= subs[j].price
  {
    if |subs| == 0 then Err(NoSubmissions)
    else
      var weighted := WeightedPrices(subs, nodes);
      if |weighted| == 0 then Err(NoWeightedData)
      else
        var sorted := Sort(weighted);
        MedianBounds(sorted);
        SortedEndsWeighted(subs, nodes);
        Ok(Median(sorted))
  }

  /** Total weight of the submissions quoting at most `m`. */
  function WeightAtMost(subs: seq<PriceData>, nodes: map<Address, OracleNode>, m: nat): nat {
    if |subs| == 0 then 0
    else (if subs[0].price <= m then WeightOf(subs[0], nodes) else 0) + WeightAtMost(subs[1..], nodes, m)
  }

  /** Total weight of the submissions quoting at least `m`. */
  function WeightAtLeast(subs: seq<PriceData>, nodes: map<Address, OracleNode>, m: nat): nat {
    if |subs| == 0 then 0
    else (if subs[0].price >= m then WeightOf(subs[0], nodes) else 0) + WeightAtLeast(subs[1..], nodes, m)
  }

  /** Counting the weighted vector on one side of `m` is weighing the submissions on that side. */
  lemma {:induction false} WeightedPricesCounts(subs: seq<PriceData>, nodes: map<Address, OracleNode>, m: nat)
    ensures CountAtMost(WeightedPrices(subs, nodes), m) == WeightAtMost(subs, nodes, m)
    ensures CountAtLeast(WeightedPrices(subs, nodes), m) == WeightAtLeast(subs, nodes, m)
  {
    if |subs| > 0 {
      var head := Replicate(subs[0].price, WeightOf(subs[0], nodes));
      WeightedPricesCounts(subs[1..], nodes, m);
      CountsAppend(head, WeightedPrices(subs[1..], nodes), m);
      ReplicateCounts(subs[0].price, WeightOf(subs[0], nodes), m);
    }
  }

  /**
   * The weighted median is a median of the weights: the submissions quoting
   * at most it carry at least half the total weight, and so do those quoting
   * at least it.
   */
  lemma WeightedMedianHalves(subs: seq<PriceData>, nodes: map<Address, OracleNode>)
    requires TotalWeight(subs, nodes) > 0
    ensures CalculateWeightedMedian(subs, nodes).Ok?
    ensures var m := CalculateWeightedMedian(subs, nodes).value;
      && 2 * WeightAtMost(subs, nodes, m) >= TotalWeight(subs, nodes)
      && 2 * WeightAtLeast(subs, nodes, m) >= TotalWeight(subs, nodes)
  {
    var weighted := WeightedPrices(subs, nodes);
    var m := Median(Sort(weighted));
    assert CalculateWeightedMedian(subs, nodes).value == m;
    MedianSplitsHalf(weighted);
    WeightedPricesCounts(subs, nodes, m);
  }

  /** The smallest and largest weighted prices are quoted by submissions with positive weight. */
  lemma SortedEndsWeighted(subs: seq<PriceData>, nodes: map<Address, OracleNode>)
    requires |WeightedPrices(subs, nodes)| > 0
    ensures var sorted := Sort(WeightedPrices(subs, nodes));
      HasWeightedSource(subs, nodes, sorted[0]) && HasWeightedSource(subs, nodes, sorted[|sorted| - 1])
  {
    var weighted := WeightedPrices(subs, nodes);
    var sorted := Sort(weighted);
    WeightedPricesMembers(subs, nodes);
    assert sorted[0] in multiset(weighted);
    assert sorted[|sorted| - 1] in multiset(weighted);
  }

  lemma WeightedPricesThree(a: seq<PriceData>, m: seq<PriceData>, b: seq<PriceData>, nodes: map<Address, OracleNode>)
    ensures WeightedPrices(a + m + b, nodes) == WeightedPrices(a, nodes) + WeightedPrices(m, nodes) + WeightedPrices(b, nodes)
  {
    WeightedPricesAppend(a + m, b, nodes);
    WeightedPricesAppend(a, m, nodes);
  }

  lemma WeightedPricesOfPair(a: seq<PriceData>, x: PriceData, y: PriceData, b: seq<PriceData>,
                             nodes: map<Address, OracleNode>)
    ensures WeightedPrices(a + [x, y] + b, nodes)
         == WeightedPrices(a, nodes) + (WeightedPrices([x], nodes) + WeightedPrices([y], nodes)) + WeightedPrices(b, nodes)
  {
    WeightedPricesThree(a, [x, y], b, nodes);
    assert [x] + [y] == [x, y];
    WeightedPricesAppend([x], [y], nodes);
  }

  /** Swapping two adjacent submissions permutes the weighted vector. */
  lemma WeightedPricesSwap(a: seq<PriceData>, x: PriceData, y: PriceData, b: seq<PriceData>,
                           nodes: map<Address, OracleNode>)
    ensures multiset(WeightedPrices(a + [x, y] + b, nodes)) == multiset(WeightedPrices(a + [y, x] + b, nodes))
  {
    var wa := WeightedPrices(a, nodes);
    var wb := WeightedPrices(b, nodes);
    var wx := WeightedPrices([x], nodes);
    var wy := WeightedPrices([y], nodes);
    WeightedPricesOfPair(a, x, y, b, nodes);
    WeightedPricesOfPair(a, y, x, b, nodes);
    MultisetOfFour(wa, wx, wy, wb);
    MultisetOfFour(wa, wy, wx, wb);
  }

  lemma MultisetOfFour(a: seq<nat>, b: seq<nat>, c: seq<nat>, d: seq<nat>)
    ensures multiset(a + (b + c) + d) == multiset(a) + multiset(b) + multiset(c) + multiset(d)
  {
  }

  /** The weighted median does not depend on the order of the submissions. */
  lemma WeightedMedianOrderFree(a: seq<PriceData>, x: PriceData, y: PriceData, b: seq<PriceData>,
                                nodes: map<Address, OracleNode>)
    ensures CalculateWeightedMedian(a + [x, y] + b, nodes) == CalculateWeightedMedian(a + [y, x] + b, nodes)
  {
    var ws := WeightedPrices(a + [x, y] + b, nodes);
    var wt := WeightedPrices(a + [y, x] + b, nodes);
    WeightedPricesSwap(a, x, y, b, nodes);
    assert |ws| == |multiset(ws)| == |multiset(wt)| == |wt|;
    SortedUnique(Sort(ws), Sort(wt));
  }

  /** When every weighted submission quotes the same price, that price is the median. */
  lemma UnanimousWeightedMedian(subs: seq<PriceData>, nodes: map<Address, OracleNode>, p: nat)
    requires forall i :: 0 <= i < |subs| && WeightOf(subs[i], nodes) > 0 ==> subs[i].price == p
    requires CalculateWeightedMedian(subs, nodes).Ok?
    ensures CalculateWeightedMedian(subs, nodes) == Ok(p)
  {
    var r := CalculateWeightedMedian(subs, nodes);
    SqueezedBetweenWeighted(subs, nodes, p, r.value);
  }

  /** A value between two weighted prices that all equal `p` is `p`. */
  lemma SqueezedBetweenWeighted(subs: seq<PriceData>, nodes: map<Address, OracleNode>, p: nat, m: nat)
    requires forall i :: 0 <= i < |subs| && WeightOf(subs[i], nodes) > 0 ==> subs[i].price == p
    requires exists i :: 0 <= i < |subs| && WeightOf(subs[i], nodes) > 0 && subs[i].price <= m
    requires exists j :: 0 <= j < |subs| && WeightOf(subs[j], nodes) > 0 && m <= subs[j].price
    ensures m == p
  {
    var i :| 0 <= i < |subs| && WeightOf(subs[i], nodes) > 0 && subs[i].price <= m;
    var j :| 0 <= j < |subs| && WeightOf(subs[j], nodes) > 0 && m <= subs[j].price;
    assert subs[i].price == p && subs[j].price == p;
  }

  /** Weighted sum of the confidences. */
  function TotalConfidence(subs: seq<PriceData>, nodes: map<Address, OracleNode>): nat {
    if |subs| == 0 then 0
    else subs[0].confidence * WeightOf(subs[0], nodes) + TotalConfidence(subs[1..], nodes)
  }

  /** Confidences of at least `lo` give a weighted sum of at least `lo` times the total weight. */
  lemma {:induction false} TotalConfidenceAtLeast(subs: seq<PriceData>, nodes: map<Address, OracleNode>, lo: nat)
    requires forall i :: 0 <= i < |subs| ==> lo <= subs[i].confidence
    ensures lo * TotalWeight(subs, nodes) <= TotalConfidence(subs, nodes)
  {
    if |subs| > 0 {
      TotalConfidenceAtLeast(subs[1..], nodes, lo);
      var w := WeightOf(subs[0], nodes);
      var restW := TotalWeight(subs[1..], nodes);
      MulLe(lo, subs[0].confidence, w);
      Distribute(lo, w, restW);
    }
  }

  /** Confidences of at most `hi` give a weighted sum of at most `hi` times the total weight. */
  lemma {:induction false} TotalConfidenceAtMost(subs: seq<PriceData>, nodes: map<Address, OracleNode>, hi: nat)
    requires forall i :: 0 <= i < |subs| ==> subs[i].confidence <= hi
    ensures TotalConfidence(subs, nodes) <= hi * TotalWeight(subs, nodes)
  {
    if |subs| > 0 {
      TotalConfidenceAtMost(subs[1..], nodes, hi);
      var w := WeightOf(subs[0], nodes);
      var restW := TotalWeight(subs[1..], nodes);
      MulLe(subs[0].confidence, hi, w);
      Distribute(hi, w, restW);
    }
  }

  /** The bonus `calculate_confidence` adds for the number of sources. */
  function SourceBonus(n: nat): (b: nat)
    ensures b <= 15
    ensures 1 <= n <= 5 ==> b == (if n == 1 then 0 else if n == 2 then 5 else 10)
    ensures n >= 6 ==> b == 15
  {
    if n == 1 then 0 else if n == 2 then 5 else if 3 <= n <= 5 then 10 else 15
  }

  /** More sources never earn a smaller bonus. */
  lemma SourceBonusMonotone(m: nat, n: nat)
    requires 1 <= m <= n
    ensures SourceBonus(m) <= SourceBonus(n)
  {
  }

  /** The weighted mean confidence plus the source bonus, capped at 100. */
  function CappedConfidence(mean: nat, bonus: nat): (c: nat)
    ensures c <= 100
    ensures c == mean + bonus || c == 100
  {
    if mean + bonus > 100 then 100 else mean + bonus
  }

  /** `calculate_confidence`: the weight-averaged confidence plus the source bonus, capped at 100. */
  function CalculateConfidence(subs: seq<PriceData>, nodes: map<Address, OracleNode>): (c: nat)
    ensures c <= 100
    ensures |subs| == 0 || TotalWeight(subs, nodes) == 0 ==> c == 0
  {
    if |subs| == 0 then 0
    else
      var tw := TotalWeight(subs, nodes);
      if tw == 0 then 0
      else CappedConfidence(TotalConfidence(subs, nodes) / tw, SourceBonus(|subs|))
  }

  /**
   * The aggregate confidence lies between the smallest and the largest
   * submitted confidence, each raised by the source bonus and capped at 100.
   */
  lemma ConfidenceBetweenExtremes(subs: seq<PriceData>, nodes: map<Address, OracleNode>, lo: nat, hi: nat)
    requires forall i :: 0 <= i < |subs| ==> lo <= subs[i].confidence <= hi
    requires TotalWeight(subs, nodes) > 0
    ensures |subs| > 0
    ensures Min(lo + SourceBonus(|subs|), 100) <= CalculateConfidence(subs, nodes)
    ensures CalculateConfidence(subs, nodes) <= Min(hi + SourceBonus(|subs|), 100)
  {
    var tw := TotalWeight(subs, nodes);
    TotalConfidenceAtLeast(subs, nodes, lo);
    TotalConfidenceAtMost(subs, nodes, hi);
    DivLowerBound(TotalConfidence(subs, nodes), tw, lo);
    DivUpperBound(TotalConfidence(subs, nodes), tw, hi);
  }

  /** The largest truncated deviation percentage of the prices from `avg`. */
  function MaxDeviation(prices: seq<nat>, avg: nat): (m: nat)
    requires avg > 0
    ensures forall i :: 0 <= i < |prices| ==> DeviationPercent(prices[i], avg) <= m
    ensures |prices| == 0 ==> m == 0
    ensures |prices| > 0 ==> exists i :: 0 <= i < |prices| && m == DeviationPercent(prices[i], avg)
  {
    if |prices| == 0 then 0
    else
      var first := DeviationPercent(prices[0], avg);
      var rest := MaxDeviation(prices[1..], avg);
      if first >= rest then first else rest
  }

  /**
   * `calculate_price_deviation`: the largest deviation of a price from the
   * floor mean, capped at 100; 100 for a zero mean and 0 below two prices.
   */
  function CalculatePriceDeviation(subs: seq<PriceData>): (d: nat)
    ensures d <= 100
    ensures |subs| < 2 ==> d == 0
    ensures |subs| >= 2 && Mean(Prices(subs)) == 0 ==> d == 100
    ensures |subs| >= 2 && Mean(Prices(subs)) > 0 ==>
      (forall i :: 0 <= i < |subs| ==> Min(DeviationPercent(subs[i].price, Mean(Prices(subs))), 100) <= d)
      && (exists i :: 0 <= i < |subs| && d == Min(DeviationPercent(subs[i].price, Mean(Prices(subs))), 100))
  {
    if |subs| < 2 then 0
    else
      var prices := Prices(subs);
      var avg := Mean(prices);
      if avg == 0 then 100
      else Min(MaxDeviation(prices, avg), 100)
  }

  /** Identical positive prices have no spread. */
  lemma UniformPricesNoDeviation(subs: seq<PriceData>, p: nat)
    requires |subs| >= 2 && p > 0
    requires forall i :: 0 <= i < |subs| ==> subs[i].price == p
    ensures CalculatePriceDeviation(subs) == 0
  {
    MeanBounds(Prices(subs), p, p);
    var d := CalculatePriceDeviation(subs);
    var i :| 0 <= i < |subs| && d == Min(DeviationPercent(subs[i].price, p), 100);
  }

  /**
   * `aggregate_prices`: participants, weighted median, confidence and
   * spread; a result that is not reliable is refused.
   */
  function AggregatePrices(asset: Symbol, subs: seq<PriceData>, nodes: map<Address, OracleNode>, now: nat)
    : (r: Result<AggregatedPrice, OracleError>)
    ensures |subs| == 0 ==> r == Err(NoPriceData)
    ensures |subs| > 0 && |FilterValidSubmissions(subs, nodes, now)| == 0 ==> r == Err(NoValidSubmissions)
    ensures r.Err? ==> r.error in {NoPriceData, NoValidSubmissions, UnreliablePrice}
    ensures r.Ok? ==> IsReliable(r.value) && r.value.assetSymbol == asset && r.value.timestamp == now
    ensures r.Ok? ==> r.value.numSources == |FilterValidSubmissions(subs, nodes, now)|
    ensures r.Ok? ==> |Filter(subs, (s: PriceData) => Usable(s, nodes, now))| >= MIN_RELIABLE_SOURCES
    ensures r.Ok? ==> exists i :: 0 <= i < |subs| && Usable(subs[i], nodes, now) && subs[i].price <= r.value.price
    ensures r.Ok? ==> exists j :: 0 <= j < |subs| && Usable(subs[j], nodes, now) && r.value.price <= subs[j].price
    ensures r.Ok? ==> var valid := FilterValidSubmissions(subs, nodes, now);
      && CalculateWeightedMedian(valid, nodes) == Ok(r.value.price)
      && r.value.confidence == CalculateConfidence(valid, nodes)
      && r.value.deviation == CalculatePriceDeviation(valid)
    ensures r.Ok? ==> var valid := FilterValidSubmissions(subs, nodes, now);
      && (exists i :: 0 <= i < |valid| && WeightOf(valid[i], nodes) > 0 && valid[i].price <= r.value.price)
      && (exists j :: 0 <= j < |valid| && WeightOf(valid[j], nodes) > 0 && r.value.price <= valid[j].price)
  {
    if |subs| == 0 then Err(NoPriceData)
    else
      var valid := FilterValidSubmissions(subs, nodes, now);
      if |valid| == 0 then Err(NoValidSubmissions)
      else
        UsableTotalWeight(valid, nodes, now);
        var median := CalculateWeightedMedian(valid, nodes);
        var price := median.value;
        LiftPriceBounds(valid, subs, nodes, now, price);
        var a := NewAggregatedPrice(asset, price, |valid|, CalculateConfidence(valid, nodes),
                                    CalculatePriceDeviation(valid), now);
        if IsReliable(a) then Ok(a) else Err(UnreliablePrice)
  }

  /**
   * An aggregated price is a weighted median of the submissions that survive
   * filtering and outlier removal.
   */
  lemma AggregatedPriceIsWeightedMedian(asset: Symbol, subs: seq<PriceData>, nodes: map<Address, OracleNode>, now: nat)
    ensures AggregatePrices(asset, subs, nodes, now).Ok? ==>
      var valid := FilterValidSubmissions(subs, nodes, now);
      var price := AggregatePrices(asset, subs, nodes, now).value.price;
      && 2 * WeightAtMost(valid, nodes, price) >= TotalWeight(valid, nodes)
      && 2 * WeightAtLeast(valid, nodes, price) >= TotalWeight(valid, nodes)
  {
    if AggregatePrices(asset, subs, nodes, now).Ok? {
      var valid := FilterValidSubmissions(subs, nodes, now);
      UsableTotalWeight(valid, nodes, now);
      WeightedMedianHalves(valid, nodes);
    }
  }

  /** Bounds found among the participants hold among the usable submissions they come from. */
  lemma LiftPriceBounds(valid: seq<PriceData>, subs: seq<PriceData>, nodes: map<Address, OracleNode>, now: nat, price: nat)
    requires forall k :: 0 <= k < |valid| ==> valid[k] in subs && Usable(valid[k], nodes, now)
    requires exists i :: 0 <= i < |valid| && WeightOf(valid[i], nodes) > 0 && valid[i].price <= price
    requires exists j :: 0 <= j < |valid| && WeightOf(valid[j], nodes) > 0 && price <= valid[j].price
    ensures exists i :: 0 <= i < |subs| && Usable(subs[i], nodes, now) && subs[i].price <= price
    ensures exists j :: 0 <= j < |subs| && Usable(subs[j], nodes, now) && price <= subs[j].price
  {
    var i :| 0 <= i < |valid| && WeightOf(valid[i], nodes) > 0 && valid[i].price <= price;
    var j :| 0 <= j < |valid| && WeightOf(valid[j], nodes) > 0 && price <= valid[j].price;
    var i' :| 0 <= i' < |subs| && subs[i'] == valid[i];
    var j' :| 0 <= j' < |subs| && subs[j'] == valid[j];
  }

  /**
   * Once there are participants the confidence never blocks the result: a
   * round fails as unreliable only for fewer than three participants or a
   * spread above 10 %.
   */
  lemma UnreliableOnlyForSourcesOrSpread(asset: Symbol, subs: seq<PriceData>, nodes: map<Address, OracleNode>, now: nat)
    requires |FilterValidSubmissions(subs, nodes, now)| > 0
    ensures var valid := FilterValidSubmissions(subs, nodes, now);
      AggregatePrices(asset, subs, nodes, now) == Err(UnreliablePrice)
      <==> |valid| < MIN_RELIABLE_SOURCES || CalculatePriceDeviation(valid) > MAX_PRICE_DEVIATION
  {
    var valid := FilterValidSubmissions(subs, nodes, now);
    UsableTotalWeight(valid, nodes, now);
    TotalConfidenceAtLeast(valid, nodes, MIN_CONFIDENCE_LEVEL);
    DivLowerBound(TotalConfidence(valid, nodes), TotalWeight(valid, nodes), MIN_CONFIDENCE_LEVEL);
    assert CalculateConfidence(valid, nodes) >= MIN_CONFIDENCE_LEVEL;
  }

  /** An aggregate older than 30 minutes is not a fallback candidate. */
  predicate IsFallbackStale(a: AggregatedPrice, now: nat) {
    SatSub(now, a.timestamp) > FALLBACK_STALENESS_THRESHOLD
  }

  predicate FallbackCandidate(a: AggregatedPrice, now: nat) {
    IsReliable(a) && !IsFallbackStale(a, now)
  }

  /**
   * `get_fallback_price`, on the asset's aggregate history: the price of the
   * most recent entry that is reliable and at most 30 minutes old.
   */
  function GetFallbackPrice(history: seq<AggregatedPrice>, now: nat): (r: Result<nat, OracleError>)
    ensures r.Err? ==> r.error == NoFallbackAvailable
    ensures r.Ok? <==> exists k :: 0 <= k < |history| && FallbackCandidate(history[k], now)
    ensures r.Ok? ==>
      exists k :: 0 <= k < |history| && FallbackCandidate(history[k], now) && history[k].price == r.value
                  && (forall j :: k < j < |history| ==> !FallbackCandidate(history[j], now))
  {
    if |history| == 0 then Err(NoFallbackAvailable)
    else
      var last := history[|history| - 1];
      var init := history[..|history| - 1];
      if FallbackCandidate(last, now) then Ok(last.price)
      else
        var r := GetFallbackPrice(init, now);
        assert forall k :: 0 <= k < |init| ==> init[k] == history[k];
        r
  }

  /** `update_oracle_accuracy`'s test: within 5 % (truncated) of a positive aggregate. */
  predicate IsAccurate(price: nat, aggregated: nat) {
    (if aggregated > 0 then DeviationPercent(price, aggregated) else 100) <= ACCURACY_TOLERANCE
  }

  /** Accuracy without division: the distance is below 6 % of the aggregate. */
  lemma AccuracyCharacterized(price: nat, aggregated: nat)
    ensures IsAccurate(price, aggregated) <==> aggregated > 0 && AbsDiff(price, aggregated) * 100 < 6 * aggregated
  {
    if aggregated > 0 {
      DivExceeds(AbsDiff(price, aggregated) * 100, aggregated, 5);
    }
  }

  /** `update_oracle_accuracy`: the submitting node's reputation absorbs one accurate or inaccurate round. */
  function UpdateOracleAccuracy(nodes: map<Address, OracleNode>, s: PriceData, aggregated: nat)
    : (r: map<Address, OracleNode>)
    ensures r.Keys == nodes.Keys
    ensures forall a :: a in nodes && a != s.oracleNode ==> r[a] == nodes[a]
    ensures s.oracleNode in nodes ==>
      r[s.oracleNode].totalSubmissions == nodes[s.oracleNode].totalSubmissions + 1
      && r[s.oracleNode].accurateSubmissions
         == nodes[s.oracleNode].accurateSubmissions + (if IsAccurate(s.price, aggregated) then 1 else 0)
      && r[s.oracleNode].stakeAmount == nodes[s.oracleNode].stakeAmount
      && r[s.oracleNode].lastSubmissionTime == nodes[s.oracleNode].lastSubmissionTime
    ensures s.oracleNode in nodes ==>
      r[s.oracleNode] == UpdateReputation(nodes[s.oracleNode], IsAccurate(s.price, aggregated))
      && r[s.oracleNode].isActive == nodes[s.oracleNode].isActive
    ensures s.oracleNode in nodes && ReputationConsistent(nodes[s.oracleNode]) ==>
      ReputationConsistent(r[s.oracleNode]) && r[s.oracleNode].reputationScore <= 100
  {
    if s.oracleNode in nodes then
      nodes[s.oracleNode := UpdateReputation(nodes[s.oracleNode], IsAccurate(s.price, aggregated))]
    else nodes
  }
}
