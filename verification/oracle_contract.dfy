/**
 * The price-oracle contract's entry points over an explicit storage record.
 * Every entry point takes the ledger time `now` and returns the new storage;
 * those that store data before failing return the storage together with
 * the outcome, as the contract leaves those writes in place.
 */
module PriceOracle {
  import opened Common
  import opened Wrappers
  import opened Seqs
  import opened OraclePrices
  import opened OracleNodes
  import opened OracleValidation
  import opened OracleAggregation

  /** Age in seconds beyond which a stored submission is dropped from its buffer. */
  const CLEANUP_THRESHOLD: nat := 86400
  /** Recent submissions a round needs before aggregation is attempted. */
  const DEFAULT_MIN_ORACLE_NODES: nat := 3
  /** The configured update interval in seconds (stored, never read). */
  const DEFAULT_PRICE_UPDATE_INTERVAL: nat := 60

  datatype ContractConfig = ContractConfig(
    admin: Address,
    emergencyStop: bool,
    minOracleNodes: nat,
    priceUpdateInterval: nat)

  /**
   * The contract's instance storage. An absent map or vector slot reads as
   * empty, so it is modelled by the empty value; per-asset slots are maps
   * keyed by the asset symbol.
   */
  datatype OracleState = OracleState(
    config: Option<ContractConfig>,
    nodes: map<Address, OracleNode>,
    rateLimits: map<Address, RateLimitInfo>,
    priceData: map<Symbol, seq<PriceData>>,
    aggregated: map<Symbol, AggregatedPrice>,
    history: map<Symbol, seq<AggregatedPrice>>,
    supportedAssets: seq<Symbol>)

  /** Storage before `initialize`. */
  function EmptyState(): (st: OracleState)
    ensures st.config.None? && st.nodes == map[] && st.priceData == map[] && st.aggregated == map[]
  {
    OracleState(None, map[], map[], map[], map[], map[], [])
  }

  /** The asset's submission buffer, empty when none is stored. */
  function Buffer(st: OracleState, asset: Symbol): seq<PriceData> {
    if asset in st.priceData then st.priceData[asset] else []
  }

  /** The asset's aggregate history, empty when none is stored. */
  function History(st: OracleState, asset: Symbol): seq<AggregatedPrice> {
    if asset in st.history then st.history[asset] else []
  }

  /** `initialize`: stores the configuration and empty node, rate-limit and asset tables, once. */
  function Initialize(st: OracleState, admin: Address): (r: Result<OracleState, OracleError>)
    ensures st.config.Some? <==> r == Err(AlreadyInitialized)
    ensures r.Ok? ==>
      && r.value.config == Some(ContractConfig(admin, false, 3, 60))
      && r.value.nodes == map[] && r.value.rateLimits == map[] && r.value.supportedAssets == []
      && r.value.priceData == st.priceData && r.value.aggregated == st.aggregated && r.value.history == st.history
  {
    if st.config.Some? then Err(AlreadyInitialized)
    else
      Ok(st.(config := Some(ContractConfig(admin, false, DEFAULT_MIN_ORACLE_NODES, DEFAULT_PRICE_UPDATE_INTERVAL)),
             nodes := map[], rateLimits := map[], supportedAssets := []))
  }

  /** `check_emergency_stop`. */
  function CheckEmergencyStop(st: OracleState): (r: Outcome<OracleError>)
    ensures r == Pass <==> st.config.Some? && !st.config.value.emergencyStop
    ensures st.config.None? ==> r == Fail(NotInitialized)
    ensures st.config.Some? && st.config.value.emergencyStop ==> r == Fail(EmergencyStopActive)
  {
    match st.config
    case None => Fail(NotInitialized)
    case Some(c) => if c.emergencyStop then Fail(EmergencyStopActive) else Pass
  }

  /** `check_admin`. */
  function CheckAdmin(st: OracleState, caller: Address): (r: Outcome<OracleError>)
    ensures r == Pass <==> st.config.Some? && st.config.value.admin == caller
    ensures st.config.None? ==> r == Fail(NotInitialized)
    ensures st.config.Some? && st.config.value.admin != caller ==> r == Fail(Unauthorized)
  {
    match st.config
    case None => Fail(NotInitialized)
    case Some(c) => if caller != c.admin then Fail(Unauthorized) else Pass
  }

  /**
   * `register_oracle_node`: any authenticated caller may register any
   * address; the emergency stop is checked first.
   */
  function RegisterOracleNode(st: OracleState, registration: NodeRegistration, now: nat): (r: Result<OracleState, OracleError>)
    ensures CheckEmergencyStop(st).Fail? ==> r == Err(CheckEmergencyStop(st).error)
    ensures r.Ok? <==> CheckEmergencyStop(st) == Pass && RegisterNode(Registry(st.nodes, st.rateLimits), registration, now).Ok?
    ensures r.Ok? ==>
      var a := registration.nodeAddress;
      && r.value.nodes == st.nodes[a := NewNode(a, registration.stakeAmount, now)]
      && r.value.rateLimits == st.rateLimits[a := NewRateLimit(a, now)]
      && r.value.config == st.config && r.value.priceData == st.priceData && r.value.aggregated == st.aggregated
  {
    if CheckEmergencyStop(st).Fail? then Err(CheckEmergencyStop(st).error)
    else
      match RegisterNode(Registry(st.nodes, st.rateLimits), registration, now)
      case Err(e) => Err(e)
      case Ok(reg) => Ok(st.(nodes := reg.nodes, rateLimits := reg.rateLimits))
  }

  /** `filter_recent_submissions`: the submissions that are not stale. */
  function FilterRecentSubmissions(subs: seq<PriceData>, now: nat): (r: seq<PriceData>)
    ensures |r| <= |subs|
    ensures forall i :: 0 <= i < |r| ==> !IsStale(r[i], now) && r[i] in subs
    ensures forall i :: 0 <= i < |subs| && !IsStale(subs[i], now) ==> subs[i] in r
    ensures SubsequenceOf(r, subs)
  {
    var isFresh := (s: PriceData) => !IsStale(s, now);
    FilterIsSubsequence(subs, isFresh);
    Filter(subs, isFresh)
  }

  /** Within the 24-hour retention window of the submission buffer. */
  predicate Retained(s: PriceData, now: nat) {
    SatSub(now, s.timestamp) <= CLEANUP_THRESHOLD
  }

  /** `cleanup_old_price_data`: keeps, in order, the submissions at most 24 hours old. */
  function CleanupOldPriceData(subs: seq<PriceData>, now: nat): (r: seq<PriceData>)
    ensures |r| <= |subs|
    ensures forall i :: 0 <= i < |r| ==> Retained(r[i], now) && r[i] in subs
    ensures forall i :: 0 <= i < |subs| && Retained(subs[i], now) ==> subs[i] in r
    ensures SubsequenceOf(r, subs)
  {
    var retained := (s: PriceData) => Retained(s, now);
    FilterIsSubsequence(subs, retained);
    Filter(subs, retained)
  }

  /**
   * Both buffer filters keep every copy of a passing submission and drop
   * every other one.
   */
  lemma BufferFiltersKeepEveryCopy(subs: seq<PriceData>, now: nat)
    ensures forall x :: multiset(FilterRecentSubmissions(subs, now))[x]
                        == if !IsStale(x, now) then multiset(subs)[x] else 0
    ensures forall x :: multiset(CleanupOldPriceData(subs, now))[x]
                        == if Retained(x, now) then multiset(subs)[x] else 0
  {
    FilterMultiplicities(subs, (s: PriceData) => !IsStale(s, now));
    FilterMultiplicities(subs, (s: PriceData) => Retained(s, now));
  }

  /** Cleaning an already clean buffer changes nothing. */
  lemma CleanupIdempotent(subs: seq<PriceData>, now: nat)
    ensures CleanupOldPriceData(CleanupOldPriceData(subs, now), now) == CleanupOldPriceData(subs, now)
  {
    var once := CleanupOldPriceData(subs, now);
    FilterKeepsAll(once, (s: PriceData) => Retained(s, now));
  }

  /** A submission fresh enough to aggregate survives the cleanup. */
  lemma RecentSubmissionsAreRetained(subs: seq<PriceData>, now: nat)
    ensures forall i :: 0 <= i < |FilterRecentSubmissions(subs, now)| ==>
      Retained(FilterRecentSubmissions(subs, now)[i], now)
  {
  }

  /** `update_price_history`: appends the aggregate and keeps the newest 100 entries. */
  function UpdatePriceHistory(h: seq<AggregatedPrice>, a: AggregatedPrice): (r: seq<AggregatedPrice>)
    ensures |r| == Min(|h| + 1, MAX_HISTORY_ENTRIES)
    ensures r[|r| - 1] == a
    ensures forall i :: 0 <= i < |r| - 1 ==> r[i] == h[|h| - (|r| - 1) + i]
  {
    var extended := h + [a];
    if |extended| > MAX_HISTORY_ENTRIES then extended[|extended| - MAX_HISTORY_ENTRIES..] else extended
  }

  /** Repeated updates never let the history grow past 100 entries. */
  lemma HistoryStaysBounded(h: seq<AggregatedPrice>, a: AggregatedPrice)
    ensures |UpdatePriceHistory(h, a)| <= MAX_HISTORY_ENTRIES
    ensures |h| < MAX_HISTORY_ENTRIES ==> UpdatePriceHistory(h, a) == h + [a]
  {
  }

  /** The reputation updates after a round, one per participating submission, in order. */
  function ApplyAccuracyUpdates(nodes: map<Address, OracleNode>, subs: seq<PriceData>, price: nat)
    : (r: map<Address, OracleNode>)
    ensures r.Keys == nodes.Keys
    decreases |subs|
  {
    if |subs| == 0 then nodes
    else ApplyAccuracyUpdates(UpdateOracleAccuracy(nodes, subs[0], price), subs[1..], price)
  }

  /** The submissions of node `a` in a round. */
  function SubmissionsOf(subs: seq<PriceData>, a: Address): seq<PriceData> {
    Filter(subs, (s: PriceData) => s.oracleNode == a)
  }

  /**
   * After a round each node's submission count grows by its number of
   * submissions in the round, and its stake and last submission time are
   * untouched.
   */
  lemma {:induction false} AccuracyUpdatesCount(nodes: map<Address, OracleNode>, subs: seq<PriceData>, price: nat, a: Address)
    requires a in nodes
    ensures ApplyAccuracyUpdates(nodes, subs, price)[a].totalSubmissions
            == nodes[a].totalSubmissions + |SubmissionsOf(subs, a)|
    ensures ApplyAccuracyUpdates(nodes, subs, price)[a].stakeAmount == nodes[a].stakeAmount
    ensures ApplyAccuracyUpdates(nodes, subs, price)[a].lastSubmissionTime == nodes[a].lastSubmissionTime
    decreases |subs|
  {
    if |subs| > 0 {
      var next := UpdateOracleAccuracy(nodes, subs[0], price);
      AccuracyUpdatesCount(next, subs[1..], price, a);
    }
  }

  /**
   * `try_aggregate_prices`: below the configured number of recent
   * submissions nothing happens; otherwise a successful round stores the
   * aggregate, extends the history and updates the reputations, and a failed
   * one reports the aggregator's error.
   */
  function TryAggregatePrices(st: OracleState, asset: Symbol, now: nat): (r: (OracleState, Outcome<OracleError>))
    ensures st.config.None? ==> r == (st, Fail(NotInitialized))
    ensures r.1.Fail? ==> r.0 == st
    ensures r.0 != st ==> r.1 == Pass
    ensures r.1 == Pass && r.0 != st ==>
      var recent := FilterRecentSubmissions(Buffer(st, asset), now);
      var agg := AggregatePrices(asset, recent, st.nodes, now);
      && agg.Ok?
      && r.0.aggregated == st.aggregated[asset := agg.value]
      && r.0.history == st.history[asset := UpdatePriceHistory(History(st, asset), agg.value)]
      && r.0.nodes == ApplyAccuracyUpdates(st.nodes, recent, agg.value.price)
    ensures st.config.Some? && |FilterRecentSubmissions(Buffer(st, asset), now)| < st.config.value.minOracleNodes ==>
      r == (st, Pass)
    ensures st.config.Some? && |FilterRecentSubmissions(Buffer(st, asset), now)| >= st.config.value.minOracleNodes ==>
      var recent := FilterRecentSubmissions(Buffer(st, asset), now);
      var agg := AggregatePrices(asset, recent, st.nodes, now);
      && (agg.Err? ==> r == (st, Fail(agg.error)))
      && (agg.Ok? ==>
            && r.1 == Pass
            && r.0.aggregated == st.aggregated[asset := agg.value]
            && r.0.history == st.history[asset := UpdatePriceHistory(History(st, asset), agg.value)]
            && r.0.nodes == ApplyAccuracyUpdates(st.nodes, recent, agg.value.price))
    ensures r.0.config == st.config && r.0.priceData == st.priceData && r.0.rateLimits == st.rateLimits
    ensures r.0.nodes.Keys == st.nodes.Keys
  {
    var recent := FilterRecentSubmissions(Buffer(st, asset), now);
    match st.config
    case None => (st, Fail(NotInitialized))
    case Some(c) =>
      if |recent| < c.minOracleNodes then (st, Pass)
      else
        match AggregatePrices(asset, recent, st.nodes, now)
        case Err(e) => (st, Fail(e))
        case Ok(agg) =>
          (st.(aggregated := st.aggregated[asset := agg],
               history := st.history[asset := UpdatePriceHistory(History(st, asset), agg)],
               nodes := ApplyAccuracyUpdates(st.nodes, recent, agg.price)),
           Pass)
  }

  /**
   * The rate-limit record of a validated submission: a node without a
   * window keeps none, and one with a window has it advanced.
   */
  function RecordRateLimit(nodes: map<Address, OracleNode>, rateLimits: map<Address, RateLimitInfo>,
                           caller: Address, now: nat): (r: (bool, map<Address, RateLimitInfo>))
    ensures SubmitterAdmitted(nodes, rateLimits, caller, now) ==> r.0
    ensures r.1.Keys == rateLimits.Keys
    ensures forall a :: a in rateLimits && a != caller ==> r.1[a] == rateLimits[a]
    ensures r.0 && caller in rateLimits ==> r.1[caller].lastSubmission == now
  {
    if caller in rateLimits then
      var recorded := RecordSubmission(rateLimits[caller], now);
      (recorded.0, rateLimits[caller := recorded.1])
    else (true, rateLimits)
  }

  /**
   * A submission as `submit_price` stores it: stamped with the ledger time
   * and the confidence the asset's earlier submissions give it.
   */
  function Stamped(st: OracleState, caller: Address, req: PriceUpdateRequest, now: nat): PriceData {
    NewPriceData(req.assetSymbol, req.price, caller,
                 ValidateAgainstHistoricalData(req.price, Buffer(st, req.assetSymbol), now), now)
  }

  /** Cleaning a buffer with a fresh entry appended is cleaning the buffer, then appending. */
  lemma CleanupKeepsFreshEntry(buffer: seq<PriceData>, pd: PriceData, now: nat)
    requires pd.timestamp == now
    ensures CleanupOldPriceData(buffer + [pd], now) == CleanupOldPriceData(buffer, now) + [pd]
  {
    FilterAppend(buffer, [pd], (s: PriceData) => Retained(s, now));
    FilterKeepsAll([pd], (s: PriceData) => Retained(s, now));
  }

  /**
   * Appends the stamped submission and drops what is older than 24 hours
   * from the asset's buffer.
   */
  function StoreSubmission(st: OracleState, caller: Address, req: PriceUpdateRequest, now: nat): (r: OracleState)
    ensures Buffer(r, req.assetSymbol) == CleanupOldPriceData(Buffer(st, req.assetSymbol), now) + [Stamped(st, caller, req, now)]
    ensures forall a :: a != req.assetSymbol ==> Buffer(r, a) == Buffer(st, a)
    ensures r == st.(priceData := r.priceData)
  {
    var buffer := Buffer(st, req.assetSymbol);
    var pd := Stamped(st, caller, req, now);
    CleanupKeepsFreshEntry(buffer, pd, now);
    st.(priceData := st.priceData[req.assetSymbol := CleanupOldPriceData(buffer + [pd], now)])
  }

  /** The tail of `submit_price` once the submission is admitted: store it, then try a round. */
  function StoreAndAggregate(st: OracleState, caller: Address, req: PriceUpdateRequest, now: nat)
    : (r: (OracleState, Outcome<OracleError>))
    ensures Buffer(r.0, req.assetSymbol) == CleanupOldPriceData(Buffer(st, req.assetSymbol), now) + [Stamped(st, caller, req, now)]
    ensures forall a :: a != req.assetSymbol ==> Buffer(r.0, a) == Buffer(st, a)
    ensures r.0.config == st.config && r.0.rateLimits == st.rateLimits
    ensures r.0.nodes.Keys == st.nodes.Keys
  {
    TryAggregatePrices(StoreSubmission(st, caller, req, now), req.assetSymbol, now)
  }

  /**
   * `submit_price`: gates, validation, the rate-limit record, the new
   * submission, then an aggregation attempt. The submission stays stored
   * even when the aggregation attempt fails.
   */
  function SubmitPrice(st: OracleState, caller: Address, req: PriceUpdateRequest, now: nat)
    : (r: (OracleState, Outcome<OracleError>))
    ensures CheckEmergencyStop(st).Fail? ==> r == (st, CheckEmergencyStop(st))
    ensures CheckEmergencyStop(st) == Pass && ValidatePriceUpdate(req, st.nodes, st.rateLimits, caller, now).Fail? ==>
      r == (st, ValidatePriceUpdate(req, st.nodes, st.rateLimits, caller, now))
    ensures r.1 == Fail(RateLimitExceeded) ==> ValidatePriceUpdate(req, st.nodes, st.rateLimits, caller, now).Fail?
    ensures r.0.config == st.config
    ensures r.0.nodes.Keys == st.nodes.Keys
  {
    if CheckEmergencyStop(st).Fail? then (st, CheckEmergencyStop(st))
    else
      var verdict := ValidatePriceUpdate(req, st.nodes, st.rateLimits, caller, now);
      if verdict.Fail? then (st, verdict)
      else
        var recorded := RecordRateLimit(st.nodes, st.rateLimits, caller, now);
        if !recorded.0 then (st, Fail(RateLimitExceeded))
        else
          StoreAndAggregate(st.(rateLimits := recorded.1), caller, req, now)
  }

  /**
   * An admitted submission is stored last in its asset's buffer, after the
   * buffer's entries that are at most 24 hours old, and other assets'
   * buffers are untouched, whatever the aggregation attempt then does.
   */
  lemma SubmitPriceStoresSubmission(st: OracleState, caller: Address, req: PriceUpdateRequest, now: nat)
    requires CheckEmergencyStop(st) == Pass && ValidatePriceUpdate(req, st.nodes, st.rateLimits, caller, now) == Pass
    ensures var stored := Buffer(SubmitPrice(st, caller, req, now).0, req.assetSymbol);
      && stored == CleanupOldPriceData(Buffer(st, req.assetSymbol), now) + [Stamped(st, caller, req, now)]
      && stored[|stored| - 1].timestamp == now && stored[|stored| - 1].price == req.price
      && (forall i :: 0 <= i < |stored| ==> Retained(stored[i], now))
      && (forall a :: a != req.assetSymbol ==> Buffer(SubmitPrice(st, caller, req, now).0, a) == Buffer(st, a))
  {
    var st' := AdmittedState(st, caller, now);
    SubmitPriceIsStore(st, caller, req, now);
    assert Buffer(st', req.assetSymbol) == Buffer(st, req.assetSymbol);
    assert Stamped(st', caller, req, now) == Stamped(st, caller, req, now);
    StoreAndAggregateStoresLast(st', caller, req, now);
  }

  /** The state an admitted submission is stored into: the caller's rate-limit window advanced. */
  function AdmittedState(st: OracleState, caller: Address, now: nat): (r: OracleState)
    ensures r.priceData == st.priceData && r.config == st.config && r.nodes == st.nodes
  {
    st.(rateLimits := RecordRateLimit(st.nodes, st.rateLimits, caller, now).1)
  }

  /** Once admitted, `submit_price` is storing into the admitted state and trying a round. */
  lemma SubmitPriceIsStore(st: OracleState, caller: Address, req: PriceUpdateRequest, now: nat)
    requires CheckEmergencyStop(st) == Pass && ValidatePriceUpdate(req, st.nodes, st.rateLimits, caller, now) == Pass
    ensures SubmitPrice(st, caller, req, now) == StoreAndAggregate(AdmittedState(st, caller, now), caller, req, now)
  {
    var recorded := RecordRateLimit(st.nodes, st.rateLimits, caller, now);
    assert recorded.0;
  }

  /** The entry `StoreAndAggregate` stores is the buffer's last, stamped now, and nothing older than 24 hours remains. */
  lemma StoreAndAggregateStoresLast(st: OracleState, caller: Address, req: PriceUpdateRequest, now: nat)
    ensures var stored := Buffer(StoreAndAggregate(st, caller, req, now).0, req.assetSymbol);
      && |stored| > 0
      && stored[|stored| - 1].timestamp == now && stored[|stored| - 1].price == req.price
      && (forall i :: 0 <= i < |stored| ==> Retained(stored[i], now))
  {
    var stored := Buffer(StoreAndAggregate(st, caller, req, now).0, req.assetSymbol);
    var kept := CleanupOldPriceData(Buffer(st, req.assetSymbol), now);
    var pd := Stamped(st, caller, req, now);
    assert stored == kept + [pd];
    assert stored[|stored| - 1] == pd;
    assert Retained(pd, now);
    forall i | 0 <= i < |stored|
      ensures Retained(stored[i], now)
    {
      if i < |kept| { assert stored[i] == kept[i]; }
    }
  }

  /**
   * An admitted submission is counted in its node's rate-limit window, and
   * no other node's record changes.
   */
  lemma SubmitPriceAdvancesRateLimit(st: OracleState, caller: Address, req: PriceUpdateRequest, now: nat)
    requires CheckEmergencyStop(st) == Pass && ValidatePriceUpdate(req, st.nodes, st.rateLimits, caller, now) == Pass
    ensures SubmitPrice(st, caller, req, now).0.rateLimits == RecordRateLimit(st.nodes, st.rateLimits, caller, now).1
    ensures caller in st.rateLimits ==>
      SubmitPrice(st, caller, req, now).0.rateLimits[caller] == RecordSubmission(st.rateLimits[caller], now).1
  {
    var recorded := RecordRateLimit(st.nodes, st.rateLimits, caller, now);
    assert recorded.0;
  }

  /** `get_price`: the stored aggregate, if reliable and at most 300 s old. */
  function GetPrice(st: OracleState, asset: Symbol, now: nat): (r: Result<AggregatedPrice, OracleError>)
    ensures CheckEmergencyStop(st).Fail? ==> r == Err(CheckEmergencyStop(st).error)
    ensures CheckEmergencyStop(st) == Pass && asset !in st.aggregated ==> r == Err(PriceNotAvailable)
    ensures r.Ok? <==>
      CheckEmergencyStop(st) == Pass && asset in st.aggregated
      && IsReliable(st.aggregated[asset]) && now <= st.aggregated[asset].timestamp + 300
    ensures r.Ok? ==> r.value == st.aggregated[asset]
    ensures CheckEmergencyStop(st) == Pass && asset in st.aggregated && !IsReliable(st.aggregated[asset]) ==>
      r == Err(UnreliablePrice)
    ensures (CheckEmergencyStop(st) == Pass && asset in st.aggregated && IsReliable(st.aggregated[asset])
             && now > st.aggregated[asset].timestamp + 300) ==> r == Err(StalePrice)
  {
    if CheckEmergencyStop(st).Fail? then Err(CheckEmergencyStop(st).error)
    else if asset in st.aggregated then
      var a := st.aggregated[asset];
      if !IsReliable(a) then Err(UnreliablePrice)
      else if SatSub(now, a.timestamp) > PRICE_STALENESS_THRESHOLD then Err(StalePrice)
      else Ok(a)
    else Err(PriceNotAvailable)
  }

  /** `get_fallback_price`, on the asset's stored aggregate history. */
  function GetFallbackPriceOf(st: OracleState, asset: Symbol, now: nat): (r: Result<nat, OracleError>)
    ensures CheckEmergencyStop(st).Fail? ==> r == Err(CheckEmergencyStop(st).error)
    ensures CheckEmergencyStop(st) == Pass ==> r == GetFallbackPrice(History(st, asset), now)
    ensures CheckEmergencyStop(st) == Pass && History(st, asset) == [] ==> r == Err(NoFallbackAvailable)
  {
    if CheckEmergencyStop(st).Fail? then Err(CheckEmergencyStop(st).error)
    else GetFallbackPrice(History(st, asset), now)
  }

  /** `add_supported_asset`: admin only; appends the symbol unless it is already listed. */
  function AddSupportedAsset(st: OracleState, caller: Address, asset: Symbol): (r: Result<OracleState, OracleError>)
    ensures CheckAdmin(st, caller).Fail? <==> r.Err?
    ensures r.Err? ==> r.error == CheckAdmin(st, caller).error
    ensures r.Ok? ==> asset in r.value.supportedAssets
    ensures r.Ok? && asset in st.supportedAssets ==> r.value == st
    ensures r.Ok? && asset !in st.supportedAssets ==> r.value == st.(supportedAssets := st.supportedAssets + [asset])
  {
    if CheckAdmin(st, caller).Fail? then Err(CheckAdmin(st, caller).error)
    else if asset in st.supportedAssets then Ok(st)
    else Ok(st.(supportedAssets := st.supportedAssets + [asset]))
  }

  predicate NoDuplicates<T(==)>(s: seq<T>) {
    forall i, j :: 0 <= i < j < |s| ==> s[i] != s[j]
  }

  /** The asset list never holds a symbol twice, and adding a listed symbol again is a no-op. */
  lemma SupportedAssetsStayDistinct(st: OracleState, caller: Address, asset: Symbol)
    requires NoDuplicates(st.supportedAssets)
    requires AddSupportedAsset(st, caller, asset).Ok?
    ensures NoDuplicates(AddSupportedAsset(st, caller, asset).value.supportedAssets)
    ensures AddSupportedAsset(AddSupportedAsset(st, caller, asset).value, caller, asset)
            == AddSupportedAsset(st, caller, asset)
  {
  }

  /** `deactivate_oracle_node`: admin only; clears the node's active flag. */
  function DeactivateOracleNode(st: OracleState, caller: Address, a: Address): (r: Result<OracleState, OracleError>)
    ensures CheckAdmin(st, caller).Fail? ==> r == Err(CheckAdmin(st, caller).error)
    ensures CheckAdmin(st, caller) == Pass && a !in st.nodes ==> r == Err(NodeNotFound)
    ensures r.Ok? <==> CheckAdmin(st, caller) == Pass && a in st.nodes
    ensures r.Ok? ==> r.value == st.(nodes := st.nodes[a := st.nodes[a].(isActive := false)])
  {
    if CheckAdmin(st, caller).Fail? then Err(CheckAdmin(st, caller).error)
    else
      match DeactivateNode(st.nodes, a)
      case Err(e) => Err(e)
      case Ok(nodes) => Ok(st.(nodes := nodes))
  }

  /** `set_emergency_stop`: admin only; sets the flag and nothing else. */
  function SetEmergencyStop(st: OracleState, caller: Address, stop: bool): (r: Result<OracleState, OracleError>)
    ensures r.Ok? <==> CheckAdmin(st, caller) == Pass
    ensures r.Err? ==> r.error == CheckAdmin(st, caller).error
    ensures r.Ok? ==> r.value == st.(config := Some(st.config.value.(emergencyStop := stop)))
    ensures r.Ok? ==> (CheckEmergencyStop(r.value) == Pass <==> !stop)
  {
    if CheckAdmin(st, caller).Fail? then Err(CheckAdmin(st, caller).error)
    else Ok(st.(config := Some(st.config.value.(emergencyStop := stop))))
  }

  /** `get_oracle_node_info`. */
  function GetOracleNodeInfo(st: OracleState, a: Address): (r: Option<OracleNode>)
    ensures r.Some? <==> a in st.nodes
    ensures r.Some? ==> r.value == st.nodes[a]
  {
    if a in st.nodes then Some(st.nodes[a]) else None
  }

  /** `get_price_history`: the newest `min(limit, 100)` entries, oldest first. */
  function GetPriceHistory(st: OracleState, asset: Symbol, limit: nat): (r: seq<AggregatedPrice>)
    ensures |r| == Min(Min(limit, MAX_HISTORY_ENTRIES), |History(st, asset)|)
    ensures r == History(st, asset)[|History(st, asset)| - |r|..]
  {
    var h := History(st, asset);
    var k := Min(limit, MAX_HISTORY_ENTRIES);
    var start := if |h| > k then |h| - k else 0;
    h[start..]
  }

  /**
   * While the emergency stop is set, registration, submission and both price
   * queries fail with `EmergencyStopActive` and change nothing, and the admin
   * can still lift the stop.
   */
  lemma EmergencyStopBlocksNodeOperations(st: OracleState, registration: NodeRegistration, caller: Address,
                                          req: PriceUpdateRequest, asset: Symbol, now: nat)
    requires st.config.Some? && st.config.value.emergencyStop
    ensures RegisterOracleNode(st, registration, now) == Err(EmergencyStopActive)
    ensures SubmitPrice(st, caller, req, now) == (st, Fail(EmergencyStopActive))
    ensures GetPrice(st, asset, now) == Err(EmergencyStopActive)
    ensures GetFallbackPriceOf(st, asset, now) == Err(EmergencyStopActive)
    ensures SetEmergencyStop(st, st.config.value.admin, false).Ok?
    ensures CheckEmergencyStop(SetEmergencyStop(st, st.config.value.admin, false).value) == Pass
  {
  }

  /**
   * The storage facts that hold from `initialize` on: no node ever has its
   * last submission time set, and no stored submission is valid. Every
   * entry point that writes storage preserves them.
   */
  ghost predicate Bootstrapped(st: OracleState) {
    && (forall a :: a in st.nodes ==> st.nodes[a].lastSubmissionTime == 0)
    && (forall asset :: asset in st.priceData ==>
          forall i :: 0 <= i < |st.priceData[asset]| ==> !IsValid(st.priceData[asset][i]))
  }

  lemma InitializeBootstraps(admin: Address)
    ensures Initialize(EmptyState(), admin).Ok?
    ensures Bootstrapped(Initialize(EmptyState(), admin).value)
  {
  }

  lemma RegisterKeepsBootstrapped(st: OracleState, registration: NodeRegistration, now: nat)
    requires Bootstrapped(st)
    requires RegisterOracleNode(st, registration, now).Ok?
    ensures Bootstrapped(RegisterOracleNode(st, registration, now).value)
  {
  }

  /** The administrative entry points leave nodes' submission times and the buffers alone. */
  lemma AdminKeepsBootstrapped(st: OracleState, caller: Address, asset: Symbol, a: Address, stop: bool)
    requires Bootstrapped(st)
    ensures AddSupportedAsset(st, caller, asset).Ok? ==> Bootstrapped(AddSupportedAsset(st, caller, asset).value)
    ensures DeactivateOracleNode(st, caller, a).Ok? ==> Bootstrapped(DeactivateOracleNode(st, caller, a).value)
    ensures SetEmergencyStop(st, caller, stop).Ok? ==> Bootstrapped(SetEmergencyStop(st, caller, stop).value)
  {
  }

  /** A round over a buffer without valid submissions has no participant, so it changes nothing. */
  lemma RoundWithoutValidSubmissions(st: OracleState, asset: Symbol, now: nat)
    requires forall i :: 0 <= i < |Buffer(st, asset)| ==> !IsValid(Buffer(st, asset)[i])
    ensures TryAggregatePrices(st, asset, now).0 == st
  {
    var recent := FilterRecentSubmissions(Buffer(st, asset), now);
    NoValidSubmissionNoParticipant(recent, st.nodes, now);
  }

  /**
   * A submission stored into a buffer without valid entries gets the default
   * confidence of 50 and is itself invalid, so no aggregation round ever has
   * a participant: `submit_price` never changes the aggregates, the history
   * or the nodes, and it keeps the bootstrap facts.
   */
  lemma SubmitPriceNeverAggregates(st: OracleState, caller: Address, req: PriceUpdateRequest, now: nat)
    requires Bootstrapped(st)
    ensures var r := SubmitPrice(st, caller, req, now);
      && Bootstrapped(r.0)
      && r.0.aggregated == st.aggregated
      && r.0.history == st.history
      && r.0.nodes == st.nodes
  {
    if CheckEmergencyStop(st) == Pass && ValidatePriceUpdate(req, st.nodes, st.rateLimits, caller, now) == Pass {
      var st' := AdmittedState(st, caller, now);
      SubmitPriceIsStore(st, caller, req, now);
      StoreKeepsBootstrapped(st', caller, req, now);
      RoundWithoutValidSubmissions(StoreSubmission(st', caller, req, now), req.assetSymbol, now);
    }
  }

  /** Storing a submission into a bootstrapped state stores an invalid entry and keeps the state bootstrapped. */
  lemma StoreKeepsBootstrapped(st: OracleState, caller: Address, req: PriceUpdateRequest, now: nat)
    requires Bootstrapped(st)
    ensures var stored := StoreSubmission(st, caller, req, now);
      && Bootstrapped(stored)
      && forall i :: 0 <= i < |Buffer(stored, req.assetSymbol)| ==> !IsValid(Buffer(stored, req.assetSymbol)[i])
  {
    var asset := req.assetSymbol;
    var stored := StoreSubmission(st, caller, req, now);
    NoValidHistoryGivesDefault(req.price, Buffer(st, asset), now);
    assert forall i :: 0 <= i < |Buffer(stored, asset)| ==> !IsValid(Buffer(stored, asset)[i]);
    forall a | a in stored.priceData
      ensures forall i :: 0 <= i < |stored.priceData[a]| ==> !IsValid(stored.priceData[a][i])
    {
      assert stored.priceData[a] == Buffer(stored, a);
    }
  }

  /**
   * Once the ledger clock passes seven days every node is ineligible, because
   * no entry point ever records a submission time: from then on every
   * submission that passes the gates is refused as unregistered or ineligible.
   */
  lemma SubmissionsRefusedAfterFirstWeek(st: OracleState, caller: Address, req: PriceUpdateRequest, now: nat)
    requires Bootstrapped(st)
    requires now > REPUTATION_DECAY_TIME
    requires CheckEmergencyStop(st) == Pass
    ensures SubmitPrice(st, caller, req, now).0 == st
    ensures SubmitPrice(st, caller, req, now).1 == Fail(UnregisteredNode)
         || SubmitPrice(st, caller, req, now).1 == Fail(NodeNotEligible)
  {
    if caller in st.nodes {
      NeverStampedNodeDecays(st.nodes[caller], now);
    }
  }
}
