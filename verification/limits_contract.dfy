/**
 * The security-limits contract's entry points as transitions of its
 * storage. Caller authorisation is not modelled; every call takes the
 * ledger time as `now` and returns the new state with the boolean the
 * contract returns.
 */
module SecurityContract {
  import opened Common
  import opened Wrappers
  import opened SpendingLimits
  import opened AlertRules
  import opened Security

  /** Everything the contract keeps in storage. */
  datatype SecurityState = SecurityState(
    limits: map<Address, UserLimits>,
    metrics: MetricsStore,
    whitelist: AddressList,
    blacklist: AddressList,
    alerts: AlertStore,
    alertCounter: nat,
    rules: map<nat, AlertRule>,
    emergencyStop: bool,
    attempts: map<(Address, nat), TransactionAttempt>)

  /** Fresh storage: nothing stored, the emergency flag unset. */
  function InitialState(): (st: SecurityState)
    ensures !st.emergencyStop && st.alertCounter == 0
    ensures st.limits == map[] && st.metrics == map[] && st.alerts == map[]
  {
    SecurityState(map[], map[], map[], map[], map[], 0, map[], false, map[])
  }

  /** The user's stored limits, or the defaults when none are stored. */
  function LimitsOrDefault(st: SecurityState, user: Address): (l: UserLimits)
    ensures user in st.limits ==> l == st.limits[user]
    ensures user !in st.limits ==> l == DefaultLimits()
  {
    if user in st.limits then st.limits[user] else DefaultLimits()
  }

  /** `get_user_limits`. */
  function GetUserLimits(st: SecurityState, user: Address): (r: Option<UserLimits>)
    ensures r.Some? <==> user in st.limits
    ensures r.Some? ==> r.value == st.limits[user]
  {
    if user in st.limits then Some(st.limits[user]) else None
  }

  /** The keys under which a sequence of alerts is stored. */
  function AlertKeys(alerts: seq<Alert>): set<(Address, nat)>
    decreases |alerts|
  {
    if alerts == [] then {}
    else AlertKeys(alerts[..|alerts| - 1]) + {(alerts[|alerts| - 1].user, alerts[|alerts| - 1].alertId)}
  }

  /** Every stored alert sits under its own user and id. */
  ghost predicate AlertsKeyed(store: AlertStore) {
    forall k :: k in store ==> store[k].user == k.0 && store[k].alertId == k.1
  }

  /** Storing each alert in turn, first to last, as the detection loop does. */
  function StoreAlerts(store: AlertStore, alerts: seq<Alert>): (r: AlertStore)
    ensures AlertsKeyed(store) ==> AlertsKeyed(r)
    ensures forall k :: k !in AlertKeys(alerts) ==> (k in r <==> k in store)
    ensures forall k :: k !in AlertKeys(alerts) && k in store ==> r[k] == store[k]
    ensures forall k :: k in AlertKeys(alerts) ==> k in r
    decreases |alerts|
  {
    if alerts == [] then store
    else StoreAlert(StoreAlerts(store, alerts[..|alerts| - 1]), alerts[|alerts| - 1])
  }

  /** `set_user_limits`: refused under the emergency stop; otherwise fresh limits starting now. */
  function SetUserLimits(st: SecurityState, user: Address, dailyLimit: int, monthlyLimit: int, now: nat)
    : (r: (SecurityState, bool))
    ensures st.emergencyStop ==> r == (st, false)
    ensures !st.emergencyStop ==> r.1 && r.0 == st.(limits := st.limits[user := NewLimits(dailyLimit, monthlyLimit, now)])
  {
    if st.emergencyStop then (st, false)
    else (st.(limits := st.limits[user := NewLimits(dailyLimit, monthlyLimit, now)]), true)
  }

  /** The state after a transaction passed detection: its spend and audit record are stored. */
  function RecordSpend(st: SecurityState, user: Address, limits: UserLimits, amount: int, hash: seq<bv8>, now: nat)
    : (r: SecurityState)
    ensures r.limits == st.limits[user := AddSpending(limits, amount)]
    ensures r.attempts == st.attempts[(user, now) := TransactionAttempt(user, amount, now, hash)]
    ensures r == st.(limits := r.limits, attempts := r.attempts)
  {
    st.(limits := st.limits[user := AddSpending(limits, amount)],
        attempts := st.attempts[(user, now) := TransactionAttempt(user, amount, now, hash)])
  }

  /**
   * `verify_transaction`: refuses under the emergency stop, for a
   * blacklisted recipient, when the amount does not fit the user's windows
   * after their resets, and for a Blocked user. Otherwise it runs detection,
   * whose metrics and alerts are stored even when the transaction is then
   * refused for raising more than two alerts; an accepted amount counts
   * against both windows and is recorded under the user and time.
   */
  function VerifyTransaction(st: SecurityState, user: Address, recipient: Address, amount: int, hash: seq<bv8>, now: nat)
    : (r: (SecurityState, bool))
    ensures st.emergencyStop ==> r == (st, false)
    ensures !st.emergencyStop && recipient in st.blacklist ==> r == (st, false)
    ensures (!st.emergencyStop && recipient !in st.blacklist
             && !CanSpend(ResetWindows(LimitsOrDefault(st, user), now), amount)) ==> r == (st, false)
    ensures (!st.emergencyStop && recipient !in st.blacklist
             && GetSecurityStatus(st.metrics, user) == Blocked) ==> r == (st, false)
    ensures !r.1 ==> r.0.limits == st.limits && r.0.attempts == st.attempts
    ensures r.1 ==> r.0.limits == st.limits[user := AddSpending(ResetWindows(LimitsOrDefault(st, user), now), amount)]
    ensures r.1 ==> (user, now) in r.0.attempts && r.0.attempts[(user, now)].amount == amount
    ensures r.0.emergencyStop == st.emergencyStop && r.0.blacklist == st.blacklist && r.0.whitelist == st.whitelist
    ensures r.0.rules == st.rules
  {
    if st.emergencyStop then (st, false)
    else if recipient in st.blacklist then (st, false)
    else
      var limits := ResetWindows(LimitsOrDefault(st, user), now);
      if !CanSpend(limits, amount) then (st, false)
      else if GetSecurityStatus(st.metrics, user) == Blocked then (st, false)
      else
        var d := DetectSuspiciousActivity(st.metrics, st.blacklist, st.alertCounter, user, recipient, amount, now);
        var detected := st.(metrics := d.metrics, alerts := StoreAlerts(st.alerts, d.alerts), alertCounter := d.alertCounter);
        if |d.alerts| > 2 then (detected, false)
        else (RecordSpend(detected, user, limits, amount, hash, now), true)
  }

  /** `add_to_whitelist`: refused under the emergency stop. */
  function AddToWhitelist(st: SecurityState, address: Address, now: nat): (r: (SecurityState, bool))
    ensures st.emergencyStop ==> r == (st, false)
    ensures !st.emergencyStop ==> r.1 && r.0 == st.(whitelist := AddToList(st.whitelist, address, now))
  {
    if st.emergencyStop then (st, false) else (st.(whitelist := AddToList(st.whitelist, address, now)), true)
  }

  /** `add_to_blacklist`: refused under the emergency stop. */
  function AddToBlacklist(st: SecurityState, address: Address, now: nat): (r: (SecurityState, bool))
    ensures st.emergencyStop ==> r == (st, false)
    ensures !st.emergencyStop ==> r.1 && r.0 == st.(blacklist := AddToList(st.blacklist, address, now))
  {
    if st.emergencyStop then (st, false) else (st.(blacklist := AddToList(st.blacklist, address, now)), true)
  }

  /** `remove_from_whitelist`: not gated; always succeeds. */
  function RemoveFromWhitelist(st: SecurityState, address: Address): (r: (SecurityState, bool))
    ensures r.1 && address !in r.0.whitelist
    ensures r.0 == st.(whitelist := r.0.whitelist)
  {
    (st.(whitelist := RemoveFromList(st.whitelist, address)), true)
  }

  /** `remove_from_blacklist`: not gated; always succeeds. */
  function RemoveFromBlacklist(st: SecurityState, address: Address): (r: (SecurityState, bool))
    ensures r.1 && address !in r.0.blacklist
    ensures r.0 == st.(blacklist := r.0.blacklist)
  {
    (st.(blacklist := RemoveFromList(st.blacklist, address)), true)
  }

  /** The two lists are independent: listing or unlisting on one leaves the other as it was. */
  lemma ListsIndependent(st: SecurityState, a: Address, now: nat)
    requires !st.emergencyStop
    ensures var w := AddToWhitelist(st, a, now).0;
      a in w.whitelist && w.blacklist == st.blacklist
    ensures var b := AddToBlacklist(st, a, now).0;
      a in b.blacklist && b.whitelist == st.whitelist
    ensures RemoveFromWhitelist(st, a).0.blacklist == st.blacklist
    ensures RemoveFromBlacklist(st, a).0.whitelist == st.whitelist
  {
  }

  /** A blacklisted recipient is refused until it is removed from the list. */
  lemma BlacklistedRecipientRefused(st: SecurityState, user: Address, recipient: Address, amount: int,
                                    hash: seq<bv8>, now: nat, t: nat)
    requires !st.emergencyStop
    ensures var listed := AddToBlacklist(st, recipient, t).0;
      VerifyTransaction(listed, user, recipient, amount, hash, now) == (listed, false)
  {
  }

  /** `create_alert_rule`: not gated; stores an enabled rule under its id. */
  function CreateAlertRule(st: SecurityState, ruleId: nat, alertType: AlertType, thresholdAmount: Option<int>,
                           timeWindowSeconds: Option<nat>, maxTransactions: Option<nat>, description: string)
    : (r: (SecurityState, bool))
    ensures r.1
    ensures ruleId in r.0.rules && r.0.rules[ruleId].isEnabled && r.0.rules[ruleId].alertType == alertType
    ensures r.0 == st.(rules := r.0.rules)
  {
    var rule := AlertRule(ruleId, alertType, true, thresholdAmount, timeWindowSeconds, maxTransactions, description);
    (st.(rules := StoreAlertRule(st.rules, rule)), true)
  }

  /** `resolve_alert`: false for a missing alert; otherwise stores it resolved. */
  function ResolveAlert(st: SecurityState, user: Address, alertId: nat): (r: (SecurityState, bool))
    ensures r.1 <==> (user, alertId) in st.alerts
    ensures !r.1 ==> r.0 == st
    ensures r.1 ==> r.0 == st.(alerts := r.0.alerts)
    ensures r.1 && AlertsKeyed(st.alerts) ==>
      r.0.alerts == st.alerts[(user, alertId) := Resolve(st.alerts[(user, alertId)])] && AlertsKeyed(r.0.alerts)
  {
    if (user, alertId) in st.alerts then
      var a := Resolve(st.alerts[(user, alertId)]);
      (st.(alerts := StoreAlert(st.alerts, a)), true)
    else (st, false)
  }

  /** A resolved alert drops out of the user's unresolved alerts, and the others stay. */
  lemma ResolvedAlertNotListed(st: SecurityState, user: Address, alertId: nat)
    requires (user, alertId) in st.alerts && AlertsKeyed(st.alerts)
    ensures var after := ResolveAlert(st, user, alertId).0;
      && after.alerts[(user, alertId)] !in GetUnresolvedAlerts(after.alerts, user)
      && forall k :: 1 <= k <= MAX_ALERT_SCAN && k != alertId && (user, k) in st.alerts && !st.alerts[(user, k)].isResolved
           ==> st.alerts[(user, k)] in GetUnresolvedAlerts(after.alerts, user)
  {
  }

  /** `reset_risk_score`: not gated. */
  function ResetRiskScore(st: SecurityState, user: Address): (r: (SecurityState, bool))
    ensures r.1 && r.0 == st.(metrics := ResetUserRiskScore(st.metrics, user))
    ensures GetSecurityStatus(r.0.metrics, user) == Normal
  {
    (st.(metrics := ResetUserRiskScore(st.metrics, user)), true)
  }

  /** `get_remaining_daily_limit`: 0 for a user without stored limits; no window reset is applied. */
  function GetRemainingDailyLimit(st: SecurityState, user: Address): (r: int)
    ensures r >= 0
    ensures user !in st.limits ==> r == 0
    ensures user in st.limits ==> r == RemainingDaily(st.limits[user])
  {
    if user in st.limits then RemainingDaily(st.limits[user]) else 0
  }

  /** `get_remaining_monthly_limit`: 0 for a user without stored limits. */
  function GetRemainingMonthlyLimit(st: SecurityState, user: Address): (r: int)
    ensures r >= 0
    ensures user !in st.limits ==> r == 0
    ensures user in st.limits ==> r == RemainingMonthly(st.limits[user])
  {
    if user in st.limits then RemainingMonthly(st.limits[user]) else 0
  }

  /** `emergency_stop` and `resume_operations`: set and clear the flag. */
  function EmergencyStop(st: SecurityState): (r: (SecurityState, bool))
    ensures r.1 && r.0.emergencyStop && r.0 == st.(emergencyStop := true)
  {
    (st.(emergencyStop := true), true)
  }

  function ResumeOperations(st: SecurityState): (r: (SecurityState, bool))
    ensures r.1 && !r.0.emergencyStop && r.0 == st.(emergencyStop := false)
  {
    (st.(emergencyStop := false), true)
  }

  /** While stopped, every gated entry point refuses and changes nothing. */
  lemma StoppedRefusesGatedCalls(st: SecurityState, user: Address, recipient: Address, amount: int, hash: seq<bv8>,
                                 daily: int, monthly: int, now: nat)
    ensures var s := EmergencyStop(st).0;
      && VerifyTransaction(s, user, recipient, amount, hash, now) == (s, false)
      && SetUserLimits(s, user, daily, monthly, now) == (s, false)
      && UpdateUserLimits(s, user, daily, monthly, now) == (s, false)
      && AddToWhitelist(s, recipient, now) == (s, false)
      && AddToBlacklist(s, recipient, now) == (s, false)
  {
  }

  /**
   * `update_user_limits`: refused under the emergency stop. With stored
   * limits it applies the window resets, then replaces the two limits and
   * keeps the spent counters; without, it behaves as `set_user_limits`.
   */
  function UpdateUserLimits(st: SecurityState, user: Address, dailyLimit: int, monthlyLimit: int, now: nat)
    : (r: (SecurityState, bool))
    ensures st.emergencyStop ==> r == (st, false)
    ensures !st.emergencyStop ==> r.1
    ensures !st.emergencyStop && user !in st.limits ==> r == SetUserLimits(st, user, dailyLimit, monthlyLimit, now)
    ensures !st.emergencyStop && user in st.limits ==>
      var old_ := st.limits[user];
      var reset := ResetWindows(old_, now);
      && r.0 == st.(limits := st.limits[user := reset.(dailyLimit := dailyLimit, monthlyLimit := monthlyLimit)])
      && reset.dailySpent == (if now >= old_.lastDailyReset + ONE_DAY then 0 else old_.dailySpent)
      && reset.monthlySpent == (if now >= old_.lastMonthlyReset + ONE_MONTH then 0 else old_.monthlySpent)
  {
    if st.emergencyStop then (st, false)
    else if user in st.limits then
      var reset := ResetWindows(st.limits[user], now);
      (st.(limits := st.limits[user := reset.(dailyLimit := dailyLimit, monthlyLimit := monthlyLimit)]), true)
    else SetUserLimits(st, user, dailyLimit, monthlyLimit, now)
  }

  /** `disable_user_limits`: false without stored limits; otherwise clears only the active flag. */
  function DisableUserLimits(st: SecurityState, user: Address): (r: (SecurityState, bool))
    ensures r.1 <==> user in st.limits
    ensures !r.1 ==> r.0 == st
    ensures r.1 ==> r.0 == st.(limits := st.limits[user := st.limits[user].(isActive := false)])
  {
    if user in st.limits then (st.(limits := st.limits[user := st.limits[user].(isActive := false)]), true)
    else (st, false)
  }

  /** `enable_user_limits`: false without stored limits; otherwise sets only the active flag. */
  function EnableUserLimits(st: SecurityState, user: Address): (r: (SecurityState, bool))
    ensures r.1 <==> user in st.limits
    ensures !r.1 ==> r.0 == st
    ensures r.1 ==> r.0 == st.(limits := st.limits[user := st.limits[user].(isActive := true)])
  {
    if user in st.limits then (st.(limits := st.limits[user := st.limits[user].(isActive := true)]), true)
    else (st, false)
  }

  /** Disabling is undone by enabling, and a disabled user's transactions are all refused. */
  lemma DisabledUserRefused(st: SecurityState, user: Address, recipient: Address, amount: int, hash: seq<bv8>, now: nat)
    requires user in st.limits
    ensures var off := DisableUserLimits(st, user).0;
      && VerifyTransaction(off, user, recipient, amount, hash, now) == (off, false)
      && (st.limits[user].isActive ==> EnableUserLimits(off, user).0 == st)
  {
    var off := DisableUserLimits(st, user).0;
    assert !ResetWindows(LimitsOrDefault(off, user), now).isActive;
  }

  /**
   * The storage invariant: every metrics record is calm (no recipients
   * counted, score at most 70) and every alert sits under its own key.
   */
  ghost predicate Calm(st: SecurityState) {
    MetricsCalm(st.metrics) && AlertsKeyed(st.alerts)
  }

  /**
   * In a calm state the Blocked and more-than-two-alerts refusals never
   * happen: a transaction is accepted exactly when the contract is running,
   * the recipient is not blacklisted, and the amount fits the user's windows
   * after their resets. The state stays calm.
   */
  lemma CalmVerifyAcceptsWithinLimits(st: SecurityState, user: Address, recipient: Address, amount: int,
                                      hash: seq<bv8>, now: nat)
    requires Calm(st)
    ensures var r := VerifyTransaction(st, user, recipient, amount, hash, now);
      && (r.1 <==> !st.emergencyStop && recipient !in st.blacklist
                   && CanSpend(ResetWindows(LimitsOrDefault(st, user), now), amount))
      && Calm(r.0)
  {
    if !st.emergencyStop && recipient !in st.blacklist && CanSpend(ResetWindows(LimitsOrDefault(st, user), now), amount) {
      CalmNeverBlocked(st.metrics, user);
      DetectionKeepsCalm(st.metrics, st.blacklist, st.alertCounter, user, recipient, amount, now);
      AtMostTwoAlertsUnlisted(st.metrics, st.blacklist, st.alertCounter, user, recipient, amount, now);
    }
  }

  /**
   * Outside calm states the more-than-two-alerts refusal does happen, and
   * it comes after detection has written: the refused transaction is still
   * counted in the user's metrics and its three alerts are issued, while the
   * spending limits stay as they were.
   */
  lemma RefusedAfterDetectionKeepsMetrics(st: SecurityState, user: Address, recipient: Address, amount: int,
                                          hash: seq<bv8>, now: nat)
    requires !st.emergencyStop && recipient !in st.blacklist
    requires CanSpend(ResetWindows(LimitsOrDefault(st, user), now), amount)
    requires user in st.metrics && st.metrics[user].riskScore <= BLOCKED_ABOVE
    requires st.metrics[user].transactionCount >= VELOCITY_ALERT_ABOVE
    requires st.metrics[user].uniqueRecipients > RECIPIENTS_HIGH_BAR
    requires st.metrics[user].totalAmount >= 0 && amount > LARGE_TRANSACTION_ABOVE
    ensures var r := VerifyTransaction(st, user, recipient, amount, hash, now);
      && !r.1
      && r.0.limits == st.limits
      && user in r.0.metrics && r.0.metrics[user].transactionCount == st.metrics[user].transactionCount + 1
      && r.0.alertCounter == st.alertCounter + 3
  {
    var m := UpdatedMetrics(st.metrics, user, amount, recipient, now);
    assert m.transactionCount > VELOCITY_ALERT_ABOVE && m.riskScore > RISK_ALERT_ABOVE;
    var d := DetectSuspiciousActivity(st.metrics, st.blacklist, st.alertCounter, user, recipient, amount, now);
    assert TypesOf(d.alerts) == [VelocityAnomaly, LargeTransaction, SuspiciousActivity];
  }

  /** A first transaction within the default daily limit is accepted and counted against the defaults. */
  lemma FirstTransactionUsesDefaults(st: SecurityState, user: Address, recipient: Address, amount: int,
                                     hash: seq<bv8>, now: nat)
    requires Calm(st) && !st.emergencyStop && recipient !in st.blacklist && user !in st.limits
    requires 0 <= amount <= DEFAULT_DAILY_LIMIT
    ensures var r := VerifyTransaction(st, user, recipient, amount, hash, now);
      && r.1
      && r.0.limits[user].dailySpent == amount && r.0.limits[user].monthlySpent == amount
      && r.0.limits[user].dailyLimit == DEFAULT_DAILY_LIMIT
      && GetRemainingDailyLimit(r.0, user) == DEFAULT_DAILY_LIMIT - amount
  {
    CalmVerifyAcceptsWithinLimits(st, user, recipient, amount, hash, now);
  }

  /** Every entry point that writes storage, with its arguments. */
  datatype Call =
    | SetLimitsCall(user: Address, daily: int, monthly: int)
    | VerifyCall(user: Address, recipient: Address, amount: int, hash: seq<bv8>)
    | WhitelistCall(address: Address)
    | BlacklistCall(address: Address)
    | UnwhitelistCall(address: Address)
    | UnblacklistCall(address: Address)
    | CreateRuleCall(ruleId: nat, alertType: AlertType, threshold: Option<int>, window: Option<nat>,
                     maxTransactions: Option<nat>, description: string)
    | ResolveCall(user: Address, alertId: nat)
    | ResetRiskCall(user: Address)
    | StopCall
    | ResumeCall
    | UpdateLimitsCall(user: Address, daily: int, monthly: int)
    | DisableCall(user: Address)
    | EnableCall(user: Address)

  /** One call to the contract at time `now`. */
  function Step(st: SecurityState, c: Call, now: nat): (SecurityState, bool) {
    match c
    case SetLimitsCall(u, d, m) => SetUserLimits(st, u, d, m, now)
    case VerifyCall(u, to, a, h) => VerifyTransaction(st, u, to, a, h, now)
    case WhitelistCall(a) => AddToWhitelist(st, a, now)
    case BlacklistCall(a) => AddToBlacklist(st, a, now)
    case UnwhitelistCall(a) => RemoveFromWhitelist(st, a)
    case UnblacklistCall(a) => RemoveFromBlacklist(st, a)
    case CreateRuleCall(id, t, th, w, mx, desc) => CreateAlertRule(st, id, t, th, w, mx, desc)
    case ResolveCall(u, id) => ResolveAlert(st, u, id)
    case ResetRiskCall(u) => ResetRiskScore(st, u)
    case StopCall => EmergencyStop(st)
    case ResumeCall => ResumeOperations(st)
    case UpdateLimitsCall(u, d, m) => UpdateUserLimits(st, u, d, m, now)
    case DisableCall(u) => DisableUserLimits(st, u)
    case EnableCall(u) => EnableUserLimits(st, u)
  }

  /** Every call keeps the state calm. */
  lemma StepKeepsCalm(st: SecurityState, c: Call, now: nat)
    requires Calm(st)
    ensures Calm(Step(st, c, now).0)
  {
    match c
    case VerifyCall(u, to, a, h) =>
      CalmVerifyAcceptsWithinLimits(st, u, to, a, h, now);
    case ResetRiskCall(u) =>
      CalmNeverBlocked(st.metrics, u);
    case _ =>
  }

  /** The state after a run of calls at the given times. */
  function Run(st: SecurityState, calls: seq<(Call, nat)>): SecurityState
    decreases |calls|
  {
    if calls == [] then st else Run(Step(st, calls[0].0, calls[0].1).0, calls[1..])
  }

  /**
   * Every state the contract reaches from fresh storage is calm, so no
   * user is ever Blocked and the high-risk alert never fires.
   */
  lemma {:induction false} ReachableStatesCalm(st: SecurityState, calls: seq<(Call, nat)>, user: Address)
    requires Calm(st)
    ensures Calm(Run(st, calls))
    ensures GetSecurityStatus(Run(st, calls).metrics, user) != Blocked
    decreases |calls|
  {
    if calls == [] {
      CalmNeverBlocked(st.metrics, user);
    } else {
      StepKeepsCalm(st, calls[0].0, calls[0].1);
      ReachableStatesCalm(Step(st, calls[0].0, calls[0].1).0, calls[1..], user);
    }
  }

  lemma InitialStateCalm()
    ensures Calm(InitialState())
  {
  }
}
