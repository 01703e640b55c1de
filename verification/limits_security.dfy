/**
 * Risk scoring of the security-limits contract: per-user activity metrics,
 * the tiered risk score and the status it maps to, the allow and deny lists,
 * and the detector that turns one transaction into alerts.
 */
module Security {
  import opened Common
  import opened Wrappers
  import opened AlertRules

  /** Transaction counts above which the count tier adds 15 and 30 points. */
  const COUNT_LOW_BAR: nat := 20
  const COUNT_HIGH_BAR: nat := 50
  /** 24-hour totals above which the amount tier adds 10 and 25 points (10k and 100k units with 7 decimals). */
  const AMOUNT_LOW_BAR: int := 10000_0000000
  const AMOUNT_HIGH_BAR: int := 100000_0000000
  /** Distinct-recipient counts above which the recipient tier adds 10 and 20 points. */
  const RECIPIENTS_LOW_BAR: nat := 10
  const RECIPIENTS_HIGH_BAR: nat := 20
  /** A transaction less than this many seconds after the previous one adds 15 points. */
  const RAPID_WINDOW: nat := 60
  const MAX_RISK_SCORE: nat := 100

  /** Status thresholds on the risk score. */
  const BLOCKED_ABOVE: nat := 80
  const SUSPICIOUS_ABOVE: nat := 50

  /** Detector thresholds. */
  const VELOCITY_ALERT_ABOVE: nat := 100
  const LARGE_TRANSACTION_ABOVE: int := 50000_0000000
  const RISK_ALERT_ABOVE: nat := 70

  datatype SecurityStatus = Normal | Suspicious | Blocked

  datatype SecurityMetrics = SecurityMetrics(
    user: Address,
    transactionCount: nat,
    totalAmount: int,
    uniqueRecipients: nat,
    avgTransactionAmount: int,
    lastTransactionTime: nat,
    riskScore: nat)

  /** Metrics are stored per user. */
  type MetricsStore = map<Address, SecurityMetrics>

  /** An allow or deny list: each listed address with the time it was added. */
  type AddressList = map<Address, nat>

  /** `SecurityMetrics::new`: no activity, last transaction time `now`, no risk. */
  function NewMetrics(user: Address, now: nat): (m: SecurityMetrics)
    ensures m.user == user && m.lastTransactionTime == now
    ensures m.transactionCount == 0 && m.totalAmount == 0 && m.uniqueRecipients == 0
    ensures m.avgTransactionAmount == 0 && m.riskScore == 0
  {
    SecurityMetrics(user, 0, 0, 0, 0, now, 0)
  }

  /** A two-step tier: `high` points above `highBar`, `low` points above `lowBar`, none otherwise. */
  function Tier(x: int, lowBar: int, low: nat, highBar: int, high: nat): (points: nat)
    requires lowBar <= highBar && low <= high
    ensures points <= high
    ensures x > highBar ==> points == high
    ensures x <= lowBar ==> points == 0
    ensures lowBar < x <= highBar ==> points == low
  {
    if x > highBar then high else if x > lowBar then low else 0
  }

  /** The uncapped sum of the four risk tiers. */
  function RiskPoints(count: nat, total: int, unique: nat, elapsed: nat): nat {
    Tier(count, COUNT_LOW_BAR, 15, COUNT_HIGH_BAR, 30)
    + Tier(total, AMOUNT_LOW_BAR, 10, AMOUNT_HIGH_BAR, 25)
    + Tier(unique, RECIPIENTS_LOW_BAR, 10, RECIPIENTS_HIGH_BAR, 20)
    + (if elapsed < RAPID_WINDOW then 15 else 0)
  }

  /**
   * `calculate_risk_score`: the four tiers, summed and capped at 100, with
   * the time since the last transaction measured from `now`. The contract's
   * unsigned subtraction aborts when `now` is before the last transaction.
   */
  function CalculateRiskScore(m: SecurityMetrics, now: nat): (r: SecurityMetrics)
    requires m.lastTransactionTime <= now
    ensures r == m.(riskScore := r.riskScore)
    ensures r.riskScore <= MAX_RISK_SCORE
    ensures m.transactionCount > COUNT_HIGH_BAR ==> r.riskScore >= 30
    ensures m.totalAmount > AMOUNT_HIGH_BAR ==> r.riskScore >= 25
    ensures m.uniqueRecipients > RECIPIENTS_HIGH_BAR ==> r.riskScore >= 20
    ensures now - m.lastTransactionTime < RAPID_WINDOW ==> r.riskScore >= 15
    ensures (m.transactionCount <= COUNT_LOW_BAR && m.totalAmount <= AMOUNT_LOW_BAR
             && m.uniqueRecipients <= RECIPIENTS_LOW_BAR && now - m.lastTransactionTime >= RAPID_WINDOW)
            ==> r.riskScore == 0
    ensures m.uniqueRecipients <= RECIPIENTS_LOW_BAR ==> r.riskScore <= 70
  {
    var points := RiskPoints(m.transactionCount, m.totalAmount, m.uniqueRecipients, now - m.lastTransactionTime);
    m.(riskScore := Min(points, MAX_RISK_SCORE))
  }

  /** The score never falls when activity grows or the previous transaction comes closer. */
  lemma RiskScoreMonotone(m: SecurityMetrics, m': SecurityMetrics, now: nat, now': nat)
    requires m.lastTransactionTime <= now && m'.lastTransactionTime <= now'
    requires m.transactionCount <= m'.transactionCount && m.totalAmount <= m'.totalAmount
    requires m.uniqueRecipients <= m'.uniqueRecipients
    requires now' - m'.lastTransactionTime <= now - m.lastTransactionTime
    ensures CalculateRiskScore(m, now).riskScore <= CalculateRiskScore(m', now').riskScore
  {
  }

  /** The tiers' maximum, 90 points, stays under the cap of 100. */
  lemma RiskCapNeverBinds(count: nat, total: int, unique: nat, elapsed: nat)
    ensures RiskPoints(count, total, unique, elapsed) <= 90 < MAX_RISK_SCORE
  {
  }

  /**
   * `update_with_transaction`: counts the transaction, adds its amount,
   * moves the last transaction time to `now`, recomputes the average with
   * division toward zero, and rescores. The recipient is not counted.
   */
  function UpdateWithTransaction(m: SecurityMetrics, amount: int, recipient: Address, now: nat): (r: SecurityMetrics)
    ensures r.user == m.user
    ensures r.transactionCount == m.transactionCount + 1
    ensures r.totalAmount == m.totalAmount + amount
    ensures r.lastTransactionTime == now
    ensures r.avgTransactionAmount == TruncDiv(r.totalAmount, r.transactionCount)
    ensures r.uniqueRecipients == m.uniqueRecipients
    ensures r.riskScore <= MAX_RISK_SCORE
    ensures r.riskScore >= 15
    ensures m.uniqueRecipients <= RECIPIENTS_LOW_BAR ==> r.riskScore <= 70
  {
    var count := m.transactionCount + 1;
    var total := m.totalAmount + amount;
    var updated := m.(transactionCount := count, totalAmount := total, lastTransactionTime := now,
                      avgTransactionAmount := TruncDiv(total, count));
    CalculateRiskScore(updated, now)
  }

  /**
   * Because the last transaction time is moved to `now` before scoring, every
   * update scores exactly as a transaction under a minute after the previous
   * one: one modest transaction on fresh metrics scores 15, not 0.
   */
  lemma RapidTermAlwaysApplies(m: SecurityMetrics, amount: int, recipient: Address, now: nat)
    ensures UpdateWithTransaction(m, amount, recipient, now).riskScore
         == Min(RiskPoints(m.transactionCount + 1, m.totalAmount + amount, m.uniqueRecipients, 0), MAX_RISK_SCORE)
    ensures amount <= AMOUNT_LOW_BAR ==> UpdateWithTransaction(NewMetrics(m.user, now), amount, recipient, now).riskScore == 15
  {
  }

  /** `reset_daily_metrics`: clears the activity and the score, restarting at `now`. */
  function ResetDailyMetrics(m: SecurityMetrics, now: nat): (r: SecurityMetrics)
    ensures r == NewMetrics(m.user, now)
  {
    m.(transactionCount := 0, totalAmount := 0, uniqueRecipients := 0, avgTransactionAmount := 0,
       riskScore := 0, lastTransactionTime := now)
  }

  /** `get_security_status`: Blocked above 80, Suspicious above 50, Normal otherwise or without metrics. */
  function GetSecurityStatus(metrics: MetricsStore, user: Address): (s: SecurityStatus)
    ensures s == Blocked <==> user in metrics && metrics[user].riskScore > 80
    ensures s == Suspicious <==> user in metrics && 50 < metrics[user].riskScore <= 80
    ensures user !in metrics ==> s == Normal
  {
    if user in metrics && metrics[user].riskScore > BLOCKED_ABOVE then Blocked
    else if user in metrics && metrics[user].riskScore > SUSPICIOUS_ABOVE then Suspicious
    else Normal
  }

  function StatusRank(s: SecurityStatus): nat {
    match s
    case Normal => 0
    case Suspicious => 1
    case Blocked => 2
  }

  /** A higher score never maps to a milder status. */
  lemma StatusMonotone(m: SecurityMetrics, m': SecurityMetrics, user: Address)
    requires m.riskScore <= m'.riskScore
    ensures StatusRank(GetSecurityStatus(map[user := m], user)) <= StatusRank(GetSecurityStatus(map[user := m'], user))
  {
  }

  /** `reset_user_risk_score`: zeroes a stored score and leaves everything else as it was. */
  function ResetUserRiskScore(metrics: MetricsStore, user: Address): (r: MetricsStore)
    ensures user in metrics ==> r == metrics[user := metrics[user].(riskScore := 0)]
    ensures user !in metrics ==> r == metrics
    ensures GetSecurityStatus(r, user) == Normal
  {
    if user in metrics then metrics[user := metrics[user].(riskScore := 0)] else metrics
  }

  /** `add_to_whitelist` / `add_to_blacklist`: lists the address, stamped with `now`. */
  function AddToList(list: AddressList, a: Address, now: nat): (r: AddressList)
    ensures a in r && r[a] == now
    ensures forall b :: b != a ==> (b in r <==> b in list)
    ensures forall b :: b != a && b in list ==> r[b] == list[b]
  {
    list[a := now]
  }

  /** `remove_from_whitelist` / `remove_from_blacklist`: unlists the address, listed or not. */
  function RemoveFromList(list: AddressList, a: Address): (r: AddressList)
    ensures a !in r
    ensures forall b :: b != a ==> (b in r <==> b in list)
    ensures forall b :: b != a && b in list ==> r[b] == list[b]
  {
    list - {a}
  }

  /** Removing undoes adding, and removing twice is removing once. */
  lemma AddThenRemove(list: AddressList, a: Address, now: nat)
    ensures RemoveFromList(AddToList(list, a, now), a) == RemoveFromList(list, a)
    ensures RemoveFromList(RemoveFromList(list, a), a) == RemoveFromList(list, a)
    ensures a !in list ==> RemoveFromList(AddToList(list, a, now), a) == list
  {
  }

  /** The message each detector attaches to its alert. */
  function AlertMessage(t: AlertType): string {
    match t
    case UnknownAddress => "Transaction to blacklisted address"
    case VelocityAnomaly => "Unusually high transaction velocity"
    case LargeTransaction => "Large transaction amount detected"
    case SuspiciousActivity => "High risk score detected"
    case DailyLimitExceeded => "Daily spending limit exceeded"
    case MonthlyLimitExceeded => "Monthly spending limit exceeded"
  }

  /** The order in which the detectors run. */
  function DetectorRank(t: AlertType): nat {
    match t
    case UnknownAddress => 0
    case VelocityAnomaly => 1
    case LargeTransaction => 2
    case SuspiciousActivity => 3
    case DailyLimitExceeded => 4
    case MonthlyLimitExceeded => 5
  }

  /** Alerts of the given types for `user`, with ids taken one by one from the counter. */
  function IssueAlerts(types: seq<AlertType>, counter: nat, user: Address, now: nat, amount: int): (r: seq<Alert>)
    ensures |r| == |types|
    ensures forall i :: 0 <= i < |r| ==> r[i].alertId == counter + i + 1 && r[i].alertType == types[i]
    ensures forall i :: 0 <= i < |r| ==> r[i].user == user && r[i].triggeredAt == now && r[i].amount == amount
    ensures forall i :: 0 <= i < |r| ==> !r[i].isResolved && r[i].transactionHash.None?
  {
    seq(|types|, i requires 0 <= i < |types| =>
      NewAlert(counter + i + 1, user, types[i], now, amount, None, AlertMessage(types[i])))
  }

  /** The outcome of one detection: the alerts, the metrics store and the alert counter after it. */
  datatype Detection = Detection(alerts: seq<Alert>, metrics: MetricsStore, alertCounter: nat)

  /** The user's metrics after the transaction, starting from fresh ones when none are stored. */
  function UpdatedMetrics(metrics: MetricsStore, user: Address, amount: int, recipient: Address, now: nat): SecurityMetrics {
    var current := if user in metrics then metrics[user] else NewMetrics(user, now);
    UpdateWithTransaction(current, amount, recipient, now)
  }

  function TypesOf(alerts: seq<Alert>): (r: seq<AlertType>)
    ensures |r| == |alerts| && forall i :: 0 <= i < |r| ==> r[i] == alerts[i].alertType
  {
    seq(|alerts|, i requires 0 <= i < |alerts| => alerts[i].alertType)
  }

  /** The detectors that fire, in the order they run. */
  function FiredDetectors(blacklisted: bool, m: SecurityMetrics, amount: int): (types: seq<AlertType>)
    ensures UnknownAddress in types <==> blacklisted
    ensures VelocityAnomaly in types <==> m.transactionCount > VELOCITY_ALERT_ABOVE
    ensures LargeTransaction in types <==> amount > LARGE_TRANSACTION_ABOVE
    ensures SuspiciousActivity in types <==> m.riskScore > RISK_ALERT_ABOVE
    ensures forall i, j :: 0 <= i < j < |types| ==> DetectorRank(types[i]) < DetectorRank(types[j])
    ensures |types| <= 4
  {
    (if blacklisted then [UnknownAddress] else [])
    + (if m.transactionCount > VELOCITY_ALERT_ABOVE then [VelocityAnomaly] else [])
    + (if amount > LARGE_TRANSACTION_ABOVE then [LargeTransaction] else [])
    + (if m.riskScore > RISK_ALERT_ABOVE then [SuspiciousActivity] else [])
  }

  /**
   * `detect_suspicious_activity`: runs the blacklist, velocity, large-amount
   * and risk detectors in that order, issuing one alert per detector that
   * fires, and stores the user's updated metrics whatever the outcome.
   */
  function DetectSuspiciousActivity(metrics: MetricsStore, blacklist: AddressList, alertCounter: nat,
                                    user: Address, recipient: Address, amount: int, now: nat): (r: Detection)
    ensures r.metrics == metrics[user := UpdatedMetrics(metrics, user, amount, recipient, now)]
    ensures TypesOf(r.alerts) == FiredDetectors(recipient in blacklist, UpdatedMetrics(metrics, user, amount, recipient, now), amount)
    ensures r.alertCounter == alertCounter + |r.alerts|
    ensures forall i :: 0 <= i < |r.alerts| ==> r.alerts[i].alertId == alertCounter + i + 1
    ensures forall i :: 0 <= i < |r.alerts| ==> r.alerts[i].user == user && !r.alerts[i].isResolved
  {
    var m := UpdatedMetrics(metrics, user, amount, recipient, now);
    var types := FiredDetectors(recipient in blacklist, m, amount);
    var alerts := IssueAlerts(types, alertCounter, user, now, amount);
    assert TypesOf(alerts) == types;
    Detection(alerts, metrics[user := m], alertCounter + |types|)
  }

  /** Every stored metrics record counts no recipients and so scores at most 70. */
  ghost predicate MetricsCalm(metrics: MetricsStore) {
    forall u :: u in metrics ==> metrics[u].uniqueRecipients == 0 && metrics[u].riskScore <= RISK_ALERT_ABOVE
  }

  /**
   * Nothing ever counts a recipient, so from calm metrics the risk alert
   * never fires, detection keeps the metrics calm, and no stored score
   * reaches the Blocked status.
   */
  lemma DetectionKeepsCalm(metrics: MetricsStore, blacklist: AddressList, alertCounter: nat,
                           user: Address, recipient: Address, amount: int, now: nat)
    requires MetricsCalm(metrics)
    ensures var r := DetectSuspiciousActivity(metrics, blacklist, alertCounter, user, recipient, amount, now);
      && MetricsCalm(r.metrics)
      && SuspiciousActivity !in TypesOf(r.alerts)
      && GetSecurityStatus(r.metrics, user) != Blocked
  {
  }

  lemma CalmNeverBlocked(metrics: MetricsStore, user: Address)
    requires MetricsCalm(metrics)
    ensures GetSecurityStatus(metrics, user) != Blocked
    ensures MetricsCalm(ResetUserRiskScore(metrics, user))
  {
  }

  /** Without a blacklisted recipient, at most the velocity and large-amount alerts fire. */
  lemma AtMostTwoAlertsUnlisted(metrics: MetricsStore, blacklist: AddressList, alertCounter: nat,
                                user: Address, recipient: Address, amount: int, now: nat)
    requires MetricsCalm(metrics) && recipient !in blacklist
    ensures |DetectSuspiciousActivity(metrics, blacklist, alertCounter, user, recipient, amount, now).alerts| <= 2
  {
    var r := DetectSuspiciousActivity(metrics, blacklist, alertCounter, user, recipient, amount, now);
    var types := TypesOf(r.alerts);
    forall i | 0 <= i < |types|
      ensures types[i] == VelocityAnomaly || types[i] == LargeTransaction
    {
      assert types[i] in types;
    }
  }
}
