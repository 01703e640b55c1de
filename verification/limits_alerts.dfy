/**
 * Alerts and alert rules of the security-limits contract: the rule
 * constructors, alert creation and resolution, the global alert-id counter,
 * and the bounded scans that list a user's alerts and the enabled rules.
 */
module AlertRules {
  import opened Common
  import opened Wrappers
  import opened Seqs

  /** Alert ids a user's alert scans look at: 1 to 50. */
  const MAX_ALERT_SCAN: nat := 50
  /** Rule ids the rule scan looks at: 1 to 20. */
  const MAX_RULE_SCAN: nat := 20
  /** Window of the daily and monthly limit rules, in seconds. */
  const DAILY_RULE_WINDOW: nat := 86400
  const MONTHLY_RULE_WINDOW: nat := 2629746

  datatype AlertType =
    | DailyLimitExceeded
    | MonthlyLimitExceeded
    | SuspiciousActivity
    | UnknownAddress
    | VelocityAnomaly
    | LargeTransaction

  datatype AlertRule = AlertRule(
    ruleId: nat,
    alertType: AlertType,
    isEnabled: bool,
    thresholdAmount: Option<int>,
    timeWindowSeconds: Option<nat>,
    maxTransactions: Option<nat>,
    description: string)

  datatype Alert = Alert(
    alertId: nat,
    user: Address,
    alertType: AlertType,
    triggeredAt: nat,
    amount: int,
    transactionHash: Option<seq<bv8>>,
    message: string,
    isResolved: bool)

  /** Alerts are stored under their user and id. */
  type AlertStore = map<(Address, nat), Alert>

  function NewDailyLimitRule(ruleId: nat): (r: AlertRule)
    ensures r.ruleId == ruleId && r.alertType == DailyLimitExceeded && r.isEnabled
    ensures r.timeWindowSeconds == Some(86400) && r.thresholdAmount.None? && r.maxTransactions.None?
  {
    AlertRule(ruleId, DailyLimitExceeded, true, None, Some(DAILY_RULE_WINDOW), None, "Daily spending limit exceeded")
  }

  function NewMonthlyLimitRule(ruleId: nat): (r: AlertRule)
    ensures r.ruleId == ruleId && r.alertType == MonthlyLimitExceeded && r.isEnabled
    ensures r.timeWindowSeconds == Some(2629746) && r.thresholdAmount.None? && r.maxTransactions.None?
  {
    AlertRule(ruleId, MonthlyLimitExceeded, true, None, Some(MONTHLY_RULE_WINDOW), None, "Monthly spending limit exceeded")
  }

  function NewLargeTransactionRule(ruleId: nat, threshold: int): (r: AlertRule)
    ensures r.ruleId == ruleId && r.alertType == LargeTransaction && r.isEnabled
    ensures r.thresholdAmount == Some(threshold) && r.timeWindowSeconds.None? && r.maxTransactions.None?
  {
    AlertRule(ruleId, LargeTransaction, true, Some(threshold), None, None, "Large transaction detected")
  }

  function NewVelocityRule(ruleId: nat, maxTransactions: nat, timeWindow: nat): (r: AlertRule)
    ensures r.ruleId == ruleId && r.alertType == VelocityAnomaly && r.isEnabled
    ensures r.maxTransactions == Some(maxTransactions) && r.timeWindowSeconds == Some(timeWindow)
    ensures r.thresholdAmount.None?
  {
    AlertRule(ruleId, VelocityAnomaly, true, None, Some(timeWindow), Some(maxTransactions),
              "High transaction velocity detected")
  }

  function NewUnknownAddressRule(ruleId: nat): (r: AlertRule)
    ensures r.ruleId == ruleId && r.alertType == UnknownAddress && r.isEnabled
    ensures r.thresholdAmount.None? && r.timeWindowSeconds.None? && r.maxTransactions.None?
  {
    AlertRule(ruleId, UnknownAddress, true, None, None, None, "Transaction to unknown address")
  }

  /** `Alert::new`: copies its arguments; a new alert is unresolved. */
  function NewAlert(alertId: nat, user: Address, alertType: AlertType, triggeredAt: nat, amount: int,
                    transactionHash: Option<seq<bv8>>, message: string): (a: Alert)
    ensures a.alertId == alertId && a.user == user && a.alertType == alertType
    ensures a.triggeredAt == triggeredAt && a.amount == amount && a.transactionHash == transactionHash
    ensures a.message == message
    ensures !a.isResolved
  {
    Alert(alertId, user, alertType, triggeredAt, amount, transactionHash, message, false)
  }

  /** `Alert::resolve`: marks the alert resolved and changes nothing else. */
  function Resolve(a: Alert): (r: Alert)
    ensures r.isResolved
    ensures r.(isResolved := a.isResolved) == a
  {
    a.(isResolved := true)
  }

  lemma ResolveIdempotent(a: Alert)
    ensures Resolve(Resolve(a)) == Resolve(a)
    ensures a.isResolved ==> Resolve(a) == a
  {
  }

  /** `generate_alert_id`: advances the global counter and returns its new value. */
  function GenerateAlertId(counter: nat): (r: (nat, nat))
    ensures r.0 == counter + 1 && r.1 == r.0
  {
    (counter + 1, counter + 1)
  }

  /** Ids issued one after another strictly increase, starting at 1 from an empty counter. */
  lemma AlertIdsIncrease(counter: nat)
    ensures GenerateAlertId(GenerateAlertId(counter).1).0 > GenerateAlertId(counter).0 > counter
    ensures GenerateAlertId(0).0 == 1
  {
  }

  /** `store_alert`: keyed by the alert's own user and id. */
  function StoreAlert(alerts: AlertStore, a: Alert): (r: AlertStore)
    ensures (a.user, a.alertId) in r && r[(a.user, a.alertId)] == a
    ensures forall k :: k != (a.user, a.alertId) ==> (k in r <==> k in alerts)
    ensures forall k :: k != (a.user, a.alertId) && k in alerts ==> r[k] == alerts[k]
  {
    alerts[(a.user, a.alertId) := a]
  }

  /** The first `k` elements, or all when there are fewer. */
  function Take<T>(s: seq<T>, k: nat): (r: seq<T>)
    ensures |r| == Min(|s|, k)
    ensures r == s[..|r|]
  {
    if |s| <= k then s else s[..k]
  }

  /** The ids in `1..n` under which `user` has an alert, ascending: what the alert scan visits. */
  function AlertIdsOf(alerts: AlertStore, user: Address, n: nat): (ids: seq<nat>)
    ensures forall i :: 0 <= i < |ids| ==> 1 <= ids[i] <= n && (user, ids[i]) in alerts
    ensures forall i, j :: 0 <= i < j < |ids| ==> ids[i] < ids[j]
    ensures forall k :: 1 <= k <= n && (user, k) in alerts ==> k in ids
    ensures |ids| <= n
  {
    if n == 0 then [] else AlertIdsOf(alerts, user, n - 1) + (if (user, n) in alerts then [n] else [])
  }

  /** A shorter scan visits a prefix of what a longer one visits. */
  lemma {:induction false} AlertIdsPrefix(alerts: AlertStore, user: Address, m: nat, n: nat)
    requires m <= n
    ensures |AlertIdsOf(alerts, user, m)| <= |AlertIdsOf(alerts, user, n)|
    ensures AlertIdsOf(alerts, user, m) == AlertIdsOf(alerts, user, n)[..|AlertIdsOf(alerts, user, m)|]
    decreases n - m
  {
    if m < n {
      AlertIdsPrefix(alerts, user, m, n - 1);
    }
  }

  /** The ids in `1..n` under which `user` has an unresolved alert, ascending. */
  function UnresolvedIdsOf(alerts: AlertStore, user: Address, n: nat): (ids: seq<nat>)
    ensures forall i :: 0 <= i < |ids| ==> 1 <= ids[i] <= n && (user, ids[i]) in alerts
    ensures forall i :: 0 <= i < |ids| ==> !alerts[(user, ids[i])].isResolved
    ensures forall i, j :: 0 <= i < j < |ids| ==> ids[i] < ids[j]
    ensures forall k :: 1 <= k <= n && (user, k) in alerts && !alerts[(user, k)].isResolved ==> k in ids
  {
    if n == 0 then []
    else UnresolvedIdsOf(alerts, user, n - 1)
         + (if (user, n) in alerts && !alerts[(user, n)].isResolved then [n] else [])
  }

  /** The user's alerts under the given ids, in order. */
  function AlertsAt(alerts: AlertStore, user: Address, ids: seq<nat>): (r: seq<Alert>)
    requires forall i :: 0 <= i < |ids| ==> (user, ids[i]) in alerts
    ensures |r| == |ids|
    ensures forall i :: 0 <= i < |ids| ==> r[i] == alerts[(user, ids[i])]
  {
    seq(|ids|, i requires 0 <= i < |ids| => alerts[(user, ids[i])])
  }

  /** Appending an id appends that id's alert. */
  lemma AlertsAtAppend(alerts: AlertStore, user: Address, ids: seq<nat>, more: seq<nat>)
    requires forall i :: 0 <= i < |ids| ==> (user, ids[i]) in alerts
    requires forall i :: 0 <= i < |more| ==> (user, more[i]) in alerts
    ensures AlertsAt(alerts, user, ids + more) == AlertsAt(alerts, user, ids) + AlertsAt(alerts, user, more)
  {
    var l := AlertsAt(alerts, user, ids + more);
    var r := AlertsAt(alerts, user, ids) + AlertsAt(alerts, user, more);
    assert |l| == |r|;
    forall i | 0 <= i < |l|
      ensures l[i] == r[i]
    {
      if i >= |ids| {
        assert (ids + more)[i] == more[i - |ids|];
      }
    }
  }

  /** While fewer than `limit` alerts are found, visiting id `id` collects its alert, if any. */
  lemma ScanStep(alerts: AlertStore, user: Address, id: nat, limit: nat)
    requires id >= 1 && |AlertIdsOf(alerts, user, id - 1)| < limit
    ensures AlertsAt(alerts, user, Take(AlertIdsOf(alerts, user, id), limit))
         == AlertsAt(alerts, user, Take(AlertIdsOf(alerts, user, id - 1), limit))
            + (if (user, id) in alerts then [alerts[(user, id)]] else [])
  {
    var before := AlertIdsOf(alerts, user, id - 1);
    var extra := if (user, id) in alerts then [id] else [];
    assert AlertIdsOf(alerts, user, id) == before + extra;
    AlertsAtAppend(alerts, user, before, extra);
  }

  /** Stopping early at `limit` alerts, or after id 50, yields the first `limit` of the full scan. */
  lemma ScanDone(alerts: AlertStore, user: Address, id: nat, limit: nat)
    requires 1 <= id <= MAX_ALERT_SCAN + 1
    requires id <= MAX_ALERT_SCAN ==> |Take(AlertIdsOf(alerts, user, id - 1), limit)| >= limit
    ensures Take(AlertIdsOf(alerts, user, id - 1), limit) == Take(AlertIdsOf(alerts, user, MAX_ALERT_SCAN), limit)
  {
    AlertIdsPrefix(alerts, user, id - 1, MAX_ALERT_SCAN);
  }

  /**
   * `get_user_alerts`: scans ids 1 to 50 in order and collects the user's
   * alerts until `limit` are found.
   */
  method GetUserAlerts(alerts: AlertStore, user: Address, limit: nat) returns (r: seq<Alert>)
    ensures |r| <= limit && |r| <= MAX_ALERT_SCAN
    ensures r == AlertsAt(alerts, user, Take(AlertIdsOf(alerts, user, MAX_ALERT_SCAN), limit))
  {
    r := [];
    var count := 0;
    var id := 1;
    while id <= MAX_ALERT_SCAN
      invariant 1 <= id <= MAX_ALERT_SCAN + 1
      invariant count == |r| <= limit
      invariant r == AlertsAt(alerts, user, Take(AlertIdsOf(alerts, user, id - 1), limit))
      decreases MAX_ALERT_SCAN + 1 - id
    {
      if count >= limit {
        break;
      }
      ScanStep(alerts, user, id, limit);
      if (user, id) in alerts {
        r := r + [alerts[(user, id)]];
        count := count + 1;
      }
      id := id + 1;
    }
    ScanDone(alerts, user, id, limit);
  }

  /** Every unresolved alert under a scanned id is among those the scan lists. */
  lemma UnresolvedListed(alerts: AlertStore, user: Address, n: nat, k: nat)
    requires 1 <= k <= n && (user, k) in alerts && !alerts[(user, k)].isResolved
    ensures alerts[(user, k)] in AlertsAt(alerts, user, UnresolvedIdsOf(alerts, user, n))
  {
    var ids := UnresolvedIdsOf(alerts, user, n);
    var i :| 0 <= i < |ids| && ids[i] == k;
    assert AlertsAt(alerts, user, ids)[i] == alerts[(user, k)];
  }

  /** `get_unresolved_alerts`: the user's unresolved alerts among ids 1 to 50, in id order. */
  function GetUnresolvedAlerts(alerts: AlertStore, user: Address): (r: seq<Alert>)
    ensures r == AlertsAt(alerts, user, UnresolvedIdsOf(alerts, user, MAX_ALERT_SCAN))
    ensures forall i :: 0 <= i < |r| ==> !r[i].isResolved
    ensures forall k :: 1 <= k <= MAX_ALERT_SCAN && (user, k) in alerts && !alerts[(user, k)].isResolved
              ==> alerts[(user, k)] in r
  {
    forall k | 1 <= k <= MAX_ALERT_SCAN && (user, k) in alerts && !alerts[(user, k)].isResolved
      ensures alerts[(user, k)] in AlertsAt(alerts, user, UnresolvedIdsOf(alerts, user, MAX_ALERT_SCAN))
    {
      UnresolvedListed(alerts, user, MAX_ALERT_SCAN, k);
    }
    AlertsAt(alerts, user, UnresolvedIdsOf(alerts, user, MAX_ALERT_SCAN))
  }

  /** `store_alert_rule`: keyed by the rule's own id. */
  function StoreAlertRule(rules: map<nat, AlertRule>, rule: AlertRule): (r: map<nat, AlertRule>)
    ensures rule.ruleId in r && r[rule.ruleId] == rule
    ensures forall id :: id != rule.ruleId ==> (id in r <==> id in rules)
    ensures forall id :: id != rule.ruleId && id in rules ==> r[id] == rules[id]
  {
    rules[rule.ruleId := rule]
  }

  /** The ids in `1..n` under which an enabled rule is stored, ascending. */
  function EnabledRuleIds(rules: map<nat, AlertRule>, n: nat): (ids: seq<nat>)
    ensures forall i :: 0 <= i < |ids| ==> 1 <= ids[i] <= n && ids[i] in rules && rules[ids[i]].isEnabled
    ensures forall i, j :: 0 <= i < j < |ids| ==> ids[i] < ids[j]
    ensures forall k :: 1 <= k <= n && k in rules && rules[k].isEnabled ==> k in ids
    ensures |ids| <= n
  {
    if n == 0 then []
    else EnabledRuleIds(rules, n - 1) + (if n in rules && rules[n].isEnabled then [n] else [])
  }

  /** Rules stored beyond the scanned ids do not change what the scan returns. */
  lemma {:induction false} EnabledRuleIdsIgnoreLaterIds(rules: map<nat, AlertRule>, rule: AlertRule, n: nat)
    requires rule.ruleId > n
    ensures EnabledRuleIds(rules[rule.ruleId := rule], n) == EnabledRuleIds(rules, n)
  {
    if n > 0 {
      var rules' := rules[rule.ruleId := rule];
      EnabledRuleIdsIgnoreLaterIds(rules, rule, n - 1);
      assert n in rules' <==> n in rules;
      assert n in rules ==> rules'[n] == rules[n];
      assert EnabledRuleIds(rules', n)
          == EnabledRuleIds(rules', n - 1) + (if n in rules' && rules'[n].isEnabled then [n] else []);
    }
  }

  /** The rules under the given ids, in order. */
  function RulesAt(rules: map<nat, AlertRule>, ids: seq<nat>): (r: seq<AlertRule>)
    requires forall i :: 0 <= i < |ids| ==> ids[i] in rules
    ensures |r| == |ids|
    ensures forall i :: 0 <= i < |ids| ==> r[i] == rules[ids[i]]
  {
    seq(|ids|, i requires 0 <= i < |ids| => rules[ids[i]])
  }

  /** Every enabled rule under a scanned id is among those the scan lists. */
  lemma EnabledRuleListed(rules: map<nat, AlertRule>, n: nat, k: nat)
    requires 1 <= k <= n && k in rules && rules[k].isEnabled
    ensures rules[k] in RulesAt(rules, EnabledRuleIds(rules, n))
  {
    var ids := EnabledRuleIds(rules, n);
    var i :| 0 <= i < |ids| && ids[i] == k;
    assert RulesAt(rules, ids)[i] == rules[k];
  }

  /** `get_all_alert_rules`: the enabled rules stored under ids 1 to 20, in id order. */
  function GetAllAlertRules(rules: map<nat, AlertRule>): (r: seq<AlertRule>)
    ensures r == RulesAt(rules, EnabledRuleIds(rules, MAX_RULE_SCAN))
    ensures |r| <= MAX_RULE_SCAN
    ensures forall i :: 0 <= i < |r| ==> r[i].isEnabled
    ensures forall k :: 1 <= k <= MAX_RULE_SCAN && k in rules && rules[k].isEnabled ==> rules[k] in r
  {
    forall k | 1 <= k <= MAX_RULE_SCAN && k in rules && rules[k].isEnabled
      ensures rules[k] in RulesAt(rules, EnabledRuleIds(rules, MAX_RULE_SCAN))
    {
      EnabledRuleListed(rules, MAX_RULE_SCAN, k);
    }
    RulesAt(rules, EnabledRuleIds(rules, MAX_RULE_SCAN))
  }

  /** A rule stored under a scanned id by its constructor is listed; one with a later id is not. */
  lemma StoredRuleListed(rules: map<nat, AlertRule>, rule: AlertRule)
    requires rule.isEnabled
    ensures 1 <= rule.ruleId <= MAX_RULE_SCAN ==> rule in GetAllAlertRules(StoreAlertRule(rules, rule))
    ensures rule.ruleId > MAX_RULE_SCAN ==> GetAllAlertRules(StoreAlertRule(rules, rule)) == GetAllAlertRules(rules)
  {
    if rule.ruleId > MAX_RULE_SCAN {
      EnabledRuleIdsIgnoreLaterIds(rules, rule, MAX_RULE_SCAN);
    }
  }
}
