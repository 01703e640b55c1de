/**
 * The node registry of the price oracle: each data source's stake,
 * reputation and eligibility, and the fixed-window submission rate limiter.
 */
module OracleNodes {
  import opened Common
  import opened Wrappers
  import opened OraclePrices
  import Seqs

  /** Minimum stake, 1000 XLM in stroops. */
  const MIN_STAKE_AMOUNT: nat := 1000_0000000
  const MIN_REPUTATION_SCORE: nat := 70
  const MAX_SUBMISSIONS_PER_HOUR: nat := 60
  /** Length of one rate-limit window, in seconds. */
  const RATE_LIMIT_WINDOW: nat := 3600
  /** Seven days: a node silent for longer has a stale reputation. */
  const REPUTATION_DECAY_TIME: nat := 86400 * 7
  /** Below this many judged submissions the score stays at 100. */
  const MIN_SUBMISSIONS_FOR_REPUTATION: nat := 10

  datatype OracleNode = OracleNode(
    address: Address,
    reputationScore: nat,
    totalSubmissions: nat,
    accurateSubmissions: nat,
    lastSubmissionTime: nat,
    isActive: bool,
    stakeAmount: nat,
    registeredTime: nat)

  datatype NodeRegistration = NodeRegistration(nodeAddress: Address, stakeAmount: nat, metadata: Symbol)

  datatype RateLimitInfo = RateLimitInfo(
    nodeAddress: Address,
    submissionCount: nat,
    windowStart: nat,
    lastSubmission: nat)

  /** The two maps the registry owns, keyed by node address. */
  datatype Registry = Registry(nodes: map<Address, OracleNode>, rateLimits: map<Address, RateLimitInfo>)

  /** The counts are coherent and the stored score is the one they determine. */
  predicate ReputationConsistent(n: OracleNode) {
    n.accurateSubmissions <= n.totalSubmissions && n.reputationScore == CalculateReputation(n)
  }

  /**
   * `calculate_reputation`: 100 until ten submissions have been judged, then
   * the floor percentage of accurate ones, capped at 100.
   */
  function CalculateReputation(n: OracleNode): (r: nat)
    ensures n.totalSubmissions < MIN_SUBMISSIONS_FOR_REPUTATION ==> r == 100
    ensures n.accurateSubmissions <= n.totalSubmissions ==> r <= 100
    ensures MIN_SUBMISSIONS_FOR_REPUTATION <= n.totalSubmissions && n.accurateSubmissions <= n.totalSubmissions ==>
              r * n.totalSubmissions <= n.accurateSubmissions * 100 < (r + 1) * n.totalSubmissions
  {
    if n.totalSubmissions < MIN_SUBMISSIONS_FOR_REPUTATION then 100
    else
      var a := n.accurateSubmissions * 100;
      var t := n.totalSubmissions;
      assert a == (a / t) * t + a % t;
      if n.accurateSubmissions <= t then
        Seqs.DivUpperBound(a, t, 100);
        a / t
      else
        Min(100, a / t)
  }

  /** `OracleNode::new`: a fresh, active node with a perfect score. */
  function NewNode(address: Address, stake: nat, now: nat): (n: OracleNode)
    ensures n.address == address && n.stakeAmount == stake && n.registeredTime == now
    ensures n.reputationScore == 100 && n.totalSubmissions == 0 && n.accurateSubmissions == 0
    ensures n.isActive && n.lastSubmissionTime == 0
    ensures ReputationConsistent(n)
    ensures IsEligible(n, now) <==> stake >= MIN_STAKE_AMOUNT && now <= REPUTATION_DECAY_TIME
  {
    OracleNode(address, 100, 0, 0, 0, true, stake, now)
  }

  /** `update_reputation`: one more judged submission, then the score is recomputed. */
  function UpdateReputation(n: OracleNode, wasAccurate: bool): (m: OracleNode)
    ensures m.totalSubmissions == n.totalSubmissions + 1
    ensures m.accurateSubmissions == n.accurateSubmissions + (if wasAccurate then 1 else 0)
    ensures n.accurateSubmissions <= n.totalSubmissions ==> ReputationConsistent(m) && m.reputationScore <= 100
    ensures m.address == n.address && m.stakeAmount == n.stakeAmount && m.isActive == n.isActive
    ensures m.lastSubmissionTime == n.lastSubmissionTime && m.registeredTime == n.registeredTime
  {
    var counted := n.(totalSubmissions := n.totalSubmissions + 1,
                      accurateSubmissions := n.accurateSubmissions + (if wasAccurate then 1 else 0));
    counted.(reputationScore := CalculateReputation(counted))
  }

  /** No submission for more than seven days. */
  predicate IsReputationStale(n: OracleNode, now: nat) {
    SatSub(now, n.lastSubmissionTime) > REPUTATION_DECAY_TIME
  }

  predicate IsEligible(n: OracleNode, now: nat) {
    n.isActive
    && n.stakeAmount >= MIN_STAKE_AMOUNT
    && n.reputationScore >= MIN_REPUTATION_SCORE
    && !IsReputationStale(n, now)
  }

  /** Eligibility in closed form; in particular a node below the minimum stake never is. */
  lemma EligibilityCharacterized(n: OracleNode, now: nat)
    ensures IsEligible(n, now) <==>
      n.isActive && n.stakeAmount >= 1000_0000000 && n.reputationScore >= 70
      && now <= n.lastSubmissionTime + 604800
    ensures n.stakeAmount < MIN_STAKE_AMOUNT ==> !IsEligible(n, now)
  {
  }

  /**
   * A node whose last submission time is still 0 (nothing ever writes it
   * after registration) is ineligible once the ledger clock passes seven days.
   */
  lemma NeverStampedNodeDecays(n: OracleNode, now: nat)
    requires n.lastSubmissionTime == 0 && now > REPUTATION_DECAY_TIME
    ensures IsReputationStale(n, now)
    ensures !IsEligible(n, now)
  {
  }

  /** `can_submit`: an expired window always admits, otherwise the count must be below 60. */
  predicate CanSubmit(n: OracleNode, rl: RateLimitInfo, now: nat) {
    SatSub(now, rl.windowStart) >= RATE_LIMIT_WINDOW || rl.submissionCount < MAX_SUBMISSIONS_PER_HOUR
  }

  /** `RateLimitInfo::new`: an empty window starting now. */
  function NewRateLimit(address: Address, now: nat): (rl: RateLimitInfo)
    ensures rl.nodeAddress == address && rl.submissionCount == 0
    ensures rl.windowStart == now && rl.lastSubmission == 0
  {
    RateLimitInfo(address, 0, now, 0)
  }

  /**
   * `record_submission`: restart an expired window, refuse a full one,
   * otherwise count the submission. Returns whether it was admitted and the
   * new record.
   */
  function RecordSubmission(rl: RateLimitInfo, now: nat): (r: (bool, RateLimitInfo))
    ensures r.1.nodeAddress == rl.nodeAddress
    ensures !r.0 ==> r.1 == rl && rl.submissionCount >= MAX_SUBMISSIONS_PER_HOUR
    ensures r.0 ==> r.1.lastSubmission == now
    ensures r.0 && now < rl.windowStart + RATE_LIMIT_WINDOW ==>
              r.1.submissionCount == rl.submissionCount + 1 && r.1.windowStart == rl.windowStart
    ensures now >= rl.windowStart + RATE_LIMIT_WINDOW ==>
              r.0 && r.1.submissionCount == 1 && r.1.windowStart == now
    ensures rl.submissionCount <= MAX_SUBMISSIONS_PER_HOUR ==> r.1.submissionCount <= MAX_SUBMISSIONS_PER_HOUR
  {
    var current := if SatSub(now, rl.windowStart) >= RATE_LIMIT_WINDOW
                   then rl.(windowStart := now, submissionCount := 0)
                   else rl;
    if current.submissionCount >= MAX_SUBMISSIONS_PER_HOUR then (false, rl)
    else (true, current.(submissionCount := current.submissionCount + 1, lastSubmission := now))
  }

  /** `can_submit` answers exactly what `record_submission` would do at the same time. */
  lemma CanSubmitPredictsRecord(n: OracleNode, rl: RateLimitInfo, now: nat)
    ensures CanSubmit(n, rl, now) <==> RecordSubmission(rl, now).0
  {
  }

  /** Feeds a run of submission times through the limiter; returns how many were admitted. */
  function RecordAll(rl: RateLimitInfo, times: seq<nat>): (r: (nat, RateLimitInfo))
    ensures r.0 <= |times|
    decreases |times|
  {
    if |times| == 0 then (0, rl)
    else
      var step := RecordSubmission(rl, times[0]);
      var rest := RecordAll(step.1, times[1..]);
      ((if step.0 then 1 else 0) + rest.0, rest.1)
  }

  /**
   * Within one window the limiter admits exactly as many submissions as the
   * window has room for, and never more than 60 in total.
   */
  lemma {:induction false} WindowAdmitsRemainingRoom(rl: RateLimitInfo, times: seq<nat>)
    requires rl.submissionCount <= MAX_SUBMISSIONS_PER_HOUR
    requires forall i :: 0 <= i < |times| ==> times[i] < rl.windowStart + RATE_LIMIT_WINDOW
    ensures RecordAll(rl, times).0 == Min(|times|, MAX_SUBMISSIONS_PER_HOUR - rl.submissionCount)
    ensures RecordAll(rl, times).1.submissionCount == rl.submissionCount + RecordAll(rl, times).0
    ensures RecordAll(rl, times).1.windowStart == rl.windowStart
    decreases |times|
  {
    if |times| > 0 {
      var step := RecordSubmission(rl, times[0]);
      WindowAdmitsRemainingRoom(step.1, times[1..]);
    }
  }

  /**
   * The rate-limit test: a freshly registered node gets 60 submissions
   * admitted at one instant, the 61st is refused, and the first one in the
   * next window is admitted again.
   */
  lemma SixtyFirstSubmissionRefused(address: Address, t: nat)
    ensures var full := RecordAll(NewRateLimit(address, t), seq(60, _ => t));
            full.0 == 60
            && !RecordSubmission(full.1, t).0
            && RecordSubmission(full.1, t + RATE_LIMIT_WINDOW).0
  {
    WindowAdmitsRemainingRoom(NewRateLimit(address, t), seq(60, _ => t));
  }

  /** `slash_stake`: saturating stake reduction; dropping below the minimum deactivates. */
  function SlashStake(n: OracleNode, amount: nat): (m: OracleNode)
    ensures m.stakeAmount == SatSub(n.stakeAmount, amount)
    ensures m.stakeAmount < MIN_STAKE_AMOUNT ==> !m.isActive
    ensures m.isActive ==> n.isActive
    ensures m.stakeAmount >= MIN_STAKE_AMOUNT ==> m.isActive == n.isActive
    ensures m.address == n.address && m.reputationScore == n.reputationScore
    ensures m.totalSubmissions == n.totalSubmissions && m.accurateSubmissions == n.accurateSubmissions
    ensures m.lastSubmissionTime == n.lastSubmissionTime && m.registeredTime == n.registeredTime
  {
    var reduced := n.(stakeAmount := SatSub(n.stakeAmount, amount));
    if reduced.stakeAmount < MIN_STAKE_AMOUNT then reduced.(isActive := false) else reduced
  }

  /**
   * `register_node`: refuses a known address first, then a stake below the
   * minimum; otherwise adds one fresh node and one fresh rate-limit record.
   */
  function RegisterNode(reg: Registry, registration: NodeRegistration, now: nat): (r: Result<Registry, OracleError>)
    ensures registration.nodeAddress in reg.nodes ==> r == Err(NodeAlreadyRegistered)
    ensures registration.nodeAddress !in reg.nodes && registration.stakeAmount < MIN_STAKE_AMOUNT ==>
              r == Err(InsufficientStake)
    ensures r.Ok? <==> registration.nodeAddress !in reg.nodes && registration.stakeAmount >= MIN_STAKE_AMOUNT
    ensures r.Ok? ==>
              var a := registration.nodeAddress;
              && r.value.nodes.Keys == reg.nodes.Keys + {a}
              && r.value.rateLimits.Keys == reg.rateLimits.Keys + {a}
              && r.value.nodes[a] == NewNode(a, registration.stakeAmount, now)
              && r.value.rateLimits[a] == NewRateLimit(a, now)
              && (forall b :: b in reg.nodes ==> r.value.nodes[b] == reg.nodes[b])
              && (forall b :: b in reg.rateLimits && b != a ==> r.value.rateLimits[b] == reg.rateLimits[b])
  {
    var a := registration.nodeAddress;
    if a in reg.nodes then Err(NodeAlreadyRegistered)
    else if registration.stakeAmount < MIN_STAKE_AMOUNT then Err(InsufficientStake)
    else Ok(Registry(reg.nodes[a := NewNode(a, registration.stakeAmount, now)],
                     reg.rateLimits[a := NewRateLimit(a, now)]))
  }

  /** `deactivate_node`: clears the active flag of a known node and touches nothing else. */
  function DeactivateNode(nodes: map<Address, OracleNode>, a: Address): (r: Result<map<Address, OracleNode>, OracleError>)
    ensures a !in nodes <==> r == Err(NodeNotFound)
    ensures r.Ok? ==>
              && r.value.Keys == nodes.Keys
              && r.value[a] == nodes[a].(isActive := false)
              && (forall b :: b in nodes && b != a ==> r.value[b] == nodes[b])
    ensures r.Ok? ==> forall t :: !IsEligible(r.value[a], t)
  {
    if a in nodes then Ok(nodes[a := nodes[a].(isActive := false)]) else Err(NodeNotFound)
  }

  /** `get_eligible_nodes`: every registered node that is eligible at `now`, and no other. */
  method GetEligibleNodes(nodes: map<Address, OracleNode>, now: nat) returns (eligible: set<Address>)
    ensures eligible <= nodes.Keys
    ensures forall a :: a in nodes ==> (a in eligible <==> IsEligible(nodes[a], now))
  {
    eligible := {};
    var remaining := nodes.Keys;
    while remaining != {}
      invariant remaining <= nodes.Keys
      invariant eligible <= nodes.Keys - remaining
      invariant forall a :: a in nodes.Keys - remaining ==> (a in eligible <==> IsEligible(nodes[a], now))
      decreases remaining
    {
      var a :| a in remaining;
      if IsEligible(nodes[a], now) {
        eligible := eligible + {a};
      }
      remaining := remaining - {a};
    }
  }
}
