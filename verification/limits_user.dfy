/**
 * Per-user spending limits of the security-limits contract: a daily and a
 * monthly window, each with a limit and the amount spent in it. Amounts are
 * signed 128-bit values in the contract and are modelled as `int`.
 */
module SpendingLimits {
  import opened Common

  /** Length of the daily window in seconds. */
  const ONE_DAY: nat := 86400
  /** Length of the monthly window in seconds (30.44 days). */
  const ONE_MONTH: nat := 2629746
  /** Limits of a user who never set any (1000 and 10000 units with 7 decimals). */
  const DEFAULT_DAILY_LIMIT: int := 1000_0000000
  const DEFAULT_MONTHLY_LIMIT: int := 10000_0000000

  datatype UserLimits = UserLimits(
    dailyLimit: int,
    monthlyLimit: int,
    dailySpent: int,
    monthlySpent: int,
    lastDailyReset: nat,
    lastMonthlyReset: nat,
    isActive: bool)

  /** The audit record of an accepted transaction. */
  datatype TransactionAttempt = TransactionAttempt(user: Address, amount: int, timestamp: nat, transactionHash: seq<bv8>)

  /** `UserLimits::default`: the default limits, nothing spent, windows anchored at time 0. */
  function DefaultLimits(): (l: UserLimits)
    ensures l.dailyLimit == 1000_0000000 && l.monthlyLimit == 10000_0000000
    ensures l.dailySpent == 0 && l.monthlySpent == 0
    ensures l.lastDailyReset == 0 && l.lastMonthlyReset == 0 && l.isActive
  {
    UserLimits(DEFAULT_DAILY_LIMIT, DEFAULT_MONTHLY_LIMIT, 0, 0, 0, 0, true)
  }

  /** `UserLimits::new`: the given limits, nothing spent, both windows starting now. */
  function NewLimits(dailyLimit: int, monthlyLimit: int, now: nat): (l: UserLimits)
    ensures l.dailyLimit == dailyLimit && l.monthlyLimit == monthlyLimit
    ensures l.dailySpent == 0 && l.monthlySpent == 0
    ensures l.lastDailyReset == now && l.lastMonthlyReset == now && l.isActive
  {
    UserLimits(dailyLimit, monthlyLimit, 0, 0, now, now, true)
  }

  /** `reset_daily_if_needed`: a day after the last reset, the daily window restarts now. */
  function ResetDailyIfNeeded(l: UserLimits, now: nat): (r: (bool, UserLimits))
    ensures r.0 <==> now >= l.lastDailyReset + ONE_DAY
    ensures r.0 ==> r.1 == l.(dailySpent := 0, lastDailyReset := now)
    ensures !r.0 ==> r.1 == l
  {
    if now >= l.lastDailyReset + ONE_DAY then (true, l.(dailySpent := 0, lastDailyReset := now))
    else (false, l)
  }

  /** `reset_monthly_if_needed`: the same with the monthly window. */
  function ResetMonthlyIfNeeded(l: UserLimits, now: nat): (r: (bool, UserLimits))
    ensures r.0 <==> now >= l.lastMonthlyReset + ONE_MONTH
    ensures r.0 ==> r.1 == l.(monthlySpent := 0, lastMonthlyReset := now)
    ensures !r.0 ==> r.1 == l
  {
    if now >= l.lastMonthlyReset + ONE_MONTH then (true, l.(monthlySpent := 0, lastMonthlyReset := now))
    else (false, l)
  }

  /** Both window resets, daily first, as every entry point applies them. */
  function ResetWindows(l: UserLimits, now: nat): (r: UserLimits)
    ensures r.dailyLimit == l.dailyLimit && r.monthlyLimit == l.monthlyLimit && r.isActive == l.isActive
    ensures r.dailySpent == (if now >= l.lastDailyReset + ONE_DAY then 0 else l.dailySpent)
    ensures r.monthlySpent == (if now >= l.lastMonthlyReset + ONE_MONTH then 0 else l.monthlySpent)
  {
    ResetMonthlyIfNeeded(ResetDailyIfNeeded(l, now).1, now).1
  }

  /** Resetting twice at the same time is resetting once. */
  lemma ResetWindowsIdempotent(l: UserLimits, now: nat)
    ensures ResetWindows(ResetWindows(l, now), now) == ResetWindows(l, now)
  {
  }

  /** `can_spend`: active, and the amount fits both windows, bounds included. */
  predicate CanSpend(l: UserLimits, amount: int) {
    l.isActive && l.dailySpent + amount <= l.dailyLimit && l.monthlySpent + amount <= l.monthlyLimit
  }

  /** `add_spending`: the amount counts against both windows. */
  function AddSpending(l: UserLimits, amount: int): (r: UserLimits)
    ensures r.dailySpent == l.dailySpent + amount && r.monthlySpent == l.monthlySpent + amount
    ensures r == l.(dailySpent := r.dailySpent, monthlySpent := r.monthlySpent)
  {
    l.(dailySpent := l.dailySpent + amount, monthlySpent := l.monthlySpent + amount)
  }

  /** `get_remaining_daily`: what is left of the daily limit, never negative. */
  function RemainingDaily(l: UserLimits): (r: int)
    ensures r >= 0
    ensures r >= l.dailyLimit - l.dailySpent
    ensures l.dailySpent <= l.dailyLimit ==> l.dailySpent + r == l.dailyLimit
  {
    Max(l.dailyLimit - l.dailySpent, 0)
  }

  /** `get_remaining_monthly`: what is left of the monthly limit, never negative. */
  function RemainingMonthly(l: UserLimits): (r: int)
    ensures r >= 0
    ensures r >= l.monthlyLimit - l.monthlySpent
    ensures l.monthlySpent <= l.monthlyLimit ==> l.monthlySpent + r == l.monthlyLimit
  {
    Max(l.monthlyLimit - l.monthlySpent, 0)
  }

  /**
   * `can_spend` of a positive amount holds exactly when it fits what remains
   * in both windows; an amount of 0 is refused once a window is overspent.
   */
  lemma CanSpendWithinRemaining(l: UserLimits, amount: int)
    requires amount > 0
    ensures CanSpend(l, amount) <==> l.isActive && amount <= RemainingDaily(l) && amount <= RemainingMonthly(l)
  {
  }

  /** An admitted, recorded spend lowers both remainders by exactly its amount. */
  lemma SpendLowersRemaining(l: UserLimits, amount: int)
    requires amount >= 0 && CanSpend(l, amount)
    ensures RemainingDaily(AddSpending(l, amount)) == RemainingDaily(l) - amount
    ensures RemainingMonthly(AddSpending(l, amount)) == RemainingMonthly(l) - amount
    ensures CanSpend(AddSpending(l, amount), 0)
  {
  }

  /** Spends of `amount` recorded `k` times against fresh limits. */
  function SpendRepeatedly(l: UserLimits, amount: int, k: nat): (r: UserLimits)
    ensures r.dailySpent == l.dailySpent + k * amount && r.monthlySpent == l.monthlySpent + k * amount
    ensures r.dailyLimit == l.dailyLimit && r.monthlyLimit == l.monthlyLimit && r.isActive == l.isActive
  {
    if k == 0 then l else AddSpending(SpendRepeatedly(l, amount, k - 1), amount)
  }

  /**
   * The bound is inclusive: ten spends of 100 fit a daily limit of 1000,
   * each one admitted, and an eleventh is refused.
   */
  lemma TenSpendsFillTheDay(now: nat)
    ensures forall k :: 0 <= k < 10 ==> CanSpend(SpendRepeatedly(NewLimits(1000, 10000, now), 100, k), 100)
    ensures !CanSpend(SpendRepeatedly(NewLimits(1000, 10000, now), 100, 10), 100)
  {
  }

  /** A disabled user can spend nothing, not even zero. */
  lemma InactiveCannotSpend(l: UserLimits, amount: int)
    requires !l.isActive
    ensures !CanSpend(l, amount)
  {
  }
}
