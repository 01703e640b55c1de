/**
 * Parameter checks and funding arithmetic of the recurring-payment
 * contract. The payer's token balance is a parameter: the token contract
 * that reports it is not part of this model.
 */
module PaymentValidation {
  import opened Common
  import opened Wrappers
  import opened PaymentSchedules
  import opened Seqs

  /** Payments an open-ended schedule must fund up front. */
  const INDEFINITE_PREFUND_PAYMENTS: nat := 3
  /** Failed transfer attempts after which a schedule stops retrying. */
  const MAX_FAILED_ATTEMPTS: nat := 3

  /** `validate_schedule_params`: amount, distinct parties, start, then end. */
  function ValidateScheduleParams(payer: Address, recipient: Address, amount: nat, start: nat, end: Option<nat>, now: nat)
    : (r: Outcome<ContractError>)
    ensures amount == 0 ==> r == Fail(InvalidAmount)
    ensures amount > 0 && payer == recipient ==> r == Fail(InvalidInput)
    ensures amount > 0 && payer != recipient && start < now ==> r == Fail(InvalidStartTime)
    ensures amount > 0 && payer != recipient && start >= now && end.Some? && end.value <= start
            ==> r == Fail(InvalidEndTime)
    ensures r == Pass <==>
      amount > 0 && payer != recipient && now <= start && (end.Some? ==> start < end.value)
  {
    if amount == 0 then Fail(InvalidAmount)
    else if payer == recipient then Fail(InvalidInput)
    else if start < now then Fail(InvalidStartTime)
    else if end.Some? && end.value <= start then Fail(InvalidEndTime)
    else Pass
  }

  /** `validate_funds`, on the balance the token contract reports for the payer. */
  function ValidateFunds(payerBalance: int, required: nat): (r: Outcome<ContractError>)
    ensures r == Pass <==> payerBalance >= required
    ensures r.Fail? ==> r.error == InsufficientBalance
  {
    if payerBalance < required then Fail(InsufficientBalance) else Pass
  }

  /**
   * `calculate_required_funds`: one payment per whole period between start
   * and end, at least one; three payments for an open-ended schedule.
   */
  function CalculateRequiredFunds(f: PaymentFrequency, amount: nat, start: nat, end: Option<nat>): (r: nat)
    ensures r >= amount
    ensures end.None? ==> r == amount * 3
    ensures end.Some? && end.value < start + Interval(f) ==> r == amount
  {
    match end
    case None => amount * INDEFINITE_PREFUND_PAYMENTS
    case Some(e) =>
      var periods := SatSub(e, start) / Interval(f);
      var funded := Max(periods, 1);
      MulAtLeastOne(amount, funded);
      amount * funded
  }

  lemma MulAtLeastOne(a: nat, k: nat)
    requires k >= 1
    ensures a * k >= a
  {
  }

  /** Payment times `start`, `start + I`, … that fall on or before `end`. */
  function DueTimesWithin(f: PaymentFrequency, start: nat, end: nat): nat {
    SatSub(end, start) / Interval(f) + 1
  }

  /** `DueTimesWithin` counts exactly the period multiples that fit. */
  lemma DueTimesCharacterized(f: PaymentFrequency, start: nat, end: nat)
    requires start <= end
    ensures var k := DueTimesWithin(f, start, end);
      start + (k - 1) * Interval(f) <= end < start + k * Interval(f)
  {
    var d := end - start;
    var i := Interval(f);
    var q := d / i;
    assert d == q * i + d % i;
    assert (q + 1) * i == q * i + i;
  }

  /**
   * With an end time at least one period after the start, the prefunding
   * covers one payment fewer than the schedule has due times in
   * `[start, end]`: the first payment is not counted.
   */
  lemma RequiredFundsOmitFirstPayment(f: PaymentFrequency, amount: nat, start: nat, end: nat)
    requires end >= start + Interval(f)
    ensures CalculateRequiredFunds(f, amount, start, Some(end)) == amount * (DueTimesWithin(f, start, end) - 1)
  {
    var i := Interval(f);
    var d := end - start;
    DivLowerBound(d, i, 1);
  }

  /** A week of daily payments is funded with seven payments, with no extra first payment. */
  lemma WeekOfDailyPayments(amount: nat, start: nat)
    ensures CalculateRequiredFunds(Daily, amount, start, Some(start + 7 * 86400)) == 7 * amount
    ensures DueTimesWithin(Daily, start, start + 7 * 86400) == 8
  {
  }

  /** The time the next payment of a schedule is due: its start for the first one. */
  function DueTime(s: PaymentSchedule): nat {
    if s.paymentCount == 0 then s.startTime else s.nextPaymentTime
  }

  /** `can_execute_payment`: funded, due, and not past the end time. */
  function CanExecutePayment(s: PaymentSchedule, now: nat): (r: bool)
    ensures s.balance < s.amount ==> !r
    ensures s.paymentCount == 0 && now < s.startTime ==> !r
    ensures s.paymentCount > 0 && now < s.nextPaymentTime ==> !r
    ensures s.endTime.Some? && now > s.endTime.value ==> !r
    ensures r <==> s.balance >= s.amount && DueTime(s) <= now && (s.endTime.Some? ==> now <= s.endTime.value)
  {
    if s.balance < s.amount then false
    else if s.paymentCount == 0 && now < s.startTime then false
    else if s.paymentCount != 0 && now < s.nextPaymentTime then false
    else if s.endTime.Some? && now > s.endTime.value then false
    else true
  }

  /** Once payable, a schedule stays payable until its end time, as long as nothing else changes. */
  lemma PayableUntilEnd(s: PaymentSchedule, t1: nat, t2: nat)
    requires CanExecutePayment(s, t1) && t1 <= t2
    requires s.endTime.Some? ==> t2 <= s.endTime.value
    ensures CanExecutePayment(s, t2)
  {
  }

  /** `should_retry_payment`: fewer than three failed attempts. */
  function ShouldRetryPayment(failedAttempts: nat): (r: bool)
    ensures r <==> failedAttempts < 3
    ensures failedAttempts >= MAX_FAILED_ATTEMPTS ==> !r
  {
    failedAttempts < MAX_FAILED_ATTEMPTS
  }
}
