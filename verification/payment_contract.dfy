/**
 * The recurring-payment contract's lifecycle over an explicit storage
 * record. Token movements are recorded in a log instead of being
 * performed: a deposit into escrow, a payment to the recipient, or a refund
 * to the payer, each tagged with its schedule. Whether the token contract
 * accepts a payment, and the payer's reported balance, are parameters.
 */
module PaymentContract {
  import opened Common
  import opened Wrappers
  import opened Seqs
  import opened PaymentSchedules
  import opened PaymentValidation

  datatype TransferKind = DepositKind | PaymentKind | RefundKind

  /** One token movement between a party and the contract's escrow. */
  datatype Transfer =
    | Deposit(scheduleId: nat, from: Address, amount: nat)
    | Payment(scheduleId: nat, to: Address, amount: nat)
    | Refund(scheduleId: nat, to: Address, amount: nat)
  {
    function Kind(): TransferKind {
      match this
      case Deposit(_, _, _) => DepositKind
      case Payment(_, _, _) => PaymentKind
      case Refund(_, _, _) => RefundKind
    }
  }

  datatype PaymentState = PaymentState(store: ScheduleStore, transfers: seq<Transfer>)

  /** The total of the transfers of one kind made for schedule `id`. */
  function MovedFor(log: seq<Transfer>, id: nat, k: TransferKind): nat
    decreases |log|
  {
    if |log| == 0 then 0
    else
      var t := log[|log| - 1];
      MovedFor(log[..|log| - 1], id, k) + (if t.scheduleId == id && t.Kind() == k then t.amount else 0)
  }

  lemma {:induction false} MovedForAppend(log: seq<Transfer>, extra: seq<Transfer>, id: nat, k: TransferKind)
    ensures MovedFor(log + extra, id, k) == MovedFor(log, id, k) + MovedFor(extra, id, k)
    decreases |extra|
  {
    if |extra| == 0 {
      assert log + extra == log;
    } else {
      var init := extra[..|extra| - 1];
      assert (log + extra)[..|log + extra| - 1] == log + init;
      MovedForAppend(log, init, id, k);
    }
  }

  lemma {:induction false} MovedForOthers(log: seq<Transfer>, id: nat, k: TransferKind)
    requires forall i :: 0 <= i < |log| ==> log[i].scheduleId != id
    ensures MovedFor(log, id, k) == 0
    decreases |log|
  {
    if |log| > 0 {
      MovedForOthers(log[..|log| - 1], id, k);
    }
  }

  /**
   * The escrow account of every schedule balances: what was deposited for
   * it equals its balance plus what was paid out and refunded, and what was
   * paid out is its `totalPaid`. Every logged transfer belongs to a stored
   * schedule, and every schedule sits under the id the counter issued.
   */
  ghost predicate Escrowed(st: PaymentState) {
    && IdsIssued(st.store)
    && (forall i :: 0 <= i < |st.transfers| ==> st.transfers[i].scheduleId in st.store.schedules)
    && (forall id :: id in st.store.schedules ==>
          MovedFor(st.transfers, id, DepositKind)
          == st.store.schedules[id].balance + MovedFor(st.transfers, id, PaymentKind)
             + MovedFor(st.transfers, id, RefundKind))
    && (forall id :: id in st.store.schedules ==>
          MovedFor(st.transfers, id, PaymentKind) == st.store.schedules[id].totalPaid)
  }

  function InitialState(): (st: PaymentState)
    ensures Escrowed(st)
  {
    PaymentState(EmptyStore(), [])
  }

  /**
   * A step that rewrites or adds schedule `sid` and logs `extra`, all for
   * `sid`, keeps the escrow balanced when the schedule's balance and total
   * move exactly with the logged amounts.
   */
  lemma EscrowStep(st: PaymentState, st': PaymentState, sid: nat, extra: seq<Transfer>)
    requires Escrowed(st)
    requires IdsIssued(st'.store)
    requires st'.transfers == st.transfers + extra
    requires forall i :: 0 <= i < |extra| ==> extra[i].scheduleId == sid
    requires sid in st'.store.schedules
    requires forall id :: id != sid ==> (id in st'.store.schedules <==> id in st.store.schedules)
    requires forall id :: id != sid && id in st.store.schedules ==> st'.store.schedules[id] == st.store.schedules[id]
    requires var before := if sid in st.store.schedules then st.store.schedules[sid].balance else 0;
      st'.store.schedules[sid].balance + MovedFor(extra, sid, PaymentKind) + MovedFor(extra, sid, RefundKind)
      == before + MovedFor(extra, sid, DepositKind)
    requires var before := if sid in st.store.schedules then st.store.schedules[sid].totalPaid else 0;
      st'.store.schedules[sid].totalPaid == before + MovedFor(extra, sid, PaymentKind)
    ensures Escrowed(st')
  {
    LogStaysKeyed(st, st', sid, extra);
    forall id | id in st'.store.schedules
      ensures MovedFor(st'.transfers, id, DepositKind)
           == st'.store.schedules[id].balance + MovedFor(st'.transfers, id, PaymentKind)
              + MovedFor(st'.transfers, id, RefundKind)
      ensures MovedFor(st'.transfers, id, PaymentKind) == st'.store.schedules[id].totalPaid
    {
      if id == sid {
        EscrowStepAtTarget(st, st', sid, extra);
      } else {
        LedgerUntouched(st.transfers, extra, id);
      }
    }
  }

  /** The transfers logged by such a step all belong to stored schedules. */
  lemma LogStaysKeyed(st: PaymentState, st': PaymentState, sid: nat, extra: seq<Transfer>)
    requires forall i :: 0 <= i < |st.transfers| ==> st.transfers[i].scheduleId in st.store.schedules
    requires st'.transfers == st.transfers + extra
    requires forall i :: 0 <= i < |extra| ==> extra[i].scheduleId == sid
    requires sid in st'.store.schedules
    requires forall id :: id != sid ==> (id in st'.store.schedules <==> id in st.store.schedules)
    ensures forall i :: 0 <= i < |st'.transfers| ==> st'.transfers[i].scheduleId in st'.store.schedules
  {
    forall i | 0 <= i < |st'.transfers|
      ensures st'.transfers[i].scheduleId in st'.store.schedules
    {
      if i >= |st.transfers| {
        assert st'.transfers[i] == extra[i - |st.transfers|];
      } else {
        assert st'.transfers[i] == st.transfers[i];
      }
    }
  }

  /** The rewritten or added schedule balances after such a step. */
  lemma EscrowStepAtTarget(st: PaymentState, st': PaymentState, sid: nat, extra: seq<Transfer>)
    requires Escrowed(st)
    requires st'.transfers == st.transfers + extra
    requires sid in st'.store.schedules
    requires var before := if sid in st.store.schedules then st.store.schedules[sid].balance else 0;
      st'.store.schedules[sid].balance + MovedFor(extra, sid, PaymentKind) + MovedFor(extra, sid, RefundKind)
      == before + MovedFor(extra, sid, DepositKind)
    requires var before := if sid in st.store.schedules then st.store.schedules[sid].totalPaid else 0;
      st'.store.schedules[sid].totalPaid == before + MovedFor(extra, sid, PaymentKind)
    ensures MovedFor(st'.transfers, sid, DepositKind)
         == st'.store.schedules[sid].balance + MovedFor(st'.transfers, sid, PaymentKind)
            + MovedFor(st'.transfers, sid, RefundKind)
    ensures MovedFor(st'.transfers, sid, PaymentKind) == st'.store.schedules[sid].totalPaid
  {
    if sid !in st.store.schedules {
      MovedForOthers(st.transfers, sid, DepositKind);
      MovedForOthers(st.transfers, sid, PaymentKind);
      MovedForOthers(st.transfers, sid, RefundKind);
    }
    LedgerAppend(st.transfers, extra, sid);
  }

  /** Appending transfers adds their amounts to a schedule's three totals. */
  lemma LedgerAppend(log: seq<Transfer>, extra: seq<Transfer>, id: nat)
    ensures MovedFor(log + extra, id, DepositKind) == MovedFor(log, id, DepositKind) + MovedFor(extra, id, DepositKind)
    ensures MovedFor(log + extra, id, PaymentKind) == MovedFor(log, id, PaymentKind) + MovedFor(extra, id, PaymentKind)
    ensures MovedFor(log + extra, id, RefundKind) == MovedFor(log, id, RefundKind) + MovedFor(extra, id, RefundKind)
  {
    MovedForAppend(log, extra, id, DepositKind);
    MovedForAppend(log, extra, id, PaymentKind);
    MovedForAppend(log, extra, id, RefundKind);
  }

  /** Appending transfers of other schedules leaves a schedule's three totals as they were. */
  lemma LedgerUntouched(log: seq<Transfer>, extra: seq<Transfer>, id: nat)
    requires forall i :: 0 <= i < |extra| ==> extra[i].scheduleId != id
    ensures MovedFor(log + extra, id, DepositKind) == MovedFor(log, id, DepositKind)
    ensures MovedFor(log + extra, id, PaymentKind) == MovedFor(log, id, PaymentKind)
    ensures MovedFor(log + extra, id, RefundKind) == MovedFor(log, id, RefundKind)
  {
    LedgerAppend(log, extra, id);
    MovedForOthers(extra, id, DepositKind);
    MovedForOthers(extra, id, PaymentKind);
    MovedForOthers(extra, id, RefundKind);
  }

  /** `get_schedule`. */
  function GetSchedule(st: PaymentState, id: nat): (r: Result<PaymentSchedule, ContractError>)
    ensures r.Ok? <==> id in st.store.schedules
    ensures r.Ok? ==> r.value == st.store.schedules[id]
    ensures r.Err? ==> r.error == ScheduleNotFound
  {
    if id in st.store.schedules then Ok(st.store.schedules[id]) else Err(ScheduleNotFound)
  }

  /**
   * `create_schedule`: validates, checks the payer can fund the required
   * prefunding, issues an id, moves the funds into escrow and records the
   * schedule under both parties.
   */
  function CreateSchedule(st: PaymentState, payer: Address, recipient: Address, token: Address, amount: nat,
                          frequency: PaymentFrequency, start: nat, end: Option<nat>, payerBalance: int, now: nat)
    : (r: Result<(PaymentState, nat), ContractError>)
    ensures ValidateScheduleParams(payer, recipient, amount, start, end, now).Fail? ==>
      r == Err(ValidateScheduleParams(payer, recipient, amount, start, end, now).error)
    ensures (ValidateScheduleParams(payer, recipient, amount, start, end, now) == Pass
             && payerBalance < CalculateRequiredFunds(frequency, amount, start, end)) ==> r == Err(InsufficientBalance)
    ensures r.Ok? <==>
      ValidateScheduleParams(payer, recipient, amount, start, end, now) == Pass
      && payerBalance >= CalculateRequiredFunds(frequency, amount, start, end)
    ensures r.Ok? ==>
      var (st', id) := r.value;
      var required := CalculateRequiredFunds(frequency, amount, start, end);
      && id == st.store.counter + 1 && st'.store.counter == id
      && id in st'.store.schedules
      && var s := st'.store.schedules[id];
      && s.id == id && s.payer == payer && s.recipient == recipient && s.token == token
      && s.amount == amount && s.frequency == frequency && s.status == Active
      && s.balance == required && s.totalPaid == 0 && s.paymentCount == 0 && s.failedAttempts == 0
      && s.startTime == start && s.endTime == end && s.nextPaymentTime == start
      && s.createdAt == now && s.lastPaymentAt == None
      && GetUserScheduleIds(st'.store, payer) == GetUserScheduleIds(st.store, payer) + [id]
      && GetUserScheduleIds(st'.store, recipient) == GetUserScheduleIds(st.store, recipient) + [id]
      && st'.transfers == st.transfers + [Deposit(id, payer, required)]
  {
    var params := ValidateScheduleParams(payer, recipient, amount, start, end, now);
    if params.Fail? then Err(params.error)
    else
      var required := CalculateRequiredFunds(frequency, amount, start, end);
      var funds := ValidateFunds(payerBalance, required);
      if funds.Fail? then Err(funds.error)
      else
        var (id, issued) := GetNextScheduleId(st.store);
        var s := PaymentSchedule(id, payer, recipient, token, amount, frequency, Active, required, 0, 0, 0,
                                 start, end, start, now, None);
        var store := AddUserSchedule(AddUserSchedule(SetSchedule(issued, s), payer, id), recipient, id);
        Ok((PaymentState(store, st.transfers + [Deposit(id, payer, required)]), id))
  }

  /**
   * The bookkeeping of a successful payment: the amount leaves the balance
   * for `totalPaid`, the schedule advances one period, and it completes,
   * with any rest refunded when it has an end time, once it cannot pay
   * again. Also returns the transfers it makes.
   */
  function SettlePayment(s: PaymentSchedule, now: nat): (r: (PaymentSchedule, seq<Transfer>))
    requires s.balance >= s.amount
    ensures var (s', moved) := r;
      && s'.id == s.id && s'.payer == s.payer && s'.recipient == s.recipient && s'.amount == s.amount
      && s'.frequency == s.frequency && s'.endTime == s.endTime && s'.startTime == s.startTime
      && s'.totalPaid == s.totalPaid + s.amount
      && s'.paymentCount == s.paymentCount + 1 && s'.failedAttempts == 0
      && s'.lastPaymentAt == Some(now) && s'.nextPaymentTime == CalculateNextPaymentTime(s.frequency, now)
      && |moved| >= 1 && moved[0] == Payment(s.id, s.recipient, s.amount)
      && (forall i :: 0 <= i < |moved| ==> moved[i].scheduleId == s.id)
    ensures var (s', moved) := r;
      var rest := s.balance - s.amount;
      var next := CalculateNextPaymentTime(s.frequency, now);
      && (s.endTime.Some? && (next > s.endTime.value || rest < s.amount) ==>
            s'.status == Completed && s'.balance == 0
            && moved == [Payment(s.id, s.recipient, s.amount)] + (if rest > 0 then [Refund(s.id, s.payer, rest)] else []))
      && (s.endTime.Some? && next <= s.endTime.value && rest >= s.amount ==>
            s'.status == s.status && s'.balance == rest && moved == [Payment(s.id, s.recipient, s.amount)])
      && (s.endTime.None? ==>
            s'.balance == rest && moved == [Payment(s.id, s.recipient, s.amount)]
            && (rest < s.amount ==> s'.status == Completed)
            && (rest >= s.amount ==> s'.status == s.status))
  {
    var rest := s.balance - s.amount;
    var next := CalculateNextPaymentTime(s.frequency, now);
    var paid := s.(balance := rest, totalPaid := s.totalPaid + s.amount, paymentCount := s.paymentCount + 1,
                   failedAttempts := 0, lastPaymentAt := Some(now), nextPaymentTime := next);
    var payment := Payment(s.id, s.recipient, s.amount);
    match s.endTime
    case Some(e) =>
      if next > e || rest < s.amount then
        if rest > 0 then (paid.(status := Completed, balance := 0), [payment, Refund(s.id, s.payer, rest)])
        else (paid.(status := Completed), [payment])
      else (paid, [payment])
    case None =>
      if rest < s.amount then (paid.(status := Completed), [payment]) else (paid, [payment])
  }

  /** The bookkeeping of a refused transfer: one more failed attempt, and deactivation at the third. */
  function RecordFailedAttempt(s: PaymentSchedule): (s': PaymentSchedule)
    ensures s'.failedAttempts == s.failedAttempts + 1
    ensures ShouldRetryPayment(s'.failedAttempts) ==> s'.status == s.status
    ensures !ShouldRetryPayment(s'.failedAttempts) ==> s'.status == Inactive
    ensures s' == s.(failedAttempts := s'.failedAttempts, status := s'.status)
  {
    var attempts := s.failedAttempts + 1;
    if ShouldRetryPayment(attempts) then s.(failedAttempts := attempts)
    else s.(failedAttempts := attempts, status := Inactive)
  }

  /**
   * `execute_payment`: the schedule must exist, be active and be payable;
   * then the transfer to the recipient either goes through and is settled,
   * or is refused and counted, the count being stored even though the call
   * fails.
   */
  function ExecutePayment(st: PaymentState, id: nat, transferOk: bool, now: nat)
    : (r: (PaymentState, Outcome<ContractError>))
    ensures id !in st.store.schedules ==> r == (st, Fail(ScheduleNotFound))
    ensures id in st.store.schedules && st.store.schedules[id].status != Active ==> r == (st, Fail(ScheduleNotActive))
    ensures (id in st.store.schedules && st.store.schedules[id].status == Active
             && !CanExecutePayment(st.store.schedules[id], now)) ==> r == (st, Fail(PaymentNotDue))
    ensures r.1 == Pass <==>
      id in st.store.schedules && st.store.schedules[id].status == Active
      && CanExecutePayment(st.store.schedules[id], now) && transferOk
    ensures r.1.Fail? && r.0 != st ==> r.1 == Fail(PaymentFailed) && !transferOk
    ensures r.0 != st ==>
      && id in st.store.schedules
      && id in r.0.store.schedules
      && |r.0.transfers| >= |st.transfers|
      && r.0.store.schedules[id].balance + r.0.store.schedules[id].totalPaid
         + MovedFor(r.0.transfers[|st.transfers|..], id, RefundKind)
         == st.store.schedules[id].balance + st.store.schedules[id].totalPaid
    ensures r.0.store.counter == st.store.counter && r.0.store.userSchedules == st.store.userSchedules
  {
    match GetSchedule(st, id)
    case Err(e) => (st, Fail(e))
    case Ok(s) =>
      if s.status != Active then (st, Fail(ScheduleNotActive))
      else if !CanExecutePayment(s, now) then (st, Fail(PaymentNotDue))
      else if transferOk then
        var (s', moved) := SettlePayment(s, now);
        var log := st.transfers + moved;
        assert log[|st.transfers|..] == moved;
        (PaymentState(SetSchedule(st.store, s'), log), Pass)
      else
        var s' := RecordFailedAttempt(s);
        assert st.transfers[|st.transfers|..] == [];
        (st.(store := SetSchedule(st.store, s')), Fail(PaymentFailed))
  }

  /** `update_schedule_status`: the payer pauses or resumes a schedule that has not ended. */
  function UpdateScheduleStatus(st: PaymentState, id: nat, payer: Address, active: bool)
    : (r: Result<PaymentState, ContractError>)
    ensures id !in st.store.schedules ==> r == Err(ScheduleNotFound)
    ensures id in st.store.schedules && st.store.schedules[id].payer != payer ==> r == Err(PayerOnly)
    ensures (id in st.store.schedules && st.store.schedules[id].payer == payer
             && st.store.schedules[id].status.Ended()) ==> r == Err(OperationNotAllowed)
    ensures r.Ok? <==>
      id in st.store.schedules && st.store.schedules[id].payer == payer
      && !st.store.schedules[id].status.Ended()
    ensures r.Ok? && (st.store.schedules[id].status == Active) != active ==>
      var s := st.store.schedules[id];
      r.value == st.(store := SetSchedule(st.store, s.(status := if active then Active else Inactive)))
    ensures r.Ok? && (st.store.schedules[id].status == Active) == active ==> r.value == st
  {
    match GetSchedule(st, id)
    case Err(e) => Err(e)
    case Ok(s) =>
      if s.payer != payer then Err(PayerOnly)
      else if s.status == Cancelled || s.status == Completed then Err(OperationNotAllowed)
      else
        var status := if active then Active else Inactive;
        if s.status == status then Ok(st)
        else Ok(st.(store := SetSchedule(st.store, s.(status := status))))
  }

  /**
   * `cancel_schedule`: the payer ends a schedule that is not already
   * cancelled, and its whole balance is refunded. A completed schedule can
   * still be cancelled.
   */
  function CancelSchedule(st: PaymentState, id: nat, payer: Address): (r: Result<PaymentState, ContractError>)
    ensures id !in st.store.schedules ==> r == Err(ScheduleNotFound)
    ensures id in st.store.schedules && st.store.schedules[id].payer != payer ==> r == Err(PayerOnly)
    ensures (id in st.store.schedules && st.store.schedules[id].payer == payer
             && st.store.schedules[id].status == Cancelled) ==> r == Err(ScheduleAlreadyCancelled)
    ensures r.Ok? <==>
      id in st.store.schedules && st.store.schedules[id].payer == payer && st.store.schedules[id].status != Cancelled
    ensures r.Ok? ==>
      var s := st.store.schedules[id];
      && r.value.store == SetSchedule(st.store, s.(status := Cancelled, balance := 0))
      && r.value.transfers == st.transfers + (if s.balance > 0 then [Refund(id, payer, s.balance)] else [])
  {
    match GetSchedule(st, id)
    case Err(e) => Err(e)
    case Ok(s) =>
      if s.payer != payer then Err(PayerOnly)
      else if s.status == Cancelled then Err(ScheduleAlreadyCancelled)
      else
        var refund := if s.balance > 0 then [Refund(id, payer, s.balance)] else [];
        Ok(PaymentState(SetSchedule(st.store, s.(status := Cancelled, balance := 0)), st.transfers + refund))
  }

  /** `top_up_schedule`: the payer adds funds to a schedule that is active or paused. */
  function TopUpSchedule(st: PaymentState, id: nat, payer: Address, amount: nat, payerBalance: int)
    : (r: Result<PaymentState, ContractError>)
    ensures id !in st.store.schedules ==> r == Err(ScheduleNotFound)
    ensures id in st.store.schedules && st.store.schedules[id].payer != payer ==> r == Err(PayerOnly)
    ensures (id in st.store.schedules && st.store.schedules[id].payer == payer
             && st.store.schedules[id].status.Ended()) ==> r == Err(OperationNotAllowed)
    ensures (id in st.store.schedules && st.store.schedules[id].payer == payer
             && !st.store.schedules[id].status.Ended() && amount == 0) ==> r == Err(InvalidAmount)
    ensures r.Ok? <==>
      id in st.store.schedules && st.store.schedules[id].payer == payer
      && !st.store.schedules[id].status.Ended() && amount > 0 && payerBalance >= amount
    ensures r.Ok? ==>
      var s := st.store.schedules[id];
      && r.value.store == SetSchedule(st.store, s.(balance := s.balance + amount))
      && r.value.transfers == st.transfers + [Deposit(id, payer, amount)]
  {
    match GetSchedule(st, id)
    case Err(e) => Err(e)
    case Ok(s) =>
      if s.payer != payer then Err(PayerOnly)
      else if s.status != Active && s.status != Inactive then Err(OperationNotAllowed)
      else if amount == 0 then Err(InvalidAmount)
      else
        var funds := ValidateFunds(payerBalance, amount);
        if funds.Fail? then Err(funds.error)
        else Ok(PaymentState(SetSchedule(st.store, s.(balance := s.balance + amount)),
                             st.transfers + [Deposit(id, payer, amount)]))
  }

  /**
   * `get_user_schedules`: the page of the user's ids from `offset`, at most
   * `limit` long, in stored order.
   */
  method GetUserSchedules(st: PaymentState, user: Address, offset: nat, limit: nat) returns (page: seq<nat>)
    ensures var ids := GetUserScheduleIds(st.store, user);
      var stop := Min(offset + limit, |ids|);
      page == if offset < stop then ids[offset..stop] else []
    ensures |page| <= limit
  {
    var ids := GetUserScheduleIds(st.store, user);
    var stop := Min(offset + limit, |ids|);
    page := [];
    var i := offset;
    while i < stop
      invariant offset <= i || stop <= offset
      invariant offset < stop ==> offset <= i <= stop && page == ids[offset..i]
      invariant offset >= stop ==> page == []
      decreases stop - i
    {
      page := page + [ids[i]];
      i := i + 1;
    }
  }

  lemma CreateKeepsEscrow(st: PaymentState, payer: Address, recipient: Address, token: Address, amount: nat,
                          frequency: PaymentFrequency, start: nat, end: Option<nat>, payerBalance: int, now: nat)
    requires Escrowed(st)
    requires CreateSchedule(st, payer, recipient, token, amount, frequency, start, end, payerBalance, now).Ok?
    ensures Escrowed(CreateSchedule(st, payer, recipient, token, amount, frequency, start, end, payerBalance, now).value.0)
  {
    var (st', id) := CreateSchedule(st, payer, recipient, token, amount, frequency, start, end, payerBalance, now).value;
    FreshIdsAreNew(st.store);
    var required := CalculateRequiredFunds(frequency, amount, start, end);
    EscrowStep(st, st', id, [Deposit(id, payer, required)]);
  }

  lemma ExecuteKeepsEscrow(st: PaymentState, id: nat, transferOk: bool, now: nat)
    requires Escrowed(st)
    ensures Escrowed(ExecutePayment(st, id, transferOk, now).0)
  {
    var st' := ExecutePayment(st, id, transferOk, now).0;
    if st' != st {
      var s := st.store.schedules[id];
      if transferOk {
        SettleKeepsEscrow(st, id, now);
      } else {
        FailedAttemptKeepsEscrow(st, id);
      }
    }
  }

  /** Settling a funded schedule keeps the escrow balanced. */
  lemma SettleKeepsEscrow(st: PaymentState, id: nat, now: nat)
    requires Escrowed(st) && id in st.store.schedules
    requires st.store.schedules[id].balance >= st.store.schedules[id].amount
    ensures var (s', moved) := SettlePayment(st.store.schedules[id], now);
      Escrowed(PaymentState(SetSchedule(st.store, s'), st.transfers + moved))
  {
    var (s', moved) := SettlePayment(st.store.schedules[id], now);
    if |moved| == 2 {
      forall k | true
        ensures MovedFor(moved, id, k) == MovedFor([moved[0]], id, k) + MovedFor([moved[1]], id, k)
      {
        assert moved == [moved[0]] + [moved[1]];
        MovedForAppend([moved[0]], [moved[1]], id, k);
      }
    }
    EscrowStep(st, PaymentState(SetSchedule(st.store, s'), st.transfers + moved), id, moved);
  }

  /** Counting a refused transfer moves no money and keeps the escrow balanced. */
  lemma FailedAttemptKeepsEscrow(st: PaymentState, id: nat)
    requires Escrowed(st) && id in st.store.schedules
    ensures Escrowed(st.(store := SetSchedule(st.store, RecordFailedAttempt(st.store.schedules[id]))))
  {
    var st' := st.(store := SetSchedule(st.store, RecordFailedAttempt(st.store.schedules[id])));
    assert st'.transfers == st.transfers + [];
    EscrowStep(st, st', id, []);
  }

  lemma UpdateStatusKeepsEscrow(st: PaymentState, id: nat, payer: Address, active: bool)
    requires Escrowed(st)
    requires UpdateScheduleStatus(st, id, payer, active).Ok?
    ensures Escrowed(UpdateScheduleStatus(st, id, payer, active).value)
  {
    EscrowStep(st, UpdateScheduleStatus(st, id, payer, active).value, id, []);
  }

  lemma CancelKeepsEscrow(st: PaymentState, id: nat, payer: Address)
    requires Escrowed(st)
    requires CancelSchedule(st, id, payer).Ok?
    ensures Escrowed(CancelSchedule(st, id, payer).value)
  {
    var s := st.store.schedules[id];
    EscrowStep(st, CancelSchedule(st, id, payer).value, id,
               if s.balance > 0 then [Refund(id, payer, s.balance)] else []);
  }

  lemma TopUpKeepsEscrow(st: PaymentState, id: nat, payer: Address, amount: nat, payerBalance: int)
    requires Escrowed(st)
    requires TopUpSchedule(st, id, payer, amount, payerBalance).Ok?
    ensures Escrowed(TopUpSchedule(st, id, payer, amount, payerBalance).value)
  {
    EscrowStep(st, TopUpSchedule(st, id, payer, amount, payerBalance).value, id, [Deposit(id, payer, amount)]);
  }

  /** A paid schedule is not payable again at the same ledger time. */
  lemma NoSecondPaymentAtOnce(st: PaymentState, id: nat, now: nat)
    requires IdsIssued(st.store)
    requires ExecutePayment(st, id, true, now).1 == Pass
    ensures ExecutePayment(ExecutePayment(st, id, true, now).0, id, true, now).1.Fail?
  {
  }

  /** Three refused transfers in a row deactivate an active schedule, which then stops being executed. */
  lemma ThreeFailuresDeactivate(st: PaymentState, id: nat, now: nat)
    requires IdsIssued(st.store)
    requires id in st.store.schedules
    requires st.store.schedules[id].status == Active && st.store.schedules[id].failedAttempts == 0
    requires CanExecutePayment(st.store.schedules[id], now)
    ensures var st1 := ExecutePayment(st, id, false, now).0;
      var st2 := ExecutePayment(st1, id, false, now).0;
      var st3 := ExecutePayment(st2, id, false, now).0;
      && st3.store.schedules[id].status == Inactive
      && st3.store.schedules[id].failedAttempts == 3
      && ExecutePayment(st3, id, true, now) == (st3, Fail(ScheduleNotActive))
  {
  }

  /**
   * A schedule without an end time completes as soon as its balance drops
   * below one payment, and the rest stays in escrow with no refund; only
   * cancelling the completed schedule returns it to the payer.
   */
  lemma OpenEndedCompletionKeepsRest(st: PaymentState, id: nat, now: nat)
    requires IdsIssued(st.store)
    requires ExecutePayment(st, id, true, now).1 == Pass
    requires st.store.schedules[id].endTime.None?
    requires st.store.schedules[id].balance - st.store.schedules[id].amount < st.store.schedules[id].amount
    ensures var st' := ExecutePayment(st, id, true, now).0;
      var s := st.store.schedules[id];
      && st'.store.schedules[id].status == Completed
      && st'.store.schedules[id].balance == s.balance - s.amount
      && st'.transfers == st.transfers + [Payment(id, s.recipient, s.amount)]
      && TopUpSchedule(st', id, s.payer, 1, 1) == Err(OperationNotAllowed)
      && CancelSchedule(st', id, s.payer).Ok?
  {
  }

  /** With an end time, completion refunds the rest, so a completed schedule holds nothing. */
  lemma BoundedCompletionRefundsRest(st: PaymentState, id: nat, now: nat)
    requires ExecutePayment(st, id, true, now).1 == Pass
    requires st.store.schedules[id].endTime.Some?
    requires ExecutePayment(st, id, true, now).0.store.schedules[id].status == Completed
    ensures ExecutePayment(st, id, true, now).0.store.schedules[id].balance == 0
  {
  }
}
