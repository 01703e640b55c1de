/**
 * Records of the recurring-payment contract: a schedule, its frequency and
 * lifecycle status, the contract's error symbols, and the storage that
 * holds schedules by id, each user's schedule ids, and the id counter.
 */
module PaymentSchedules {
  import opened Common
  import opened Wrappers

  /** Seconds between two payments of each frequency. */
  const DAILY_INTERVAL: nat := 86400
  const WEEKLY_INTERVAL: nat := 604800
  const MONTHLY_INTERVAL: nat := 2592000

  datatype PaymentFrequency = Daily | Weekly | Monthly

  datatype ScheduleStatus = Active | Inactive | Cancelled | Completed {
    /** A cancelled or completed schedule can no longer be paused, resumed or topped up. */
    predicate Ended() {
      this == Cancelled || this == Completed
    }
  }

  /** The error symbols the payment contract returns. */
  datatype ContractError =
    | AlreadyInitialized
    | NotInitialized
    | Unauthorized
    | AdminOnly
    | PayerOnly
    | RecipientOnly
    | ScheduleNotFound
    | ScheduleNotActive
    | ScheduleAlreadyCancelled
    | PaymentNotDue
    | InsufficientBalance
    | PaymentFailed
    | InvalidAmount
    | InvalidInput
    | InvalidStartTime
    | InvalidEndTime
    | DataNotFound
    | OperationNotAllowed

  /**
   * One recurring payment from `payer` to `recipient`. `balance` is what the
   * contract holds in escrow for it, `totalPaid` what it has paid out.
   */
  datatype PaymentSchedule = PaymentSchedule(
    id: nat,
    payer: Address,
    recipient: Address,
    token: Address,
    amount: nat,
    frequency: PaymentFrequency,
    status: ScheduleStatus,
    balance: nat,
    totalPaid: nat,
    paymentCount: nat,
    failedAttempts: nat,
    startTime: nat,
    endTime: Option<nat>,
    nextPaymentTime: nat,
    createdAt: nat,
    lastPaymentAt: Option<nat>)

  /** The persistent storage of the contract; an absent user list reads as empty. */
  datatype ScheduleStore = ScheduleStore(
    schedules: map<nat, PaymentSchedule>,
    userSchedules: map<Address, seq<nat>>,
    counter: nat)

  function EmptyStore(): ScheduleStore {
    ScheduleStore(map[], map[], 0)
  }

  /** The length of one period of a frequency. */
  function Interval(f: PaymentFrequency): (secs: nat)
    ensures secs in {DAILY_INTERVAL, WEEKLY_INTERVAL, MONTHLY_INTERVAL}
    ensures secs >= DAILY_INTERVAL
  {
    match f
    case Daily => DAILY_INTERVAL
    case Weekly => WEEKLY_INTERVAL
    case Monthly => MONTHLY_INTERVAL
  }

  /** `calculate_next_payment_time`: one period after `now`. */
  function CalculateNextPaymentTime(f: PaymentFrequency, now: nat): (next: nat)
    ensures next > now
    ensures next - now == Interval(f)
    ensures f == Daily ==> next == now + 86400
    ensures f == Weekly ==> next == now + 604800
    ensures f == Monthly ==> next == now + 2592000
  {
    now + Interval(f)
  }

  /** Later payments are due later: the next payment time is monotone in `now`. */
  lemma NextPaymentTimeMonotone(f: PaymentFrequency, t1: nat, t2: nat)
    requires t1 <= t2
    ensures CalculateNextPaymentTime(f, t1) <= CalculateNextPaymentTime(f, t2)
    ensures t1 < t2 ==> CalculateNextPaymentTime(f, t1) < CalculateNextPaymentTime(f, t2)
  {
  }

  /** `get_next_schedule_id`: advances the counter and returns its new value. */
  function GetNextScheduleId(store: ScheduleStore): (r: (nat, ScheduleStore))
    ensures r.0 == store.counter + 1 && r.0 >= 1
    ensures r.1.counter == r.0
    ensures r.1.schedules == store.schedules && r.1.userSchedules == store.userSchedules
  {
    var next := store.counter + 1;
    (next, store.(counter := next))
  }

  /** Every stored schedule sits under its own id, which the counter has issued. */
  ghost predicate IdsIssued(store: ScheduleStore) {
    forall id :: id in store.schedules ==> store.schedules[id].id == id && 1 <= id <= store.counter
  }

  /**
   * Ids come out strictly increasing, starting at 1, and a fresh id never
   * names a stored schedule.
   */
  lemma FreshIdsAreNew(store: ScheduleStore)
    requires IdsIssued(store)
    ensures GetNextScheduleId(store).0 !in store.schedules
    ensures GetNextScheduleId(GetNextScheduleId(store).1).0 > GetNextScheduleId(store).0
    ensures GetNextScheduleId(EmptyStore()).0 == 1
  {
  }

  /** `get_user_schedules` (storage): the user's ids, or none. */
  function GetUserScheduleIds(store: ScheduleStore, user: Address): (ids: seq<nat>)
    ensures user !in store.userSchedules ==> ids == []
    ensures user in store.userSchedules ==> ids == store.userSchedules[user]
  {
    if user in store.userSchedules then store.userSchedules[user] else []
  }

  /** `add_user_schedule`: appends the id to the user's list and touches no other list. */
  function AddUserSchedule(store: ScheduleStore, user: Address, id: nat): (r: ScheduleStore)
    ensures GetUserScheduleIds(r, user) == GetUserScheduleIds(store, user) + [id]
    ensures forall u :: u != user ==> GetUserScheduleIds(r, u) == GetUserScheduleIds(store, u)
    ensures r.schedules == store.schedules && r.counter == store.counter
  {
    store.(userSchedules := store.userSchedules[user := GetUserScheduleIds(store, user) + [id]])
  }

  /** Storing a schedule under its own id. */
  function SetSchedule(store: ScheduleStore, s: PaymentSchedule): (r: ScheduleStore)
    ensures s.id in r.schedules && r.schedules[s.id] == s
    ensures forall id :: id != s.id ==> (id in r.schedules <==> id in store.schedules)
    ensures forall id :: id != s.id && id in store.schedules ==> r.schedules[id] == store.schedules[id]
    ensures r.userSchedules == store.userSchedules && r.counter == store.counter
  {
    store.(schedules := store.schedules[s.id := s])
  }
}
