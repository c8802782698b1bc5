/**
 * The Supabase schema as an in-memory store. Every query or update the
 * application issues is one atomic operation of class `Db`; an error the
 * database or the network could return instead is an explicit `Fault`
 * argument. Tables with a serial key are sequences in insertion order whose
 * key is the position plus one; `anon_usage` is keyed by `anon_id`.
 * Timestamps are integer milliseconds and money is integer cents.
 *
 * The stored procedures `consume_credits`, `refund_credits` and
 * `add_credits` are not part of this model's sources: the methods
 * `ConsumeProc`, `RefundProc` and `AddProc` stand in for them with the
 * behaviour their callers rely on, including the unique index on
 * (`type`, `ref_id`) of `credit_logs`.
 */
module Store {
  import opened Wrappers
  import opened Seqs

  /** PostgREST: `.single()` found no row (or more than one). */
  const NotFoundCode := "PGRST116"
  /** PostgreSQL: unique constraint violated. */
  const UniqueViolationCode := "23505"
  /** PostgreSQL: NOT NULL constraint violated. */
  const NotNullViolationCode := "23502"

  datatype StoreError = StoreError(code: string, message: string)

  /** An error injected into one store call; `None` lets the call reach the tables. */
  type Fault = Option<StoreError>

  const NoRows := StoreError(NotFoundCode, "JSON object requested, multiple (or no) rows returned")
  const DuplicateSession := StoreError(UniqueViolationCode,
    "duplicate key value violates unique constraint \"orders_session_id_key\"")
  const DuplicateClerkUser := StoreError(UniqueViolationCode,
    "duplicate key value violates unique constraint \"user_credits_clerk_user_id_key\"")
  const DuplicateAnon := StoreError(UniqueViolationCode,
    "duplicate key value violates unique constraint \"anon_usage_pkey\"")
  const DuplicateLogRef := StoreError(UniqueViolationCode,
    "duplicate key value violates unique constraint \"credit_logs_type_ref_id_key\"")
  // The refusals the credit procedures raise.
  const UserMissing := StoreError("P0001", "User not found")
  const CreditsExpired := StoreError("P0001", "Credits expired")
  const InsufficientCredits := StoreError("P0001", "Insufficient credits")

  /** The account's credits ran out before `now`; no expiry never runs out. */
  predicate ExpiredAt(a: Account, now: int) {
    a.expiresAt.Some? && a.expiresAt.value < now
  }

  /** One year (365 days) in milliseconds, the validity a recharge gives. */
  const OneYearMs := 31_536_000_000

  /**
   * The expiry `add_credits` writes for a recharge at `eventTime`: a year
   * after it, or the current expiry when that lies later.
   */
  function RechargedExpiry(expiresAt: Option<int>, eventTime: int): (e: int)
    ensures e >= eventTime + OneYearMs
    ensures expiresAt.Some? ==> e >= expiresAt.value
    ensures e == eventTime + OneYearMs || (expiresAt.Some? && e == expiresAt.value)
  {
    if expiresAt.Some? && expiresAt.value > eventTime + OneYearMs then expiresAt.value else eventTime + OneYearMs
  }

  /** A JSON value as stored in a `jsonb` column. */
  datatype Json =
    | JNull
    | JBool(b: bool)
    | JNum(n: int)
    | JStr(s: string)
    | JArr(items: seq<Json>)
    | JObj(fields: map<string, Json>)

  /** A nullable string column as JSON. */
  function OptStr(s: Option<string>): Json {
    if s.Some? then JStr(s.value) else JNull
  }

  /** A JSON object column such as `orders.extra`. */
  type Extra = map<string, Json>

  /** A row of `user_credits`. */
  datatype Account = Account(
    userId: nat,
    clerkUserId: string,
    email: string,
    displayName: Option<string>,
    balance: int,
    expiresAt: Option<int>,
    deletedAt: Option<int>)

  datatype LogType = Recharge | Consume | Expire
  datatype LogStatus = LogPending | Confirmed | Refunded

  /** A row of `credit_logs`. */
  datatype CreditLog = CreditLog(
    id: nat,
    userId: Option<int>,
    anonId: Option<string>,
    kind: LogType,
    status: LogStatus,
    credits: int,
    refId: Option<string>,
    metadata: Option<Extra>,
    createdAt: int,
    updatedAt: int)

  datatype OrderState = Pending | Paid | Failed | Disputed

  /** A row of `orders`; `amountCents` is the `amount` column in cents. */
  datatype Order = Order(
    sessionId: string,
    userId: Option<int>,
    clerkUserId: Option<string>,
    userEmail: Option<string>,
    priceId: string,
    priceTier: Option<string>,
    credits: int,
    amountCents: int,
    currency: string,
    state: OrderState,
    extra: Option<Extra>,
    paidAt: Option<int>)

  /** The columns one `update` on `orders` sets; `None` leaves a column alone. */
  datatype OrderPatch = OrderPatch(state: Option<OrderState>, paidAt: Option<int>, extra: Option<Extra>)

  /** A row of `anon_usage`. */
  datatype AnonUsage = AnonUsage(
    anonId: string,
    usageCount: int,
    lastUsedAt: Option<int>,
    ipHash: Option<string>,
    ipSubnetHash: Option<string>,
    userAgent: Option<string>,
    fingerprint: Option<Extra>)

  /** `user_usage_history.status`, a column the application filters and updates on. */
  datatype RecordStatus = Active | Deleted

  /** A row of `user_usage_history`. */
  datatype UsageRecord = UsageRecord(
    id: nat,
    userId: Option<int>,
    clerkUserId: Option<string>,
    anonId: Option<string>,
    imageUrl: string,
    userPrompt: Option<string>,
    aiNarration: string,
    requestId: Option<string>,
    status: RecordStatus,
    updatedAt: int)

  datatype StripeEventRow = StripeEventRow(eventId: string, eventName: string, eventCreatedAt: int)
  datatype ClerkEventRow = ClerkEventRow(eventId: string, eventType: string, clerkUserId: Option<string>)

  /** The contents of every table at one instant. */
  datatype Tables = Tables(
    users: seq<Account>,
    logs: seq<CreditLog>,
    orders: seq<Order>,
    anon: map<string, AnonUsage>,
    history: seq<UsageRecord>,
    stripeEvents: seq<StripeEventRow>,
    clerkEvents: seq<ClerkEventRow>)

  // ----- table invariants -----

  /** `user_id` is serial and `clerk_user_id` is unique. */
  predicate UsersValid(users: seq<Account>) {
    (forall i :: 0 <= i < |users| ==> users[i].userId == i + 1) &&
    (forall i, j :: 0 <= i < j < |users| ==> users[i].clerkUserId != users[j].clerkUserId)
  }

  /** Two logs of the same type never share a non-null `ref_id`. */
  predicate RefsUnique(logs: seq<CreditLog>) {
    forall i, j :: 0 <= i < j < |logs| && logs[i].refId.Some? && logs[i].kind == logs[j].kind ==>
      logs[i].refId != logs[j].refId
  }

  predicate LogsValid(logs: seq<CreditLog>) {
    (forall i :: 0 <= i < |logs| ==> logs[i].id == i + 1) && RefsUnique(logs)
  }

  /** `session_id` is unique. */
  predicate OrdersValid(orders: seq<Order>) {
    forall i, j :: 0 <= i < j < |orders| ==> orders[i].sessionId != orders[j].sessionId
  }

  predicate AnonValid(anon: map<string, AnonUsage>) {
    forall k :: k in anon ==> anon[k].anonId == k
  }

  predicate HistoryValid(history: seq<UsageRecord>) {
    forall i :: 0 <= i < |history| ==> history[i].id == i + 1
  }

  predicate TablesValid(t: Tables) {
    UsersValid(t.users) && LogsValid(t.logs) && OrdersValid(t.orders) &&
    AnonValid(t.anon) && HistoryValid(t.history)
  }

  // ----- lookups -----

  /** The account with this `clerk_user_id`. */
  function FindUserByClerk(users: seq<Account>, clerk: string): (r: Option<Account>)
    ensures r.Some? ==> r.value in users && r.value.clerkUserId == clerk
    ensures r.None? <==> forall i :: 0 <= i < |users| ==> users[i].clerkUserId != clerk
  {
    var i := FirstIndex(users, (a: Account) => a.clerkUserId == clerk);
    if i < |users| then Some(users[i]) else None
  }

  /** The account with this `user_id`. */
  function FindUserById(users: seq<Account>, id: int): (r: Option<Account>)
    requires UsersValid(users)
    ensures r.Some? ==> r.value in users && r.value.userId == id
    ensures r.None? ==> forall i :: 0 <= i < |users| ==> users[i].userId != id
  {
    if 1 <= id <= |users| then Some(users[id - 1]) else None
  }

  /**
   * The error `consume_credits` raises, checked in this order: a missing
   * account, expired credits, a short balance, a `ref_id` already used.
   */
  function ConsumeRefusal(users: seq<Account>, logs: seq<CreditLog>, userId: int, credits: int,
                          refId: Option<string>, now: int): (e: Option<StoreError>)
    ensures !(1 <= userId <= |users|) ==> e == Some(UserMissing)
    ensures 1 <= userId <= |users| && ExpiredAt(users[userId - 1], now) ==> e == Some(CreditsExpired)
    ensures 1 <= userId <= |users| && !ExpiredAt(users[userId - 1], now) && users[userId - 1].balance < credits ==>
      e == Some(InsufficientCredits)
    ensures e.None? <==>
      1 <= userId <= |users| && !ExpiredAt(users[userId - 1], now) && users[userId - 1].balance >= credits &&
      (refId.None? || !RefTaken(logs, Consume, refId.value))
  {
    if !(1 <= userId <= |users|) then Some(UserMissing)
    else if ExpiredAt(users[userId - 1], now) then Some(CreditsExpired)
    else if users[userId - 1].balance < credits then Some(InsufficientCredits)
    else if refId.Some? && RefTaken(logs, Consume, refId.value) then Some(DuplicateLogRef)
    else None
  }

  /** The log with this `id`. */
  function FindLog(logs: seq<CreditLog>, id: int): (r: Option<CreditLog>)
    requires LogsValid(logs)
    ensures r.Some? ==> r.value in logs && r.value.id == id
    ensures r.None? ==> forall i :: 0 <= i < |logs| ==> logs[i].id != id
  {
    if 1 <= id <= |logs| then Some(logs[id - 1]) else None
  }

  /** Whether a log of this type already carries this `ref_id`. */
  predicate RefTaken(logs: seq<CreditLog>, kind: LogType, ref: string) {
    exists i :: 0 <= i < |logs| && logs[i].kind == kind && logs[i].refId == Some(ref)
  }

  function OrderIndex(orders: seq<Order>, sid: string): (i: nat)
    ensures i <= |orders|
    ensures i < |orders| ==> orders[i].sessionId == sid
    ensures i == |orders| ==> forall j :: 0 <= j < |orders| ==> orders[j].sessionId != sid
  {
    FirstIndex(orders, (o: Order) => o.sessionId == sid)
  }

  /** The order with this `session_id`. */
  function FindOrder(orders: seq<Order>, sid: string): (r: Option<Order>)
    ensures r.Some? ==> r.value in orders && r.value.sessionId == sid
    ensures r.None? <==> forall j :: 0 <= j < |orders| ==> orders[j].sessionId != sid
  {
    var i := OrderIndex(orders, sid);
    if i < |orders| then Some(orders[i]) else None
  }

  /** The record with this `id`. */
  function FindRecord(history: seq<UsageRecord>, id: int): (r: Option<UsageRecord>)
    requires HistoryValid(history)
    ensures r.Some? ==> r.value in history && r.value.id == id
    ensures r.None? ==> forall i :: 0 <= i < |history| ==> history[i].id != id
  {
    if 1 <= id <= |history| then Some(history[id - 1]) else None
  }

  /** The answer of `.single()` over at most one matching row. */
  function Single<T>(row: Option<T>, fault: Fault): (r: Result<T, StoreError>)
    ensures fault.Some? ==> r == Failure(fault.value)
    ensures fault.None? && row.None? ==> r == Failure(NoRows)
    ensures fault.None? && row.Some? ==> r == Success(row.value)
  {
    if fault.Some? then Failure(fault.value)
    else if row.None? then Failure(NoRows)
    else Success(row.value)
  }

  /** The row after an `update` that sets the patch's columns. */
  function ApplyPatch(o: Order, p: OrderPatch): (r: Order)
    ensures r.sessionId == o.sessionId && r.userId == o.userId && r.credits == o.credits
    ensures r.amountCents == o.amountCents && r.currency == o.currency && r.priceTier == o.priceTier
    ensures r.state == p.state.GetOr(o.state)
    ensures r.paidAt == (if p.paidAt.Some? then p.paidAt else o.paidAt)
    ensures r.extra == (if p.extra.Some? then p.extra else o.extra)
  {
    o.(state := p.state.GetOr(o.state),
       paidAt := if p.paidAt.Some? then p.paidAt else o.paidAt,
       extra := if p.extra.Some? then p.extra else o.extra)
  }

  /** Replacing one row by a row with the same `session_id` keeps keys unique. */
  lemma OrdersValidReplace(orders: seq<Order>, i: nat, o: Order)
    requires OrdersValid(orders) && i < |orders| && o.sessionId == orders[i].sessionId
    ensures OrdersValid(orders[i := o])
  {
  }

  /** After replacing a row in place, looking its key up finds the new row. */
  lemma FindOrderReplace(orders: seq<Order>, i: nat, o: Order)
    requires OrdersValid(orders) && i < |orders| && o.sessionId == orders[i].sessionId
    ensures OrderIndex(orders, o.sessionId) == i
    ensures FindOrder(orders[i := o], o.sessionId) == Some(o)
  {
    var after := orders[i := o];
    assert after[i].sessionId == o.sessionId;
    assert orders[i].sessionId == o.sessionId;
  }

  /** A row appended under a fresh key is what a lookup of that key finds. */
  lemma FindOrderAppend(orders: seq<Order>, o: Order)
    requires FindOrder(orders, o.sessionId).None?
    ensures FindOrder(orders + [o], o.sessionId) == Some(o)
  {
    var all := orders + [o];
    assert all[|orders|] == o;
    assert forall k :: 0 <= k < |orders| ==> all[k] == orders[k];
  }

  /** Under the unique index, a `ref_id` is carried by at most one log of each type. */
  lemma RefIdAtMostOnce(logs: seq<CreditLog>, kind: LogType, ref: string)
    requires RefsUnique(logs)
    ensures Count(logs, (l: CreditLog) => l.kind == kind && l.refId == Some(ref)) <= 1
  {
    var p := (l: CreditLog) => l.kind == kind && l.refId == Some(ref);
    forall i, j | 0 <= i < j < |logs| && p(logs[i]) ensures !p(logs[j]) {
    }
    CountAtMostOne(logs, p);
  }

  class Db {
    var users: seq<Account>
    var logs: seq<CreditLog>
    var orders: seq<Order>
    var anon: map<string, AnonUsage>
    var history: seq<UsageRecord>
    var stripeEvents: seq<StripeEventRow>
    var clerkEvents: seq<ClerkEventRow>

    function State(): Tables
      reads this
    {
      Tables(users, logs, orders, anon, history, stripeEvents, clerkEvents)
    }

    ghost predicate Valid()
      reads this
    {
      TablesValid(State())
    }

    constructor ()
      ensures Valid()
      ensures State() == Tables([], [], [], map[], [], [], [])
    {
      users, logs, orders, anon, history := [], [], [], map[], [];
      stripeEvents, clerkEvents := [], [];
    }

    // ----- user_credits -----

    /** `insert(...).select('user_id').single()` on `user_credits` with `balance = 0`. */
    method InsertUser(clerk: string, email: string, displayName: Option<string>, fault: Fault)
      returns (r: Result<nat, StoreError>)
      requires Valid()
      modifies this
      ensures Valid()
      ensures fault.Some? ==> r == Failure(fault.value) && State() == old(State())
      ensures fault.None? && FindUserByClerk(old(users), clerk).Some? ==>
        r == Failure(DuplicateClerkUser) && State() == old(State())
      ensures fault.None? && FindUserByClerk(old(users), clerk).None? ==>
        r == Success(|old(users)| + 1) &&
        State() == old(State()).(users := old(users) + [Account(|old(users)| + 1, clerk, email, displayName, 0, None, None)])
    {
      if fault.Some? {
        return Failure(fault.value);
      }
      if FindUserByClerk(users, clerk).Some? {
        return Failure(DuplicateClerkUser);
      }
      users := users + [Account(|users| + 1, clerk, email, displayName, 0, None, None)];
      r := Success(|users|);
    }

    /** `update({email, display_name}).eq('clerk_user_id', clerk)`: zero matching rows is no error. */
    method UpdateUserProfile(clerk: string, email: string, displayName: Option<string>, fault: Fault)
      returns (err: Option<StoreError>)
      requires Valid()
      modifies this
      ensures Valid()
      ensures err == fault
      ensures fault.Some? || FindUserByClerk(old(users), clerk).None? ==> State() == old(State())
      ensures fault.None? && FindUserByClerk(old(users), clerk).Some? ==>
        var a := FindUserByClerk(old(users), clerk).value;
        State() == old(State()).(users := old(users)[a.userId - 1 := a.(email := email, displayName := displayName)])
    {
      err := fault;
      if fault.None? {
        var found := FindUserByClerk(users, clerk);
        if found.Some? {
          var a := found.value;
          users := users[a.userId - 1 := a.(email := email, displayName := displayName)];
        }
      }
    }

    /**
     * `update({email, display_name}).eq('clerk_user_id', clerk).select('user_id').single()`:
     * the same update, but zero matching rows is the `PGRST116` error.
     */
    method UpdateUserProfileSingle(clerk: string, email: string, displayName: Option<string>, fault: Fault)
      returns (r: Result<nat, StoreError>)
      requires Valid()
      modifies this
      ensures Valid()
      ensures fault.Some? ==> r == Failure(fault.value) && State() == old(State())
      ensures fault.None? && FindUserByClerk(old(users), clerk).None? ==>
        r == Failure(NoRows) && State() == old(State())
      ensures fault.None? && FindUserByClerk(old(users), clerk).Some? ==>
        var a := FindUserByClerk(old(users), clerk).value;
        r == Success(a.userId) &&
        State() == old(State()).(users := old(users)[a.userId - 1 := a.(email := email, displayName := displayName)])
    {
      if fault.Some? {
        return Failure(fault.value);
      }
      var found := FindUserByClerk(users, clerk);
      if found.None? {
        return Failure(NoRows);
      }
      var a := found.value;
      users := users[a.userId - 1 := a.(email := email, displayName := displayName)];
      r := Success(a.userId);
    }

    /** `update({deleted_at}).eq('clerk_user_id', clerk).select('user_id').single()`. */
    method MarkUserDeleted(clerk: string, now: int, fault: Fault) returns (r: Result<nat, StoreError>)
      requires Valid()
      modifies this
      ensures Valid()
      ensures fault.Some? ==> r == Failure(fault.value) && State() == old(State())
      ensures fault.None? && FindUserByClerk(old(users), clerk).None? ==>
        r == Failure(NoRows) && State() == old(State())
      ensures fault.None? && FindUserByClerk(old(users), clerk).Some? ==>
        var a := FindUserByClerk(old(users), clerk).value;
        r == Success(a.userId) &&
        State() == old(State()).(users := old(users)[a.userId - 1 := a.(deletedAt := Some(now))])
    {
      if fault.Some? {
        return Failure(fault.value);
      }
      var found := FindUserByClerk(users, clerk);
      if found.None? {
        return Failure(NoRows);
      }
      var a := found.value;
      users := users[a.userId - 1 := a.(deletedAt := Some(now))];
      r := Success(a.userId);
    }

    // ----- credit_logs and the stored procedures -----

    /**
     * Stand-in for `consume_credits`: checks the account, its expiry and its
     * balance, debits it and appends a pending `consume` log.
     */
    method ConsumeProc(userId: int, credits: int, refId: Option<string>, now: int, fault: Fault)
      returns (r: Result<nat, StoreError>)
      requires Valid()
      modifies this
      ensures Valid()
      ensures r.Failure? ==> State() == old(State())
      ensures fault.Some? ==> r == Failure(fault.value)
      ensures fault.None? ==> (r.Failure? <==> ConsumeRefusal(old(users), old(logs), userId, credits, refId, now).Some?)
      ensures fault.None? && r.Failure? ==> r.error == ConsumeRefusal(old(users), old(logs), userId, credits, refId, now).value
      ensures r.Success? ==> FindUserById(old(users), userId).Some?
      ensures r.Success? ==>
        var a := FindUserById(old(users), userId).value;
        (a.expiresAt.None? || a.expiresAt.value >= now) && a.balance >= credits &&
        r.value == |old(logs)| + 1 &&
        State() == old(State()).(
          users := old(users)[userId - 1 := a.(balance := a.balance - credits)],
          logs := old(logs) + [CreditLog(|old(logs)| + 1, Some(userId), None, Consume, LogPending,
                                         -credits, refId, None, now, now)])
    {
      if fault.Some? {
        return Failure(fault.value);
      }
      var refusal := ConsumeRefusal(users, logs, userId, credits, refId, now);
      if refusal.Some? {
        return Failure(refusal.value);
      }
      var a := users[userId - 1];
      users := users[userId - 1 := a.(balance := a.balance - credits)];
      logs := logs + [CreditLog(|logs| + 1, Some(userId), None, Consume, LogPending, -credits, refId, None, now, now)];
      r := Success(|logs|);
    }

    /**
     * Stand-in for `refund_credits`: a pending `consume` log becomes
     * `refunded`, records the reason and gives its credits back.
     */
    method RefundProc(logId: int, reason: string, now: int, fault: Fault) returns (err: Option<StoreError>)
      requires Valid()
      modifies this
      ensures Valid()
      ensures err.Some? ==> State() == old(State())
      ensures fault.Some? ==> err == fault
      ensures (fault.None? && FindLog(old(logs), logId).Some? && FindLog(old(logs), logId).value.kind == Consume &&
               FindLog(old(logs), logId).value.status == LogPending) ==> err.None?
      ensures err.None? ==> FindLog(old(logs), logId).Some?
      ensures err.None? ==>
        var l := FindLog(old(logs), logId).value;
        l.kind == Consume && l.status == LogPending &&
        users == (if l.userId.Some? && FindUserById(old(users), l.userId.value).Some?
                  then var a := FindUserById(old(users), l.userId.value).value;
                       old(users)[a.userId - 1 := a.(balance := a.balance - l.credits)]
                  else old(users)) &&
        State() == old(State()).(
          users := users,
          logs := old(logs)[logId - 1 := l.(status := Refunded, updatedAt := now,
                                            metadata := Some(map["refund_reason" := JStr(reason)]))])
    {
      if fault.Some? {
        return fault;
      }
      var found := FindLog(logs, logId);
      if found.None? || found.value.kind != Consume || found.value.status != LogPending {
        return Some(StoreError("P0001", "Log not found or not refundable"));
      }
      var l := found.value;
      logs := logs[logId - 1 := l.(status := Refunded, updatedAt := now,
                                   metadata := Some(map["refund_reason" := JStr(reason)]))];
      if l.userId.Some? && FindUserById(users, l.userId.value).Some? {
        var a := FindUserById(users, l.userId.value).value;
        users := users[a.userId - 1 := a.(balance := a.balance - l.credits)];
      }
      err := None;
    }

    /**
     * Stand-in for `add_credits`: credits an existing account, extends its
     * expiry to a year after the payment time unless it already runs later,
     * and appends a confirmed log dated at the payment time when one is
     * given; the unique index rejects a second log of the same type with the
     * same `ref_id`.
     */
    method AddProc(userId: Option<int>, credits: int, kind: LogType, refId: Option<string>,
                   metadata: Option<Extra>, paymentTime: Option<int>, now: int, fault: Fault)
      returns (err: Option<StoreError>)
      requires Valid()
      modifies this
      ensures Valid()
      ensures err.Some? ==> State() == old(State())
      ensures fault.Some? ==> err == fault
      ensures refId.Some? && RefTaken(old(logs), kind, refId.value) ==> err.Some?
      ensures (fault.None? && userId.Some? && FindUserById(old(users), userId.value).Some? &&
               (refId.None? || !RefTaken(old(logs), kind, refId.value))) ==> err.None?
      ensures err.None? ==> userId.Some? && FindUserById(old(users), userId.value).Some?
      ensures err.None? ==>
        var a := FindUserById(old(users), userId.value).value;
        State() == old(State()).(
          users := old(users)[userId.value - 1 := a.(balance := a.balance + credits,
                                                     expiresAt := Some(RechargedExpiry(a.expiresAt, paymentTime.GetOr(now))))],
          logs := old(logs) + [CreditLog(|old(logs)| + 1, userId, None, kind, Confirmed,
                                         credits, refId, metadata, paymentTime.GetOr(now), now)])
    {
      if fault.Some? {
        return fault;
      }
      if userId.None? || FindUserById(users, userId.value).None? {
        return Some(UserMissing);
      }
      if refId.Some? && RefTaken(logs, kind, refId.value) {
        return Some(DuplicateLogRef);
      }
      var a := FindUserById(users, userId.value).value;
      users := users[userId.value - 1 := a.(balance := a.balance + credits,
                                            expiresAt := Some(RechargedExpiry(a.expiresAt, paymentTime.GetOr(now))))];
      logs := logs + [CreditLog(|logs| + 1, userId, None, kind, Confirmed, credits, refId, metadata,
                                paymentTime.GetOr(now), now)];
      err := None;
    }

    /** `insert` of one `credit_logs` row for an anonymous visitor. */
    method InsertAnonLog(anonId: string, kind: LogType, status: LogStatus, credits: int,
                         refId: Option<string>, metadata: Option<Extra>, now: int, fault: Fault)
      returns (err: Option<StoreError>)
      requires Valid()
      modifies this
      ensures Valid()
      ensures err.Some? ==> State() == old(State())
      ensures fault.Some? ==> err == fault
      ensures fault.None? && (refId.None? || !RefTaken(old(logs), kind, refId.value)) ==>
        err.None? &&
        State() == old(State()).(
          logs := old(logs) + [CreditLog(|old(logs)| + 1, None, Some(anonId), kind, status,
                                         credits, refId, metadata, now, now)])
      ensures fault.None? && refId.Some? && RefTaken(old(logs), kind, refId.value) ==> err == Some(DuplicateLogRef)
    {
      if fault.Some? {
        return fault;
      }
      if refId.Some? && RefTaken(logs, kind, refId.value) {
        return Some(DuplicateLogRef);
      }
      logs := logs + [CreditLog(|logs| + 1, None, Some(anonId), kind, status, credits, refId, metadata, now, now)];
      err := None;
    }

    /** `update({status: 'confirmed', updated_at}).eq('id', logId).eq('status', 'pending')`. */
    method ConfirmLog(logId: int, now: int, fault: Fault) returns (err: Option<StoreError>)
      requires Valid()
      modifies this
      ensures Valid()
      ensures err == fault
      ensures fault.Some? || FindLog(old(logs), logId).None? || FindLog(old(logs), logId).value.status != LogPending ==>
        State() == old(State())
      ensures fault.None? && FindLog(old(logs), logId).Some? && FindLog(old(logs), logId).value.status == LogPending ==>
        var l := FindLog(old(logs), logId).value;
        State() == old(State()).(logs := old(logs)[logId - 1 := l.(status := Confirmed, updatedAt := now)])
    {
      err := fault;
      if fault.None? {
        var found := FindLog(logs, logId);
        if found.Some? && found.value.status == LogPending {
          logs := logs[logId - 1 := found.value.(status := Confirmed, updatedAt := now)];
        }
      }
    }

    // ----- orders -----

    /** `insert` into `orders`; a second row for a `session_id` violates its unique key. */
    method InsertOrder(row: Order, fault: Fault) returns (err: Option<StoreError>)
      requires Valid()
      modifies this
      ensures Valid()
      ensures err.Some? ==> State() == old(State())
      ensures fault.Some? ==> err == fault
      ensures fault.None? && FindOrder(old(orders), row.sessionId).Some? ==> err == Some(DuplicateSession)
      ensures fault.None? && FindOrder(old(orders), row.sessionId).None? ==>
        err.None? && State() == old(State()).(orders := old(orders) + [row])
    {
      if fault.Some? {
        return fault;
      }
      if FindOrder(orders, row.sessionId).Some? {
        return Some(DuplicateSession);
      }
      orders := orders + [row];
      err := None;
    }

    /**
     * `update(patch).eq('session_id', sid)`, with `.eq('state', 'pending')`
     * when `onlyPending`, read back with `.select().single()`.
     */
    method UpdateOrder(sid: string, patch: OrderPatch, onlyPending: bool, fault: Fault)
      returns (r: Result<Order, StoreError>)
      requires Valid()
      modifies this
      ensures Valid()
      ensures r.Failure? ==> State() == old(State())
      ensures fault.Some? ==> r == Failure(fault.value)
      ensures fault.None? ==>
        var found := FindOrder(old(orders), sid);
        if found.None? || (onlyPending && found.value.state != Pending) then
          r == Failure(NoRows)
        else
          var i := OrderIndex(old(orders), sid);
          r == Success(ApplyPatch(found.value, patch)) &&
          State() == old(State()).(orders := old(orders)[i := ApplyPatch(found.value, patch)])
    {
      if fault.Some? {
        return Failure(fault.value);
      }
      var i := OrderIndex(orders, sid);
      if i == |orders| || (onlyPending && orders[i].state != Pending) {
        return Failure(NoRows);
      }
      var o := ApplyPatch(orders[i], patch);
      OrdersValidReplace(orders, i, o);
      orders := orders[i := o];
      r := Success(o);
    }

    // ----- anon_usage -----

    method InsertAnon(row: AnonUsage, fault: Fault) returns (err: Option<StoreError>)
      requires Valid()
      modifies this
      ensures Valid()
      ensures err.Some? ==> State() == old(State())
      ensures fault.Some? ==> err == fault
      ensures fault.None? && row.anonId in old(anon) ==> err == Some(DuplicateAnon)
      ensures fault.None? && row.anonId !in old(anon) ==>
        err.None? && State() == old(State()).(anon := old(anon)[row.anonId := row])
    {
      if fault.Some? {
        return fault;
      }
      if row.anonId in anon {
        return Some(DuplicateAnon);
      }
      anon := anon[row.anonId := row];
      err := None;
    }

    /** `update({usage_count, last_used_at}).eq('anon_id', id)`. */
    method UpdateAnonUsage(id: string, usageCount: int, lastUsedAt: int, fault: Fault)
      returns (err: Option<StoreError>)
      requires Valid()
      modifies this
      ensures Valid()
      ensures err == fault
      ensures fault.Some? || id !in old(anon) ==> State() == old(State())
      ensures fault.None? && id in old(anon) ==>
        State() == old(State()).(anon := old(anon)[id := old(anon)[id].(usageCount := usageCount,
                                                                         lastUsedAt := Some(lastUsedAt))])
    {
      err := fault;
      if fault.None? && id in anon {
        anon := anon[id := anon[id].(usageCount := usageCount, lastUsedAt := Some(lastUsedAt))];
      }
    }

    // ----- user_usage_history -----

    /** `insert(...).select().single()`; the new row gets the next serial id. */
    method InsertRecord(row: UsageRecord, fault: Fault) returns (r: Result<UsageRecord, StoreError>)
      requires Valid()
      modifies this
      ensures Valid()
      ensures fault.Some? ==> r == Failure(fault.value) && State() == old(State())
      ensures fault.None? ==>
        r == Success(row.(id := |old(history)| + 1)) &&
        State() == old(State()).(history := old(history) + [row.(id := |old(history)| + 1)])
    {
      if fault.Some? {
        return Failure(fault.value);
      }
      var stored := row.(id := |history| + 1);
      history := history + [stored];
      r := Success(stored);
    }

    /** `update({status: 'deleted', updated_at}).eq('id', id).eq('clerk_user_id', clerk)`. */
    method SoftDeleteRecord(id: int, clerk: string, now: int, fault: Fault) returns (err: Option<StoreError>)
      requires Valid()
      modifies this
      ensures Valid()
      ensures err == fault
      ensures (fault.Some? || FindRecord(old(history), id).None? ||
               FindRecord(old(history), id).value.clerkUserId != Some(clerk)) ==> State() == old(State())
      ensures fault.None? && FindRecord(old(history), id).Some? &&
              FindRecord(old(history), id).value.clerkUserId == Some(clerk) ==>
        var h := FindRecord(old(history), id).value;
        State() == old(State()).(history := old(history)[id - 1 := h.(status := Deleted, updatedAt := now)])
    {
      err := fault;
      if fault.None? {
        var found := FindRecord(history, id);
        if found.Some? && found.value.clerkUserId == Some(clerk) {
          history := history[id - 1 := found.value.(status := Deleted, updatedAt := now)];
        }
      }
    }

    // ----- event logs -----

    method RecordStripeEvent(row: StripeEventRow, fault: Fault) returns (err: Option<StoreError>)
      requires Valid()
      modifies this
      ensures Valid()
      ensures err == fault
      ensures fault.Some? ==> State() == old(State())
      ensures fault.None? ==> State() == old(State()).(stripeEvents := old(stripeEvents) + [row])
    {
      err := fault;
      if fault.None? {
        stripeEvents := stripeEvents + [row];
      }
    }

    method RecordClerkEvent(row: ClerkEventRow, fault: Fault) returns (err: Option<StoreError>)
      requires Valid()
      modifies this
      ensures Valid()
      ensures err == fault
      ensures fault.Some? ==> State() == old(State())
      ensures fault.None? ==> State() == old(State()).(clerkEvents := old(clerkEvents) + [row])
    {
      err := fault;
      if fault.None? {
        clerkEvents := clerkEvents + [row];
      }
    }
  }
}
