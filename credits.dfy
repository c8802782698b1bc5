/**
 * The credits library: account lookups, the expiry check and the wrappers
 * around the credit stored procedures. Only the guards and the mapping of
 * store answers to results belong to this layer; the balance arithmetic is
 * the stand-in procedures' of module `Store`.
 */
module Credits {
  import opened Wrappers
  import opened Text
  import opened Seqs
  import opened Store

  /** The `UserCreditInfo` a lookup returns. */
  datatype UserCreditInfo = UserCreditInfo(
    userId: nat,
    clerkUserId: string,
    balance: int,
    expiresAt: Option<int>,
    email: string,
    displayName: Option<string>)

  /** `ConsumeResult`: optional fields are `None` where the source leaves them out. */
  datatype ConsumeResult = ConsumeResult(
    success: bool,
    logId: Option<nat>,
    remainingBalance: Option<int>,
    error: Option<string>)

  const InvalidAmount := ConsumeResult(false, None, None, Some("Invalid credits amount"))
  const DefaultRefundReason := "AI service error"

  /** The store errors `consumeCredits` reports as a refusal instead of throwing. */
  predicate IsRefusal(message: string) {
    Contains(message, "Insufficient credits") || Contains(message, "Credits expired")
  }

  /** The procedure's expiry and balance refusals are recognised; a missing account is not one. */
  lemma RefusalMessages()
    ensures IsRefusal(CreditsExpired.message) && IsRefusal(InsufficientCredits.message)
    ensures !IsRefusal(UserMissing.message)
  {
    ContainsSelf(CreditsExpired.message);
    ContainsSelf(InsufficientCredits.message);
    ShorterNotContains(UserMissing.message, InsufficientCredits.message);
    ShorterNotContains(UserMissing.message, CreditsExpired.message);
  }

  /**
   * `getUserIdByClerkId`: the id of the account with this Clerk id, `null`
   * when the store reports no row, an exception for any other error.
   */
  function GetUserIdByClerkId(db: Db, clerk: string, fault: Fault): (r: Outcome<Option<nat>>)
    reads db
    requires db.Valid()
    ensures r.Return? && r.value.Some? ==>
      fault.None? && exists i :: 0 <= i < |db.users| && db.users[i].clerkUserId == clerk && db.users[i].userId == r.value.value
    ensures r == Return(None) <==>
      (fault.None? && forall i :: 0 <= i < |db.users| ==> db.users[i].clerkUserId != clerk) ||
      (fault.Some? && fault.value.code == NotFoundCode)
    ensures r.Throw? <==> fault.Some? && fault.value.code != NotFoundCode
  {
    match Single(FindUserByClerk(db.users, clerk), fault)
    case Failure(e) =>
      if e.code == NotFoundCode then Return(None) else Throw("Failed to get user: " + e.message)
    case Success(a) => Return(Some(a.userId))
  }

  /** `getUserCredits`: the account's profile and balance (a null balance reads as 0). */
  function GetUserCredits(db: Db, userId: int, fault: Fault): (r: Outcome<Option<UserCreditInfo>>)
    reads db
    requires db.Valid()
    ensures r.Return? && r.value.Some? ==>
      fault.None? && 1 <= userId <= |db.users| &&
      var a := db.users[userId - 1];
      r.value.value == UserCreditInfo(a.userId, a.clerkUserId, a.balance, a.expiresAt, a.email, a.displayName)
    ensures r == Return(None) <==>
      (fault.None? && !(1 <= userId <= |db.users|)) || (fault.Some? && fault.value.code == NotFoundCode)
    ensures r.Throw? <==> fault.Some? && fault.value.code != NotFoundCode
  {
    match Single(FindUserById(db.users, userId), fault)
    case Failure(e) =>
      if e.code == NotFoundCode then Return(None) else Throw("Failed to get user credits: " + e.message)
    case Success(a) =>
      Return(Some(UserCreditInfo(a.userId, a.clerkUserId, a.balance, a.expiresAt, a.email, a.displayName)))
  }

  /**
   * `checkCreditExpiration`: an unreadable or missing account counts as
   * expired; an account without a deadline never expires.
   */
  function CheckCreditExpiration(db: Db, userId: int, now: int, fault: Fault): (expired: bool)
    reads db
    requires db.Valid()
    ensures fault.Some? || !(1 <= userId <= |db.users|) ==> expired
    ensures fault.None? && 1 <= userId <= |db.users| ==>
      (expired <==> db.users[userId - 1].expiresAt.Some? && db.users[userId - 1].expiresAt.value < now)
  {
    match Single(FindUserById(db.users, userId), fault)
    case Failure(_) => true
    case Success(a) => if a.expiresAt.None? then false else a.expiresAt.value < now
  }

  /** Once an account's credits have expired they stay expired as time goes on. */
  lemma ExpirationIsMonotone(db: Db, userId: int, t1: int, t2: int, fault: Fault)
    requires db.Valid() && t1 <= t2
    ensures CheckCreditExpiration(db, userId, t1, fault) ==> CheckCreditExpiration(db, userId, t2, fault)
  {
  }

  /**
   * `consumeCredits`: a non-positive amount is refused before any store
   * call; otherwise the `consume_credits` procedure runs and its refusals
   * ("Insufficient credits", "Credits expired") are returned while every
   * other error is thrown. On success the balance is read back, 0 when that
   * read fails.
   */
  method ConsumeCredits(db: Db, userId: int, credits: int, refId: Option<string>, now: int,
                        rpcFault: Fault, readFault: Fault)
    returns (r: Outcome<ConsumeResult>)
    requires db.Valid()
    modifies db
    ensures db.Valid()
    ensures credits <= 0 ==> r == Return(InvalidAmount) && db.State() == old(db.State())
    ensures !(r.Return? && r.value.success) ==> db.State() == old(db.State())
    ensures credits > 0 && rpcFault.Some? ==>
      (if IsRefusal(rpcFault.value.message)
       then r == Return(ConsumeResult(false, None, None, Some(rpcFault.value.message)))
       else r == Throw("Failed to consume credits: " + rpcFault.value.message))
    ensures r.Return? && r.value.success ==>
      credits > 0 && 1 <= userId <= |old(db.users)| &&
      r.value.logId == Some(|old(db.logs)| + 1) &&
      db.logs == old(db.logs) + [CreditLog(|old(db.logs)| + 1, Some(userId), None, Consume, LogPending,
                                           -credits, if Truthy(refId) then refId else None, None, now, now)] &&
      r.value.remainingBalance == Some(if readFault.None? then old(db.users)[userId - 1].balance - credits else 0) &&
      db.users == old(db.users)[userId - 1 := old(db.users)[userId - 1].(balance := old(db.users)[userId - 1].balance - credits)]
    ensures db.State() == old(db.State()).(users := db.users, logs := db.logs)
    ensures credits > 0 && rpcFault.None? && 1 <= userId <= |old(db.users)| &&
            (var a := old(db.users)[userId - 1]; (a.expiresAt.None? || a.expiresAt.value >= now) && a.balance >= credits) &&
            (!Truthy(refId) || !RefTaken(old(db.logs), Consume, refId.value)) ==>
      r.Return? && r.value.success
    // the procedure's own refusals come back as results; a missing account is thrown
    ensures credits > 0 && rpcFault.None? &&
            ConsumeRefusal(old(db.users), old(db.logs), userId, credits, if Truthy(refId) then refId else None, now).Some? ==>
      r == ProcFailure(ConsumeRefusal(old(db.users), old(db.logs), userId, credits, if Truthy(refId) then refId else None, now).value.message)
    ensures credits > 0 && rpcFault.None? && 1 <= userId <= |old(db.users)| && ExpiredAt(old(db.users)[userId - 1], now) ==>
      r == Return(ConsumeResult(false, None, None, Some(CreditsExpired.message)))
    ensures credits > 0 && rpcFault.None? && 1 <= userId <= |old(db.users)| && !ExpiredAt(old(db.users)[userId - 1], now) &&
            old(db.users)[userId - 1].balance < credits ==>
      r == Return(ConsumeResult(false, None, None, Some(InsufficientCredits.message)))
    ensures credits > 0 && rpcFault.None? && !(1 <= userId <= |old(db.users)|) ==>
      r == Throw("Failed to consume credits: " + UserMissing.message)
  {
    if credits <= 0 {
      r := Return(InvalidAmount);
    } else {
      var ref := if Truthy(refId) then refId else None;
      var rpc := db.ConsumeProc(userId, credits, ref, now, rpcFault);
      if rpc.Failure? {
        r := ProcFailure(rpc.error.message);
      } else {
        var balance := ReadBalance(db.users, userId, readFault);
        r := Return(ConsumeResult(true, Some(rpc.value), Some(balance), None));
      }
    }
    ConsumeStepFacts(old(db.users), old(db.logs), userId, credits, refId, now, rpcFault, readFault, r, db.users, db.logs);
  }

  /**
   * One `consumeCredits` call as a relation between the tables before and
   * after it and its answer.
   */
  ghost predicate ConsumeStep(users: seq<Account>, logs: seq<CreditLog>, userId: int, credits: int,
                              ref: Option<string>, now: int, rpcFault: Fault, readFault: Fault,
                              r: Outcome<ConsumeResult>, users': seq<Account>, logs': seq<CreditLog>)
  {
    if credits <= 0 then r == Return(InvalidAmount) && users' == users && logs' == logs
    else
      var refusal := if rpcFault.Some? then rpcFault else ConsumeRefusal(users, logs, userId, credits, ref, now);
      if refusal.Some? then r == ProcFailure(refusal.value.message) && users' == users && logs' == logs
      else
        1 <= userId <= |users| &&
        users' == users[userId - 1 := users[userId - 1].(balance := users[userId - 1].balance - credits)] &&
        logs' == logs + [CreditLog(|logs| + 1, Some(userId), None, Consume, LogPending, -credits, ref, None, now, now)] &&
        r == Return(ConsumeResult(true, Some(|logs| + 1),
                                  Some(if readFault.None? then users[userId - 1].balance - credits else 0), None))
  }

  /** What a `consumeCredits` step answers and changes, case by case. */
  lemma ConsumeStepFacts(users: seq<Account>, logs: seq<CreditLog>, userId: int, credits: int, refId: Option<string>,
                         now: int, rpcFault: Fault, readFault: Fault,
                         r: Outcome<ConsumeResult>, users': seq<Account>, logs': seq<CreditLog>)
    requires ConsumeStep(users, logs, userId, credits, if Truthy(refId) then refId else None, now, rpcFault, readFault,
                         r, users', logs')
    ensures credits <= 0 ==> r == Return(InvalidAmount)
    ensures !(r.Return? && r.value.success) ==> users' == users && logs' == logs
    ensures credits > 0 && rpcFault.Some? ==>
      (if IsRefusal(rpcFault.value.message)
       then r == Return(ConsumeResult(false, None, None, Some(rpcFault.value.message)))
       else r == Throw("Failed to consume credits: " + rpcFault.value.message))
    ensures r.Return? && r.value.success ==>
      credits > 0 && 1 <= userId <= |users| &&
      r.value.logId == Some(|logs| + 1) &&
      logs' == logs + [CreditLog(|logs| + 1, Some(userId), None, Consume, LogPending,
                                 -credits, if Truthy(refId) then refId else None, None, now, now)] &&
      r.value.remainingBalance == Some(if readFault.None? then users[userId - 1].balance - credits else 0) &&
      users' == users[userId - 1 := users[userId - 1].(balance := users[userId - 1].balance - credits)]
    ensures credits > 0 && rpcFault.None? && 1 <= userId <= |users| &&
            (var a := users[userId - 1]; (a.expiresAt.None? || a.expiresAt.value >= now) && a.balance >= credits) &&
            (!Truthy(refId) || !RefTaken(logs, Consume, refId.value)) ==>
      r.Return? && r.value.success
    ensures credits > 0 && rpcFault.None? &&
            ConsumeRefusal(users, logs, userId, credits, if Truthy(refId) then refId else None, now).Some? ==>
      r == ProcFailure(ConsumeRefusal(users, logs, userId, credits, if Truthy(refId) then refId else None, now).value.message)
    ensures credits > 0 && rpcFault.None? && 1 <= userId <= |users| && ExpiredAt(users[userId - 1], now) ==>
      r == Return(ConsumeResult(false, None, None, Some(CreditsExpired.message)))
    ensures credits > 0 && rpcFault.None? && 1 <= userId <= |users| && !ExpiredAt(users[userId - 1], now) &&
            users[userId - 1].balance < credits ==>
      r == Return(ConsumeResult(false, None, None, Some(InsufficientCredits.message)))
    ensures credits > 0 && rpcFault.None? && !(1 <= userId <= |users|) ==>
      r == Throw("Failed to consume credits: " + UserMissing.message)
  {
    RefusalMessages();
  }

  /** A failed `consume_credits` call: a refusal is returned, anything else thrown. */
  function ProcFailure(message: string): (r: Outcome<ConsumeResult>)
    ensures IsRefusal(message) <==> r.Return?
    ensures r.Return? ==> !r.value.success && r.value.error == Some(message)
    ensures r.Throw? ==> r.message == "Failed to consume credits: " + message
  {
    if IsRefusal(message) then Return(ConsumeResult(false, None, None, Some(message)))
    else Throw("Failed to consume credits: " + message)
  }

  /** The balance read back after a debit: the stored balance, 0 when the read fails. */
  function ReadBalance(users: seq<Account>, userId: int, fault: Fault): (b: int)
    requires UsersValid(users)
    ensures b == (if fault.None? && 1 <= userId <= |users| then users[userId - 1].balance else 0)
  {
    match Single(FindUserById(users, userId), fault)
    case Success(a) => a.balance
    case Failure(_) => 0
  }

  /**
   * `refundCredits`: only a pending `consume` log is handed to the
   * `refund_credits` procedure; the answer is whether that call succeeded.
   */
  method RefundCredits(db: Db, logId: int, reason: Option<string>, now: int, selectFault: Fault, rpcFault: Fault)
    returns (ok: bool)
    requires db.Valid()
    modifies db
    ensures db.Valid()
    ensures !ok ==> db.State() == old(db.State())
    ensures ok <==>
      selectFault.None? && rpcFault.None? && FindLog(old(db.logs), logId).Some? &&
      FindLog(old(db.logs), logId).value.kind == Consume && FindLog(old(db.logs), logId).value.status == LogPending
    ensures ok ==>
      db.logs == old(db.logs)[logId - 1 := old(db.logs)[logId - 1].(
        status := Refunded, updatedAt := now,
        metadata := Some(map["refund_reason" := JStr(OrElse(reason, DefaultRefundReason))]))]
    ensures ok ==>
      var l := FindLog(old(db.logs), logId).value;
      db.users == (if l.userId.Some? && FindUserById(old(db.users), l.userId.value).Some?
                   then var a := FindUserById(old(db.users), l.userId.value).value;
                        old(db.users)[a.userId - 1 := a.(balance := a.balance - l.credits)]
                   else old(db.users)) &&
      db.State() == old(db.State()).(users := db.users, logs := db.logs)
  {
    var log := Single(FindLog(db.logs, logId), selectFault);
    if log.Failure? || log.value.kind != Consume || log.value.status != LogPending {
      return false;
    }
    var err := db.RefundProc(logId, OrElse(reason, DefaultRefundReason), now, rpcFault);
    ok := err.None?;
  }

  /**
   * `confirmConsumption`: a pending log becomes confirmed; a log in any
   * other status is left alone, and the answer is `true` whenever the store
   * reported no error.
   */
  method ConfirmConsumption(db: Db, logId: int, now: int, fault: Fault) returns (ok: bool)
    requires db.Valid()
    modifies db
    ensures db.Valid()
    ensures ok <==> fault.None?
    ensures !ok ==> db.State() == old(db.State())
    ensures db.users == old(db.users) && db.orders == old(db.orders) && |db.logs| == |old(db.logs)|
    ensures forall i :: 0 <= i < |db.logs| && i != logId - 1 ==> db.logs[i] == old(db.logs)[i]
    ensures forall i :: 0 <= i < |db.logs| && old(db.logs)[i].status != LogPending ==> db.logs[i] == old(db.logs)[i]
    ensures ok && 1 <= logId <= |db.logs| && old(db.logs)[logId - 1].status == LogPending ==>
      db.logs[logId - 1] == old(db.logs)[logId - 1].(status := Confirmed, updatedAt := now)
    ensures db.State() == old(db.State()).(logs := db.logs)
  {
    var err := db.ConfirmLog(logId, now, fault);
    ok := err.None?;
  }

  /**
   * `addCredits`: runs `add_credits` and answers whether it raised no error,
   * so a duplicate `ref_id` and any other failure both read as `false`.
   */
  method AddCredits(db: Db, userId: Option<int>, credits: int, refId: Option<string>,
                    metadata: Option<Extra>, paymentTime: Option<int>, now: int, fault: Fault)
    returns (ok: bool)
    requires db.Valid()
    modifies db
    ensures db.Valid()
    ensures !ok ==> db.State() == old(db.State())
    ensures fault.Some? ==> !ok
    ensures Truthy(refId) && RefTaken(old(db.logs), Recharge, refId.value) ==> !ok
    ensures (fault.None? && userId.Some? && 1 <= userId.value <= |old(db.users)| &&
             (!Truthy(refId) || !RefTaken(old(db.logs), Recharge, refId.value))) ==> ok
    ensures ok ==>
      userId.Some? && 1 <= userId.value <= |old(db.users)| &&
      db.logs == old(db.logs) + [CreditLog(|old(db.logs)| + 1, userId, None, Recharge, Confirmed, credits,
                                           if Truthy(refId) then refId else None, metadata,
                                           paymentTime.GetOr(now), now)]
    ensures ok ==>
      var a := old(db.users)[userId.value - 1];
      db.users == old(db.users)[userId.value - 1 := a.(balance := a.balance + credits,
                                                       expiresAt := Some(RechargedExpiry(a.expiresAt, paymentTime.GetOr(now))))]
    ensures db.State() == old(db.State()).(users := db.users, logs := db.logs)
    ensures ok && Truthy(refId) ==>
      Count(db.logs, (l: CreditLog) => l.kind == Recharge && l.refId == refId) == 1
  {
    var ref := if Truthy(refId) then refId else None;
    var err := db.AddProc(userId, credits, Recharge, ref, metadata, paymentTime, now, fault);
    ok := err.None?;
    if ok && Truthy(refId) {
      RechargeRecorded(old(db.logs), db.logs, refId.value);
    }
  }

  /** A buyer who bought ten credits at time 0, which expire a year later. */
  method BuyerOfYearZero() returns (db: Db)
    ensures fresh(db) && db.Valid() && |db.users| == 1
    ensures db.users[0].expiresAt == Some(OneYearMs) && db.users[0].balance == 10
    ensures !RefTaken(db.logs, Recharge, "cs_2")
  {
    db := new Db();
    var _ := db.InsertUser("user_1", "buyer@example.com", None, None);
    var _ := AddCredits(db, Some(1), 10, Some("cs_1"), None, Some(0), 0, None);
    assert |db.logs| == 1 && db.logs[0].refId == Some("cs_1");
  }

  /** A second purchase two years in moves the expiry to three years. */
  method BuyAgain(db: Db)
    requires db.Valid() && |db.users| == 1 && !RefTaken(db.logs, Recharge, "cs_2")
    requires db.users[0].expiresAt == Some(OneYearMs) && db.users[0].balance == 10
    modifies db
    ensures db.Valid() && |db.users| == 1
    ensures db.users[0].expiresAt == Some(3 * OneYearMs) && db.users[0].balance == 20
  {
    var _ := AddCredits(db, Some(1), 10, Some("cs_2"), None, Some(2 * OneYearMs), 2 * OneYearMs, None);
  }

  /**
   * A buyer whose credits have expired is refused, buys a pack, and can
   * spend again: the recharge moves the expiry a year past the payment.
   */
  method RechargeRevivesExpiredAccount() returns (refused: Outcome<ConsumeResult>, spent: Outcome<ConsumeResult>)
    ensures refused == Return(ConsumeResult(false, None, None, Some(CreditsExpired.message)))
    ensures spent.Return? && spent.value.success
  {
    var db := BuyerOfYearZero();
    refused := ConsumeCredits(db, 1, 1, None, 2 * OneYearMs, None, None);
    BuyAgain(db);
    spent := ConsumeCredits(db, 1, 1, None, 2 * OneYearMs + 1, None, None);
  }

  /**
   * Appending a recharge log with a `ref_id` no earlier recharge log carries
   * leaves exactly one recharge log with that `ref_id`.
   */
  lemma {:induction false} RechargeRecorded(before: seq<CreditLog>, after: seq<CreditLog>, ref: string)
    requires !RefTaken(before, Recharge, ref)
    requires |after| == |before| + 1 && after[..|before|] == before
    requires after[|before|].kind == Recharge && after[|before|].refId == Some(ref)
    ensures Count(after, (l: CreditLog) => l.kind == Recharge && l.refId == Some(ref)) == 1
  {
    var p := (l: CreditLog) => l.kind == Recharge && l.refId == Some(ref);
    assert after == before + [after[|before|]];
    FilterAppend(before, [after[|before|]], p);
    forall i | 0 <= i < |before| ensures !p(before[i]) {
    }
    FilterNone(before, p);
  }
}
