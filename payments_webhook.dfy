/**
 * The Stripe webhook: it records every verified event and settles
 * `checkout.session.completed`. Settlement looks the order up (rebuilding it
 * from the session's metadata when it is missing), checks the payment status,
 * amount and currency, moves the order from `pending` to `paid` with a
 * conditional update and then grants the credits under the session id as
 * `ref_id`.
 *
 * Signature verification is a parameter (`signatureValid`); the event body is
 * the already-parsed `CheckoutSession`. ISO timestamps are integer
 * milliseconds and the `amount` column is in integer cents.
 */
module PaymentsWebhook {
  import opened Wrappers
  import opened Text
  import opened Seqs
  import opened Store
  import opened Pricing
  import Credits
  import Checkout

  /** The fields of a Stripe checkout session the handler reads. */
  datatype CheckoutSession = CheckoutSession(
    id: string,
    paymentStatus: string,
    amountTotal: Option<int>,
    currency: Option<string>,
    customerEmail: Option<string>,
    metadata: Option<map<string, string>>,
    paymentIntent: Option<string>,
    paymentMethodTypes: seq<string>,
    mode: string)

  /** What `handleCheckoutCompleted` returns. */
  datatype HandlerResult = HandlerResult(
    success: bool,
    message: Option<string>,
    error: Option<string>,
    idempotent: bool,
    concurrent: bool)

  const AlreadyProcessed := HandlerResult(true, Some("Already processed"), None, true, false)
  const ConcurrentlyProcessed := HandlerResult(true, Some("Already processed"), None, false, true)
  const CreditsAlreadyAdded := HandlerResult(true, Some("Credits already added"), None, true, false)
  const Processed := HandlerResult(true, None, None, false, false)

  function HandlerFailure(error: string): HandlerResult {
    HandlerResult(false, None, Some(error), false, false)
  }

  function StateName(s: OrderState): string {
    match s
    case Pending => "pending"
    case Paid => "paid"
    case Failed => "failed"
    case Disputed => "disputed"
  }

  /** The error the store reports for a row whose `credits` is null. */
  const NullCredits := StoreError(NotNullViolationCode,
    "null value in column \"credits\" of relation \"orders\" violates not-null constraint")

  // ----- JSON helpers -----

  /** `{...(extra ?? {}), ...patch}`: the patch's keys win, every other key is kept. */
  function MergeExtra(extra: Option<Extra>, patch: Extra): (r: Extra)
    ensures r.Keys == patch.Keys + (if extra.Some? then extra.value.Keys else {})
    ensures forall k :: k in patch ==> r[k] == patch[k]
    ensures extra.Some? ==> forall k :: k in extra.value && k !in patch ==> r[k] == extra.value[k]
  {
    (if extra.Some? then extra.value else map[]) + patch
  }

  /** Merging two patches in turn is merging their union, the later one winning. */
  lemma MergeExtraTwice(extra: Option<Extra>, p: Extra, q: Extra)
    ensures MergeExtra(Some(MergeExtra(extra, p)), q) == MergeExtra(extra, p + q)
  {
  }

  /** JavaScript truthiness of a JSON value. */
  predicate JsonTruthy(v: Json) {
    match v
    case JNull => false
    case JBool(b) => b
    case JNum(n) => n != 0
    case JStr(s) => s != ""
    case JArr(_) => true
    case JObj(_) => true
  }

  function IntToString(n: int): string {
    if n < 0 then "-" + NatToString(-n) else NatToString(n)
  }

  /** `String(v)`, with `null` inside an array printing as nothing. */
  function JsonText(v: Json): string
    decreases v, 1
  {
    match v
    case JNull => "null"
    case JBool(b) => if b then "true" else "false"
    case JNum(n) => IntToString(n)
    case JStr(s) => s
    case JArr(items) => ItemsText(v, items)
    case JObj(_) => "[object Object]"
  }

  /** `items.join(',')` of an array's elements. */
  function ItemsText(parent: Json, items: seq<Json>): string
    requires forall x :: x in items ==> x < parent
    decreases parent, 0, |items|
  {
    if items == [] then ""
    else
      assert items[0] in items;
      assert forall x :: x in items[1..] ==> x in items;
      var first := if items[0].JNull? then "" else JsonText(items[0]);
      if |items| == 1 then first else first + "," + ItemsText(parent, items[1..])
  }

  /**
   * `(extra?.retry_count || 0) + 1` under JavaScript's `+`: a number or a
   * boolean adds, anything falsy counts as 0, and a truthy string, array or
   * object concatenates "1" to its text.
   */
  function NextRetryCount(extra: Option<Extra>): (r: Json)
    ensures extra.None? || "retry_count" !in extra.value ==> r == JNum(1)
    ensures extra.Some? && "retry_count" in extra.value && extra.value["retry_count"].JNum? ==>
      r == JNum(extra.value["retry_count"].n + 1)
  {
    var prev := if extra.Some? && "retry_count" in extra.value then extra.value["retry_count"] else JNull;
    if !JsonTruthy(prev) then JNum(1)
    else match prev
      case JNum(n) => JNum(n + 1)
      case JBool(_) => JNum(2)
      case _ => JStr(JsonText(prev) + "1")
  }

  /** A string array as JSON. */
  function StrArray(items: seq<string>): (r: Json)
    ensures r.JArr? && |r.items| == |items|
    ensures forall i :: 0 <= i < |items| ==> r.items[i] == JStr(items[i])
  {
    JArr(seq(|items|, i requires 0 <= i < |items| => JStr(items[i])))
  }

  function MetadataJson(m: Option<map<string, string>>): Json {
    if m.None? then JNull else JObj(map k | k in m.value :: JStr(m.value[k]))
  }

  // ----- reconstruction of a missing order -----

  /** `session.metadata?.[key]`. */
  function Meta(s: CheckoutSession, key: string): Option<string> {
    if s.metadata.Some? && key in s.metadata.value then Some(s.metadata.value[key]) else None
  }

  /** The price id a rebuilt order gets. */
  function RebuiltPriceId(s: CheckoutSession, env: PriceEnv): string {
    var priceId := Meta(s, "priceId");
    if Truthy(priceId) then priceId.value
    else
      var credits := OrElse(Meta(s, "credits"), "");
      var tier := Find(PricingTiers(env), (t: PricingTier) => NatToString(t.credits) == credits);
      if tier.Some? && tier.value.priceId != "" then tier.value.priceId else "unknown"
  }

  predicate HasRequiredMetadata(s: CheckoutSession) {
    Truthy(Meta(s, "userId")) && Truthy(Meta(s, "clerkUserId")) && Truthy(Meta(s, "credits")) && Truthy(Meta(s, "tier"))
  }

  /**
   * The order row `reconstructOrderFromSession` inserts, or the message it
   * throws: missing metadata is refused before any store call, and a credit
   * count that does not parse is a null `credits`, which the table's NOT NULL
   * constraint rejects.
   */
  function ReconstructRow(s: CheckoutSession, eventCreated: int, now: int, env: PriceEnv): (r: Result<Order, string>)
    ensures !HasRequiredMetadata(s) ==> r == Failure("Missing required metadata in session " + s.id)
    ensures HasRequiredMetadata(s) && r.Failure? ==>
      ParseInt(Meta(s, "credits").value).None? &&
      r == Failure("Failed to insert reconstructed order: " + NullCredits.message)
    ensures r.Success? ==>
      var o := r.value;
      o.sessionId == s.id && o.state == Pending && o.paidAt.None? &&
      o.userId == ParseInt(Meta(s, "userId").value) && o.clerkUserId == Meta(s, "clerkUserId") &&
      Some(o.credits) == ParseInt(Meta(s, "credits").value) && o.priceTier == Meta(s, "tier") &&
      o.priceId == RebuiltPriceId(s, env) && o.amountCents == s.amountTotal.GetOr(0) &&
      o.currency == OrElse(s.currency, "usd")
  {
    if !HasRequiredMetadata(s) then Failure("Missing required metadata in session " + s.id)
    else
      var clerk := Meta(s, "clerkUserId").value;
      var credits := ParseInt(Meta(s, "credits").value);
      if credits.None? then Failure("Failed to insert reconstructed order: " + NullCredits.message)
      else
        var extra := map[
          "reconstructed" := JBool(true),
          "reconstruction_reason" := JStr("missing_order_record"),
          "reconstruction_time" := JNum(now),
          "original_session_data" := JObj(map[
            "id" := JStr(s.id), "payment_status" := JStr(s.paymentStatus), "mode" := JStr(s.mode),
            "customer_email" := OptStr(s.customerEmail), "metadata" := MetadataJson(s.metadata)]),
          "event_created_time" := JNum(eventCreated * 1000)];
        Success(Order(s.id, ParseInt(Meta(s, "userId").value), Some(clerk),
                      Some(OrElse(s.customerEmail, "webhook-reconstructed-" + clerk + "@system")),
                      RebuiltPriceId(s, env), Meta(s, "tier"), credits.value,
                      s.amountTotal.GetOr(0), OrElse(s.currency, "usd"), Pending, Some(extra), None))
  }

  /**
   * A session created by the checkout route rebuilds into an order with the
   * buyer, tier, price id and credit count of the row checkout inserted.
   */
  lemma ReconstructCheckoutSession(s: CheckoutSession, eventCreated: int, now: int, env: PriceEnv,
                                   userId: nat, clerk: string, tier: PricingTier, priceId: string, email: string)
    requires s.metadata == Some(Checkout.SessionMetadata(userId, clerk, tier, priceId))
    requires clerk != "" && tier.tier != "" && priceId != ""
    ensures var r := ReconstructRow(s, eventCreated, now, env);
      var row := Checkout.OrderRow(s.id, userId, clerk, email, priceId, tier, now);
      r.Success? &&
      r.value.sessionId == row.sessionId && r.value.userId == row.userId &&
      r.value.clerkUserId == row.clerkUserId && r.value.priceId == row.priceId &&
      r.value.priceTier == row.priceTier && r.value.credits == row.credits && r.value.state == row.state
  {
    ParseIntNatToString(userId);
    ParseIntNatToString(tier.credits);
  }

  /**
   * Without a usable `priceId` in the metadata, the credit count of a tier
   * recovers that tier's price id, when it has one.
   */
  lemma RebuiltPriceIdFromCredits(s: CheckoutSession, env: PriceEnv, i: nat)
    requires i < 3 && !Truthy(Meta(s, "priceId"))
    requires Meta(s, "credits") == Some(NatToString(PricingTiers(env)[i].credits))
    ensures RebuiltPriceId(s, env) == if PricingTiers(env)[i].priceId != "" then PricingTiers(env)[i].priceId else "unknown"
  {
    FindByCreditsTextFindsTier(env, i);
  }

  /** The insert hit the unique key on `session_id`: another request created the order. */
  predicate SessionConflict(e: StoreError) {
    e.code == UniqueViolationCode && Contains(e.message, "session_id")
  }

  /**
   * `reconstructOrderFromSession`: inserts the rebuilt row; a duplicate
   * `session_id` means another request created the order, which counts as
   * success. Every other failure is thrown.
   */
  method ReconstructOrder(db: Db, s: CheckoutSession, eventCreated: int, now: int, env: PriceEnv, insertFault: Fault)
    returns (r: Outcome<bool>)
    requires db.Valid()
    modifies db
    ensures db.Valid()
    ensures r.Return? ==> r.value
    ensures r.Return? && insertFault.None? ==> FindOrder(db.orders, s.id).Some?
    ensures r.Throw? ==> db.State() == old(db.State())
    ensures r.Return? && (insertFault.Some? || FindOrder(old(db.orders), s.id).Some?) ==>
      db.State() == old(db.State())
    ensures r.Return? && insertFault.None? && FindOrder(old(db.orders), s.id).None? ==>
      var row := ReconstructRow(s, eventCreated, now, env);
      row.Success? && db.State() == old(db.State()).(orders := old(db.orders) + [row.value])
    ensures !HasRequiredMetadata(s) ==> r == Throw("Missing required metadata in session " + s.id)
    // done exactly when the row builds and the insert succeeds or hits the session's unique key
    ensures r.Return? <==>
      ReconstructRow(s, eventCreated, now, env).Success? && (insertFault.None? || SessionConflict(insertFault.value))
    ensures r.Throw? && ReconstructRow(s, eventCreated, now, env).Success? ==>
      insertFault.Some? && r.message == "Failed to insert reconstructed order: " + insertFault.value.message
  {
    var row := ReconstructRow(s, eventCreated, now, env);
    if row.Failure? {
      return Throw(row.error);
    }
    var err := db.InsertOrder(row.value, insertFault);
    if err.Some? {
      if SessionConflict(err.value) {
        return Return(true);
      }
      if insertFault.None? {
        DuplicateSessionRecognised();
      }
      return Throw("Failed to insert reconstructed order: " + err.value.message);
    }
    FindOrderAppend(old(db.orders), row.value);
    r := Return(true);
  }

  /** The duplicate-session error is recognised as "order already exists". */
  lemma DuplicateSessionRecognised()
    ensures SessionConflict(DuplicateSession)
  {
    var m := DuplicateSession.message;
    assert m[55..65] == "session_id";
    ContainsAt(m, "session_id", 55);
  }

  // ----- verification of the paid session -----

  /** The outcome of the checks that precede settlement. */
  datatype Verdict = AlreadyPaid | UnexpectedState | NotPaid | AmountMismatch | CurrencyMismatch | Settle

  /**
   * The checks in source order: a paid order is done, any other non-pending
   * order is an error, and a pending one needs a paid session whose amount in
   * cents and lower-case currency equal the order's.
   */
  function Decide(o: Order, s: CheckoutSession): Verdict {
    if o.state == Paid then AlreadyPaid
    else if o.state != Pending then UnexpectedState
    else if s.paymentStatus != "paid" then NotPaid
    else if s.amountTotal != Some(o.amountCents) then AmountMismatch
    else if s.currency != Some(Lower(o.currency)) then CurrencyMismatch
    else Settle
  }

  /** The session is paid in the order's amount and (lower-case) currency. */
  predicate SessionPays(o: Order, s: CheckoutSession) {
    s.paymentStatus == "paid" && s.amountTotal == Some(o.amountCents) && s.currency == Some(Lower(o.currency))
  }

  /** Settlement is reached exactly for a pending order and a matching paid session. */
  lemma DecideSettleIff(o: Order, s: CheckoutSession)
    ensures Decide(o, s) == Settle <==> o.state == Pending && SessionPays(o, s)
  {
  }

  /** An upper-case order currency still matches the session's lower-case one. */
  lemma CurrencyCaseInsensitive(o: Order, s: CheckoutSession)
    requires o.state == Pending && s.paymentStatus == "paid" && s.amountTotal == Some(o.amountCents)
    requires s.currency == Some(Lower(o.currency))
    ensures Decide(o.(currency := Lower(o.currency)), s) == Settle
  {
    LowerIdempotent(o.currency);
  }

  function NotPaidPatch(s: CheckoutSession): Extra {
    map["reason" := JStr("payment_not_completed"), "payment_status" := JStr(s.paymentStatus)]
  }

  function AmountMismatchPatch(o: Order, s: CheckoutSession): Extra {
    map["amount_mismatch" := JBool(true), "expected_amount" := JNum(o.amountCents),
        "received_amount" := JNum(s.amountTotal.GetOr(0)), "payment_status" := JStr(s.paymentStatus)]
  }

  function CurrencyMismatchPatch(o: Order, s: CheckoutSession): Extra {
    map["currency_mismatch" := JBool(true), "expected_currency" := JStr(o.currency),
        "received_currency" := OptStr(s.currency)]
  }

  function PaymentPatch(s: CheckoutSession): Extra {
    map["payment_intent" := OptStr(s.paymentIntent), "customer_email" := OptStr(s.customerEmail),
        "payment_method_types" := StrArray(s.paymentMethodTypes)]
  }

  function ErrorPatch(message: string, now: int, extra: Option<Extra>): Extra {
    map["last_error" := JStr(message), "last_error_at" := JNum(now), "retry_count" := NextRetryCount(extra)]
  }

  /** Each recorded failure of a pending order adds one to its numeric retry count. */
  lemma ErrorPatchCountsRetries(o: Order, message: string, now: int, n: int)
    requires o.extra.Some? && "retry_count" in o.extra.value && o.extra.value["retry_count"] == JNum(n)
    ensures var e := MergeExtra(o.extra, ErrorPatch(message, now, o.extra));
      e["retry_count"] == JNum(n + 1) && e["last_error"] == JStr(message) &&
      forall k :: k in o.extra.value && k !in {"retry_count", "last_error", "last_error_at"} ==> e[k] == o.extra.value[k]
  {
  }

  function GrantMetadata(o: Order, s: CheckoutSession): Extra {
    map["stripe_session_id" := JStr(s.id), "payment_intent" := OptStr(s.paymentIntent),
        "tier" := OptStr(o.priceTier), "amount" := JNum(o.amountCents), "currency" := JStr(o.currency)]
  }

  /** The `ref_id` a grant for this session carries (an empty id is no id). */
  function GrantRef(s: CheckoutSession): Option<string> {
    if s.id != "" then Some(s.id) else None
  }

  /** The recharge log a successful grant appends. */
  function GrantLog(id: nat, o: Order, s: CheckoutSession, eventCreated: int, now: int): CreditLog {
    CreditLog(id, o.userId, None, Recharge, Confirmed, o.credits, GrantRef(s),
              Some(GrantMetadata(o, s)), eventCreated * 1000, now)
  }

  /** Whether the conditional update `pending -> paid` finds its row. */
  predicate CasApplies(orders: seq<Order>, sid: string, casFault: Fault) {
    casFault.None? && FindOrder(orders, sid).Some? && FindOrder(orders, sid).value.state == Pending
  }

  /** Whether `add_credits` accepts the grant for this order. */
  predicate GrantSucceeds(users: seq<Account>, logs: seq<CreditLog>, o: Order, s: CheckoutSession, grantFault: Fault) {
    grantFault.None? && o.userId.Some? && 1 <= o.userId.value <= |users| &&
    (s.id == "" || !RefTaken(logs, Recharge, s.id))
  }

  /** Errors injected into the store calls of the settlement step. */
  datatype SettleFaults = SettleFaults(casFault: Fault, rereadFault: Fault, grantFault: Fault, noteFault: Fault)

  const NoSettleFaults := SettleFaults(None, None, None, None)

  /**
   * Lines 286-377: the conditional update to `paid`, the re-read when it
   * matched no row, the grant, and the error note of the `catch` block.
   */
  method SettleOrder(db: Db, o: Order, s: CheckoutSession, eventCreated: int, now: int, f: SettleFaults)
    returns (r: HandlerResult)
    requires db.Valid() && o.sessionId == s.id
    modifies db
    ensures db.Valid()
    ensures db.State() == old(db.State()).(users := db.users, logs := db.logs, orders := db.orders)
    ensures |db.orders| == |old(db.orders)|
    ensures forall i :: 0 <= i < |db.orders| && old(db.orders)[i].sessionId != s.id ==> db.orders[i] == old(db.orders)[i]
    ensures var before := FindOrder(old(db.orders), s.id);
      var after := FindOrder(db.orders, s.id);
      after.Some? == before.Some? &&
      (before.Some? ==> after.value == before.value.(state := after.value.state, paidAt := after.value.paidAt,
                                                     extra := after.value.extra))
    ensures old(CasApplies(db.orders, s.id, f.casFault)) ==>
      var after := FindOrder(db.orders, s.id).value;
      after.state == Paid && after.paidAt == Some(eventCreated * 1000) &&
      after.extra == Some(MergeExtra(o.extra, PaymentPatch(s)))
    ensures old(CasApplies(db.orders, s.id, f.casFault)) ==>
      (r == CreditsAlreadyAdded && db.logs == old(db.logs) && db.users == old(db.users)) ||
      (r == Processed && db.logs == old(db.logs) + [GrantLog(|old(db.logs)| + 1, o, s, eventCreated, now)])
    ensures old(CasApplies(db.orders, s.id, f.casFault)) ==>
      (r == Processed <==> old(GrantSucceeds(db.users, db.logs, o, s, f.grantFault)))
    ensures !old(CasApplies(db.orders, s.id, f.casFault)) ==>
      db.logs == old(db.logs) && db.users == old(db.users) &&
      (FindOrder(old(db.orders), s.id).Some? ==>
         FindOrder(db.orders, s.id).value.state == FindOrder(old(db.orders), s.id).value.state &&
         FindOrder(db.orders, s.id).value.paidAt == FindOrder(old(db.orders), s.id).value.paidAt)
    ensures !old(CasApplies(db.orders, s.id, f.casFault)) ==>
      (r.success <==> f.rereadFault.None? && old(FindOrder(db.orders, s.id)).Some? &&
                      old(FindOrder(db.orders, s.id)).value.state == Paid) &&
      (r.success ==> r == ConcurrentlyProcessed) &&
      (!r.success ==> r == HandlerFailure("Failed to process payment"))
  {
    var paymentTime := eventCreated * 1000;
    var i := OrderIndex(db.orders, s.id);
    if i < |db.orders| {
      FindOrderReplace(db.orders, i, db.orders[i]);
    }
    var cas := db.UpdateOrder(s.id, OrderPatch(Some(Paid), Some(paymentTime), Some(MergeExtra(o.extra, PaymentPatch(s)))),
                              true, f.casFault);
    if cas.Failure? {
      r := SettleRefused(db, o, s, cas.error, now, f);
      return;
    }
    FindOrderReplace(old(db.orders), i, db.orders[i]);
    var ok := Credits.AddCredits(db, o.userId, o.credits, Some(s.id), Some(GrantMetadata(o, s)), Some(paymentTime), now,
                                 f.grantFault);
    if !ok {
      return CreditsAlreadyAdded;
    }
    r := Processed;
  }

  /**
   * The conditional update matched no row: a re-read that finds the order
   * paid means a concurrent delivery settled it; anything else is noted as
   * a failure.
   */
  method SettleRefused(db: Db, o: Order, s: CheckoutSession, casError: StoreError, now: int, f: SettleFaults)
    returns (r: HandlerResult)
    requires db.Valid() && o.sessionId == s.id
    modifies db
    ensures db.Valid()
    ensures db.State() == old(db.State()).(orders := db.orders)
    ensures |db.orders| == |old(db.orders)|
    ensures forall i :: 0 <= i < |db.orders| && old(db.orders)[i].sessionId != s.id ==> db.orders[i] == old(db.orders)[i]
    ensures var before := FindOrder(old(db.orders), s.id);
      var after := FindOrder(db.orders, s.id);
      after.Some? == before.Some? && (before.Some? ==> after.value == before.value.(extra := after.value.extra))
    ensures (r.success <==> f.rereadFault.None? && old(FindOrder(db.orders, s.id)).Some? &&
                            old(FindOrder(db.orders, s.id)).value.state == Paid) &&
            (r.success ==> r == ConcurrentlyProcessed) &&
            (!r.success ==> r == HandlerFailure("Failed to process payment"))
  {
    var current := Single(FindOrder(db.orders, s.id), f.rereadFault);
    if current.Success? && current.value.state == Paid {
      return ConcurrentlyProcessed;
    }
    r := NoteSettleFailure(db, o, s, casError, now, f.noteFault);
  }

  /**
   * Lines 358-377, the `catch` of settlement: the error is noted in the
   * order's `extra` with an incremented retry count (unless that update
   * itself fails) and the handler fails, so that Stripe retries.
   */
  method NoteSettleFailure(db: Db, o: Order, s: CheckoutSession, casError: StoreError, now: int, noteFault: Fault)
    returns (r: HandlerResult)
    requires db.Valid() && o.sessionId == s.id
    modifies db
    ensures db.Valid()
    ensures db.State() == old(db.State()).(orders := db.orders)
    ensures |db.orders| == |old(db.orders)|
    ensures forall i :: 0 <= i < |db.orders| && old(db.orders)[i].sessionId != s.id ==> db.orders[i] == old(db.orders)[i]
    ensures var before := FindOrder(old(db.orders), s.id);
      var after := FindOrder(db.orders, s.id);
      after.Some? == before.Some? && (before.Some? ==> after.value == before.value.(extra := after.value.extra))
    ensures var after := FindOrder(db.orders, s.id);
      noteFault.None? && after.Some? && after.value.state == Pending ==>
        after.value.extra == Some(MergeExtra(o.extra, ErrorPatch(
          "Failed to update order: " + (if casError.message != "" then casError.message else "No rows updated"),
          now, o.extra)))
    ensures r == HandlerFailure("Failed to process payment")
  {
    var i := OrderIndex(db.orders, s.id);
    if i < |db.orders| {
      FindOrderReplace(db.orders, i, db.orders[i]);
    }
    var cause := if casError.message != "" then casError.message else "No rows updated";
    var message := "Failed to update order: " + cause;
    var _ := db.UpdateOrder(s.id, OrderPatch(None, None, Some(MergeExtra(o.extra, ErrorPatch(message, now, o.extra)))),
                            true, noteFault);
    if i < |db.orders| {
      FindOrderReplace(old(db.orders), i, db.orders[i]);
    }
    r := HandlerFailure("Failed to process payment");
  }

  /** Errors and interleavings the handler may meet, one per store call it makes. */
  datatype Interference = Interference(
    fetchFault: Fault,
    insertFault: Fault,
    refetchFault: Fault,
    markFault: Fault,
    raced: bool,
    settle: SettleFaults)

  /** A single recharge log for this session was appended, and nothing else changed in the logs. */
  predicate GrantAppended(before: seq<CreditLog>, after: seq<CreditLog>, s: CheckoutSession) {
    |after| == |before| + 1 && after[..|before|] == before &&
    after[|before|].kind == Recharge && after[|before|].refId == GrantRef(s)
  }

  /**
   * Lines 167-205: the order for the session, rebuilt from the session when
   * the first lookup fails; `None` is "Order reconstruction failed".
   */
  method LoadOrder(db: Db, s: CheckoutSession, eventCreated: int, now: int, env: PriceEnv, inf: Interference)
    returns (loaded: Option<Order>)
    requires db.Valid()
    modifies db
    ensures db.Valid()
    ensures db.State() == old(db.State()).(orders := db.orders)
    ensures loaded.Some? ==> FindOrder(db.orders, s.id) == loaded
    // the order loaded is the stored one, or else a freshly rebuilt pending row
    ensures loaded.Some? && FindOrder(old(db.orders), s.id).Some? ==> loaded == FindOrder(old(db.orders), s.id)
    ensures loaded.Some? && FindOrder(old(db.orders), s.id).None? ==> loaded.value.state == Pending
    ensures db.orders == old(db.orders) ||
      (FindOrder(old(db.orders), s.id).None? && ReconstructRow(s, eventCreated, now, env).Success? &&
       db.orders == old(db.orders) + [ReconstructRow(s, eventCreated, now, env).value])
    ensures inf.fetchFault.None? && FindOrder(old(db.orders), s.id).Some? ==>
      loaded == FindOrder(old(db.orders), s.id) && db.orders == old(db.orders)
    ensures !HasRequiredMetadata(s) && FindOrder(old(db.orders), s.id).None? ==>
      loaded.None? && db.orders == old(db.orders)
    // a missing order is rebuilt from the session and loaded as the rebuilt row
    ensures var row := ReconstructRow(s, eventCreated, now, env);
      FindOrder(old(db.orders), s.id).None? && row.Success? && inf.insertFault.None? && inf.refetchFault.None? ==>
        loaded == Some(row.value) && db.orders == old(db.orders) + [row.value]
    // an insert failure other than the session's unique key ends the load
    ensures FindOrder(old(db.orders), s.id).None? && inf.insertFault.Some? && !SessionConflict(inf.insertFault.value) ==>
        loaded.None? && db.orders == old(db.orders)
  {
    var fetched := Single(FindOrder(db.orders, s.id), inf.fetchFault);
    if fetched.Success? {
      return Some(fetched.value);
    }
    var rebuilt := ReconstructOrder(db, s, eventCreated, now, env, inf.insertFault);
    if rebuilt.Throw? {
      return None;
    }
    var refetched := Single(FindOrder(db.orders, s.id), inf.refetchFault);
    if refetched.Failure? {
      return None;
    }
    loaded := Some(refetched.value);
  }

  /**
   * Lines 222-284: a pending order whose session is unpaid becomes `failed`,
   * one whose amount or currency differs becomes `disputed`; the update's
   * own error is ignored.
   */
  method RejectOrder(db: Db, o: Order, s: CheckoutSession, markFault: Fault) returns (r: HandlerResult)
    requires db.Valid() && FindOrder(db.orders, s.id) == Some(o)
    requires Decide(o, s) == NotPaid || Decide(o, s) == AmountMismatch || Decide(o, s) == CurrencyMismatch
    modifies db
    ensures db.Valid()
    ensures db.State() == old(db.State()).(orders := db.orders)
    ensures |db.orders| == |old(db.orders)|
    ensures forall i :: 0 <= i < |db.orders| && old(db.orders)[i].sessionId != s.id ==> db.orders[i] == old(db.orders)[i]
    ensures FindOrder(db.orders, s.id).Some?
    ensures var after := FindOrder(db.orders, s.id).value;
      after == o.(state := after.state, extra := after.extra) &&
      after.state == (if markFault.Some? then Pending else if Decide(o, s) == NotPaid then Failed else Disputed)
    ensures r == HandlerFailure(match Decide(o, s)
                                case NotPaid => "Payment not completed"
                                case AmountMismatch => "Amount mismatch detected"
                                case _ => "Currency mismatch")
  {
    var i := OrderIndex(db.orders, s.id);
    FindOrderReplace(db.orders, i, o);
    var patch, error;
    if Decide(o, s) == NotPaid {
      patch := OrderPatch(Some(Failed), None, Some(MergeExtra(o.extra, NotPaidPatch(s))));
      error := "Payment not completed";
    } else if Decide(o, s) == AmountMismatch {
      patch := OrderPatch(Some(Disputed), None, Some(MergeExtra(o.extra, AmountMismatchPatch(o, s))));
      error := "Amount mismatch detected";
    } else {
      patch := OrderPatch(Some(Disputed), None, Some(MergeExtra(o.extra, CurrencyMismatchPatch(o, s))));
      error := "Currency mismatch";
    }
    var _ := db.UpdateOrder(s.id, patch, false, markFault);
    FindOrderReplace(old(db.orders), i, db.orders[i]);
    r := HandlerFailure(error);
  }

  /**
   * Settlement of a verified pending order as written; with `raced`, a
   * concurrent delivery of the same event settles it first.
   */
  method SettleVerified(db: Db, o: Order, s: CheckoutSession, eventCreated: int, now: int, raced: bool,
                        f: SettleFaults)
    returns (r: HandlerResult)
    requires db.Valid() && FindOrder(db.orders, s.id) == Some(o) && Decide(o, s) == Settle
    modifies db
    ensures db.Valid()
    ensures db.State() == old(db.State()).(users := db.users, logs := db.logs, orders := db.orders)
    ensures |db.orders| == |old(db.orders)|
    ensures forall i :: 0 <= i < |db.orders| && old(db.orders)[i].sessionId != s.id ==> db.orders[i] == old(db.orders)[i]
    ensures FindOrder(db.orders, s.id).Some?
    ensures var after := FindOrder(db.orders, s.id).value;
      after == o.(state := after.state, paidAt := after.paidAt, extra := after.extra) &&
      (after.state == Paid ==> after.paidAt == Some(eventCreated * 1000))
    ensures db.logs == old(db.logs) || GrantAppended(old(db.logs), db.logs, s)
    ensures db.logs == old(db.logs) ==> db.users == old(db.users)
    ensures db.logs != old(db.logs) ==>
      FindOrder(db.orders, s.id).value.state == Paid &&
      db.logs[|old(db.logs)|].userId == o.userId && db.logs[|old(db.logs)|].credits == o.credits
    ensures !raced && f.casFault.None? ==>
      r.success && FindOrder(db.orders, s.id).value.state == Paid &&
      (r == Processed <==> old(GrantSucceeds(db.users, db.logs, o, s, f.grantFault))) &&
      (r != Processed ==> db.logs == old(db.logs))
    ensures !r.success && !raced ==> db.logs == old(db.logs) && db.users == old(db.users)
  {
    if raced {
      r := SettleAfterRace(db, o, s, eventCreated, now, f);
    } else {
      r := SettleOrder(db, o, s, eventCreated, now, f);
    }
  }

  /** A concurrent delivery settles the order without faults, then this delivery settles it again. */
  method SettleAfterRace(db: Db, o: Order, s: CheckoutSession, eventCreated: int, now: int, f: SettleFaults)
    returns (r: HandlerResult)
    requires db.Valid() && FindOrder(db.orders, s.id) == Some(o) && Decide(o, s) == Settle
    modifies db
    ensures db.Valid()
    ensures db.State() == old(db.State()).(users := db.users, logs := db.logs, orders := db.orders)
    ensures |db.orders| == |old(db.orders)|
    ensures forall i :: 0 <= i < |db.orders| && old(db.orders)[i].sessionId != s.id ==> db.orders[i] == old(db.orders)[i]
    ensures FindOrder(db.orders, s.id).Some?
    ensures var after := FindOrder(db.orders, s.id).value;
      after == o.(state := after.state, paidAt := after.paidAt, extra := after.extra) &&
      (after.state == Paid ==> after.paidAt == Some(eventCreated * 1000))
    ensures db.logs == old(db.logs) || GrantAppended(old(db.logs), db.logs, s)
    ensures db.logs == old(db.logs) ==> db.users == old(db.users)
    ensures db.logs != old(db.logs) ==>
      FindOrder(db.orders, s.id).value.state == Paid &&
      db.logs[|old(db.logs)|].userId == o.userId && db.logs[|old(db.logs)|].credits == o.credits
  {
    var _ := SettleOrder(db, o, s, eventCreated, now, NoSettleFaults);
    r := SettleOrder(db, o, s, eventCreated, now, f);
  }

  /**
   * Lines 207-377 for an order already in hand: the state gate, the
   * payment checks and settlement.
   */
  method HandleOrder(db: Db, o: Order, s: CheckoutSession, eventCreated: int, now: int, inf: Interference)
    returns (r: HandlerResult)
    requires db.Valid() && FindOrder(db.orders, s.id) == Some(o)
    modifies db
    ensures db.Valid()
    ensures db.State() == old(db.State()).(users := db.users, logs := db.logs, orders := db.orders)
    ensures |db.orders| == |old(db.orders)|
    ensures forall i :: 0 <= i < |db.orders| && old(db.orders)[i].sessionId != s.id ==> db.orders[i] == old(db.orders)[i]
    ensures FindOrder(db.orders, s.id).Some?
    ensures var after := FindOrder(db.orders, s.id).value;
      after == o.(state := after.state, paidAt := after.paidAt, extra := after.extra)
    ensures db.logs == old(db.logs) || GrantAppended(old(db.logs), db.logs, s)
    ensures db.logs == old(db.logs) ==> db.users == old(db.users)
    ensures db.logs != old(db.logs) ==>
      var after := FindOrder(db.orders, s.id).value;
      Decide(o, s) == Settle && after.state == Paid && SessionPays(after, s) &&
      db.logs[|old(db.logs)|].userId == after.userId && db.logs[|old(db.logs)|].credits == after.credits
    ensures var after := FindOrder(db.orders, s.id).value;
      after.state == Paid && o.state != Paid ==>
        Decide(o, s) == Settle && SessionPays(after, s) && after.paidAt == Some(eventCreated * 1000)
    ensures Decide(o, s) == AlreadyPaid ==> r == AlreadyProcessed && db.State() == old(db.State())
    ensures Decide(o, s) == UnexpectedState ==>
      r == HandlerFailure("Order in unexpected state: " + StateName(o.state)) && db.State() == old(db.State())
    ensures Decide(o, s) in {NotPaid, AmountMismatch, CurrencyMismatch} ==>
      !r.success && db.logs == old(db.logs) && db.users == old(db.users) &&
      FindOrder(db.orders, s.id).value.state ==
        (if inf.markFault.Some? then Pending else if Decide(o, s) == NotPaid then Failed else Disputed)
    ensures Decide(o, s) == Settle && !inf.raced && inf.settle.casFault.None? ==>
      r.success && FindOrder(db.orders, s.id).value.state == Paid &&
      (r == Processed <==> old(GrantSucceeds(db.users, db.logs, o, s, inf.settle.grantFault))) &&
      (r != Processed ==> db.logs == old(db.logs))
    ensures !r.success && !inf.raced ==> db.logs == old(db.logs) && db.users == old(db.users)
  {
    var verdict := Decide(o, s);
    if verdict == AlreadyPaid {
      return AlreadyProcessed;
    }
    if verdict == UnexpectedState {
      return HandlerFailure("Order in unexpected state: " + StateName(o.state));
    }
    if verdict != Settle {
      r := RejectOrder(db, o, s, inf.markFault);
      return;
    }
    r := SettleVerified(db, o, s, eventCreated, now, inf.raced, inf.settle);
  }

  /**
   * `handleCheckoutCompleted`. With `raced`, another delivery of the same
   * event settles the order completely between this delivery's checks and
   * its conditional update.
   */
  method HandleCheckoutCompleted(db: Db, s: CheckoutSession, eventCreated: int, now: int, env: PriceEnv,
                                 inf: Interference)
    returns (r: HandlerResult)
    requires db.Valid()
    modifies db
    ensures db.Valid()
    ensures db.State() == old(db.State()).(users := db.users, logs := db.logs, orders := db.orders)
    ensures |old(db.orders)| <= |db.orders| <= |old(db.orders)| + 1
    ensures forall i :: 0 <= i < |old(db.orders)| && old(db.orders)[i].sessionId != s.id ==>
      db.orders[i] == old(db.orders)[i]
    // at most one grant, always for this session
    ensures db.logs == old(db.logs) || GrantAppended(old(db.logs), db.logs, s)
    ensures db.logs == old(db.logs) ==> db.users == old(db.users)
    // credits are granted only for a paid order whose session passed every check
    ensures db.logs != old(db.logs) ==>
      var after := FindOrder(db.orders, s.id);
      after.Some? && after.value.state == Paid && SessionPays(after.value, s) &&
      db.logs[|old(db.logs)|].userId == after.value.userId && db.logs[|old(db.logs)|].credits == after.value.credits
    // an order only becomes paid through a session that passed every check
    ensures var before := old(FindOrder(db.orders, s.id));
      var after := FindOrder(db.orders, s.id);
      after.Some? && after.value.state == Paid && !(before.Some? && before.value.state == Paid) ==>
        SessionPays(after.value, s) && after.value.paidAt == Some(eventCreated * 1000)
    // a paid order is left alone: redelivery is idempotent
    ensures var before := old(FindOrder(db.orders, s.id));
      inf.fetchFault.None? && before.Some? && before.value.state == Paid ==>
        r == AlreadyProcessed && db.State() == old(db.State())
    ensures var before := old(FindOrder(db.orders, s.id));
      inf.fetchFault.None? && before.Some? && (before.value.state == Failed || before.value.state == Disputed) ==>
        r == HandlerFailure("Order in unexpected state: " + StateName(before.value.state)) &&
        db.State() == old(db.State())
    // the three rejections of a pending order
    ensures var before := old(FindOrder(db.orders, s.id));
      inf.fetchFault.None? && before.Some? && Decide(before.value, s) in {NotPaid, AmountMismatch, CurrencyMismatch} ==>
        !r.success && db.logs == old(db.logs) && db.users == old(db.users) &&
        FindOrder(db.orders, s.id).Some? &&
        FindOrder(db.orders, s.id).value.state ==
          (if inf.markFault.Some? then Pending else if Decide(before.value, s) == NotPaid then Failed else Disputed)
    // a verified pending order is settled when nothing interferes
    ensures var before := old(FindOrder(db.orders, s.id));
      inf.fetchFault.None? && before.Some? && Decide(before.value, s) == Settle && !inf.raced &&
      inf.settle.casFault.None? ==>
        r.success && FindOrder(db.orders, s.id).Some? && FindOrder(db.orders, s.id).value.state == Paid &&
        (r == Processed <==> old(GrantSucceeds(db.users, db.logs, before.value, s, inf.settle.grantFault))) &&
        (r != Processed ==> db.logs == old(db.logs))
    ensures !r.success && !inf.raced ==> db.logs == old(db.logs) && db.users == old(db.users)
    ensures !HasRequiredMetadata(s) && old(FindOrder(db.orders, s.id)).None? ==>
      r == HandlerFailure("Order reconstruction failed") && db.State() == old(db.State())
    // a missing order is rebuilt as a pending row and then checked like any other
    ensures var row := ReconstructRow(s, eventCreated, now, env);
      old(FindOrder(db.orders, s.id)).None? && row.Success? && inf.insertFault.None? && inf.refetchFault.None? ==>
        |db.orders| == |old(db.orders)| + 1 && FindOrder(db.orders, s.id).Some? &&
        (Decide(row.value, s) in {NotPaid, AmountMismatch, CurrencyMismatch} ==>
           !r.success && db.logs == old(db.logs) && db.users == old(db.users) &&
           FindOrder(db.orders, s.id).value.state ==
             (if inf.markFault.Some? then Pending else if Decide(row.value, s) == NotPaid then Failed else Disputed)) &&
        (Decide(row.value, s) == Settle && !inf.raced && inf.settle.casFault.None? ==>
           r.success && FindOrder(db.orders, s.id).value.state == Paid &&
           (r == Processed <==> GrantSucceeds(old(db.users), old(db.logs), row.value, s, inf.settle.grantFault)))
    ensures old(FindOrder(db.orders, s.id)).None? && inf.insertFault.Some? && !SessionConflict(inf.insertFault.value) ==>
        r == HandlerFailure("Order reconstruction failed") && db.State() == old(db.State())
  {
    var loaded := LoadOrder(db, s, eventCreated, now, env, inf);
    if loaded.None? {
      r := HandlerFailure("Order reconstruction failed");
    } else {
      r := HandleOrder(db, loaded.value, s, eventCreated, now, inf);
    }
  }

  /**
   * A paid session whose grant hits a transient store error: the route
   * answers 200, the order is paid, and no credits were added. Stripe does
   * not retry, and a redelivery stops at the "already paid" gate.
   */
  method PaidWithoutCredits() returns (status: int, grants: nat, state: OrderState)
    ensures status == 200 && grants == 0 && state == Paid
  {
    var db := StoreWithBuyer();
    var s := PendingProOrder(db);
    var transient := Some(StoreError("08006", "connection failure"));
    status := StripeWebhookPost(db, Some("t=1,v1=sig"), true, StripeEvent("evt_1", CheckoutCompleted, 1, s), Unset, 2, None,
                                Interference(None, None, None, None, false, SettleFaults(None, None, transient, None)));
    grants := |db.logs|;
    state := FindOrder(db.orders, "cs_1").value.state;
  }

  /** A store holding one buyer and nothing else. */
  method StoreWithBuyer() returns (db: Db)
    ensures fresh(db) && db.Valid() && |db.users| == 1 && db.orders == [] && db.logs == []
  {
    db := new Db();
    var _ := db.InsertUser("user_1", "buyer@example.com", None, None);
  }

  /** The checkout's pending Pro order for that buyer, and the paid session of that order. */
  method PendingProOrder(db: Db) returns (s: CheckoutSession)
    requires db.Valid() && |db.users| == 1 && db.orders == [] && db.logs == []
    modifies db
    ensures db.Valid() && db.logs == [] && s.id == "cs_1"
    ensures FindOrder(db.orders, s.id).Some? && Decide(FindOrder(db.orders, s.id).value, s) == Settle
  {
    var tier := PricingTiers(Unset)[1];
    var row := Checkout.OrderRow("cs_1", 1, "user_1", "buyer@example.com", "price_pro", tier, 0);
    var _ := db.InsertOrder(row, None);
    assert FindOrder(db.orders, "cs_1") == Some(row);
    s := CheckoutSession("cs_1", "paid", Some(500), Some("usd"), Some("buyer@example.com"), None, None, ["card"], "payment");
    assert Lower("usd") == "usd";
  }

  // ----- settlement that only reports success once the credits are recorded -----

  /** Every log past `before` is a recharge for this session, and the older ones are untouched. */
  predicate OnlyGrantsFor(before: seq<CreditLog>, after: seq<CreditLog>, s: CheckoutSession) {
    |before| <= |after| && after[..|before|] == before &&
    forall i :: |before| <= i < |after| ==> after[i].kind == Recharge && after[i].refId == Some(s.id)
  }

  lemma OnlyGrantsForTrans(a: seq<CreditLog>, b: seq<CreditLog>, c: seq<CreditLog>, s: CheckoutSession)
    requires OnlyGrantsFor(a, b, s) && OnlyGrantsFor(b, c, s)
    ensures OnlyGrantsFor(a, c, s)
  {
    assert c[..|a|] == c[..|b|][..|a|];
  }

  /**
   * The grant, answering success exactly when a recharge log for the session
   * exists afterwards, whether this call or an earlier one wrote it.
   */
  method GrantOnce(db: Db, o: Order, s: CheckoutSession, eventCreated: int, now: int, grantFault: Fault)
    returns (r: HandlerResult)
    requires db.Valid() && s.id != ""
    modifies db
    ensures db.Valid()
    ensures db.State() == old(db.State()).(users := db.users, logs := db.logs)
    ensures db.logs == old(db.logs) || db.logs == old(db.logs) + [GrantLog(|old(db.logs)| + 1, o, s, eventCreated, now)]
    ensures OnlyGrantsFor(old(db.logs), db.logs, s)
    ensures db.logs == old(db.logs) ==> db.users == old(db.users)
    ensures r.success <==> RefTaken(db.logs, Recharge, s.id)
    ensures r.success ==> r == Processed || r == CreditsAlreadyAdded
    ensures old(GrantSucceeds(db.users, db.logs, o, s, grantFault)) ==> r == Processed
  {
    var ok := Credits.AddCredits(db, o.userId, o.credits, Some(s.id), Some(GrantMetadata(o, s)),
                                 Some(eventCreated * 1000), now, grantFault);
    if ok {
      assert db.logs[|old(db.logs)|].refId == Some(s.id);
      return Processed;
    }
    if RefTaken(db.logs, Recharge, s.id) {
      return CreditsAlreadyAdded;
    }
    r := HandlerFailure("Failed to grant credits");
  }

  /**
   * Settlement whose success answers, like `GrantOnce`'s, wait for the
   * recharge log: after a lost race the credits are granted here when the
   * winner has not recorded them.
   */
  method SettleOrderCorrected(db: Db, o: Order, s: CheckoutSession, eventCreated: int, now: int, f: SettleFaults)
    returns (r: HandlerResult)
    requires db.Valid() && o.sessionId == s.id && s.id != ""
    modifies db
    ensures db.Valid()
    ensures db.State() == old(db.State()).(users := db.users, logs := db.logs, orders := db.orders)
    ensures |db.orders| == |old(db.orders)|
    ensures forall i :: 0 <= i < |db.orders| && old(db.orders)[i].sessionId != s.id ==> db.orders[i] == old(db.orders)[i]
    ensures var before := FindOrder(old(db.orders), s.id);
      var after := FindOrder(db.orders, s.id);
      after.Some? == before.Some? &&
      (before.Some? ==> after.value == before.value.(state := after.value.state, paidAt := after.value.paidAt,
                                                     extra := after.value.extra))
    ensures old(CasApplies(db.orders, s.id, f.casFault)) ==>
      FindOrder(db.orders, s.id).value.state == Paid && FindOrder(db.orders, s.id).value.paidAt == Some(eventCreated * 1000)
    ensures !old(CasApplies(db.orders, s.id, f.casFault)) && FindOrder(old(db.orders), s.id).Some? ==>
      FindOrder(db.orders, s.id).value.state == FindOrder(old(db.orders), s.id).value.state &&
      FindOrder(db.orders, s.id).value.paidAt == FindOrder(old(db.orders), s.id).value.paidAt
    ensures OnlyGrantsFor(old(db.logs), db.logs, s)
    ensures db.logs == old(db.logs) ==> db.users == old(db.users)
    ensures db.logs != old(db.logs) ==> FindOrder(db.orders, s.id).Some? && FindOrder(db.orders, s.id).value.state == Paid
    ensures r.success ==> RefTaken(db.logs, Recharge, s.id)
    ensures old(CasApplies(db.orders, s.id, f.casFault)) && old(GrantSucceeds(db.users, db.logs, o, s, f.grantFault)) ==>
      r == Processed
  {
    var paymentTime := eventCreated * 1000;
    var i := OrderIndex(db.orders, s.id);
    if i < |db.orders| {
      FindOrderReplace(db.orders, i, db.orders[i]);
    }
    var cas := db.UpdateOrder(s.id, OrderPatch(Some(Paid), Some(paymentTime), Some(MergeExtra(o.extra, PaymentPatch(s)))),
                              true, f.casFault);
    if cas.Failure? {
      var current := Single(FindOrder(db.orders, s.id), f.rereadFault);
      if current.Success? && current.value.state == Paid {
        if RefTaken(db.logs, Recharge, s.id) {
          return ConcurrentlyProcessed;
        }
        r := GrantOnce(db, o, s, eventCreated, now, f.grantFault);
        return;
      }
      r := NoteSettleFailure(db, o, s, cas.error, now, f.noteFault);
      return;
    }
    FindOrderReplace(old(db.orders), i, db.orders[i]);
    r := GrantOnce(db, o, s, eventCreated, now, f.grantFault);
  }

  /** A paid order: done when its credits are recorded, otherwise granted now. */
  method ResumePaid(db: Db, o: Order, s: CheckoutSession, eventCreated: int, now: int, grantFault: Fault)
    returns (r: HandlerResult)
    requires db.Valid() && FindOrder(db.orders, s.id) == Some(o) && o.state == Paid && s.id != ""
    modifies db
    ensures db.Valid()
    ensures db.State() == old(db.State()).(users := db.users, logs := db.logs)
    ensures OnlyGrantsFor(old(db.logs), db.logs, s)
    ensures r.success ==> RefTaken(db.logs, Recharge, s.id)
    ensures old(RefTaken(db.logs, Recharge, s.id)) ==> r == AlreadyProcessed && db.State() == old(db.State())
    ensures old(GrantSucceeds(db.users, db.logs, o, s, grantFault)) ==>
      r == Processed && db.logs == old(db.logs) + [GrantLog(|old(db.logs)| + 1, o, s, eventCreated, now)]
  {
    if RefTaken(db.logs, Recharge, s.id) {
      return AlreadyProcessed;
    }
    r := GrantOnce(db, o, s, eventCreated, now, grantFault);
  }

  /** Settlement of a verified pending order, possibly after a concurrent delivery settled it. */
  method SettleRacing(db: Db, o: Order, s: CheckoutSession, eventCreated: int, now: int, raced: bool, f: SettleFaults)
    returns (r: HandlerResult)
    requires db.Valid() && FindOrder(db.orders, s.id) == Some(o) && o.state == Pending && s.id != ""
    modifies db
    ensures db.Valid()
    ensures db.State() == old(db.State()).(users := db.users, logs := db.logs, orders := db.orders)
    ensures |db.orders| == |old(db.orders)|
    ensures forall i :: 0 <= i < |db.orders| && old(db.orders)[i].sessionId != s.id ==> db.orders[i] == old(db.orders)[i]
    ensures OnlyGrantsFor(old(db.logs), db.logs, s)
    ensures db.logs != old(db.logs) ==> FindOrder(db.orders, s.id).Some? && FindOrder(db.orders, s.id).value.state == Paid
    ensures r.success ==> RefTaken(db.logs, Recharge, s.id)
    ensures !raced && f.casFault.None? && old(GrantSucceeds(db.users, db.logs, o, s, f.grantFault)) ==>
      r == Processed && FindOrder(db.orders, s.id).Some? && FindOrder(db.orders, s.id).value.state == Paid
  {
    if raced {
      var _ := SettleOrderCorrected(db, o, s, eventCreated, now, NoSettleFaults);
      ghost var mid := db.logs;
      ghost var midOrders := db.orders;
      assert FindOrder(midOrders, s.id).Some? && FindOrder(midOrders, s.id).value.state == Paid;
      r := SettleOrderCorrected(db, o, s, eventCreated, now, f);
      OnlyGrantsForTrans(old(db.logs), mid, db.logs, s);
    } else {
      r := SettleOrderCorrected(db, o, s, eventCreated, now, f);
    }
  }

  /** The corrected steps after the order is loaded. */
  method HandleOrderCorrected(db: Db, o: Order, s: CheckoutSession, eventCreated: int, now: int, inf: Interference)
    returns (r: HandlerResult)
    requires db.Valid() && FindOrder(db.orders, s.id) == Some(o) && s.id != ""
    modifies db
    ensures db.Valid()
    ensures db.State() == old(db.State()).(users := db.users, logs := db.logs, orders := db.orders)
    ensures |db.orders| == |old(db.orders)|
    ensures forall i :: 0 <= i < |db.orders| && old(db.orders)[i].sessionId != s.id ==> db.orders[i] == old(db.orders)[i]
    ensures OnlyGrantsFor(old(db.logs), db.logs, s)
    ensures db.logs != old(db.logs) ==> FindOrder(db.orders, s.id).Some? && FindOrder(db.orders, s.id).value.state == Paid
    ensures r.success ==> RefTaken(db.logs, Recharge, s.id)
    ensures o.state == Paid && old(RefTaken(db.logs, Recharge, s.id)) ==>
      r == AlreadyProcessed && db.State() == old(db.State())
    ensures o.state == Paid && old(GrantSucceeds(db.users, db.logs, o, s, inf.settle.grantFault)) ==>
      r == Processed && db.logs == old(db.logs) + [GrantLog(|old(db.logs)| + 1, o, s, eventCreated, now)]
    ensures Decide(o, s) == Settle && !inf.raced && inf.settle.casFault.None? &&
            old(GrantSucceeds(db.users, db.logs, o, s, inf.settle.grantFault)) ==>
      r == Processed && FindOrder(db.orders, s.id).Some? && FindOrder(db.orders, s.id).value.state == Paid
  {
    if o.state == Paid {
      r := ResumePaid(db, o, s, eventCreated, now, inf.settle.grantFault);
    } else if Decide(o, s) != Settle {
      r := HandleOrder(db, o, s, eventCreated, now, inf);
    } else {
      r := SettleRacing(db, o, s, eventCreated, now, inf.raced, inf.settle);
    }
  }

  /**
   * `handleCheckoutCompleted` with the grant checked: success is reported
   * only once a recharge log for the session exists, and a paid order whose
   * credits are missing gets them on redelivery. Stripe session ids are
   * never empty.
   */
  method HandleCheckoutCompletedCorrected(db: Db, s: CheckoutSession, eventCreated: int, now: int, env: PriceEnv,
                                          inf: Interference)
    returns (r: HandlerResult)
    requires db.Valid() && s.id != ""
    modifies db
    ensures db.Valid()
    ensures db.State() == old(db.State()).(users := db.users, logs := db.logs, orders := db.orders)
    ensures forall i :: 0 <= i < |old(db.orders)| && old(db.orders)[i].sessionId != s.id ==>
      i < |db.orders| && db.orders[i] == old(db.orders)[i]
    ensures OnlyGrantsFor(old(db.logs), db.logs, s)
    ensures Count(db.logs, (l: CreditLog) => l.kind == Recharge && l.refId == Some(s.id)) <= 1
    ensures db.logs != old(db.logs) ==> FindOrder(db.orders, s.id).Some? && FindOrder(db.orders, s.id).value.state == Paid
    ensures r.success ==> RefTaken(db.logs, Recharge, s.id)
    ensures var before := old(FindOrder(db.orders, s.id));
      inf.fetchFault.None? && before.Some? && before.value.state == Paid && old(RefTaken(db.logs, Recharge, s.id)) ==>
        r == AlreadyProcessed && db.State() == old(db.State())
    ensures var before := old(FindOrder(db.orders, s.id));
      inf.fetchFault.None? && before.Some? && before.value.state == Paid &&
      old(GrantSucceeds(db.users, db.logs, before.value, s, inf.settle.grantFault)) ==>
        r == Processed && db.logs == old(db.logs) + [GrantLog(|old(db.logs)| + 1, before.value, s, eventCreated, now)]
    ensures var before := old(FindOrder(db.orders, s.id));
      inf.fetchFault.None? && before.Some? && Decide(before.value, s) == Settle && !inf.raced &&
      inf.settle.casFault.None? && old(GrantSucceeds(db.users, db.logs, before.value, s, inf.settle.grantFault)) ==>
        r == Processed && FindOrder(db.orders, s.id).Some? && FindOrder(db.orders, s.id).value.state == Paid
    // a missing order is rebuilt, and a verified session then pays it and grants its credits
    ensures var row := ReconstructRow(s, eventCreated, now, env);
      old(FindOrder(db.orders, s.id)).None? && row.Success? && inf.insertFault.None? && inf.refetchFault.None? &&
      Decide(row.value, s) == Settle && !inf.raced && inf.settle.casFault.None? &&
      GrantSucceeds(old(db.users), old(db.logs), row.value, s, inf.settle.grantFault) ==>
        r == Processed && FindOrder(db.orders, s.id).Some? && FindOrder(db.orders, s.id).value.state == Paid &&
        RefTaken(db.logs, Recharge, s.id)
    ensures old(FindOrder(db.orders, s.id)).None? && inf.insertFault.Some? && !SessionConflict(inf.insertFault.value) ==>
        r == HandlerFailure("Order reconstruction failed") && db.State() == old(db.State())
  {
    var loaded := LoadOrder(db, s, eventCreated, now, env, inf);
    if loaded.None? {
      r := HandlerFailure("Order reconstruction failed");
    } else {
      r := HandleOrderCorrected(db, loaded.value, s, eventCreated, now, inf);
    }
    RefIdAtMostOnce(db.logs, Recharge, s.id);
  }

  // ----- the route -----

  /** A verified Stripe event: its id, type, creation time (seconds) and, for checkout events, the session. */
  datatype StripeEvent = StripeEvent(id: string, kind: string, created: int, session: CheckoutSession)

  const CheckoutCompleted := "checkout.session.completed"

  /**
   * The webhook `POST`: 401 without a signature or with one that does not
   * verify; otherwise the event is recorded (a failure to record it is only
   * logged), a completed checkout goes to `handleCheckoutCompleted` (500
   * when it reports failure, so that Stripe retries) and every other event
   * type is acknowledged. A 200 for a completed checkout says the order is
   * paid, not that its credits were recorded.
   */
  method StripeWebhookPost(db: Db, signature: Option<string>, signatureValid: bool, event: StripeEvent, env: PriceEnv,
                           now: int, recordFault: Fault, inf: Interference)
    returns (status: int)
    requires db.Valid()
    modifies db
    ensures db.Valid()
    ensures status == 200 || status == 401 || status == 500
    ensures status == 401 <==> !Truthy(signature) || !signatureValid
    ensures status == 401 ==> db.State() == old(db.State())
    ensures status != 401 ==>
      db.stripeEvents == old(db.stripeEvents) +
        (if recordFault.None? then [StripeEventRow(event.id, event.kind, event.created * 1000)] else [])
    ensures status != 401 && event.kind != CheckoutCompleted ==>
      status == 200 && db.State() == old(db.State()).(stripeEvents := db.stripeEvents)
    ensures status == 500 ==> event.kind == CheckoutCompleted
    ensures db.State() == old(db.State()).(users := db.users, logs := db.logs, orders := db.orders,
                                          stripeEvents := db.stripeEvents)
    // at most one grant, for this session, and only for a paid order whose session passed every check
    ensures db.logs == old(db.logs) || GrantAppended(old(db.logs), db.logs, event.session)
    ensures db.logs == old(db.logs) ==> db.users == old(db.users)
    ensures db.logs != old(db.logs) ==>
      FindOrder(db.orders, event.session.id).Some? && FindOrder(db.orders, event.session.id).value.state == Paid &&
      SessionPays(FindOrder(db.orders, event.session.id).value, event.session)
    ensures status == 500 && !inf.raced ==> db.logs == old(db.logs) && db.users == old(db.users)
    // a redelivery for a paid order is acknowledged and changes nothing but the event record
    ensures var before := old(FindOrder(db.orders, event.session.id));
      status != 401 && event.kind == CheckoutCompleted && inf.fetchFault.None? &&
      before.Some? && before.value.state == Paid ==>
        status == 200 && db.State() == old(db.State()).(stripeEvents := db.stripeEvents)
    // a verified pending order is paid and acknowledged, whether or not its grant went through
    ensures var before := old(FindOrder(db.orders, event.session.id));
      status != 401 && event.kind == CheckoutCompleted && inf.fetchFault.None? &&
      before.Some? && Decide(before.value, event.session) == Settle && !inf.raced && inf.settle.casFault.None? ==>
        status == 200 &&
        FindOrder(db.orders, event.session.id).Some? && FindOrder(db.orders, event.session.id).value.state == Paid &&
        (!old(GrantSucceeds(db.users, db.logs, before.value, event.session, inf.settle.grantFault)) ==>
          db.logs == old(db.logs))
  {
    if !Truthy(signature) || !signatureValid {
      return 401;
    }
    var _ := db.RecordStripeEvent(StripeEventRow(event.id, event.kind, event.created * 1000), recordFault);
    if event.kind == CheckoutCompleted {
      var r := HandleCheckoutCompleted(db, event.session, event.created, now, env, inf);
      if !r.success {
        return 500;
      }
    }
    status := 200;
  }

  /**
   * The webhook `POST` over the corrected handler: a 200 for a completed
   * checkout now means the session's credits are recorded, and a 500 makes
   * Stripe retry until they are.
   */
  method StripeWebhookPostCorrected(db: Db, signature: Option<string>, signatureValid: bool, event: StripeEvent, env: PriceEnv,
                                    now: int, recordFault: Fault, inf: Interference)
    returns (status: int)
    requires db.Valid()
    requires event.kind == CheckoutCompleted ==> event.session.id != ""
    modifies db
    ensures db.Valid()
    ensures status == 200 || status == 401 || status == 500
    ensures status == 401 <==> !Truthy(signature) || !signatureValid
    ensures status == 401 ==> db.State() == old(db.State())
    ensures status != 401 ==>
      db.stripeEvents == old(db.stripeEvents) +
        (if recordFault.None? then [StripeEventRow(event.id, event.kind, event.created * 1000)] else [])
    ensures status != 401 && event.kind != CheckoutCompleted ==>
      status == 200 && db.State() == old(db.State()).(stripeEvents := db.stripeEvents)
    ensures status == 500 ==> event.kind == CheckoutCompleted
    ensures status == 200 && event.kind == CheckoutCompleted ==> RefTaken(db.logs, Recharge, event.session.id)
    ensures OnlyGrantsFor(old(db.logs), db.logs, event.session)
    ensures db.State() == old(db.State()).(users := db.users, logs := db.logs, orders := db.orders,
                                          stripeEvents := db.stripeEvents)
  {
    if !Truthy(signature) || !signatureValid {
      return 401;
    }
    var _ := db.RecordStripeEvent(StripeEventRow(event.id, event.kind, event.created * 1000), recordFault);
    if event.kind == CheckoutCompleted {
      var r := HandleCheckoutCompletedCorrected(db, event.session, event.created, now, env, inf);
      if !r.success {
        return 500;
      }
    }
    status := 200;
  }
}
