/**
 * The checkout route: it resolves the buyer's email and price tier, creates
 * a Stripe checkout session carrying the metadata the payment webhook later
 * relies on, and records a pending order (with a bounded retry).
 */
module Checkout {
  import opened Wrappers
  import opened Text
  import opened Seqs
  import opened Store
  import opened Pricing
  import Credits

  /** One entry of the Clerk user's `emailAddresses`. */
  datatype EmailAddress = EmailAddress(emailAddress: string, verified: bool)

  /** The parts of the Clerk user object the routes read. */
  datatype ClerkUser = ClerkUser(
    primaryEmail: Option<string>,
    emailAddresses: seq<EmailAddress>,
    externalEmails: seq<Option<string>>,
    firstName: Option<string>,
    lastName: Option<string>,
    username: Option<string>)

  /** The parsed request body: malformed JSON, or an object with an optional `priceId`. */
  datatype CheckoutBody = InvalidJson | JsonBody(priceId: Option<string>)

  /** The JSON response: status code and, on success, the session id. */
  datatype CheckoutReply = CheckoutReply(status: int, sessionId: Option<string>)

  /** What the route sent to Stripe when it created a session. */
  datatype SessionRequest = SessionRequest(customerEmail: string, priceId: string, metadata: map<string, string>)

  const DefaultMaxRetries := 2

  /** The first verified address of the list, if any. */
  function FirstVerified(emails: seq<EmailAddress>): (r: Option<string>)
    ensures r.Some? ==> exists i :: 0 <= i < |emails| && emails[i].verified && emails[i].emailAddress == r.value
    ensures r.None? ==> forall i :: 0 <= i < |emails| ==> !emails[i].verified
  {
    var i := FirstIndex(emails, (e: EmailAddress) => e.verified);
    if i < |emails| then Some(emails[i].emailAddress) else None
  }

  /** The first external account whose email is non-empty. */
  function FirstExternal(externals: seq<Option<string>>): (r: Option<string>)
    ensures r.Some? ==> r.value != "" && Some(r.value) in externals
    ensures r.None? ==> forall i :: 0 <= i < |externals| ==> !Truthy(externals[i])
  {
    var i := FirstIndex(externals, (e: Option<string>) => Truthy(e));
    if i < |externals| then Some(externals[i].value) else None
  }

  /**
   * The checkout email: the primary address, else the first verified one,
   * else the first listed one, else the first external account's, each
   * taken only when non-empty.
   */
  function SelectEmail(user: Option<ClerkUser>): (r: Option<string>)
    ensures r.Some? ==> r.value != ""
  {
    if user.None? then None
    else
      var u := user.value;
      if Truthy(u.primaryEmail) then u.primaryEmail
      else if Truthy(FirstVerified(u.emailAddresses)) then FirstVerified(u.emailAddresses)
      else if |u.emailAddresses| > 0 && u.emailAddresses[0].emailAddress != "" then Some(u.emailAddresses[0].emailAddress)
      else FirstExternal(u.externalEmails)
  }

  /** The chosen email always belongs to the user: primary, listed or external. */
  lemma SelectedEmailBelongsToUser(user: Option<ClerkUser>)
    ensures var r := SelectEmail(user);
      r.Some? ==> (user.Some? &&
                   (user.value.primaryEmail == r ||
                    (exists i :: 0 <= i < |user.value.emailAddresses| && user.value.emailAddresses[i].emailAddress == r.value) ||
                    r in user.value.externalEmails))
  {
  }

  /** A non-empty primary address always wins; with no usable address there is no email. */
  lemma SelectEmailOrder(u: ClerkUser)
    ensures Truthy(u.primaryEmail) ==> SelectEmail(Some(u)) == u.primaryEmail
    ensures !Truthy(u.primaryEmail) && (forall i :: 0 <= i < |u.emailAddresses| ==> u.emailAddresses[i].emailAddress == "") &&
            (forall i :: 0 <= i < |u.externalEmails| ==> !Truthy(u.externalEmails[i])) ==>
      SelectEmail(Some(u)) == None
  {
    if !Truthy(u.primaryEmail) && FirstVerified(u.emailAddresses).Some? {
      var v := FirstVerified(u.emailAddresses).value;
      assert exists i :: 0 <= i < |u.emailAddresses| && u.emailAddresses[i].emailAddress == v;
    }
  }

  /** The session metadata written at checkout. */
  function SessionMetadata(userId: nat, clerkUserId: string, tier: PricingTier, priceId: string): (m: map<string, string>)
    ensures m.Keys == {"userId", "clerkUserId", "credits", "tier", "priceId"}
    ensures m["userId"] == NatToString(userId) && m["credits"] == NatToString(tier.credits)
    ensures m["clerkUserId"] == clerkUserId && m["tier"] == tier.tier && m["priceId"] == priceId
  {
    map["userId" := NatToString(userId), "clerkUserId" := clerkUserId,
        "credits" := NatToString(tier.credits), "tier" := tier.tier, "priceId" := priceId]
  }

  /** The tier as the JSON snapshot stored in the order's `extra`. */
  function TierJson(tier: PricingTier): Json {
    JObj(map["tier" := JStr(tier.tier), "label" := JStr(tier.name), "priceId" := JStr(tier.priceId),
             "credits" := JNum(tier.credits), "amount" := JNum(tier.amountCents), "currency" := JStr(tier.currency)])
  }

  /** The pending order row the route inserts. */
  function OrderRow(sessionId: string, userId: nat, clerkUserId: string, email: string, priceId: string,
                    tier: PricingTier, now: int): (o: Order)
    ensures o.sessionId == sessionId && o.state == Pending && o.paidAt.None?
    ensures o.userId == Some(userId) && o.clerkUserId == Some(clerkUserId) && o.userEmail == Some(email)
    ensures o.priceId == priceId && o.priceTier == Some(tier.tier)
    ensures o.credits == tier.credits && o.amountCents == tier.amountCents && o.currency == tier.currency
  {
    Order(sessionId, Some(userId), Some(clerkUserId), Some(email), priceId, Some(tier.tier),
          tier.credits, tier.amountCents, tier.currency, Pending,
          Some(map["price_snapshot" := TierJson(tier), "session_created_at" := JNum(now),
                   "stripe_price_id" := JStr(priceId)]),
          None)
  }

  /** The error the store returns on the insert attempt numbered `i` (from 0). */
  function FaultAt(faults: seq<Fault>, i: nat): Fault {
    if i < |faults| then faults[i] else None
  }

  /**
   * `createOrderWithRetry`: at most `maxRetries` inserts, stopping at the
   * first one that succeeds. The pause between attempts is not modelled.
   */
  method CreateOrderWithRetry(db: Db, row: Order, maxRetries: int, faults: seq<Fault>)
    returns (ok: bool, attempts: nat)
    requires db.Valid()
    modifies db
    ensures db.Valid()
    ensures attempts <= (if maxRetries < 0 then 0 else maxRetries)
    ensures ok <==> FindOrder(old(db.orders), row.sessionId).None? &&
                    exists i :: 0 <= i < maxRetries && FaultAt(faults, i).None?
    ensures ok ==> attempts >= 1 && FaultAt(faults, attempts - 1).None? &&
                   forall j :: 0 <= j < attempts - 1 ==> FaultAt(faults, j).Some?
    ensures ok ==> db.State() == old(db.State()).(orders := old(db.orders) + [row])
    ensures !ok ==> attempts == (if maxRetries < 0 then 0 else maxRetries) && db.State() == old(db.State())
  {
    var attempt := 1;
    attempts := 0;
    while attempt <= maxRetries
      invariant db.Valid()
      invariant db.State() == old(db.State())
      invariant 1 <= attempt && attempts == attempt - 1
      invariant attempt <= (if maxRetries < 0 then 0 else maxRetries) + 1
      invariant forall j :: 0 <= j < attempt - 1 ==>
        FaultAt(faults, j).Some? || FindOrder(old(db.orders), row.sessionId).Some?
    {
      var err := db.InsertOrder(row, FaultAt(faults, attempt - 1));
      attempts := attempt;
      if err.None? {
        return true, attempts;
      }
      attempt := attempt + 1;
    }
    ok := false;
  }

  /**
   * The checkout `POST`: 401 without a signed-in user, 500 for an unreadable
   * body, a missing or unknown price id, 400 without an email, 403 for an
   * account missing from the store, 500 when Stripe or the order insert
   * fails, and otherwise the new session's id.
   */
  method CheckoutPost(db: Db, clerkUserId: Option<string>, user: Option<ClerkUser>, body: CheckoutBody,
                      env: PriceEnv, lookupFault: Fault, stripe: Result<string, string>,
                      insertFaults: seq<Fault>, now: int)
    returns (reply: CheckoutReply, session: Option<SessionRequest>)
    requires db.Valid()
    modifies db
    ensures db.Valid()
    ensures reply.status != 200 ==> db.State() == old(db.State())
    ensures reply.status in {200, 400, 401, 403, 500}
    ensures !Truthy(clerkUserId) ==> reply == CheckoutReply(401, None) && session.None? && db.State() == old(db.State())
    ensures Truthy(clerkUserId) && (body.InvalidJson? || !Truthy(body.priceId) ||
            GetTierByPriceId(env, body.priceId.value).None?) ==>
      reply.status == 500 && session.None? && db.State() == old(db.State())
    ensures Truthy(clerkUserId) && body.JsonBody? && Truthy(body.priceId) &&
            GetTierByPriceId(env, body.priceId.value).Some? && SelectEmail(user).None? ==>
      reply.status == 400 && session.None? && db.State() == old(db.State())
    ensures reply.status == 403 <==>
      Truthy(clerkUserId) && body.JsonBody? && Truthy(body.priceId) &&
      GetTierByPriceId(env, body.priceId.value).Some? && SelectEmail(user).Some? &&
      old(Credits.GetUserIdByClerkId(db, clerkUserId.value, lookupFault)) == Return(None)
    ensures reply.status == 403 ==> session.None? && db.State() == old(db.State())
    ensures session.Some? ==>
      Truthy(clerkUserId) && body.JsonBody? && Truthy(body.priceId) &&
      var tier := GetTierByPriceId(env, body.priceId.value);
      var id := old(Credits.GetUserIdByClerkId(db, clerkUserId.value, lookupFault));
      tier.Some? && id.Return? && id.value.Some? && SelectEmail(user).Some? &&
      session.value == SessionRequest(SelectEmail(user).value, body.priceId.value,
                                      SessionMetadata(id.value.value, clerkUserId.value, tier.value, body.priceId.value))
    // once every check passes, the session exists exactly when Stripe created one
    ensures Truthy(clerkUserId) && body.JsonBody? && Truthy(body.priceId) &&
            GetTierByPriceId(env, body.priceId.value).Some? && SelectEmail(user).Some? &&
            old(Credits.GetUserIdByClerkId(db, clerkUserId.value, lookupFault)).Return? &&
            old(Credits.GetUserIdByClerkId(db, clerkUserId.value, lookupFault)).value.Some? ==>
      (session.Some? <==> stripe.Success?) && (stripe.Failure? ==> reply.status == 500)
    // with a session, the reply is 200 exactly when one insert attempt lands a new order row
    ensures session.Some? ==>
      stripe.Success? && reply.status in {200, 500} &&
      (reply.status == 200 <==>
        FindOrder(old(db.orders), stripe.value).None? &&
        exists i :: 0 <= i < DefaultMaxRetries && FaultAt(insertFaults, i).None?)
    ensures reply.status == 200 ==>
      session.Some? && stripe.Success? && reply.sessionId == Some(stripe.value) &&
      var tier := GetTierByPriceId(env, body.priceId.value).value;
      var id := old(Credits.GetUserIdByClerkId(db, clerkUserId.value, lookupFault)).value.value;
      db.State() == old(db.State()).(orders := old(db.orders) +
        [OrderRow(stripe.value, id, clerkUserId.value, SelectEmail(user).value, body.priceId.value, tier, now)])
  {
    session := None;
    if !Truthy(clerkUserId) {
      return CheckoutReply(401, None), None;
    }
    var clerk := clerkUserId.value;
    var email := SelectEmail(user);
    if body.InvalidJson? || !Truthy(body.priceId) {
      return CheckoutReply(500, None), None;
    }
    var priceId := body.priceId.value;
    var tier := GetTierByPriceId(env, priceId);
    if tier.None? {
      return CheckoutReply(500, None), None;
    }
    if email.None? {
      return CheckoutReply(400, None), None;
    }
    var lookup := Credits.GetUserIdByClerkId(db, clerk, lookupFault);
    if lookup.Throw? {
      return CheckoutReply(500, None), None;
    }
    if lookup.value.None? {
      return CheckoutReply(403, None), None;
    }
    var userId := lookup.value.value;
    var request := SessionRequest(email.value, priceId, SessionMetadata(userId, clerk, tier.value, priceId));
    if stripe.Failure? {
      return CheckoutReply(500, None), None;
    }
    session := Some(request);
    var row := OrderRow(stripe.value, userId, clerk, email.value, priceId, tier.value, now);
    var ok, _ := CreateOrderWithRetry(db, row, DefaultMaxRetries, insertFaults);
    if !ok {
      return CheckoutReply(500, None), session;
    }
    reply := CheckoutReply(200, Some(stripe.value));
  }
}
