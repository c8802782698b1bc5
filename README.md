# Credits ledger and payment reconciliation of image-narration

image-narration is a web application that narrates an uploaded picture with
an AI model. Narrations are paid for with credits:

- a signed-in user buys a pack of credits (Starter, Pro or Elite) through a
  Stripe checkout session;
- the Stripe webhook settles the order and grants the credits;
- each generation consumes credits from the user's balance;
- an anonymous visitor gets a small free trial, keyed by a fingerprint id
  and rate-limited per hour;
- Clerk webhooks keep the accounts in step with the identity provider;
- API routes list a user's orders and usage history.

This project models that core in Dafny:

- the credit operations of `credits.ts` over an in-memory store (`Store.Db`);
- the checkout route and the Stripe webhook;
- the anonymous trial;
- the usage-history store and its route;
- the Clerk webhook and the account-ensure route;
- the orders route;
- the AI route's request handling;
- the R2 explorer's URL and error helpers;
- the two request middlewares;
- the small decisions of the client components.

The Supabase database is a class whose fields are the tables. Each query the
code issues is one method of that class. Every error the database or the
network could return is an explicit `Fault` argument, so each error branch
of the source is a case of the contracts. A concurrent delivery or request
that lands between two steps is a `raced` flag.

The routes call the handlers as written. Where a finding below corrects a
handler, a corrected route beside the original calls the corrected one.

Module layout (one module per source file):

| module | source file |
|---|---|
| `Pricing` | `src/lib/pricing.ts` |
| `Credits` | `src/lib/credits.ts` |
| `Checkout` | `src/app/api/payments/checkout/route.ts` |
| `PaymentsWebhook` | `src/app/api/payments/webhook/route.ts` |
| `Anonymous` | `src/lib/anonymous.ts` |
| `UsageHistory` | `src/lib/usage-history.ts` |
| `UsageHistoryRoute` | `src/app/api/user/usage-history/route.ts` |
| `ClerkWebhook` | `src/app/api/clerk/webhook/route.ts` |
| `UserEnsure` | `src/app/api/user/ensure/route.ts` |
| `OrdersRoute` | `src/app/api/user/orders/route.ts` |
| `AiGenerate` | `src/app/api/ai-generate/route.ts` |
| `R2Explorer` | `src/lib/r2-explorer-sdk.ts` |
| `Proxy` | `src/proxy.ts` |
| `Middleware` | `src/middleware.ts` |
| `HeroClient` | `src/components/hero-client.tsx` |
| `OrdersList` | `src/components/orders/OrdersList.tsx` |
| `Tips` | `src/components/Tips.tsx` |

Helper modules:

- `Wrappers`: `Option`, `Result`, and `Outcome` (a value or a thrown message).
- `Text`: JavaScript string operations on `seq<char>`.
- `Seqs`: search, filter, count, reverse and window over sequences.
- `RouteMatcher`: the route patterns both middlewares use.
- `Store`: the tables, their key invariants and the atomic store operations.

## Model

| member | source | states |
|---|---|---|
| Pricing.PricingTiers | src/lib/pricing.ts:12-52 | There are exactly three tiers. |
| Pricing.GetTierByPriceIdSpec | src/lib/pricing.ts:54-56 | A found tier has the requested price id and is the first tier with it. Nothing is found exactly when no tier has that price id. |
| Pricing.UnsetEnvEmptyIdIsStarter | src/lib/pricing.ts:12-56 | With the price environment variables unset, the empty price id resolves to the Starter tier. |
| Pricing.TierCreditsDistinct | src/lib/pricing.ts:14-51 | No two tiers grant the same number of credits, so a credit count identifies a tier. |
| Pricing.FindByCreditsTextFindsTier | src/app/api/payments/webhook/route.ts:106-110 | Looking a tier up by the decimal text of its credit count finds that very tier. |
| Credits.GetUserIdByClerkId | src/lib/credits.ts:21-37 | A returned id belongs to an account with that Clerk id. "No user" is returned exactly when no account has the id or the store reports PGRST116. Every other store error is thrown. |
| Credits.GetUserCredits | src/lib/credits.ts:39-62 | A returned profile is that account's row. "No user" for a missing account or PGRST116; other errors throw. |
| Credits.CheckCreditExpiration | src/lib/credits.ts:162-179 | An unreadable or missing account counts as expired. Otherwise credits are expired exactly when a deadline exists and lies before now. |
| Credits.ExpirationIsMonotone | src/lib/credits.ts:162-179 | Credits that are expired at one time are expired at every later time. |
| Credits.ConsumeCredits | src/lib/credits.ts:64-100 | A non-positive amount is refused with no store change. The procedure's refusals are returned and other errors thrown, both leaving the store unchanged. Expired credits are answered `{success: false, error: "Credits expired"}`, and a short unexpired balance `{success: false, error: "Insufficient credits"}`. A missing account throws "Failed to consume credits: User not found". On success, one pending consume log is appended and the balance is debited by exactly the amount; the read-back balance is 0 when that read fails. Success is guaranteed for a sufficient, unexpired balance and a fresh ref. |
| Credits.ConsumeStepFacts | src/lib/credits.ts:64-100 | Every outcome of the consume step on plain tables: the refusal cases, their messages, and the debit and pending log on success. |
| Credits.ProcFailure | src/lib/credits.ts:81-86 | A procedure error is returned as `{success: false, error}` exactly when its message names insufficient or expired credits; any other message is thrown with the "Failed to consume credits: " prefix. |
| Credits.ReadBalance | src/lib/credits.ts:88-99 | The balance read back after a debit is the account's balance, or 0 when the read fails or finds no row. |
| Credits.RefusalMessages | src/lib/credits.ts:81-86 | The expired and insufficient refusals are recognised as refusals; "User not found" is not, so it is thrown. |
| Credits.RechargeRevivesExpiredAccount | src/lib/credits.ts:140-160 | A buyer whose credits expired is refused with "Credits expired", buys a pack two years later, and can spend again, because the recharge moves the expiry a year past the payment. |
| Credits.RefundCredits | src/lib/credits.ts:102-124 | Succeeds exactly for an existing pending consume log with no store error. Only then is that log marked refunded, with the reason or the default reason, and its credits returned to its owner's account if that account exists. Nothing else changes, and a failure changes nothing. |
| Credits.ConfirmConsumption | src/lib/credits.ts:126-138 | Answers true exactly when the store reported no error, and an error changes nothing. Only a pending log with that id becomes confirmed; no other log, account or order changes. |
| Credits.AddCredits | src/lib/credits.ts:140-160 | False on a store error or an already-used recharge ref, with nothing changed. True is guaranteed otherwise for an existing account. On true, one confirmed recharge log is appended and the balance grows by the credits. The expiry becomes the later of the old expiry and a year after the payment time (or `now` without one). Exactly one recharge log carries the ref. |
| Credits.RechargeRecorded | src/lib/credits.ts:140-160 | Appending a recharge log with a ref no earlier recharge carries leaves exactly one recharge log with that ref. |
| Store.RefIdAtMostOnce | src/lib/credits.ts:148-157 | Under the unique index on log type and ref, each ref is carried by at most one log of each type. |
| Store.Db.ConsumeProc | src/lib/credits.ts:73-79 | The consume_credits procedure: it fails, with no change, on a fault, a missing or expired account, an insufficient balance or a used ref. Otherwise it debits the balance and appends a pending consume log. |
| Store.Db.RefundProc | src/lib/credits.ts:116-121 | The refund_credits procedure: only a pending consume log can be refunded; a failure changes nothing. |
| Store.Db.AddProc | src/lib/credits.ts:148-157 | The add_credits procedure: it fails, with no change, on a fault, a missing account or a used ref. Otherwise it credits the balance, extends the expiry to the later of the old one and a year after the payment, and appends a confirmed log. |
| Store.RechargedExpiry | src/lib/credits.ts:146-157 | The expiry after a recharge is at least a year after the payment and never earlier than the old expiry, and it is one of the two. |
| Store.ConsumeRefusal | src/lib/credits.ts:73-79 | The consume_credits refusal in its order of checks: "User not found", then "Credits expired", then "Insufficient credits". There is no refusal exactly when the account exists, is unexpired, covers the amount and the ref is unused. |
| Checkout.FirstVerified | src/app/api/payments/checkout/route.ts:47 | The result is a verified address of the list. None means no address is verified. |
| Checkout.FirstExternal | src/app/api/payments/checkout/route.ts:49 | The result is a non-empty external email of the user. None means there is none. |
| Checkout.SelectEmail | src/app/api/payments/checkout/route.ts:44-50 | A chosen email is never empty. |
| Checkout.SelectedEmailBelongsToUser | src/app/api/payments/checkout/route.ts:44-50 | The chosen email is the user's primary, listed or external address. |
| Checkout.SelectEmailOrder | src/app/api/payments/checkout/route.ts:44-50 | A non-empty primary address always wins. With no usable address there is no email. |
| Checkout.SessionMetadata | src/app/api/payments/checkout/route.ts:104-110 | The session metadata holds exactly userId, clerkUserId, credits, tier and priceId, with the numbers as decimal text. |
| Checkout.OrderRow | src/app/api/payments/checkout/route.ts:115-131 | The inserted order is pending and unpaid, belongs to the caller, and carries the tier's credits, amount and currency. |
| Checkout.CreateOrderWithRetry | src/app/api/payments/checkout/route.ts:11-30 | Makes at most maxRetries attempts and stops at the first that succeeds. It succeeds exactly when the session is new and some attempt within the budget meets no error. Success appends exactly the row; failure changes nothing. |
| Checkout.CheckoutPost | src/app/api/payments/checkout/route.ts:32-153 | 401 without a user. 500 for an unreadable body or a missing or unknown price id. 400 without an email. 403 exactly when the account lookup finds no user. Every refusal leaves the store unchanged. Once every check passes, a session exists exactly when Stripe creates one; a Stripe failure is a 500. A created session carries the selected email and the tier's metadata. With a session, the reply is 200 or 500: 200 exactly when no order for the session exists yet and one of the insert attempts meets no error. A 200 inserts exactly the pending order for the Stripe session. |
| PaymentsWebhook.MergeExtra | src/app/api/payments/webhook/route.ts:63-71 | The patch's keys win and every other key of the old extra is kept; the keys are the union. |
| PaymentsWebhook.MergeExtraTwice | src/app/api/payments/webhook/route.ts:63-71 | Merging two patches one after the other equals merging their union. |
| PaymentsWebhook.NextRetryCount | src/app/api/payments/webhook/route.ts:358-377 | The retry count starts at 1 and otherwise is the stored count plus one. |
| PaymentsWebhook.StrArray | src/app/api/payments/webhook/route.ts:290-306 | The payment method types are stored as a JSON array of the same strings, in order. |
| PaymentsWebhook.ReconstructRow | src/app/api/payments/webhook/route.ts:73-137 | Missing metadata is refused with its message. A credit count that does not parse is rejected by the NOT NULL constraint. A rebuilt order is pending and carries the session's user, Clerk id, credits, tier, amount and currency (usd by default). |
| PaymentsWebhook.ReconstructCheckoutSession | src/app/api/payments/webhook/route.ts:83-137 | A session created by the checkout route is rebuilt into the order the checkout inserted: same user, Clerk id, price id, tier, credits and state. |
| PaymentsWebhook.RebuiltPriceIdFromCredits | src/app/api/payments/webhook/route.ts:106-110 | Without a priceId in the metadata, the price id is recovered from the tier with that credit count, or is "unknown". |
| PaymentsWebhook.ReconstructOrder | src/app/api/payments/webhook/route.ts:84-151 | Done exactly when the row builds and the insert either succeeds or fails with 23505 on `session_id`, which means another request created the order. Done after a conflict changes nothing; otherwise exactly the rebuilt row is appended. Any other insert error is thrown as "Failed to insert reconstructed order: " plus the message. Missing metadata is thrown before any insert. A thrown error changes nothing. |
| PaymentsWebhook.DuplicateSessionRecognised | src/app/api/payments/webhook/route.ts:139-151 | The duplicate-session error carries the unique-violation code and names session_id. |
| PaymentsWebhook.DecideSettleIff | src/app/api/payments/webhook/route.ts:208-284 | Settlement is reached exactly for a pending order whose session is paid in the same amount and currency. |
| PaymentsWebhook.CurrencyCaseInsensitive | src/app/api/payments/webhook/route.ts:269-284 | The currency is compared in lower case. |
| PaymentsWebhook.ErrorPatchCountsRetries | src/app/api/payments/webhook/route.ts:358-377 | Each recorded failure adds one to a numeric retry count and keeps every unrelated key. |
| PaymentsWebhook.LoadOrder | src/app/api/payments/webhook/route.ts:167-205 | An existing order is returned untouched. A missing one is rebuilt from the session: with complete metadata and no insert or refetch error, the rebuilt pending row is appended and loaded. A loaded order is the stored one, or a rebuilt pending row. Without the required metadata, or after an insert error other than the session conflict, nothing is loaded and nothing changes. |
| PaymentsWebhook.RejectOrder | src/app/api/payments/webhook/route.ts:222-284 | An unpaid session marks the order failed; an amount or currency mismatch marks it disputed. A failed update leaves it pending. The handler reports the matching error. No other order changes. |
| PaymentsWebhook.SettleVerified | src/app/api/payments/webhook/route.ts:286-377 | As written, for a verified pending order, possibly after a concurrent delivery settled it. A paid order was paid at the event time. Any appended log is the one recharge for this order. Without interference the order is paid. |
| PaymentsWebhook.SettleOrder | src/app/api/payments/webhook/route.ts:286-377 | As written: a successful conditional update marks the order paid at the event time. The result is success whether the grant succeeded (one recharge log) or not (no log). A lost conditional update succeeds only if a re-read shows the order paid. |
| PaymentsWebhook.SettleRefused | src/app/api/payments/webhook/route.ts:308-322 | When the conditional update matched no row, the answer is success exactly when the re-read finds the order paid. Otherwise the settlement fails. Only the failing order's extra may change. |
| PaymentsWebhook.SettleAfterRace | src/app/api/payments/webhook/route.ts:286-377 | Two settlements in a row, a concurrent one first: the order keeps its data, and any grant is the one recharge log for this session, given to the order's owner. |
| PaymentsWebhook.NoteSettleFailure | src/app/api/payments/webhook/route.ts:358-377 | A failed settlement records its error and a retry count one higher in the order's extra, unless that update fails too. Only the extra changes. The handler fails so that Stripe retries. |
| PaymentsWebhook.HandleOrder | src/app/api/payments/webhook/route.ts:207-377 | A paid order is left alone. Failed or disputed orders are reported. Rejections never grant. A verified session settles the order. At most one recharge log, for this session, is ever appended. |
| PaymentsWebhook.HandleCheckoutCompleted | src/app/api/payments/webhook/route.ts:164-378 | The whole handler as written. Credits are granted only for a paid order whose session passed every check. An order only becomes paid through such a session. Redelivery to a paid order changes nothing. A failure never grants. A missing order is rebuilt as a pending row and checked like a stored one: rejected as failed or disputed, or paid and reported processed exactly when the grant succeeds. Missing metadata or a non-conflict insert error answers "Order reconstruction failed" with nothing changed. |
| PaymentsWebhook.PaidWithoutCredits | src/app/api/payments/webhook/route.ts:286-348 | Finding: a transient grant error yields a 200 from the route, with the order paid and no credits. |
| PaymentsWebhook.GrantOnce | src/app/api/payments/webhook/route.ts:286-348 | Corrected grant: success exactly when a recharge log for the session exists afterwards. Only such logs are ever appended. |
| PaymentsWebhook.SettleOrderCorrected | src/app/api/payments/webhook/route.ts:286-377 | Corrected settlement: success only once the session's recharge log exists. A won update whose grant is accepted is Processed. |
| PaymentsWebhook.ResumePaid | src/app/api/payments/webhook/route.ts:207-211 | Corrected: a paid order whose credits are recorded is left alone, and one whose credits are missing gets them. |
| PaymentsWebhook.SettleRacing | src/app/api/payments/webhook/route.ts:286-348 | Corrected: even when a concurrent delivery settles first, only grants for this session are appended and success implies the credits are recorded. |
| PaymentsWebhook.HandleOrderCorrected | src/app/api/payments/webhook/route.ts:207-377 | The corrected steps after loading keep the same guarantees: success implies a recharge log for the session. |
| PaymentsWebhook.HandleCheckoutCompletedCorrected | src/app/api/payments/webhook/route.ts:164-378 | Corrected handler: at most one recharge log per session, granted only to a paid order, and success only once the credits are recorded. A missing order is rebuilt; when its session is verified and the grant can succeed, it is paid, processed and credited. A non-conflict insert error answers "Order reconstruction failed" with nothing changed. |
| PaymentsWebhook.StripeWebhookPost | src/app/api/payments/webhook/route.ts:380-496 | The route as written. 401 exactly for a missing or invalid signature, with nothing changed. Otherwise the event is recorded unless that insert fails. Non-checkout events get 200 and nothing else changes. At most one grant, for this session, and only for a paid order whose session passed every check. A 500 without a race grants nothing. A redelivery for a paid order gets 200 and changes nothing else. A verified pending order gets 200 and is paid, and its credits stay unrecorded when the grant fails. |
| PaymentsWebhook.StripeWebhookPostCorrected | src/app/api/payments/webhook/route.ts:380-496 | The route over the corrected handler: the same signature and recording behaviour, and a 200 for a completed checkout means the session's recharge log exists. |
| Anonymous.IPSubnetIsPrefix | src/lib/anonymous.ts:15-21 | The subnet is always a leading part of the address text. |
| Anonymous.LeadingFields | src/lib/anonymous.ts:15-21 | Keeping the first k fields of a text split on a separator gives back the text before the (k+1)-th field. |
| Anonymous.IPv4Subnet | src/lib/anonymous.ts:15-21 | An IPv4 address maps to its first three octets (a /24). |
| Anonymous.ShortIPv6IsWhole | src/lib/anonymous.ts:15-21 | An IPv6 text with at most four colon fields is its own subnet. |
| Anonymous.FourFieldIPv6 | src/lib/anonymous.ts:15-21 | Four colon-separated fields are kept whole. |
| Anonymous.CompressedIPv6NotSlash64 | src/lib/anonymous.ts:15-21 | Compressed IPv6 texts (section 2.2 of RFC 4291) in the same /64 get different subnets. |
| Anonymous.PrimaryLanguageFirstEntry | src/lib/anonymous.ts:42-43 | The language is the first entry of Accept-Language. |
| Anonymous.PrimaryLanguageUnknown | src/lib/anonymous.ts:42-43 | A missing header or an empty first entry reads as "unknown". |
| Anonymous.PayloadFields | src/lib/anonymous.ts:52-53 | The fingerprint splits back into its four fields when none holds a bar. |
| Anonymous.PayloadInjective | src/lib/anonymous.ts:52-53 | Different field tuples give different fingerprints. |
| Anonymous.GenerateAnonId | src/lib/anonymous.ts:23-56 | It throws exactly when the secret is missing. No id is produced without an IP. The id, IP hash and subnet hash are HMACs of the fingerprint, IP and subnet. |
| Anonymous.SameVisitorSameId | src/lib/anonymous.ts:23-56 | The id ignores the quality list after the first language and treats a missing user agent like an empty one. |
| Anonymous.TrustedIp | src/lib/anonymous.ts:65-70 | The Vercel header wins, then x-real-ip, then the Cloudflare header, then the development fallback. |
| Anonymous.GetOrCreateAnonUsage | src/lib/anonymous.ts:58-155 | Without a cookie, a fresh id is set and inserted. With a cookie, its count is reported, and a missing row is re-created. The remaining uses are the allowance minus the count. No visitor ever exceeds the allowance. |
| Anonymous.ConsumeAnonCredit | src/lib/anonymous.ts:157-208 | It succeeds exactly when the row is read, is below the allowance and the update succeeds. Success increments the count by one and appends a confirmed trial log unless that insert fails. Each refusal carries its message and changes nothing. |
| Anonymous.CheckAnonRateLimit | src/lib/anonymous.ts:210-234 | Allowed exactly when the count query fails or fewer than three consumptions fall in the last hour. A refusal carries its reason. |
| Anonymous.ConsumeCountsTowardLimit | src/lib/anonymous.ts:210-234 | A consumption logged now counts toward the limit for the next hour. |
| Anonymous.OtherLogsDoNotCount | src/lib/anonymous.ts:210-234 | Logs of other visitors or other types never count. |
| Anonymous.RateLimitRelaxes | src/lib/anonymous.ts:210-234 | As time passes the count only falls, so an allowed visitor stays allowed. |
| UsageHistory.NumOrNull | src/lib/usage-history.ts:73-79 | A number is stored exactly when it is truthy, and unchanged. |
| UsageHistory.StrOrNull | src/lib/usage-history.ts:73-79 | A string is stored exactly when it is non-empty, and unchanged. |
| UsageHistory.ValidateSave | src/lib/usage-history.ts:55-70 | A save passes exactly with both contents, a registered or purely anonymous identity, and a prompt of at most 2000 UTF-16 code units. Failures carry the first check's message. |
| UsageHistory.PromptLimitBoundary | src/lib/usage-history.ts:68-70 | A prompt of exactly 2000 UTF-16 units passes and one of 2001 fails. |
| UsageHistory.PromptLimitCountsSurrogates | src/lib/usage-history.ts:68-70 | The limit counts `length`, so 1001 characters above U+FFFF are already too long. |
| UsageHistory.IdentityCases | src/lib/usage-history.ts:60-65 | The two identities exclude each other. An anonymous id with a Clerk id but no user id is invalid. |
| UsageHistory.HistoryRow | src/lib/usage-history.ts:72-80 | The row keeps the texts and the truthy ids, and is active. |
| UsageHistory.SaveUsageHistory | src/lib/usage-history.ts:42-99 | Succeeds exactly when validation passes and the insert meets no error. Success appends exactly the row under the next id. A failure returns its message and changes nothing. |
| UsageHistory.ListingSound | src/lib/usage-history.ts:114-121 | Every listed record is the caller's, active, not anonymous and stored. The list runs newest first. |
| UsageHistory.ListingComplete | src/lib/usage-history.ts:114-121 | Every visible record of the caller is listed. |
| UsageHistory.SavedRecordListedFirst | src/lib/usage-history.ts:114-121 | A newly saved visible record heads the listing, which grows by one. |
| UsageHistory.GetUserUsageHistory | src/lib/usage-history.ts:105-153 | It needs a Clerk id and no store error. A page is the window of the listing at the offset, and the total is the listing's size (0 when the count fails). |
| UsageHistory.ConsecutivePages | src/lib/usage-history.ts:124-126 | Two consecutive pages of size n together are the page of size 2n. |
| UsageHistory.CheckUsageHistoryExists | src/lib/usage-history.ts:158-184 | Found exactly when exactly one record carries the request id, and then its id is returned. |
| UsageHistory.SavedRequestFound | src/lib/usage-history.ts:158-179 | A saved request with a fresh request id is found afterwards. |
| UsageHistory.SoftDeleted | src/lib/usage-history.ts:227-236 | Soft deletion changes only the target record. |
| UsageHistory.DeleteUsageHistory | src/lib/usage-history.ts:190-250 | Succeeds exactly for a positive id of the caller's active record with no store error, and soft-deletes only it. Each refusal has its message and changes nothing. |
| UsageHistory.DeleteIsFinal | src/lib/usage-history.ts:209-225 | A deleted record cannot be deleted again and is no longer listed. |
| UsageHistoryRoute.ClampLimit | src/app/api/user/usage-history/route.ts:22 | The default is 20. A limit read by `parseInt` without a radix is clamped to 1..100. Text with no numeral is NaN. |
| UsageHistoryRoute.ClampOffset | src/app/api/user/usage-history/route.ts:23 | The default is 0. An offset read by `parseInt` without a radix is raised to at least 0. Text with no numeral is NaN. |
| UsageHistoryRoute.LimitNumeralKept | src/app/api/user/usage-history/route.ts:22 | A limit between 1 and 100 written in decimal is kept as is. |
| UsageHistoryRoute.HasMore | src/app/api/user/usage-history/route.ts:53 | There is more exactly when the total exceeds offset plus limit. |
| UsageHistoryRoute.LibraryPage | src/app/api/user/usage-history/route.ts:32-36 | Only the caller's visible records are returned. Without a limit, all of them are returned. With a limit, at most that many. |
| UsageHistoryRoute.Get | src/app/api/user/usage-history/route.ts:5-64 | 401 exactly without a user. 500 on a store error. A 200 reports the clamped paging and only the caller's visible records. |
| UsageHistoryRoute.HasMoreMeansNextPage | src/app/api/user/usage-history/route.ts:46-55 | hasMore holds exactly when the next page is non-empty. |
| UsageHistoryRoute.DeleteFailureStatus | src/app/api/user/usage-history/route.ts:111-118 | 404 exactly for a "not found" or "permission denied" error, otherwise 500. |
| UsageHistoryRoute.NotFoundIs404 | src/app/api/user/usage-history/route.ts:113 | The library's refusal of someone else's record is a 404. |
| UsageHistoryRoute.RecordId | src/app/api/user/usage-history/route.ts:90-98 | Only a positive numeric record_id is accepted. |
| UsageHistoryRoute.Delete | src/app/api/user/usage-history/route.ts:67-133 | 401 without a user. 400 for invalid JSON or a bad record id. 404 for someone else's or a missing record. 200 exactly when the record is soft-deleted. Any non-200 changes nothing. |
| ClerkWebhook.DisplayName | src/app/api/clerk/webhook/route.ts:23-25 | First and last names are joined with a space, then either alone, then the username. A name is never empty. |
| ClerkWebhook.HandleUserCreated | src/app/api/clerk/webhook/route.ts:20-63 | Without an email, it fails with no change. A new Clerk id gets an account with balance 0. A unique violation or an existing account counts as success. Other errors fail with no change. |
| ClerkWebhook.HandleUserUpdated | src/app/api/clerk/webhook/route.ts:66-106 | As written: an update with no error is success, and changes the account's email and name only if the account exists. |
| ClerkWebhook.UpdatedUserNeverCreated | src/app/api/clerk/webhook/route.ts:82-96 | Finding: an update event for a user with no account gets 200 from the route and leaves no account. |
| ClerkWebhook.HandleUserUpdatedCorrected | src/app/api/clerk/webhook/route.ts:66-106 | Corrected update: success without an update error means the account exists with the new email, creating it when missing. |
| ClerkWebhook.HandleUserDeleted | src/app/api/clerk/webhook/route.ts:109-141 | Succeeds exactly without an error or on PGRST116. It only stamps deleted_at on the account, never its balance. |
| ClerkWebhook.ClerkPost | src/app/api/clerk/webhook/route.ts:143-253 | The route as written. 500 without the secret. 400 for missing headers or a bad signature. 500 for an unparsable payload. Refusals change nothing. A 200 for a created user means the account exists. An admitted update with an email and no update error gets 200: an existing account gets the new email and name, and a missing one stays missing. At most the one event row is recorded. |
| ClerkWebhook.ClerkPostCorrected | src/app/api/clerk/webhook/route.ts:143-253 | The route over the corrected update handler: the same checks, and a 200 for an updated user means the account exists with the new email, unless a concurrent creation was reported. |
| UserEnsure.ReadUserId | src/app/api/user/ensure/route.ts:21-26 | The id is read exactly when the account exists and no error occurs. |
| UserEnsure.CreateAccount | src/app/api/user/ensure/route.ts:58-96 | A new account with balance 0 is created. A concurrent creation is reported as such. A 200 returns the account's id. |
| UserEnsure.EnsurePost | src/app/api/user/ensure/route.ts:9-104 | 401 without a user. An existing account is returned unchanged. 500 without user data, 400 without an email. Otherwise exactly one account is created. Accounts are never removed. |
| OrdersRoute.PaidOrdersSound | src/app/api/user/orders/route.ts:40-48 | Every listed order is a paid order of the caller, as stored. |
| OrdersRoute.PaidOrdersNewestFirst | src/app/api/user/orders/route.ts:40-48 | The list runs newest first: order ids strictly decrease. |
| OrdersRoute.PaidOrdersComplete | src/app/api/user/orders/route.ts:40-48 | Every paid order of the caller is listed. |
| OrdersRoute.PaidCount | src/app/api/user/orders/route.ts:25-30 | The count is the size of the list. |
| OrdersRoute.QueryNumber | src/app/api/user/orders/route.ts:20-21 | An absent parameter takes the default. Otherwise it is the value of `parseInt` without a radix: white space skipped, a `0x` prefix read as hexadecimal, NaN as none. |
| OrdersRoute.QueryNumberIsParseInt | src/app/api/user/orders/route.ts:20-21 | The query number equals `parseInt` of the parameter, or of the default's decimal text when the parameter is absent or empty. |
| Text.ParseIntSkipsSpace | src/app/api/user/orders/route.ts:20-21 | White space in front of a query number does not change its value. |
| Text.ParseIntHex | src/app/api/user/orders/route.ts:20-21 | A `0x` prefix followed by hexadecimal digits reads them in base 16, up to the first non-digit. |
| Text.ParseIntReadsNumeral | src/app/api/payments/webhook/route.ts:115-120 | The decimal text of a number reads back as that number, whatever non-numeral text follows it. |
| Text.Utf16Length | src/lib/usage-history.ts:68 | `length` counts each character once or twice: exactly once when all are at most U+FFFF, twice when all are above. |
| OrdersRoute.CeilDiv | src/app/api/user/orders/route.ts:82 | The result is the ceiling of the quotient, for either sign of the divisor. |
| OrdersRoute.TotalPages | src/app/api/user/orders/route.ts:82 | With a positive limit, the pages are the fewest that hold the total. |
| OrdersRoute.HasMoreIffNotLastPage | src/app/api/user/orders/route.ts:82-83 | hasMore holds exactly when the page is before the last. |
| OrdersRoute.ProductName | src/app/api/user/orders/route.ts:61-69 | The stored tier wins, then the tier of the price id, then "Unknown". |
| OrdersRoute.ProductNameFromPriceId | src/app/api/user/orders/route.ts:61-65 | Without a stored tier, the name is the tier the price id belongs to. |
| OrdersRoute.Views | src/app/api/user/orders/route.ts:59-74 | Each order is shown with its id, product name, amount, currency and credits, in order. |
| OrdersRoute.FetchPage | src/app/api/user/orders/route.ts:41-56 | A well-formed range returns the window at the offset. Any other range, or a store error, fails. |
| OrdersRoute.ListOrders | src/app/api/user/orders/route.ts:19-85 | 500 on a store error. A 200 returns the page's window of the caller's paid orders and the pagination. |
| OrdersRoute.Get | src/app/api/user/orders/route.ts:6-94 | 401 exactly without a user. Otherwise the listing for the query's page and limit. |
| OrdersRoute.DefaultIsFirstTen | src/app/api/user/orders/route.ts:20-48 | With no parameters, the first page of ten newest paid orders is returned. |
| OrdersRoute.HasMoreMeansNextPage | src/app/api/user/orders/route.ts:83 | hasMore holds exactly when the next page holds orders. |
| OrdersRoute.PagesCoverList | src/app/api/user/orders/route.ts:22-48 | Every paid order appears on the page computed from its position. |
| AiGenerate.ApplyTimeout | src/app/api/ai-generate/route.ts:57-72 | An abort becomes the timeout error. Anything else passes through. |
| AiGenerate.AnswerModel | src/app/api/ai-generate/route.ts:144-149 | Text answers 200. The timeout error answers 504. Other errors escape. |
| AiGenerate.AbortIsGatewayTimeout | src/app/api/ai-generate/route.ts:57-72 | An aborted model call ends as a 504 timeout. |
| AiGenerate.MockTranslation | src/app/api/ai-generate/route.ts:42-48 | English and unsupported languages return the prompt itself. |
| AiGenerate.MockTranslationQuotesPrompt | src/app/api/ai-generate/route.ts:42-48 | Every mock translation contains the prompt. |
| AiGenerate.MockImageText | src/app/api/ai-generate/route.ts:37-39 | The mock narration names the image URL. |
| AiGenerate.HandleMock | src/app/api/ai-generate/route.ts:17-52 | Off without the mock flag. With mock ads outside production it raises a non-error. Otherwise it returns a mock text. |
| AiGenerate.MockFallsBackToEnglish | src/app/api/ai-generate/route.ts:48 | In production, an unsupported language falls back to the prompt. |
| AiGenerate.FocusClausePresent | src/app/api/ai-generate/route.ts:96-99 | With a prompt, the system prompt asks to focus on it. |
| AiGenerate.FocusClauseAbsent | src/app/api/ai-generate/route.ts:96-99 | Without a prompt, there is no focus clause. |
| AiGenerate.NarrationUserText | src/app/api/ai-generate/route.ts:116 | The user text is the prompt, or a non-empty default. |
| AiGenerate.Post | src/app/api/ai-generate/route.ts:75-150 | 400 exactly without an image URL. Otherwise the model is asked with the narration prompt, or a mock naming the image answers. |
| AiGenerate.MissingImageNeverCallsModel | src/app/api/ai-generate/route.ts:79-81 | Without an image URL, the answer does not depend on the model. |
| AiGenerate.LanguageError | src/app/api/ai-generate/route.ts:161-165 | The message lists the four supported languages. |
| AiGenerate.Put | src/app/api/ai-generate/route.ts:153-221 | 400 exactly for a missing prompt or an unsupported language. Otherwise the model translates, and an English mock returns the prompt. |
| AiGenerate.Translation | src/app/api/ai-generate/route.ts:170-221 | A validated translation request never answers 400. Without the mock flag it is the model's answer to the translator prompt for that language. An English mock returns the prompt unchanged. |
| R2Explorer.CleanBaseUrl | src/lib/r2-explorer-sdk.ts:63 | The result is the input without its trailing slashes. |
| R2Explorer.CleanBaseUrlIdempotent | src/lib/r2-explorer-sdk.ts:63 | Cleaning twice is cleaning once. |
| R2Explorer.CleanBaseUrlIgnoresSlashes | src/lib/r2-explorer-sdk.ts:63 | Extra trailing slashes do not change the result. |
| R2Explorer.RequestUrl | src/lib/r2-explorer-sdk.ts:66 | The endpoint follows the cleaned base, API path and bucket. |
| R2Explorer.GetUrl | src/lib/r2-explorer-sdk.ts:170-173 | The file URL is under the bucket. The download query is added exactly when asked for. |
| R2Explorer.TransferUrlsAreGetUrls | src/lib/r2-explorer-sdk.ts:94-173 | upload and download use exactly the URLs getUrl hands out, and they differ. |
| R2Explorer.ListUrl | src/lib/r2-explorer-sdk.ts:114-117 | The listing URL for each of the four cases: no query, `prefix=` alone when the prefix is truthy, `limit=` alone when the limit is non-zero, and both in that order. |
| R2Explorer.ShareBody | src/lib/r2-explorer-sdk.ts:134-135 | The body names the file, and carries expires_in exactly when it is non-zero. |
| R2Explorer.ErrorDetail | src/lib/r2-explorer-sdk.ts:77-88 | The error detail is a truthy message as a template literal renders it, of any JSON kind. Otherwise it is a truthy error, rendered the same way, and otherwise the HTTP status. Unparsable text is reported as is. |
| R2Explorer.ErrorMessage | src/lib/r2-explorer-sdk.ts:88 | The message is "API Error: " followed by the detail. |
| R2Explorer.MessageBeatsError | src/lib/r2-explorer-sdk.ts:83 | A message field wins over an error field. |
| R2Explorer.EmptyBodyReportsStatus | src/lib/r2-explorer-sdk.ts:85 | An empty body reports the HTTP status. |
| RouteMatcher.BelowMatches | src/proxy.ts:14-20 | A path holding a segment matches that segment's page pattern. |
| RouteMatcher.DropTrailingSlash | src/proxy.ts:77-81 | The redirect target is the path minus its final slash. |
| Proxy.Decide | src/proxy.ts:33-85 | Paths without a locale are rewritten or redirected under the default locale. API paths go on or to sign-in. Sign-in exactly for a protected, non-public path without a user. Trailing slashes are dropped by a permanent redirect. |
| Proxy.LocalePrefixNeedsBoundary | src/proxy.ts:37-39 | A locale prefix must end at a slash or the end of the path. |
| Proxy.CreditsBypassAuth | src/proxy.ts:14-29 | The credits API is protected yet reached without a user. |
| Proxy.PublicRoutesAreApi | src/proxy.ts:23-29 | Every public route is an API route. |
| Proxy.OrdersPageNeedsSignIn | src/proxy.ts:14-20 | The localised orders page requires sign-in. |
| Proxy.TrailingSlashRedirect | src/proxy.ts:78-81 | A localised path with a trailing slash redirects permanently to the path without it. |
| Proxy.ProtectedIgnoresTrailingSlash | src/proxy.ts:14-20 | Adding a trailing slash never makes a path protected. |
| Middleware.Decide | src/middleware.ts:31-65 | Public routes pass. Sign-in exactly for a protected, non-public path without a user. The root redirects to the default locale. Trailing slashes are dropped. |
| Middleware.AiGenerateProtectedOnlyHere | src/middleware.ts:15-22 | A signed-out AI call is sent to sign in here, while the newer proxy lets it through. |
| HeroClient.IsAllowedImageFile | src/components/hero-client.tsx:19-25 | Allowed exactly for an accepted media type or an accepted extension. |
| HeroClient.MediaTypeIgnoresParameters | src/components/hero-client.tsx:19-25 | Parameters and letter case do not matter to the media type. |
| HeroClient.ExtensionAfterLastDot | src/components/hero-client.tsx:19-25 | The extension is what follows the last dot. |
| HeroClient.DotlessNameIsItsOwnExtension | src/components/hero-client.tsx:19-25 | A dotless name is its own extension, so "png" alone passes. |
| HeroClient.SizeLimitBoundary | src/components/hero-client.tsx:166-173 | A file of exactly the limit is accepted, and one byte more is rejected. |
| HeroClient.SelectImage | src/components/hero-client.tsx:166-173 | A file is selected exactly when its type is allowed and it fits. The type is checked first. |
| HeroClient.CreditHint | src/components/hero-client.tsx:427-458 | No hint while loading. The trial hint when signed out. New-user hints for 1 or 2 credits without paid orders. Otherwise the credit-required hint. |
| HeroClient.PluralHintShowsBalance | src/components/hero-client.tsx:446-455 | The plural hint puts the balance where its first # was. |
| HeroClient.RouteGeneration | src/components/hero-client.tsx:257-289 | Sign-in, then payment, then timeout dialogs, in that order. A narration is shown exactly for a successful non-empty text. |
| HeroClient.Caught | src/components/hero-client.tsx:257-289 | The timeout message gets its own dialog; any other message is a failure description. |
| HeroClient.AuthBeforePayment | src/components/hero-client.tsx:257-289 | Sign-in is asked for before payment. |
| HeroClient.StatusReportedWithoutError | src/components/hero-client.tsx:257-289 | A failure without an error text reports its HTTP status. |
| OrdersList.GetPlanStyle | src/components/orders/OrdersList.tsx:54-84 | The tier names, in any case, get their badges. Any other name gets the grey badge with its own text. |
| OrdersList.PlanStyleIgnoresCase | src/components/orders/OrdersList.tsx:54-84 | Letter case never changes the badge colours. |
| OrdersList.TierNamesHaveBadges | src/components/orders/OrdersList.tsx:54-84 | Every tier of the price table has its own badge. |
| OrdersList.UnknownProductIsGrey | src/components/orders/OrdersList.tsx:54-84 | An unattributed order shows a grey "Unknown" badge. |
| OrdersList.ClicksStayInRange | src/components/orders/OrdersList.tsx:180-198 | No series of clicks leaves the page range. |
| OrdersList.DisabledExactlyAtEnds | src/components/orders/OrdersList.tsx:180-198 | A button is disabled exactly where its click would not move the page. |
| OrdersList.ShowingRangeCountsPage | src/components/orders/OrdersList.tsx:173 | "Showing a-b" spans exactly the orders on the page. |
| OrdersList.PagesUpToTotalHoldOrders | src/components/orders/OrdersList.tsx:170-198 | Every page up to the total holds orders. |
| OrdersList.Render | src/components/orders/OrdersList.tsx:87-198 | Loading, error and empty states first. One row per order with its badge, and a divider under all but the last. The pager appears exactly for several pages. |
| OrdersList.RefusedReplyShowsNoOrders | src/components/orders/OrdersList.tsx:87-118 | A refused request shows an empty history, not an error. |
| OrdersList.PagerIffSeveralPages | src/components/orders/OrdersList.tsx:170 | The pager appears exactly when the orders exceed one page. |
| Tips.Process | src/components/Tips.tsx:34-38 | Each section keeps its title and gets the id and translation key of its position. |
| Tips.SectionIdsDistinct | src/components/Tips.tsx:34-38 | Section ids are distinct. |
| Tips.MidPoint | src/components/Tips.tsx:40 | The midpoint is half the count, rounded up. |
| Tips.Columns | src/components/Tips.tsx:41-42 | The columns together are the list, and the left one is as long as the right one or one longer. |
| Tips.ColumnsKeepOrder | src/components/Tips.tsx:40-42 | The right column continues the numbering of the left one. |

## Left out

- Time is integer milliseconds; money is integer cents. `formatPrice` (`src/lib/pricing.ts:58-64`), `Intl` number formatting and date formatting are not modelled.
- Order ids and the "newest first" order follow insertion position; the `created_at` and purchase-date columns are not stored.
- Store.Db.AddProc: the new expiry, the later of the old expiry and a year after the payment time, is the stand-in's assumption about `add_credits`, whose body is not part of this model. A year is a fixed 365 days of milliseconds, not a calendar year.
- The stored procedures `consume_credits`, `refund_credits` and `add_credits` are not part of this model. `Store.Db.ConsumeProc`, `Store.Db.RefundProc` and `Store.Db.AddProc` stand in for them with the behaviour their callers rely on.
- Errors from the database or the network are explicit `Fault` arguments; concurrency is a `raced` flag at the single interleaving point each handler has.
- HMAC-SHA256 is abstract (a function parameter). The Svix and Stripe signature checks are boolean inputs. `encodeURIComponent` and form encoding are function parameters.
- The retry pause in `createOrderWithRetry` is not modelled.
- `sanitizeStripeEvent`, the removal of `client_secret`, `logSecurityAlert` and all console logging are not modelled.
- Webhook events the handler only acknowledges (`payment_intent.*`, `charge.dispute.created` and unknown types) are a plain 200.
- The conversion of the Clerk event timestamp is not modelled.
- The orders route's outer `catch` (a 500 for an unexpected throw) is not modelled. A `NaN` or negative range stands for the store's `badRange` answer.
- `applyTimeout`'s timer and the mock's `setTimeout` delay are not modelled; the mock narrative text is a parameter. Non-string `prompt` and `language` values are not modelled.
- The path-to-regexp matcher's case-insensitivity and optional trailing slash are not modelled. The proxy's call into the internationalisation middleware is the single outcome `Localised`. The middleware's `config.matcher` is not modelled.
- R2Explorer.ListUrl: the limit is an integer. A fractional JS number (`2.5`), and its `toString`, are not modelled; negative limits are. The URL normalisation done by `new URL` is not modelled.
- Text.Lower lowercases ASCII letters only. Unicode case mapping (such as U+0130 or U+212A) is not modelled. It makes no difference for the media types, extensions, tier names and currency codes the model compares.
- The R2 HTTP requests themselves (upload, list, share, metadata and download responses) are not modelled.
- React state, effects and rendering are not modelled; rich-text output is not modelled. In `hero-client.tsx`, `file.type` is a string, and a failure to parse an ok response as JSON is not modelled.
- PaymentsWebhook.HandleCheckoutCompletedCorrected: requires a non-empty session id, because Stripe session ids are never empty.
- PaymentsWebhook.StripeWebhookPostCorrected: requires a non-empty session id for a completed checkout, for the same reason.

## Findings

| source | as written | input that shows it | evidently intended | confidence | as-written member | corrected member |
|---|---|---|---|---|---|---|
| src/app/api/payments/webhook/route.ts:286-348 | The order is marked paid before the grant. A false from `addCredits` (a transient error as well as a duplicate ref) is reported as "Credits already added" and as success. | A paid checkout session whose `add_credits` call meets a connection error: the route answers 200, the order is paid, and no recharge log exists. Stripe does not retry, and a redelivery stops at the "already paid" gate. | Success only once a recharge log for the session exists. A paid order without its credits is granted them on redelivery. | not executed | PaymentsWebhook.PaidWithoutCredits | PaymentsWebhook.HandleCheckoutCompletedCorrected |
| src/app/api/clerk/webhook/route.ts:82-96 | The update has no `.single()`, so an update that matches no row returns no error, and the PGRST116 branch that creates the account never runs. | A `user.updated` event for a Clerk user with no account: the route answers 200 and no account exists. | An update of a missing account creates it, as the PGRST116 fallback intends. | not executed | ClerkWebhook.UpdatedUserNeverCreated | ClerkWebhook.HandleUserUpdatedCorrected |
