/**
 * The order-history list (`OrdersList`): the badge style of each order, the
 * "Showing a-b of n" range, and the Previous/Next page buttons, over the
 * reply of `GET /api/user/orders`. Date formatting and the price text are
 * not modelled.
 */
module OrdersList {
  import opened Wrappers
  import opened Text
  import opened Pricing
  import opened Store
  import opened OrdersRoute

  // ----- plan badge -----

  datatype PlanStyle = PlanStyle(borderColor: string, bgColor: string, textColor: string, name: string)

  const StarterStyle := PlanStyle("border-purple-200", "bg-purple-50", "text-purple-700", "Starter")
  const ProStyle := PlanStyle("border-purple-300", "bg-purple-100", "text-purple-800", "Pro")
  const EliteStyle := PlanStyle("border-orange-300", "bg-orange-100", "text-orange-800", "Elite")

  /** The grey badge of any other product, showing its name as given. */
  function DefaultStyle(productName: string): PlanStyle {
    PlanStyle("border-gray-200", "bg-gray-50", "text-gray-700", productName)
  }

  /** `getPlanStyle`: a `switch` on the lower-cased product name. */
  function GetPlanStyle(productName: string): (r: PlanStyle)
    ensures Lower(productName) == "starter" ==> r == StarterStyle
    ensures Lower(productName) == "pro" ==> r == ProStyle
    ensures Lower(productName) == "elite" ==> r == EliteStyle
    ensures Lower(productName) !in {"starter", "pro", "elite"} ==> r == DefaultStyle(productName)
  {
    match Lower(productName)
    case "starter" => StarterStyle
    case "pro" => ProStyle
    case "elite" => EliteStyle
    case _ => DefaultStyle(productName)
  }

  /** The style depends on the name only up to case, except for the text an unknown name shows. */
  lemma {:induction false} PlanStyleIgnoresCase(a: string, b: string)
    requires Lower(a) == Lower(b)
    ensures Lower(a) in {"starter", "pro", "elite"} ==> GetPlanStyle(a) == GetPlanStyle(b)
    ensures GetPlanStyle(a).borderColor == GetPlanStyle(b).borderColor
    ensures GetPlanStyle(a).bgColor == GetPlanStyle(b).bgColor
    ensures GetPlanStyle(a).textColor == GetPlanStyle(b).textColor
  {
  }

  /** Every tier of the price table gets its own badge, named as the tier. */
  lemma TierNamesHaveBadges(env: PriceEnv, i: nat)
    requires i < 3
    ensures var tier := PricingTiers(env)[i].tier;
      GetPlanStyle(tier).name == tier && GetPlanStyle(tier) != DefaultStyle(tier)
  {
    assert Lower("Starter") == "starter";
    assert Lower("Pro") == "pro";
    assert Lower("Elite") == "elite";
  }

  /** An order the route cannot attribute to a tier shows a grey `Unknown` badge. */
  lemma UnknownProductIsGrey()
    ensures GetPlanStyle(UnknownProduct) == DefaultStyle("Unknown")
  {
    assert Lower(UnknownProduct) == "unknown";
  }

  // ----- pager -----

  /** The Previous button's updater `Math.max(1, prev - 1)`. */
  function PreviousPage(p: int): int {
    if p - 1 < 1 then 1 else p - 1
  }

  /** The Next button's updater `Math.min(totalPages, prev + 1)`. */
  function NextPage(p: int, totalPages: int): int {
    if p + 1 < totalPages then p + 1 else totalPages
  }

  datatype Click = PreviousClick | NextClick

  /** The page after a series of button clicks. */
  function AfterClicks(p: int, totalPages: int, clicks: seq<Click>): int
    decreases |clicks|
  {
    if clicks == [] then p
    else
      var q := if clicks[0] == PreviousClick then PreviousPage(p) else NextPage(p, totalPages);
      AfterClicks(q, totalPages, clicks[1..])
  }

  /** Starting inside `[1, totalPages]`, no series of clicks leaves it. */
  lemma {:induction false} ClicksStayInRange(p: int, totalPages: int, clicks: seq<Click>)
    requires 1 <= p <= totalPages
    ensures 1 <= AfterClicks(p, totalPages, clicks) <= totalPages
    decreases |clicks|
  {
    if clicks != [] {
      var q := if clicks[0] == PreviousClick then PreviousPage(p) else NextPage(p, totalPages);
      assert 1 <= q <= totalPages;
      ClicksStayInRange(q, totalPages, clicks[1..]);
    }
  }

  /** Each button is disabled exactly where its click would not move the page. */
  lemma DisabledExactlyAtEnds(p: int, totalPages: int)
    requires 1 <= p <= totalPages
    ensures PreviousPage(p) == p <==> p == 1
    ensures NextPage(p, totalPages) == p <==> p == totalPages
    ensures p > 1 ==> PreviousPage(p) == p - 1
    ensures p < totalPages ==> NextPage(p, totalPages) == p + 1
  {
  }

  /** "Showing first-last": `(p - 1) * limit + 1` and `Math.min(p * limit, total)`. */
  function ShowingRange(p: int, limit: int, total: int): (int, int) {
    var last := if p * limit < total then p * limit else total;
    ((p - 1) * limit + 1, last)
  }

  /**
   * On a page that holds orders, the range starts at 1 or later, ends at the
   * total or earlier, and spans exactly as many orders as the route returns
   * for that page.
   */
  lemma ShowingRangeCountsPage(orders: seq<Order>, env: PriceEnv, clerk: string, p: int, limit: int,
                               badRange: StoreError)
    requires p >= 1 && limit >= 1
    requires (p - 1) * limit < |PaidOrders(orders, clerk)|
    ensures var r := ListOrders(orders, env, clerk, Some(p), Some(limit), None, None, badRange);
      r.status == 200 && r.pagination.Some? &&
      var (first, last) := ShowingRange(p, limit, r.pagination.value.total);
      1 <= first <= last <= r.pagination.value.total && |r.orders| == last - first + 1
  {
    MulMonotone(0, p - 1, limit);
    assert p * limit == (p - 1) * limit + limit;
  }

  /** Every page from 1 to `totalPages` of a non-empty list holds orders. */
  lemma PagesUpToTotalHoldOrders(total: nat, p: int, limit: int)
    requires limit >= 1 && total > 0
    requires 1 <= p <= TotalPages(total, Some(limit)).value
    ensures (p - 1) * limit < total
  {
    var t := TotalPages(total, Some(limit)).value;
    MulMonotone(p - 1, t - 1, limit);
  }

  // ----- the rendered list -----

  /** One order as shown; the divider is drawn under every order but the last. */
  datatype Row = Row(orderId: nat, credits: int, style: PlanStyle, amountCents: int, currency: string, divider: bool)

  datatype Pager = Pager(first: int, last: int, total: nat, page: int, totalPages: int,
                         previousDisabled: bool, nextDisabled: bool)

  datatype ListView = Loading | LoadError | NoOrders | Listing(rows: seq<Row>, pager: Option<Pager>)

  /**
   * What the component renders for the current page. `reply` is the parsed
   * answer (the fetcher parses any status); a `null` limit counts as 0 in the
   * range arithmetic, as in JavaScript.
   */
  function Render(isLoading: bool, fetchError: bool, reply: Option<OrdersReply>, currentPage: int): (v: ListView)
    ensures isLoading ==> v == Loading
    ensures !isLoading && fetchError ==> v == LoadError
    ensures v == NoOrders <==> !isLoading && !fetchError && (reply.None? || reply.value.orders == [])
    ensures v.Listing? ==>
      var orders := reply.value.orders;
      |v.rows| == |orders| &&
      forall i :: 0 <= i < |orders| ==>
        v.rows[i].orderId == orders[i].orderId && v.rows[i].credits == orders[i].credits &&
        v.rows[i].style == GetPlanStyle(orders[i].productName) &&
        (v.rows[i].divider <==> i < |orders| - 1)
    ensures v.Listing? ==>
      var pg := reply.value.pagination;
      (v.pager.Some? <==> pg.Some? && pg.value.totalPages.Some? && pg.value.totalPages.value > 1)
    ensures v.Listing? && v.pager.Some? ==>
      var pg := reply.value.pagination.value;
      (v.pager.value.first, v.pager.value.last) == ShowingRange(currentPage, pg.limit.GetOr(0), pg.total) &&
      (v.pager.value.previousDisabled <==> currentPage == 1) &&
      (v.pager.value.nextDisabled <==> currentPage == pg.totalPages.value)
  {
    if isLoading then Loading
    else if fetchError then LoadError
    else if reply.None? || reply.value.orders == [] then NoOrders
    else
      var orders := reply.value.orders;
      var rows := seq(|orders|, i requires 0 <= i < |orders| =>
        Row(orders[i].orderId, orders[i].credits, GetPlanStyle(orders[i].productName),
            orders[i].amountCents, orders[i].currency, i < |orders| - 1));
      var pg := reply.value.pagination;
      var pager :=
        if pg.Some? && pg.value.totalPages.Some? && pg.value.totalPages.value > 1 then
          var (first, last) := ShowingRange(currentPage, pg.value.limit.GetOr(0), pg.value.total);
          Some(Pager(first, last, pg.value.total, currentPage, pg.value.totalPages.value,
                     currentPage == 1, currentPage == pg.value.totalPages.value))
        else None;
      Listing(rows, pager)
  }

  /** A refused request (401 or 500) is shown as an empty history, not as a load error. */
  lemma RefusedReplyShowsNoOrders(status: int, error: string, currentPage: int)
    ensures Render(false, false, Some(Refused(status, error)), currentPage) == NoOrders
  {
  }

  /** The pager appears exactly when the route reports more than one page. */
  lemma PagerIffSeveralPages(orders: seq<Order>, env: PriceEnv, clerk: string, p: int, limit: int,
                             badRange: StoreError)
    requires p >= 1 && limit >= 1
    requires (p - 1) * limit < |PaidOrders(orders, clerk)|
    ensures var r := ListOrders(orders, env, clerk, Some(p), Some(limit), None, None, badRange);
      var v := Render(false, false, Some(r), p);
      v.Listing? && (v.pager.Some? <==> |PaidOrders(orders, clerk)| > limit)
  {
    var all := PaidOrders(orders, clerk);
    var r := ListOrders(orders, env, clerk, Some(p), Some(limit), None, None, badRange);
    ShowingRangeCountsPage(orders, env, clerk, p, limit, badRange);
    var t := TotalPages(|all|, Some(limit)).value;
    if t > 1 {
      MulMonotone(1, t - 1, limit);
    } else {
      MulMonotone(t, 1, limit);
    }
  }
}
