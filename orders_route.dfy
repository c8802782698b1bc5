/**
 * `GET /api/user/orders`: the signed-in user's paid orders, newest first,
 * one page at a time, with the pagination figures the order list shows.
 * A JavaScript number is `Option<int>` here, `None` standing for a value
 * that JSON serialises as `null` (`NaN` or an infinity).
 */
module OrdersRoute {
  import opened Wrappers
  import opened Text
  import opened Seqs
  import opened Pricing
  import opened Store

  const Unauthorized := "Unauthorized"
  const CountFailed := "Failed to count orders"
  const FetchFailed := "Failed to fetch orders"
  const UnknownProduct := "Unknown"
  const DefaultPage := 1
  const DefaultLimit := 10

  /**
   * An `orders` row with its serial `order_id`. Rows are appended, so the
   * id is the position plus one, and `created_at` grows with it.
   */
  datatype OrderRow = OrderRow(orderId: nat, order: Order)

  function Numbered(orders: seq<Order>): (r: seq<OrderRow>)
    ensures |r| == |orders|
    ensures forall i :: 0 <= i < |r| ==> r[i] == OrderRow(i + 1, orders[i])
  {
    seq(|orders|, i requires 0 <= i < |orders| => OrderRow(i + 1, orders[i]))
  }

  /** `.eq('clerk_user_id', clerk).eq('state', 'paid')`. */
  predicate PaidBy(clerk: string, row: OrderRow) {
    row.order.clerkUserId == Some(clerk) && row.order.state == Paid
  }

  /** The caller's paid orders, `.order('created_at', { ascending: false })`. */
  function PaidOrders(orders: seq<Order>, clerk: string): seq<OrderRow> {
    Reverse(Filter(Numbered(orders), row => PaidBy(clerk, row)))
  }

  /** Every listed order is a paid order of the caller, as stored. */
  lemma PaidOrdersSound(orders: seq<Order>, clerk: string)
    ensures var l := PaidOrders(orders, clerk);
      forall i :: 0 <= i < |l| ==> PaidBy(clerk, l[i]) && 1 <= l[i].orderId <= |orders| && orders[l[i].orderId - 1] == l[i].order
  {
    var all := Numbered(orders);
    var f := Filter(all, row => PaidBy(clerk, row));
    var l := PaidOrders(orders, clerk);
    assert l == Reverse(f);
    forall i | 0 <= i < |l|
      ensures PaidBy(clerk, l[i]) && 1 <= l[i].orderId <= |orders| && orders[l[i].orderId - 1] == l[i].order
    {
      var x := f[|f| - 1 - i];
      assert l[i] == x;
      assert x in f;
      assert x in all;
      var k :| 0 <= k < |all| && all[k] == x;
    }
  }

  /** The list runs newest first: order ids strictly decrease. */
  lemma PaidOrdersNewestFirst(orders: seq<Order>, clerk: string)
    ensures var l := PaidOrders(orders, clerk);
      forall i, j :: 0 <= i < j < |l| ==> l[i].orderId > l[j].orderId
  {
    var all := Numbered(orders);
    var f := Filter(all, row => PaidBy(clerk, row));
    FilterSorted(all, row => PaidBy(clerk, row), (row: OrderRow) => row.orderId);
    var l := PaidOrders(orders, clerk);
    assert l == Reverse(f);
    forall i, j | 0 <= i < j < |l| ensures l[i].orderId > l[j].orderId {
      assert l[i] == f[|f| - 1 - i] && l[j] == f[|f| - 1 - j];
    }
  }

  /** Every paid order of the caller is listed. */
  lemma PaidOrdersComplete(orders: seq<Order>, clerk: string, k: nat)
    requires k < |orders| && orders[k].clerkUserId == Some(clerk) && orders[k].state == Paid
    ensures OrderRow(k + 1, orders[k]) in PaidOrders(orders, clerk)
  {
    var all := Numbered(orders);
    var f := Filter(all, row => PaidBy(clerk, row));
    assert all[k] == OrderRow(k + 1, orders[k]);
    FilterKeeps(all, row => PaidBy(clerk, row), all[k]);
    var m :| 0 <= m < |f| && f[m] == all[k];
    assert PaidOrders(orders, clerk)[|f| - 1 - m] == f[m];
  }

  /** The number of the caller's paid orders, as the exact `count` reports it. */
  function PaidCount(orders: seq<Order>, clerk: string): (n: nat)
    ensures n == |PaidOrders(orders, clerk)|
  {
    Count(Numbered(orders), row => PaidBy(clerk, row))
  }

  // ----- paging arithmetic -----

  /**
   * `parseInt(param || fallback)`, with the default's text already read
   * back: `QueryNumberIsParseInt` shows the two agree.
   */
  function QueryNumber(param: Option<string>, fallback: nat): (r: Option<int>)
    ensures !Truthy(param) ==> r == Some(fallback)
    ensures Truthy(param) ==> r == ParseInt(param.value)
  {
    if Truthy(param) then ParseInt(param.value) else Some(fallback)
  }

  /** The query number is what `parseInt` makes of the parameter, or of the default's decimal text. */
  lemma QueryNumberIsParseInt(param: Option<string>, fallback: nat)
    ensures QueryNumber(param, fallback) == ParseInt(OrElse(param, NatToString(fallback)))
  {
    ParseIntNatToString(fallback);
  }

  /** Euclidean division of a natural number brackets it between two multiples of the divisor. */
  lemma DivBounds(n: int, d: int)
    requires n >= 0 && d > 0
    ensures (n / d) * d <= n < (n / d) * d + d
  {
  }

  /** `Math.ceil(a / b)` for a non-zero divisor: the least integer at or above the quotient. */
  function CeilDiv(a: nat, b: int): (r: int)
    requires b != 0
    ensures b > 0 ==> (r - 1) * b < a <= r * b
    ensures b < 0 ==> r * b <= a < (r - 1) * b
  {
    if b > 0 then
      var q := (a + b - 1) / b;
      DivBounds(a + b - 1, b);
      q
    else
      var q := a / (-b);
      DivBounds(a, -b);
      -q
  }

  /** `Math.ceil(total / limit)`: `null` for a `NaN` or zero limit (`NaN` or `Infinity`). */
  function TotalPages(total: nat, limit: Option<int>): (r: Option<int>)
    ensures r.Some? <==> limit.Some? && limit.value != 0
    ensures r.Some? && limit.value > 0 ==> (r.value - 1) * limit.value < total <= r.value * limit.value
  {
    if limit.None? || limit.value == 0 then None else Some(CeilDiv(total, limit.value))
  }

  /** `page * limit < total`, false when either operand is `NaN`. */
  function HasMore(page: Option<int>, limit: Option<int>, total: nat): bool {
    page.Some? && limit.Some? && page.value * limit.value < total
  }

  /** With positive page and limit, `hasMore` holds exactly when the page is not the last one. */
  lemma HasMoreIffNotLastPage(page: int, limit: int, total: nat)
    requires page >= 1 && limit >= 1
    ensures HasMore(Some(page), Some(limit), total) <==> page < TotalPages(total, Some(limit)).value
  {
    var t := TotalPages(total, Some(limit)).value;
    if page < t {
      MulMonotone(page, t - 1, limit);
    } else {
      MulMonotone(t, page, limit);
    }
  }

  lemma MulMonotone(a: int, b: int, c: int)
    requires a <= b && c >= 0
    ensures a * c <= b * c
  {
    assert b * c - a * c == (b - a) * c;
  }

  // ----- the reply -----

  /**
   * `price_tier`, else the tier found by `price_id`, else `'Unknown'`; an empty
   * tier name counts as missing.
   */
  function ProductName(env: PriceEnv, o: Order): (name: string)
    ensures name != ""
    ensures Truthy(o.priceTier) ==> name == o.priceTier.value
    ensures !Truthy(o.priceTier) && o.priceId != "" && GetTierByPriceId(env, o.priceId).Some? ==>
      name == GetTierByPriceId(env, o.priceId).value.tier
    ensures !Truthy(o.priceTier) && (o.priceId == "" || GetTierByPriceId(env, o.priceId).None?) ==>
      name == UnknownProduct
  {
    GetTierByPriceIdSpec(env, o.priceId);
    var resolved :=
      if !Truthy(o.priceTier) && o.priceId != "" then
        var tier := GetTierByPriceId(env, o.priceId);
        Some(if tier.Some? then OrElse(Some(tier.value.tier), UnknownProduct) else UnknownProduct)
      else o.priceTier;
    OrElse(resolved, UnknownProduct)
  }

  /** An order that names no tier but carries a tier's price id shows that tier's name. */
  lemma ProductNameFromPriceId(env: PriceEnv, o: Order, i: nat)
    requires i < 3 && !Truthy(o.priceTier) && o.priceId != ""
    requires o.priceId == PricingTiers(env)[i].priceId
    requires forall j :: 0 <= j < i ==> PricingTiers(env)[j].priceId != o.priceId
    ensures ProductName(env, o) == PricingTiers(env)[i].tier
  {
    GetTierByPriceIdSpec(env, o.priceId);
    var tiers := PricingTiers(env);
    var r := GetTierByPriceId(env, o.priceId);
    var k :| 0 <= k < |tiers| && tiers[k] == r.value && forall j :: 0 <= j < k ==> tiers[j].priceId != o.priceId;
    assert k == i;
  }

  /** One order as the list shows it; `formatPrice` is not modelled, so the amount stays in cents. */
  datatype OrderView = OrderView(orderId: nat, productName: string, amountCents: int, currency: string, credits: int)

  function View(env: PriceEnv, row: OrderRow): OrderView {
    OrderView(row.orderId, ProductName(env, row.order), row.order.amountCents, row.order.currency, row.order.credits)
  }

  function Views(env: PriceEnv, rows: seq<OrderRow>): (r: seq<OrderView>)
    ensures |r| == |rows|
    ensures forall i :: 0 <= i < |r| ==> r[i] == View(env, rows[i])
  {
    seq(|rows|, i requires 0 <= i < |rows| => View(env, rows[i]))
  }

  datatype Pagination = Pagination(page: Option<int>, limit: Option<int>, total: nat, totalPages: Option<int>, hasMore: bool)
  datatype OrdersReply = OrdersReply(status: int, orders: seq<OrderView>, pagination: Option<Pagination>, error: Option<string>)

  function Refused(status: int, error: string): OrdersReply {
    OrdersReply(status, [], None, Some(error))
  }

  /**
   * `.range(offset, offset + limit - 1)`: a well-formed range (non-negative
   * offset and length) is a window of the list; the store's answer to any
   * other (a `NaN` bound, a negative offset or length) is the failure
   * `badRange`.
   */
  function FetchPage(all: seq<OrderRow>, offset: Option<int>, limit: Option<int>, fault: Fault,
                     badRange: StoreError): (r: Result<seq<OrderRow>, StoreError>)
    ensures r.Success? <==> fault.None? && offset.Some? && limit.Some? && offset.value >= 0 && limit.value >= 0
    ensures r.Success? ==>
      |r.value| <= limit.value &&
      |r.value| == (if offset.value >= |all| then 0
                    else if offset.value + limit.value < |all| then limit.value
                    else |all| - offset.value) &&
      forall i :: 0 <= i < |r.value| ==> r.value[i] == all[offset.value + i]
  {
    if fault.Some? then Failure(fault.value)
    else if offset.None? || limit.None? || offset.value < 0 || limit.value < 0 then Failure(badRange)
    else Success(Window(all, offset.value, offset.value + limit.value - 1))
  }

  /** The handler once the caller is known and the query numbers are parsed. */
  function ListOrders(orders: seq<Order>, env: PriceEnv, clerk: string, page: Option<int>, limit: Option<int>,
                      countFault: Fault, fetchFault: Fault, badRange: StoreError): (r: OrdersReply)
    ensures r.status in {200, 500}
    ensures countFault.Some? ==> r == Refused(500, CountFailed)
    ensures countFault.None? && fetchFault.Some? ==> r == Refused(500, FetchFailed)
    ensures r.status == 200 <==>
      countFault.None? && fetchFault.None? && page.Some? && limit.Some? &&
      (page.value - 1) * limit.value >= 0 && limit.value >= 0
    ensures r.status == 200 ==>
      var all := PaidOrders(orders, clerk);
      var offset := (page.value - 1) * limit.value;
      r.pagination == Some(Pagination(page, limit, |all|, TotalPages(|all|, limit), page.value * limit.value < |all|)) &&
      |r.orders| <= limit.value &&
      |r.orders| == (if offset >= |all| then 0
                     else if offset + limit.value < |all| then limit.value
                     else |all| - offset) &&
      forall i :: 0 <= i < |r.orders| ==> r.orders[i] == View(env, all[offset + i])
  {
    if countFault.Some? then Refused(500, CountFailed)
    else
      var total := PaidCount(orders, clerk);
      var offset := if page.Some? && limit.Some? then Some((page.value - 1) * limit.value) else None;
      var fetched := FetchPage(PaidOrders(orders, clerk), offset, limit, fetchFault, badRange);
      if fetched.Failure? then Refused(500, FetchFailed)
      else
        OrdersReply(200, Views(env, fetched.value),
                    Some(Pagination(page, limit, total, TotalPages(total, limit), HasMore(page, limit, total))), None)
  }

  /** `GET`: 401 without a principal; `page` and `limit` default to 1 and 10. */
  function Get(orders: seq<Order>, env: PriceEnv, principal: Option<string>, pageParam: Option<string>,
               limitParam: Option<string>, countFault: Fault, fetchFault: Fault, badRange: StoreError): (r: OrdersReply)
    ensures r.status in {200, 401, 500}
    ensures r.status == 401 <==> !Truthy(principal)
    ensures r.status == 401 ==> r == Refused(401, Unauthorized)
    ensures Truthy(principal) ==>
      r == ListOrders(orders, env, principal.value, QueryNumber(pageParam, DefaultPage),
                      QueryNumber(limitParam, DefaultLimit), countFault, fetchFault, badRange)
  {
    if !Truthy(principal) then Refused(401, Unauthorized)
    else
      ListOrders(orders, env, principal.value, QueryNumber(pageParam, DefaultPage),
                 QueryNumber(limitParam, DefaultLimit), countFault, fetchFault, badRange)
  }

  /** Without query parameters the reply is the first ten paid orders. */
  lemma DefaultIsFirstTen(orders: seq<Order>, env: PriceEnv, clerk: string, badRange: StoreError)
    requires clerk != ""
    ensures var r := Get(orders, env, Some(clerk), None, None, None, None, badRange);
      var all := PaidOrders(orders, clerk);
      r.status == 200 && r.pagination.value.page == Some(1) && r.pagination.value.limit == Some(10) &&
      r.orders == Views(env, all[..if |all| < 10 then |all| else 10])
  {
    var r := Get(orders, env, Some(clerk), None, None, None, None, badRange);
    var all := PaidOrders(orders, clerk);
    var n := if |all| < 10 then |all| else 10;
    assert |r.orders| == n;
  }

  /** `hasMore` tells exactly whether the next page holds any order. */
  lemma HasMoreMeansNextPage(orders: seq<Order>, env: PriceEnv, clerk: string, page: int, limit: int,
                             badRange: StoreError)
    requires page >= 1 && limit >= 1
    ensures var r := ListOrders(orders, env, clerk, Some(page), Some(limit), None, None, badRange);
      var next := ListOrders(orders, env, clerk, Some(page + 1), Some(limit), None, None, badRange);
      r.status == 200 && next.status == 200 && (r.pagination.value.hasMore <==> |next.orders| > 0)
  {
    MulMonotone(0, page - 1, limit);
    MulMonotone(0, page, limit);
    assert (page + 1 - 1) * limit == page * limit;
  }

  /**
   * Pages 1 to `totalPages` cover the list: the order at position `k` is on
   * page `k / limit + 1`, at position `k % limit`.
   */
  lemma PagesCoverList(orders: seq<Order>, env: PriceEnv, clerk: string, limit: int, k: nat, badRange: StoreError)
    requires limit >= 1 && k < |PaidOrders(orders, clerk)|
    ensures var all := PaidOrders(orders, clerk);
      var page := k / limit + 1;
      var r := ListOrders(orders, env, clerk, Some(page), Some(limit), None, None, badRange);
      r.status == 200 && page <= r.pagination.value.totalPages.value &&
      k % limit < |r.orders| && r.orders[k % limit] == View(env, all[k])
  {
    PageOfPosition(k, limit, |PaidOrders(orders, clerk)|);
  }

  /** Position `k` lies on page `k / limit + 1`, which is one of the `totalPages` pages. */
  lemma PageOfPosition(k: nat, limit: int, total: nat)
    requires limit >= 1 && k < total
    ensures var page := k / limit + 1;
      0 <= (page - 1) * limit <= k && (page - 1) * limit + k % limit == k &&
      page <= TotalPages(total, Some(limit)).value
  {
    var page := k / limit + 1;
    assert (page - 1) * limit + k % limit == k;
    MulMonotone(0, page - 1, limit);
    var t := TotalPages(total, Some(limit)).value;
    if page > t {
      MulMonotone(t, page - 1, limit);
    }
  }
}
