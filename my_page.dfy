/** The account page (frontend/src/pages/my-page.jsx): the order tallies
    behind the filter pills, the status shown on each order card, the
    greeting name and where the top-bar search leads. */
module MyPage {
  import opened Values
  import Text

  /** An order as listed: its status is None when absent or null. */
  datatype Order = Order(orderId: Value, status: Option<string>, totalPrice: int)

  /** The four counters; a server summary may leave any of them null. */
  datatype Counts = Counts(total: Option<int>, shipping: Option<int>, delivered: Option<int>, cancelled: Option<int>)

  predicate InTransit(status: Option<string>) {
    status == Some("pending") || status == Some("processing") || status == Some("shipped")
  }

  predicate Delivered(status: Option<string>) {
    status == Some("delivered")
  }

  predicate Withdrawn(status: Option<string>) {
    status == Some("cancelled") || status == Some("returned")
  }

  /** How many orders satisfy each test, over a prefix. */
  function CountIf(orders: seq<Order>, p: Option<string> -> bool): nat {
    if orders == [] then 0
    else CountIf(orders[..|orders| - 1], p) + (if p(orders[|orders| - 1].status) then 1 else 0)
  }

  lemma CountIfAppend(orders: seq<Order>, o: Order, p: Option<string> -> bool)
    ensures CountIf(orders + [o], p) == CountIf(orders, p) + (if p(o.status) then 1 else 0)
  {
    assert (orders + [o])[..|orders|] == orders;
  }

  /** The client-side tally of the order list. */
  function Tally(orders: seq<Order>): (c: Counts)
    ensures c.total == Some(|orders|)
    ensures c.shipping == Some(CountIf(orders, InTransit))
    ensures c.delivered == Some(CountIf(orders, Delivered))
    ensures c.cancelled == Some(CountIf(orders, Withdrawn))
  {
    Counts(Some(|orders|), Some(CountIf(orders, InTransit)), Some(CountIf(orders, Delivered)),
           Some(CountIf(orders, Withdrawn)))
  }

  /** The `orders.reduce` of `statusCounts`, one order at a time. */
  method TallyOrders(orders: seq<Order>) returns (total: nat, shipping: nat, delivered: nat, cancelled: nat)
    ensures Tally(orders) == Counts(Some(total), Some(shipping), Some(delivered), Some(cancelled))
  {
    total, shipping, delivered, cancelled := 0, 0, 0, 0;
    var i := 0;
    while i < |orders|
      invariant 0 <= i <= |orders|
      invariant Tally(orders[..i]) == Counts(Some(total), Some(shipping), Some(delivered), Some(cancelled))
    {
      var order := orders[i];
      assert orders[..i + 1] == orders[..i] + [order];
      CountIfAppend(orders[..i], order, InTransit);
      CountIfAppend(orders[..i], order, Delivered);
      CountIfAppend(orders[..i], order, Withdrawn);
      total := total + 1;
      if InTransit(order.status) {
        shipping := shipping + 1;
      }
      if Delivered(order.status) {
        delivered := delivered + 1;
      }
      if Withdrawn(order.status) {
        cancelled := cancelled + 1;
      }
      i := i + 1;
    }
    assert orders[..i] == orders;
  }

  /** `statusCounts`: the server's summary when there is one, otherwise the
      tally of the listed orders. */
  method StatusCounts(orderStats: Option<Counts>, orders: seq<Order>) returns (c: Counts)
    ensures orderStats.Some? ==> c == orderStats.value
    ensures orderStats.None? ==> c == Tally(orders)
  {
    if orderStats.Some? {
      return orderStats.value;
    }
    var total, shipping, delivered, cancelled := TallyOrders(orders);
    c := Counts(Some(total), Some(shipping), Some(delivered), Some(cancelled));
  }

  /** Each order lands in at most one of the three status buckets, so they
      never add up to more than the total. */
  lemma {:induction false} BucketsWithinTotal(orders: seq<Order>)
    ensures CountIf(orders, InTransit) + CountIf(orders, Delivered) + CountIf(orders, Withdrawn) <= |orders|
  {
    if orders != [] {
      BucketsWithinTotal(orders[..|orders| - 1]);
    }
  }

  /** An order without a status counts in none of the buckets, although its
      card reads as a received order. */
  lemma {:induction false} MissingStatusUncounted(orders: seq<Order>, o: Order)
    requires o.status.None?
    ensures Tally(orders + [o]).total == Some(|orders| + 1)
    ensures Tally(orders + [o]).shipping == Tally(orders).shipping
    ensures Tally(orders + [o]).delivered == Tally(orders).delivered
    ensures Tally(orders + [o]).cancelled == Tally(orders).cancelled
    ensures CardStatus(o.status).caption == "주문 접수"
  {
    CountIfAppend(orders, o, InTransit);
    CountIfAppend(orders, o, Delivered);
    CountIfAppend(orders, o, Withdrawn);
  }

  /** A filter pill of the blueprint. */
  datatype Pill = Pill(key: string, caption: string, badge: int, active: bool)

  const BlueprintKeys: seq<string> := ["total", "shipping", "delivered", "cancelled"]
  const BlueprintLabels: seq<string> := ["전체", "배송중", "배송완료", "취소/반품"]

  function CountFor(c: Counts, key: string): Option<int> {
    if key == "total" then c.total
    else if key == "shipping" then c.shipping
    else if key == "delivered" then c.delivered
    else if key == "cancelled" then c.cancelled
    else None
  }

  /** `filters`: the blueprint in order, each badge the counter for its key
      (0 when null) and only the first pill active. */
  function Filters(c: Counts): (r: seq<Pill>)
    ensures |r| == |BlueprintKeys|
    ensures forall i :: 0 <= i < |r| ==> r[i].key == BlueprintKeys[i] && r[i].caption == BlueprintLabels[i]
    ensures forall i :: 0 <= i < |r| ==> (r[i].active <==> i == 0)
    ensures r[0].badge == c.total.GetOr(0) && r[1].badge == c.shipping.GetOr(0)
    ensures r[2].badge == c.delivered.GetOr(0) && r[3].badge == c.cancelled.GetOr(0)
  {
    seq(4, i requires 0 <= i < 4 => Pill(BlueprintKeys[i], BlueprintLabels[i], CountFor(c, BlueprintKeys[i]).GetOr(0), i == 0))
  }

  /** On the client tally the pills count the listed orders. */
  lemma TalliedPills(orders: seq<Order>)
    ensures Filters(Tally(orders))[0].badge == |orders|
    ensures Filters(Tally(orders))[1].badge + Filters(Tally(orders))[2].badge + Filters(Tally(orders))[3].badge <= Filters(Tally(orders))[0].badge
  {
    BucketsWithinTotal(orders);
  }

  /** What an order card shows for a status. */
  datatype CardText = CardText(caption: string, tone: string, message: string)

  const KnownStatuses: seq<string> := ["pending", "processing", "shipped", "delivered", "cancelled", "returned"]

  function KnownLabel(key: string): Option<string> {
    if key == "pending" then Some("주문 접수")
    else if key == "processing" then Some("상품 준비중")
    else if key == "shipped" then Some("배송중")
    else if key == "delivered" then Some("배송 완료")
    else if key == "cancelled" then Some("취소됨")
    else if key == "returned" then Some("반품됨")
    else None
  }

  function KnownTone(key: string): Option<string> {
    if key == "delivered" then Some("brand")
    else if key == "shipped" || key == "processing" || key == "pending" then Some("sky")
    else if key == "cancelled" || key == "returned" then Some("gray")
    else None
  }

  function KnownMessage(key: string): Option<string> {
    if key == "pending" then Some("주문이 접수되었습니다.")
    else if key == "processing" then Some("상품을 준비하고 있습니다.")
    else if key == "shipped" then Some("배송이 진행 중입니다.")
    else if key == "delivered" then Some("배송이 완료되었습니다.")
    else if key == "cancelled" then Some("주문이 취소되었습니다.")
    else if key == "returned" then Some("반품이 처리되었습니다.")
    else None
  }

  /** The card's status key: the order's status, "pending" when it is
      missing or empty. */
  function StatusKey(status: Option<string>): (k: string)
    ensures k != ""
    ensures status.Some? && status.value != "" ==> k == status.value
  {
    if status.Some? && status.value != "" then status.value else "pending"
  }

  /** The label, tone and delivery message of an order card. */
  function CardStatus(status: Option<string>): (t: CardText)
    ensures StatusKey(status) in KnownStatuses ==>
      Some(t.caption) == KnownLabel(StatusKey(status)) && Some(t.tone) == KnownTone(StatusKey(status)) &&
      Some(t.message) == KnownMessage(StatusKey(status))
    ensures StatusKey(status) !in KnownStatuses ==>
      t == CardText(StatusKey(status), "gray", "주문이 처리되었습니다.")
  {
    var key := StatusKey(status);
    CardText(KnownLabel(key).GetOr(key), KnownTone(key).GetOr("gray"),
             KnownMessage(key).GetOr("주문이 처리되었습니다."))
  }

  /** The three maps cover the same six statuses. */
  lemma KnownMapsAgree(key: string)
    ensures KnownLabel(key).Some? <==> key in KnownStatuses
    ensures KnownTone(key).Some? <==> key in KnownStatuses
    ensures KnownMessage(key).Some? <==> key in KnownStatuses
  {
  }

  /** Grey cards are exactly the withdrawn orders and the unknown statuses. */
  lemma GreyCards(status: Option<string>)
    ensures CardStatus(status).tone == "gray" <==> StatusKey(status) in ["cancelled", "returned"] || StatusKey(status) !in KnownStatuses
  {
  }

  const DefaultName: string := "SwiftCart 회원"

  /** `userName`: the trimmed full name, or the member greeting when it is
      missing or blank. */
  function UserName(fullName: Option<string>): (r: string)
    ensures r != ""
    ensures fullName.Some? && Text.Strip(fullName.value) != "" ==> r == Text.Strip(fullName.value)
    ensures fullName.None? || Text.Strip(fullName.value) == "" ==> r == DefaultName
    ensures r == DefaultName || Text.NoOuterSpace(r)
  {
    if fullName.Some? && Text.Strip(fullName.value) != "" then Text.Strip(fullName.value) else DefaultName
  }

  /** A navigation target: the path and the `keyword` parameter. */
  datatype Route = Route(path: string, keyword: string)

  /** `handleSearch`: nothing for a blank keyword; the search page when it
      mentions orders or products, otherwise the chat. */
  function HandleSearch(keyword: string): (r: Option<Route>)
    ensures r.None? <==> Text.Strip(keyword) == ""
    ensures r.Some? ==> r.value.keyword == Text.Strip(keyword) && r.value.keyword != ""
    ensures r.Some? ==> (r.value.path == "/search" <==>
      Text.Contains(Text.Strip(keyword), "주문") || Text.Contains(Text.Strip(keyword), "상품"))
    ensures r.Some? ==> r.value.path in ["/search", "/chat"]
  {
    var value := Text.Strip(keyword);
    if value == "" then None
    else if Text.Contains(value, "주문") then Some(Route("/search", value))
    else if Text.Contains(value, "상품") then Some(Route("/search", value))
    else Some(Route("/chat", value))
  }

  /** The search ignores the whitespace around the keyword. */
  lemma SearchIgnoresOuterSpace(keyword: string)
    ensures HandleSearch(Text.Strip(keyword)) == HandleSearch(keyword)
  {
    Text.StripIdempotent(keyword);
  }
}
