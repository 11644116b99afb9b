/** The cart page (frontend/src/pages/cart-page.jsx): the items the server
    returned, the quantity buttons, the summary box, the body sent back with
    PUT /cart, and the search box's routing.  Every handler builds a new item
    list; the page then sends it and shows what the server answers. */
module CartPage {
  import opened Values
  import Text
  import Schemas
  import Seqs

  type Item = Schemas.CartItem

  predicate AllDigits(s: string) {
    |s| > 0 && forall i :: 0 <= i < |s| ==> IsDigit(s[i])
  }

  /** `Number(s)` for a string holding an optional sign and decimal digits;
      blank text is 0 and anything else is NaN (None). */
  function JsNumber(s: string): (r: Option<int>)
    ensures Text.Strip(s) == [] ==> r == Some(0)
  {
    var t := Text.Strip(s);
    if t == [] then Some(0)
    else if (t[0] == '-' || t[0] == '+') && AllDigits(t[1..]) then
      Some(if t[0] == '-' then 0 - DigitsValue(t[1..]) as int else DigitsValue(t[1..]))
    else if AllDigits(t) then Some(DigitsValue(t))
    else None
  }

  /** Number() reads back what the backend renders with str(). */
  lemma JsNumberOfRendered(i: int)
    ensures JsNumber(IntToString(i)) == Some(i)
  {
    var s := IntToString(i);
    var d := NatToString(if i < 0 then -i else i);
    NatToStringValue(if i < 0 then -i else i);
    assert Text.NoOuterSpace(s) by {
      assert s[|s| - 1] == d[|d| - 1] && IsDigit(d[|d| - 1]);
      assert s[0] == '-' || s[0] == d[0];
    }
    Text.StripNoOuterSpace(s);
    if i < 0 {
      assert s[1..] == d;
    } else {
      assert s == d;
      assert !(s[0] == '-' || s[0] == '+');
    }
  }

  /** `getUnitPrice`: the sale price when it is a number or numeric text,
      else the regular price, else 0. */
  function UnitPrice(item: Item): (r: int)
    ensures item.product.None? ==> r == 0
    ensures item.product.Some? ==> (
      var sale := Get(item.product.value, "sale_price", VNull);
      var regular := Get(item.product.value, "price", VNull);
      && (sale.VInt? ==> r == sale.i)
      && (sale.VStr? ==> r == JsNumber(sale.s).GetOr(0))
      && (!sale.VInt? && !sale.VStr? && regular.VInt? ==> r == regular.i)
      && (!sale.VInt? && !sale.VStr? && regular.VStr? ==> r == JsNumber(regular.s).GetOr(0))
      && (!sale.VInt? && !sale.VStr? && !regular.VInt? && !regular.VStr? ==> r == 0))
  {
    match item.product
    case None => 0
    case Some(p) =>
      var sale := Get(p, "sale_price", VNull);
      var regular := Get(p, "price", VNull);
      if sale.VInt? then sale.i
      else if sale.VStr? then JsNumber(sale.s).GetOr(0)
      else if regular.VInt? then regular.i
      else if regular.VStr? then JsNumber(regular.s).GetOr(0)
      else 0
  }

  /** `items.find(item => item.product_id === productId)`, as an index. */
  function FirstIndex(items: seq<Item>, id: string): (k: int)
    ensures -1 <= k < |items|
    ensures k >= 0 ==> items[k].productId == id && forall j :: 0 <= j < k ==> items[j].productId != id
    ensures k == -1 ==> forall j :: 0 <= j < |items| ==> items[j].productId != id
  {
    if items == [] then -1
    else if items[0].productId == id then 0
    else
      var k := FirstIndex(items[1..], id);
      if k == -1 then -1 else k + 1
  }

  /** Every item with the id gets quantity q; the rest are kept. */
  function WithQuantity(items: seq<Item>, id: string, q: int): (r: seq<Item>)
    ensures |r| == |items|
    ensures forall i :: 0 <= i < |items| ==>
      r[i] == (if items[i].productId == id then items[i].(quantity := q) else items[i])
  {
    seq(|items|, i requires 0 <= i < |items| =>
      if items[i].productId == id then items[i].(quantity := q) else items[i])
  }

  /** `handleRemove`: the items with any other id, in their order. */
  function Remove(items: seq<Item>, id: string): (r: seq<Item>)
    ensures forall x :: x in r ==> x.productId != id
    ensures forall x :: x in items && x.productId != id ==> x in r
    ensures Seqs.IsSubsequence(r, items)
    ensures multiset(r) <= multiset(items)
    ensures forall x :: x in items ==> multiset(r)[x] == if x.productId != id then multiset(items)[x] else 0
  {
    Seqs.FilterMultiset((x: Item) => x.productId != id, items);
    Seqs.Filter((x: Item) => x.productId != id, items)
  }

  /** `handleIncrease`: one more of the item; an unknown id changes nothing. */
  function Increase(items: seq<Item>, id: string): (r: seq<Item>)
    ensures |r| == |items|
    ensures forall i :: 0 <= i < |items| ==> r[i].productId == items[i].productId && r[i].product == items[i].product
    ensures forall i :: 0 <= i < |items| ==>
      r[i].quantity == (if items[i].productId == id then items[i].quantity + 1 else items[i].quantity)
  {
    if FirstIndex(items, id) < 0 then items else Bump(items, id)
  }

  /** `handleDecrease`: one fewer, or the item is removed when that would
      leave none; an unknown id changes nothing. */
  function Decrease(items: seq<Item>, id: string): (r: seq<Item>)
    ensures FirstIndex(items, id) < 0 ==> r == items
    ensures FirstIndex(items, id) >= 0 && items[FirstIndex(items, id)].quantity <= 1 ==> r == Remove(items, id)
    ensures FirstIndex(items, id) >= 0 && items[FirstIndex(items, id)].quantity > 1 ==>
      r == WithQuantity(items, id, items[FirstIndex(items, id)].quantity - 1)
  {
    var k := FirstIndex(items, id);
    if k < 0 then items
    else
      var next := items[k].quantity - 1;
      if next <= 0 then Remove(items, id) else WithQuantity(items, id, next)
  }

  predicate UniqueIds(items: seq<Item>) {
    forall i, j :: 0 <= i < |items| && 0 <= j < |items| && items[i].productId == items[j].productId ==> i == j
  }

  /** The quantities the server hands out are at least 1 (`_load_cart_items`
      drops the rest, CartItem demands ge=1). */
  predicate AllPositive(items: seq<Item>) {
    forall i :: 0 <= i < |items| ==> items[i].quantity >= 1
  }

  /** With distinct ids and server quantities, the minus button undoes the
      plus button. */
  lemma IncreaseThenDecrease(items: seq<Item>, id: string)
    requires UniqueIds(items) && AllPositive(items)
    ensures Decrease(Increase(items, id), id) == items
  {
    var k := FirstIndex(items, id);
    if k >= 0 {
      var up := Increase(items, id);
      assert FirstIndex(up, id) == k;
      var down := Decrease(up, id);
      assert down == WithQuantity(up, id, items[k].quantity);
      assert forall i :: 0 <= i < |items| && items[i].productId == id ==> i == k;
      assert down == items;
    }
  }

  /** The three handlers never produce a quantity the server would refuse. */
  lemma HandlersKeepPositive(items: seq<Item>, id: string)
    requires AllPositive(items)
    ensures AllPositive(Increase(items, id))
    ensures AllPositive(Decrease(items, id))
    ensures AllPositive(Remove(items, id))
  {
    assert AllPositive(Increase(items, id));
    assert AllPositive(Decrease(items, id));
    RemoveKeepsPositive(items, id);
  }

  lemma RemoveKeepsPositive(items: seq<Item>, id: string)
    requires AllPositive(items)
    ensures AllPositive(Remove(items, id))
  {
    var r := Remove(items, id);
    forall i | 0 <= i < |r|
      ensures r[i].quantity >= 1
    {
      assert r[i] in r;
    }
  }

  function QuantitySum(items: seq<Item>): int {
    if items == [] then 0 else QuantitySum(items[..|items| - 1]) + items[|items| - 1].quantity
  }

  function Subtotal(items: seq<Item>): int {
    if items == [] then 0 else Subtotal(items[..|items| - 1]) + UnitPrice(items[|items| - 1]) * items[|items| - 1].quantity
  }

  /** How many items carry the id. */
  function Occurrences(items: seq<Item>, id: string): nat {
    if items == [] then 0
    else Occurrences(items[..|items| - 1], id) + (if items[|items| - 1].productId == id then 1 else 0)
  }

  /** The plus button adds one unit per item with that id to the total
      quantity. */
  lemma {:induction false} IncreaseQuantitySum(items: seq<Item>, id: string)
    ensures QuantitySum(Increase(items, id)) == QuantitySum(items) + Occurrences(items, id)
  {
    if FirstIndex(items, id) < 0 {
      OccurrencesAbsent(items, id);
    } else {
      BumpSum(items, id);
    }
  }

  /** The `items.map` of handleIncrease. */
  function Bump(items: seq<Item>, id: string): (r: seq<Item>)
    ensures |r| == |items|
    ensures forall i :: 0 <= i < |items| ==> r[i].productId == items[i].productId && r[i].product == items[i].product
    ensures forall i :: 0 <= i < |items| ==>
      r[i].quantity == (if items[i].productId == id then items[i].quantity + 1 else items[i].quantity)
  {
    seq(|items|, i requires 0 <= i < |items| =>
      if items[i].productId == id then items[i].(quantity := items[i].quantity + 1) else items[i])
  }

  lemma {:induction false} BumpSum(items: seq<Item>, id: string)
    ensures QuantitySum(Bump(items, id)) == QuantitySum(items) + Occurrences(items, id)
  {
    if items != [] {
      var n := |items| - 1;
      assert Bump(items, id)[..n] == Bump(items[..n], id);
      BumpSum(items[..n], id);
    }
  }

  lemma {:induction false} OccurrencesAbsent(items: seq<Item>, id: string)
    requires forall j :: 0 <= j < |items| ==> items[j].productId != id
    ensures Occurrences(items, id) == 0
  {
    if items != [] {
      OccurrencesAbsent(items[..|items| - 1], id);
    }
  }

  lemma {:induction false} OccurrencesOfUnique(items: seq<Item>, id: string)
    requires UniqueIds(items)
    ensures Occurrences(items, id) == (if FirstIndex(items, id) >= 0 then 1 else 0)
  {
    if items != [] {
      var n := |items| - 1;
      assert UniqueIds(items[..n]);
      OccurrencesOfUnique(items[..n], id);
      var k := FirstIndex(items[..n], id);
      if k >= 0 {
        assert items[..n][k] == items[k];
        assert FirstIndex(items, id) >= 0;
        assert items[n].productId != id;
      } else if items[n].productId == id {
        assert FirstIndex(items, id) >= 0;
      } else {
        assert forall j :: 0 <= j < n ==> items[..n][j] == items[j];
        assert FirstIndex(items, id) < 0;
      }
    }
  }

  /** In a cart without repeated ids the plus button adds exactly one unit
      to the summary's quantity when the id is there, and none otherwise. */
  lemma IncreaseAddsOne(items: seq<Item>, id: string)
    requires UniqueIds(items)
    ensures QuantitySum(Increase(items, id)) == QuantitySum(items) + (if FirstIndex(items, id) >= 0 then 1 else 0)
  {
    IncreaseQuantitySum(items, id);
    OccurrencesOfUnique(items, id);
  }

  datatype Summary = Summary(distinct: int, quantity: int, subtotal: int)

  /** The `summary` reduce: item count, total quantity, and the sum of unit
      price times quantity. */
  method Summarise(items: seq<Item>) returns (acc: Summary)
    ensures acc.distinct == |items|
    ensures acc.quantity == QuantitySum(items)
    ensures acc.subtotal == Subtotal(items)
  {
    acc := Summary(0, 0, 0);
    var i := 0;
    while i < |items|
      invariant 0 <= i <= |items|
      invariant acc == Summary(i, QuantitySum(items[..i]), Subtotal(items[..i]))
    {
      var item := items[i];
      assert items[..i + 1][..i] == items[..i];
      acc := acc.(distinct := acc.distinct + 1);
      acc := acc.(quantity := acc.quantity + item.quantity);
      acc := acc.(subtotal := acc.subtotal + UnitPrice(item) * item.quantity);
      i := i + 1;
    }
    assert items[..i] == items;
  }

  /** The `persistCart` body: id and quantity of each item, in order, with
      the product summary left behind. */
  function Payload(items: seq<Item>): (r: seq<Schemas.CartItem>)
    ensures |r| == |items|
    ensures forall i :: 0 <= i < |items| ==>
      r[i].productId == items[i].productId && r[i].quantity == items[i].quantity && r[i].product.None?
  {
    seq(|items|, i requires 0 <= i < |items| => Schemas.CartItem(items[i].productId, items[i].quantity))
  }

  /** The server accepts the body exactly when every quantity is positive,
      so a list built by the handlers from the server's items is accepted. */
  lemma PayloadAccepted(items: seq<Item>)
    ensures Schemas.ValidateCartUpdate(Payload(items)).Ok? <==> AllPositive(items)
  {
  }

  /** `isKimchiSearchQuery`: without whitespace and a trailing run of "!",
      the text is exactly "김치추천". */
  predicate IsKimchiQuery(value: string) {
    Text.StripTrailing(Text.RemoveSpaces(value), '!') == "김치추천"
  }

  lemma {:induction false} StripTrailingRun(p: string, s: string, c: char)
    requires p == [] || p[|p| - 1] != c
    requires forall i :: 0 <= i < |s| ==> s[i] == c
    ensures Text.StripTrailing(p + s, c) == p
    decreases |s|
  {
    if s == [] {
      assert p + s == p;
    } else {
      assert (p + s)[..|p + s| - 1] == p + s[..|s| - 1];
      StripTrailingRun(p, s[..|s| - 1], c);
    }
  }

  /** The query is accepted exactly when, whitespace deleted, it is "김치추천"
      followed by nothing but exclamation marks. */
  lemma KimchiQueryShape(value: string)
    ensures IsKimchiQuery(value) <==>
      (var c := Text.RemoveSpaces(value);
       |c| >= 4 && c[..4] == "김치추천" && forall i :: 4 <= i < |c| ==> c[i] == '!')
  {
    var c := Text.RemoveSpaces(value);
    if |c| >= 4 && c[..4] == "김치추천" && forall i :: 4 <= i < |c| ==> c[i] == '!' {
      assert c == c[..4] + c[4..];
      StripTrailingRun(c[..4], c[4..], '!');
    }
  }

  datatype Navigation = Navigation(path: string, query: string, category: string)

  /** `handleSearch`: the trimmed query goes to /search when it is the kimchi
      recommendation request and to /chat otherwise. */
  function Search(query: string, category: string): (r: Navigation)
    ensures r.query == Text.Strip(query) && r.category == category
    ensures r.path == "/search" || r.path == "/chat"
  {
    var normalized := Text.Strip(query);
    var compact := Text.RemoveSpaces(normalized);
    Navigation(if IsKimchiQuery(compact) then "/search" else "/chat", normalized, category)
  }

  /** The route depends only on the query as typed, spaces and all. */
  lemma SearchRoute(query: string, category: string)
    ensures Search(query, category).path == "/search" <==> IsKimchiQuery(query)
  {
    Text.RemoveSpacesStrip(query);
    Text.RemoveSpacesIdempotent(Text.Strip(query));
  }
}
