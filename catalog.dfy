/** Catalogue, cart and review endpoints (backend/app/routers/product.py).
    The products collection is a sequence of documents in natural order, the
    carts collection a map from user_id to cart document, and the module-level
    review list a store object. */
module Catalog {
  import opened Values
  import Text
  import Http
  import Schemas
  import Seqs

  const LoginRequired: string := "로그인이 필요합니다."
  const ProductNotFound: string := "상품을 찾을 수 없습니다."
  const DemoReviewContent: string := "만족스러운 구매였어요! 품질 최고."
  const MaxPageSize: int := 60

  /** The two keys the mappers index without a default. */
  predicate Indexable(d: Doc) {
    "product_id" in d && "title" in d
  }

  predicate AllIndexable(docs: seq<Doc>) {
    forall d :: d in docs ==> Indexable(d)
  }

  class ProductsCollection {
    var docs: seq<Doc>

    ghost predicate Valid()
      reads this
    {
      AllIndexable(docs)
    }

    constructor ()
      ensures docs == [] && Valid()
    {
      docs := [];
    }

    /** `count_documents({})`. */
    method CountDocuments() returns (n: nat)
      ensures n == |docs|
    {
      n := |docs|;
    }

    method InsertOne(d: Doc)
      requires Valid() && Indexable(d)
      modifies this
      ensures Valid() && docs == old(docs) + [d]
    {
      docs := docs + [d];
    }

    method InsertMany(ds: seq<Doc>)
      requires Valid() && AllIndexable(ds)
      modifies this
      ensures Valid() && docs == old(docs) + ds
    {
      docs := docs + ds;
    }
  }

  // ----------------------------------------------------------------- mappers

  const SummaryKeys: set<string> := {"product_id", "title", "subtitle", "price", "sale_price", "stock",
                                     "thumbnail_url", "tags", "category", "shipping", "is_recommended",
                                     "recommendation_reason"}

  /** What `_product_to_summary` puts in place of a missing field. */
  function SummaryDefault(k: string): Value {
    if k == "price" || k == "stock" then VInt(0)
    else if k == "tags" then VList([])
    else if k == "is_recommended" then VBool(false)
    else VNull
  }

  /** `_product_to_summary`: the summary fields, each copied from the
      document when present and defaulted when not. */
  function ProductToSummary(d: Doc): (r: Doc)
    requires Indexable(d)
    ensures r.Keys == SummaryKeys
    ensures r["product_id"] == d["product_id"] && r["title"] == d["title"]
    ensures forall k :: k in SummaryKeys && k in d ==> r[k] == d[k]
    ensures forall k :: k in SummaryKeys && k !in d ==> r[k] == SummaryDefault(k)
  {
    map k | k in SummaryKeys :: Get(d, k, SummaryDefault(k))
  }

  const DetailOnlyKeys: set<string> := {"sku", "barcode", "status", "gallery", "description", "keywords",
                                        "created_at", "updated_at"}

  /** What `_product_to_detail` puts in place of a missing field; a missing
      updated_at falls back to created_at. */
  function DetailDefault(d: Doc, k: string): Value {
    if k == "status" then VStr("published")
    else if k == "gallery" || k == "keywords" then VList([])
    else if k == "description" then VStr("")
    else if k == "updated_at" then Get(d, "created_at", VNull)
    else VNull
  }

  /** `_product_to_detail`: the summary, extended by the detail fields. */
  function ProductToDetail(d: Doc): (r: Doc)
    requires Indexable(d)
    ensures r.Keys == SummaryKeys + DetailOnlyKeys
    ensures forall k :: k in SummaryKeys ==> r[k] == ProductToSummary(d)[k]
    ensures forall k :: k in DetailOnlyKeys && k in d ==> r[k] == d[k]
    ensures forall k :: k in DetailOnlyKeys && k !in d ==> r[k] == DetailDefault(d, k)
  {
    SummaryAndDetailKeysDisjoint();
    ProductToSummary(d) + map k | k in DetailOnlyKeys :: Get(d, k, DetailDefault(d, k))
  }

  lemma SummaryAndDetailKeysDisjoint()
    ensures SummaryKeys !! DetailOnlyKeys
  {
    forall k | k in DetailOnlyKeys ensures k !in SummaryKeys {
      assert k[0] in "sbgdkcu";
    }
  }

  /** A document holding only the indexed keys gets every default. */
  lemma BareDocumentDefaults(productId: Value, title: Value, createdAt: Value)
    ensures var d := map["product_id" := productId, "title" := title, "created_at" := createdAt];
            var s := ProductToDetail(d);
            && s["price"] == VInt(0) && s["stock"] == VInt(0) && s["tags"] == VList([])
            && s["is_recommended"] == VBool(false) && s["sale_price"] == VNull
            && s["status"] == VStr("published") && s["updated_at"] == createdAt
  {
    var d := map["product_id" := productId, "title" := title, "created_at" := createdAt];
    assert "price" !in d && "stock" !in d && "tags" !in d && "is_recommended" !in d;
    assert "sale_price" !in d && "status" !in d && "updated_at" !in d;
  }

  predicate HasId(d: Doc, productId: Value) {
    "product_id" in d && d["product_id"] == productId
  }

  /** `find_one({"product_id": productId})`: the first match in natural order. */
  function FindProduct(docs: seq<Doc>, productId: Value): (r: Option<Doc>)
    ensures r.Some? ==> r.value in docs && HasId(r.value, productId)
    ensures r.None? <==> forall i :: 0 <= i < |docs| ==> !HasId(docs[i], productId)
  {
    if docs == [] then None
    else if HasId(docs[0], productId) then Some(docs[0])
    else
      var r := FindProduct(docs[1..], productId);
      assert forall i :: 1 <= i < |docs| ==> docs[i] == docs[1..][i - 1];
      r
  }

  /** GET /product/{product_id}. */
  function GetProductDetail(docs: seq<Doc>, productId: string): (r: Result<Doc, Http.Failure>)
    requires AllIndexable(docs)
    ensures r.Err? <==> forall i :: 0 <= i < |docs| ==> !HasId(docs[i], VStr(productId))
    ensures r.Err? ==> r.error == Http.HttpError(Http.NotFound, ProductNotFound)
    ensures r.Ok? ==> "product_id" in r.value && r.value["product_id"] == VStr(productId)
    ensures r.Ok? ==> FindProduct(docs, VStr(productId)).Some?
                      && r.value == ProductToDetail(FindProduct(docs, VStr(productId)).value)
  {
    match FindProduct(docs, VStr(productId))
    case None => Err(Http.HttpError(Http.NotFound, ProductNotFound))
    case Some(d) => Ok(ProductToDetail(d))
  }

  // ---------------------------------------------------------------- listing

  predicate IsRecommended(d: Doc) {
    "is_recommended" in d && d["is_recommended"] == VBool(true)
  }

  /** The query of `list_products`: `{"is_recommended": True}`,
      `{"is_recommended": {"$ne": True}}` or `{}`. */
  predicate MatchesRecommended(d: Doc, recommended: Option<bool>) {
    match recommended
    case None => true
    case Some(b) => IsRecommended(d) == b
  }

  function Matching(docs: seq<Doc>, recommended: Option<bool>): (r: seq<Doc>)
    ensures forall d :: d in r <==> d in docs && MatchesRecommended(d, recommended)
    ensures Seqs.IsSubsequence(r, docs)
  {
    Seqs.Filter(d => MatchesRecommended(d, recommended), docs)
  }

  /** True and False split the catalogue between them; None keeps all of it. */
  lemma RecommendedPartition(docs: seq<Doc>)
    ensures Matching(docs, None) == docs
    ensures |Matching(docs, Some(true))| + |Matching(docs, Some(false))| == |docs|
  {
    Seqs.FilterAll(d => MatchesRecommended(d, None), docs);
    Seqs.FilterComplement(d => MatchesRecommended(d, Some(true)), d => MatchesRecommended(d, Some(false)), docs);
  }

  /** The sort key of `.sort("created_at", -1)`: a document without an
      integer created_at sorts as older than every other. */
  function Age(d: Doc): int {
    if "created_at" in d && d["created_at"].VInt? && d["created_at"].i >= 0 then -(d["created_at"].i + 1) else 0
  }

  function Newest(docs: seq<Doc>): (r: seq<Doc>)
    ensures multiset(r) == multiset(docs) && |r| == |docs|
    ensures forall i, j :: 0 <= i < j < |r| ==> Age(r[i]) <= Age(r[j])
  {
    Seqs.SortBy(Age, docs)
  }

  /** `.skip(skip).limit(size)`. */
  function Window(s: seq<Doc>, skip: nat, size: nat): (w: seq<Doc>)
    ensures |w| == if skip >= |s| then 0 else if size < |s| - skip then size else |s| - skip
    ensures forall i :: 0 <= i < |w| ==> w[i] == s[skip + i]
    ensures forall d :: d in w ==> d in s
  {
    if skip >= |s| then [] else if size < |s| - skip then s[skip..skip + size] else s[skip..]
  }

  function Summaries(w: seq<Doc>): (r: seq<Doc>)
    requires AllIndexable(w)
    ensures |r| == |w| && forall i :: 0 <= i < |w| ==> r[i] == ProductToSummary(w[i])
  {
    seq(|w|, i requires 0 <= i < |w| => ProductToSummary(w[i]))
  }

  datatype ProductList = ProductList(items: seq<Doc>, page: int, pageSize: int, total: int, hasMore: bool)

  /** The matching products, newest first. */
  function Ordered(docs: seq<Doc>, recommended: Option<bool>): (r: seq<Doc>)
    requires AllIndexable(docs)
    ensures AllIndexable(r) && multiset(r) == multiset(Matching(docs, recommended))
    ensures forall i, j :: 0 <= i < j < |r| ==> Age(r[i]) <= Age(r[j])
  {
    var r := Newest(Matching(docs, recommended));
    assert forall d :: d in r ==> d in multiset(Matching(docs, recommended));
    r
  }

  /** One page of the ordered matching products. */
  function PageOf(ordered: seq<Doc>, page: int, pageSize: int): (r: ProductList)
    requires AllIndexable(ordered) && page >= 1 && pageSize >= 1
    ensures r.page == page && r.pageSize == pageSize && r.total == |ordered| && |r.items| <= pageSize
  {
    var skip := (page - 1) * pageSize;
    var items := Summaries(Window(ordered, skip, pageSize));
    ProductList(items, page, pageSize, |ordered|, skip + |items| < |ordered|)
  }

  /** GET /products. */
  function ListProducts(docs: seq<Doc>, page: int, pageSize: int, recommended: Option<bool>): (r: Result<ProductList, Http.Failure>)
    requires AllIndexable(docs)
    ensures r.Err? <==> !(page >= 1 && 1 <= pageSize <= MaxPageSize)
    ensures r.Err? ==> r.error.Status() == Http.UnprocessableEntity
    ensures r.Ok? ==> r.value.page == page && r.value.pageSize == pageSize
    ensures r.Ok? ==> |r.value.items| <= pageSize && r.value.total == |Matching(docs, recommended)|
  {
    if !(page >= 1 && 1 <= pageSize <= MaxPageSize) then Err(Http.Unprocessable("page"))
    else Ok(PageOf(Ordered(docs, recommended), page, pageSize))
  }

  /** A page holds the page_size products of the ordered matching list from
      (page-1)*page_size on, and has_more says exactly whether any matching
      product comes after them. */
  lemma PageContents(ordered: seq<Doc>, page: int, pageSize: int)
    requires AllIndexable(ordered) && page >= 1 && pageSize >= 1
    ensures var r := PageOf(ordered, page, pageSize);
            var skip := (page - 1) * pageSize;
            && (r.hasMore <==> page * pageSize < r.total)
            && (forall i :: 0 <= i < |r.items| ==> skip + i < |ordered| && r.items[i] == ProductToSummary(ordered[skip + i]))
            && (skip < r.total ==> |r.items| == if page * pageSize <= r.total then pageSize else r.total - skip)
  {
    var skip := (page - 1) * pageSize;
    var w := Window(ordered, skip, pageSize);
    assert PageOf(ordered, page, pageSize).items == Summaries(w);
    PageArithmetic(page, pageSize);
    WindowCount(ordered, skip, pageSize);
  }

  lemma PageArithmetic(page: int, pageSize: int)
    ensures (page - 1) * pageSize + pageSize == page * pageSize
  {
  }

  lemma WindowCount(s: seq<Doc>, skip: nat, size: nat)
    requires size >= 1
    ensures skip + |Window(s, skip, size)| < |s| <==> skip + size < |s|
    ensures skip < |s| ==> |Window(s, skip, size)| == if skip + size <= |s| then size else |s| - skip
  {
  }

  // ------------------------------------------------------------------ users

  /** `require_user`: the stripped X-User-Id header, 401 when it is absent or blank. */
  function RequireUser(header: Option<string>): (r: Result<string, Http.Failure>)
    ensures r.Ok? <==> header.Some? && Text.Strip(header.value) != ""
    ensures r.Ok? ==> r.value == Text.Strip(header.value) && Text.NoOuterSpace(r.value)
    ensures r.Err? ==> r.error == Http.HttpError(Http.Unauthorized, LoginRequired)
  {
    if header.None? || header.value == "" || Text.Strip(header.value) == "" then
      Err(Http.HttpError(Http.Unauthorized, LoginRequired))
    else Ok(Text.Strip(header.value))
  }

  // ------------------------------------------------------------------- carts

  /** A stored cart entry: the two fields `_load_cart_items` reads. */
  datatype CartEntry = CartEntry(productId: Option<Value>, quantity: Option<Value>)

  datatype CartDoc = CartDoc(userId: string, items: seq<CartEntry>, createdAt: int, updatedAt: int)

  class CartsCollection {
    var docs: map<string, CartDoc>

    constructor ()
      ensures docs == map[]
    {
      docs := map[];
    }

    /** The upserting `update_one` of update_cart: `$set` items and
        updated_at, `$setOnInsert` user_id and created_at. */
    method ReplaceItems(userId: string, items: seq<CartEntry>, now: int)
      modifies this
      ensures docs == old(docs)[userId := Replaced(old(docs), userId, items, now)]
    {
      docs := docs[userId := Replaced(docs, userId, items, now)];
    }
  }

  function Replaced(docs: map<string, CartDoc>, userId: string, items: seq<CartEntry>, now: int): (c: CartDoc)
    ensures c.items == items && c.updatedAt == now && c.userId == (if userId in docs then docs[userId].userId else userId)
    ensures c.createdAt == if userId in docs then docs[userId].createdAt else now
  {
    if userId in docs then docs[userId].(items := items, updatedAt := now) else CartDoc(userId, items, now, now)
  }

  /** `document.get("items", []) if document else []`. */
  function RawItems(docs: map<string, CartDoc>, userId: string): seq<CartEntry> {
    if userId in docs then docs[userId].items else []
  }

  /** `int(entry.get("quantity", 0))`, None where int() raises. */
  function EntryQuantity(e: CartEntry): Option<int> {
    PyInt(e.quantity.GetOr(VInt(0)))
  }

  /** The entries `_load_cart_items` keeps: a truthy product_id and a
      quantity that converts to a positive integer. */
  predicate Kept(e: CartEntry) {
    e.productId.Some? && Truthy(e.productId.value) && EntryQuantity(e).Some? && EntryQuantity(e).value > 0
  }

  const CartSummaryKeys: set<string> := {"product_id", "title", "subtitle", "price", "sale_price",
                                         "thumbnail_url", "category", "shipping"}

  /** `_cart_product_summary`: None without a document. */
  function CartProductSummary(d: Option<Doc>): (r: Option<Doc>)
    requires d.Some? ==> Indexable(d.value)
    ensures r.Some? <==> d.Some?
    ensures r.Some? ==> (r.value.Keys == CartSummaryKeys &&
      forall k :: k in CartSummaryKeys ==> r.value[k] == ProductToSummary(d.value)[k])
  {
    match d
    case None => None
    case Some(doc) =>
      var s := ProductToSummary(doc);
      Some(map k | k in CartSummaryKeys :: s[k])
  }

  /** The CartItem built for a kept entry; pydantic renders the id with str(). */
  function ToCartItem(e: CartEntry, products: seq<Doc>): (item: Schemas.CartItem)
    requires Kept(e) && AllIndexable(products)
    ensures item.quantity >= 1 && item.quantity == EntryQuantity(e).value
    ensures item.productId == PyStr(e.productId.value)
    ensures item.product.Some? <==> FindProduct(products, e.productId.value).Some?
  {
    Schemas.CartItem(PyStr(e.productId.value), EntryQuantity(e).value,
                     CartProductSummary(FindProduct(products, e.productId.value)))
  }

  /** The items `_load_cart_items` returns for the given entries, built as its
      loop builds them, one entry at a time. */
  function CartItemsOf(entries: seq<CartEntry>, products: seq<Doc>): (items: seq<Schemas.CartItem>)
    requires AllIndexable(products)
    ensures |items| <= |entries|
    ensures forall i :: 0 <= i < |items| ==> items[i].quantity >= 1
    decreases |entries|
  {
    if entries == [] then []
    else
      var init := CartItemsOf(entries[..|entries| - 1], products);
      var e := entries[|entries| - 1];
      if Kept(e) then init + [ToCartItem(e, products)] else init
  }

  function MapToCartItems(kept: seq<CartEntry>, products: seq<Doc>): (r: seq<Schemas.CartItem>)
    requires AllIndexable(products) && forall e :: e in kept ==> Kept(e)
    ensures |r| == |kept| && forall i :: 0 <= i < |kept| ==> r[i] == ToCartItem(kept[i], products)
  {
    seq(|kept|, i requires 0 <= i < |kept| => ToCartItem(kept[i], products))
  }

  /** The cart holds, in their stored order, exactly the kept entries. */
  lemma {:induction false} CartItemsAreKeptEntries(entries: seq<CartEntry>, products: seq<Doc>)
    requires AllIndexable(products)
    ensures CartItemsOf(entries, products) == MapToCartItems(Seqs.Filter(Kept, entries), products)
    decreases |entries|
  {
    if entries != [] {
      var init, e := entries[..|entries| - 1], entries[|entries| - 1];
      assert entries == init + [e];
      CartItemsAreKeptEntries(init, products);
      Seqs.FilterAppend(Kept, init, [e]);
      assert Seqs.Filter(Kept, [e]) == if Kept(e) then [e] else [];
    }
  }

  /** `_load_cart_items`. */
  method LoadCartItems(carts: CartsCollection, products: ProductsCollection, userId: string)
      returns (items: seq<Schemas.CartItem>)
    requires products.Valid()
    ensures items == CartItemsOf(RawItems(carts.docs, userId), products.docs)
  {
    var raw := RawItems(carts.docs, userId);
    items := [];
    var i := 0;
    while i < |raw|
      invariant 0 <= i <= |raw|
      invariant items == CartItemsOf(raw[..i], products.docs)
    {
      var entry := raw[i];
      assert raw[..i + 1][..i] == raw[..i];
      i := i + 1;
      if entry.productId.None? || !Truthy(entry.productId.value) {
        continue;
      }
      var quantity := EntryQuantity(entry);
      if quantity.None? || quantity.value <= 0 {
        continue;
      }
      items := items + [ToCartItem(entry, products.docs)];
    }
    assert raw[..i] == raw;
  }

  /** The entries update_cart stores: `{"product_id", "quantity"}` of every
      item with a positive quantity. */
  function StoredEntries(items: seq<Schemas.CartItem>): (r: seq<CartEntry>)
    ensures |r| <= |items|
  {
    if items == [] then []
    else if items[0].quantity > 0 then
      [CartEntry(Some(VStr(items[0].productId)), Some(VInt(items[0].quantity)))] + StoredEntries(items[1..])
    else StoredEntries(items[1..])
  }

  function StoredEntry(it: Schemas.CartItem): CartEntry {
    CartEntry(Some(VStr(it.productId)), Some(VInt(it.quantity)))
  }

  predicate PositiveQuantity(it: Schemas.CartItem) { it.quantity > 0 }

  /** update_cart stores one entry per item with a positive quantity, in the
      order of the request, and nothing else. */
  lemma {:induction false} StoredEntriesArePositiveItems(items: seq<Schemas.CartItem>)
    ensures var k := Seqs.Filter(PositiveQuantity, items);
            && |StoredEntries(items)| == |k|
            && forall i :: 0 <= i < |k| ==> StoredEntries(items)[i] == StoredEntry(k[i])
  {
    if items != [] {
      StoredEntriesArePositiveItems(items[1..]);
      var k := Seqs.Filter(PositiveQuantity, items[1..]);
      var r := StoredEntries(items[1..]);
      if items[0].quantity > 0 {
        assert Seqs.Filter(PositiveQuantity, items) == [items[0]] + k;
        assert StoredEntries(items) == [StoredEntry(items[0])] + r;
      }
    }
  }

  /** A body ValidateCartUpdate accepts is stored in full: every item, in order. */
  lemma ValidBodyStoredInFull(items: seq<Schemas.CartItem>)
    requires Schemas.ValidateCartUpdate(items).Ok?
    ensures |StoredEntries(items)| == |items|
    ensures forall i :: 0 <= i < |items| ==> StoredEntries(items)[i] == StoredEntry(items[i])
  {
    Seqs.FilterAll(PositiveQuantity, items);
    StoredEntriesArePositiveItems(items);
  }

  /** PUT /cart. */
  method UpdateCart(carts: CartsCollection, products: ProductsCollection, header: Option<string>,
                    body: seq<Schemas.CartItem>, now: int)
      returns (r: Result<seq<Schemas.CartItem>, Http.Failure>)
    requires products.Valid()
    modifies carts
    ensures RequireUser(header).Err? ==> r == Err(RequireUser(header).error) && carts.docs == old(carts.docs)
    ensures RequireUser(header).Ok? && Schemas.ValidateCartUpdate(body).Err? ==>
      r == Err(Schemas.ValidateCartUpdate(body).error) && carts.docs == old(carts.docs)
    ensures RequireUser(header).Ok? && Schemas.ValidateCartUpdate(body).Ok? ==>
      var userId := RequireUser(header).value;
      && carts.docs == old(carts.docs)[userId := Replaced(old(carts.docs), userId, StoredEntries(body), now)]
      && r == Ok(CartItemsOf(StoredEntries(body), products.docs))
  {
    var user := RequireUser(header);
    if user.Err? {
      return Err(user.error);
    }
    var valid := Schemas.ValidateCartUpdate(body);
    if valid.Err? {
      return Err(valid.error);
    }
    carts.ReplaceItems(user.value, StoredEntries(body), now);
    var items := LoadCartItems(carts, products, user.value);
    r := Ok(items);
  }

  /** The item update_cart answers with for a request item. */
  function ResponseItem(item: Schemas.CartItem, products: seq<Doc>): Schemas.CartItem
    requires AllIndexable(products)
  {
    Schemas.CartItem(item.productId, item.quantity, CartProductSummary(FindProduct(products, VStr(item.productId))))
  }

  /** For a valid body, update_cart answers with every request item whose
      product_id is not empty, in order, each with its product summary. */
  lemma {:induction false} UpdateCartAnswer(body: seq<Schemas.CartItem>, products: seq<Doc>)
    requires AllIndexable(products)
    requires forall i :: 0 <= i < |body| ==> body[i].quantity >= 1
    ensures var kept := Seqs.Filter((it: Schemas.CartItem) => it.productId != "", body);
            CartItemsOf(StoredEntries(body), products) ==
              seq(|kept|, i requires 0 <= i < |kept| => ResponseItem(kept[i], products))
    decreases |body|
  {
    CartItemsAreKeptEntries(StoredEntries(body), products);
    StoredKept(body, products);
  }

  lemma {:induction false} StoredKept(body: seq<Schemas.CartItem>, products: seq<Doc>)
    requires AllIndexable(products)
    requires forall i :: 0 <= i < |body| ==> body[i].quantity >= 1
    ensures var kept := Seqs.Filter((it: Schemas.CartItem) => it.productId != "", body);
            var stored := Seqs.Filter(Kept, StoredEntries(body));
            && |stored| == |kept|
            && forall i :: 0 <= i < |kept| ==> ToCartItem(stored[i], products) == ResponseItem(kept[i], products)
    decreases |body|
  {
    if body != [] {
      var nonEmpty := (it: Schemas.CartItem) => it.productId != "";
      var it, rest := body[0], body[1..];
      StoredKept(rest, products);
      var e := CartEntry(Some(VStr(it.productId)), Some(VInt(it.quantity)));
      var tail := StoredEntries(rest);
      assert StoredEntries(body) == [e] + tail;
      assert ([e] + tail)[0] == e && ([e] + tail)[1..] == tail;
      var keptRest := Seqs.Filter(nonEmpty, rest);
      var storedRest := Seqs.Filter(Kept, tail);
      if it.productId != "" {
        assert Kept(e);
        assert Seqs.Filter(nonEmpty, body) == [it] + keptRest;
        assert Seqs.Filter(Kept, StoredEntries(body)) == [e] + storedRest;
        assert ToCartItem(e, products) == ResponseItem(it, products);
      } else {
        assert !Kept(e);
        assert Seqs.Filter(nonEmpty, body) == keptRest;
        assert Seqs.Filter(Kept, StoredEntries(body)) == storedRest;
      }
    }
  }

  // ----------------------------------------------------------------- reviews

  function InitialReview(createdAt: int): Schemas.ReviewResponse {
    Schemas.ReviewResponse(1, "demo-1", 5, DemoReviewContent, createdAt)
  }

  /** review_id is one more than the number of reviews before it. */
  predicate NumberedFromOne(reviews: seq<Schemas.ReviewResponse>) {
    forall i :: 0 <= i < |reviews| ==> reviews[i].reviewId == i + 1
  }

  /** `[review for review in _reviews if review.product_id == product_id]`. */
  function ReviewsFor(reviews: seq<Schemas.ReviewResponse>, productId: string): (r: seq<Schemas.ReviewResponse>)
    ensures forall x :: x in r <==> x in reviews && x.productId == productId
    ensures Seqs.IsSubsequence(r, reviews)
  {
    Seqs.Filter((x: Schemas.ReviewResponse) => x.productId == productId, reviews)
  }

  /** A new review is listed last for its product and nowhere else. */
  lemma ReviewsAfterAppend(reviews: seq<Schemas.ReviewResponse>, review: Schemas.ReviewResponse, productId: string)
    ensures ReviewsFor(reviews + [review], productId)
         == ReviewsFor(reviews, productId) + (if review.productId == productId then [review] else [])
  {
    Seqs.FilterAppend((x: Schemas.ReviewResponse) => x.productId == productId, reviews, [review]);
    assert Seqs.Filter((x: Schemas.ReviewResponse) => x.productId == productId, [review])
        == if review.productId == productId then [review] else [];
  }

  /** Numbered reviews carry distinct ids. */
  lemma NumberedIdsDistinct(reviews: seq<Schemas.ReviewResponse>, i: int, j: int)
    requires NumberedFromOne(reviews) && 0 <= i < j < |reviews|
    ensures reviews[i].reviewId != reviews[j].reviewId
  {
  }

  class ReviewStore {
    var reviews: seq<Schemas.ReviewResponse>

    ghost predicate Valid()
      reads this
    {
      NumberedFromOne(reviews)
    }

    /** The module-level `_reviews`, holding the demo review. */
    constructor (createdAt: int)
      ensures reviews == [InitialReview(createdAt)] && Valid()
    {
      reviews := [InitialReview(createdAt)];
    }

    /** GET /review/{product_id}. */
    method ListReviews(productId: string) returns (r: seq<Schemas.ReviewResponse>)
      ensures r == ReviewsFor(reviews, productId)
    {
      r := Seqs.Filter((x: Schemas.ReviewResponse) => x.productId == productId, reviews);
    }

    /** POST /review/{product_id}: no check that the product exists. */
    method CreateReview(productId: string, body: Schemas.ReviewCreateRequest, now: int)
        returns (r: Result<Schemas.ReviewResponse, Http.Failure>)
      requires Valid()
      modifies this
      ensures Valid()
      ensures r.Err? <==> Schemas.ValidateReview(body).Err?
      ensures r.Err? ==> r == Err(Schemas.ValidateReview(body).error) && reviews == old(reviews)
      ensures r.Ok? ==> (r.value == Schemas.ReviewResponse(|old(reviews)| + 1, productId, body.rating, body.content, now)
                         && reviews == old(reviews) + [r.value])
    {
      var valid := Schemas.ValidateReview(body);
      if valid.Err? {
        return Err(valid.error);
      }
      var review := Schemas.ReviewResponse(|reviews| + 1, productId, body.rating, body.content, now);
      reviews := reviews + [review];
      r := Ok(review);
    }
  }
}
