/** Demo data seeding (backend/app/seed.py): the sample catalogue, inserted
    only into an empty products collection. */
module Seed {
  import opened Values
  import Schemas
  import Catalog
  import Admin

  /** SAMPLE_PRODUCTS, each item in the shape of a product body.  The items
      have no sku or barcode; those two fields stay None and are not stored. */
  const SampleProducts: seq<Schemas.ProductCreateRequest> := [
    Schemas.ProductCreateRequest(
      title := "프리미엄 모달 침구 세트",
      subtitle := Some("사계절 내내 포근한 60수 모달 코튼 혼방 원단"),
      price := 159000,
      salePrice := Some(119000),
      stock := 120,
      category := Some("living"),
      shipping := Some("무료 배송"),
      status := "published",
      thumbnailUrl := "https://images.unsplash.com/photo-1616628174490-1bbefc585acb?auto=format&fit=crop&w=960&q=80",
      gallery := ["https://images.unsplash.com/photo-1616627459344-3b0b74292b73?auto=format&fit=crop&w=960&q=80", "https://images.unsplash.com/photo-1616627574497-2ceebd16687f?auto=format&fit=crop&w=960&q=80"],
      description := "부드러운 터치감의 모달과 통기성이 뛰어난 코튼이 만나 사계절 내내 기분 좋은 수면을 선사합니다.",
      keywords := ["침구", "모달", "베딩"],
      tags := ["프리미엄", "특가", "인기"],
      isRecommended := true,
      recommendationReason := Some("여름밤에도 쾌적한 스마트 온도 조절 기능을 갖춘 베스트셀러 침구예요.")),
    Schemas.ProductCreateRequest(
      title := "에어로핏 스마트 공기청정기",
      subtitle := Some("30평형 공간을 10분 만에 정화하는 듀얼 헤파 필터 시스템"),
      price := 329000,
      salePrice := Some(279000),
      stock := 45,
      category := Some("electronics"),
      shipping := Some("오늘출발"),
      status := "published",
      thumbnailUrl := "https://images.unsplash.com/photo-1581578731548-c64695cc6952?auto=format&fit=crop&w=960&q=80",
      gallery := ["https://images.unsplash.com/photo-1598969234603-4b2f1bbfd5d1?auto=format&fit=crop&w=960&q=80", "https://images.unsplash.com/photo-1582719478250-c89cae4dc85b?auto=format&fit=crop&w=960&q=80"],
      description := "초미세먼지까지 99.97% 제거하는 H13 헤파 필터와 IoT 연동으로 외출 중에도 실내 공기를 관리하세요.",
      keywords := ["공기청정기", "스마트홈", "IoT"],
      tags := ["NEW", "오늘출발"],
      isRecommended := true,
      recommendationReason := Some("갓 출시된 신제품으로, 스마트홈과 연동해 손쉽게 관리할 수 있어요.")),
    Schemas.ProductCreateRequest(
      title := "시그니처 콜드브루 세트 6입",
      subtitle := Some("프리미엄 원두를 저온 추출한 깊고 진한 홈카페 라인업"),
      price := 24900,
      salePrice := Some(19900),
      stock := 240,
      category := Some("food"),
      shipping := Some("무료 배송"),
      status := "published",
      thumbnailUrl := "https://images.unsplash.com/photo-1509042239860-f550ce710b93?auto=format&fit=crop&w=960&q=80",
      gallery := ["https://images.unsplash.com/photo-1437419764061-2473afe69fc2?auto=format&fit=crop&w=960&q=80", "https://images.unsplash.com/photo-1549652520-69faf2b4762b?auto=format&fit=crop&w=960&q=80"],
      description := "에티오피아 예가체프와 콜롬비아 수프리모를 블렌딩해 깊은 풍미를 살렸습니다. 냉장 보관으로 최대 2주까지 신선하게 즐기세요.",
      keywords := ["콜드브루", "커피", "홈카페"],
      tags := ["베스트셀러", "단독"],
      isRecommended := true,
      recommendationReason := Some("출시 이후 재구매율 87%를 기록한 SwiftCart 인기 상품이에요.")),
    Schemas.ProductCreateRequest(
      title := "젠핏 홈트 세라밴드 5종 세트",
      subtitle := Some("입문자부터 고강도 운동까지 커버하는 5단계 탄성 밴드"),
      price := 34900,
      salePrice := None,
      stock := 98,
      category := Some("sports"),
      shipping := Some("3,000원"),
      status := "published",
      thumbnailUrl := "https://images.unsplash.com/photo-1584466977773-e625c37cdd50?auto=format&fit=crop&w=960&q=80",
      gallery := ["https://images.unsplash.com/photo-1593476123561-9516f2097156?auto=format&fit=crop&w=960&q=80", "https://images.unsplash.com/photo-1571019613914-85f342c1d4b1?auto=format&fit=crop&w=960&q=80"],
      description := "프리미엄 라텍스 소재로 제작되어 내구성이 뛰어나며, 단계별 컬러로 운동 강도를 쉽게 조절할 수 있습니다.",
      keywords := ["홈트", "운동", "밴드"],
      tags := ["인기", "운동"],
      isRecommended := false,
      recommendationReason := None)
  ]

  const SampleKeys: set<string> := {"product_id", "title", "subtitle", "price", "sale_price", "stock", "category",
                                    "shipping", "status", "thumbnail_url", "gallery", "description", "keywords",
                                    "tags", "is_recommended", "recommendation_reason", "created_at", "updated_at"}

  function Texts(xs: seq<string>): (v: Value)
    ensures v.VList? && |v.elems| == |xs| && forall i :: 0 <= i < |xs| ==> v.elems[i] == VStr(xs[i])
  {
    VList(seq(|xs|, i requires 0 <= i < |xs| => VStr(xs[i])))
  }

  /** One field of `{**item, "product_id": ..., "created_at": now, "updated_at": now}`:
      the item's own values, unchanged. */
  function SeedField(item: Schemas.ProductCreateRequest, productId: string, now: int, k: string): Value {
    if k == "product_id" then VStr(productId)
    else if k == "title" then VStr(item.title)
    else if k == "subtitle" then Admin.OptText(item.subtitle)
    else if k == "price" then VInt(item.price)
    else if k == "sale_price" then (match item.salePrice case None => VNull case Some(p) => VInt(p))
    else if k == "stock" then VInt(item.stock)
    else if k == "category" then Admin.OptText(item.category)
    else if k == "shipping" then Admin.OptText(item.shipping)
    else if k == "status" then VStr(item.status)
    else if k == "thumbnail_url" then VStr(item.thumbnailUrl)
    else if k == "gallery" then Texts(item.gallery)
    else if k == "description" then VStr(item.description)
    else if k == "keywords" then Texts(item.keywords)
    else if k == "tags" then Texts(item.tags)
    else if k == "is_recommended" then VBool(item.isRecommended)
    else if k == "recommendation_reason" then Admin.OptText(item.recommendationReason)
    else VInt(now)
  }

  lemma SeedFieldValues(item: Schemas.ProductCreateRequest, productId: string, now: int)
    ensures SeedField(item, productId, now, "product_id") == VStr(productId)
    ensures SeedField(item, productId, now, "title") == VStr(item.title)
    ensures SeedField(item, productId, now, "created_at") == VInt(now)
    ensures SeedField(item, productId, now, "updated_at") == VInt(now)
    ensures SeedField(item, productId, now, "is_recommended") == VBool(item.isRecommended)
  {
  }

  lemma SampleKeysListed()
    ensures "product_id" in SampleKeys && "title" in SampleKeys && "created_at" in SampleKeys
    ensures "updated_at" in SampleKeys && "is_recommended" in SampleKeys
  {
  }

  /** The document seeded for one sample item. */
  function SampleDocument(item: Schemas.ProductCreateRequest, productId: string, now: int): (d: Doc)
    ensures d.Keys == SampleKeys && Catalog.Indexable(d) && "created_at" in d && "updated_at" in d
    ensures d["product_id"] == VStr(productId) && d["title"] == VStr(item.title)
    ensures d["created_at"] == VInt(now) && d["updated_at"] == VInt(now)
    ensures Catalog.IsRecommended(d) <==> item.isRecommended
  {
    SampleKeysListed();
    SeedFieldValues(item, productId, now);
    map k | k in SampleKeys :: SeedField(item, productId, now, k)
  }

  /** The payload of `insert_many`: one document per item, in order, the
      i-th under the i-th fresh uuid. */
  function SeedDocuments(items: seq<Schemas.ProductCreateRequest>, uuids: seq<string>, now: int): (r: seq<Doc>)
    requires |uuids| == |items|
    ensures |r| == |items| && Catalog.AllIndexable(r)
    ensures forall i :: 0 <= i < |r| ==> r[i] == SampleDocument(items[i], uuids[i], now)
    ensures forall i :: 0 <= i < |r| ==>
      (Catalog.HasId(r[i], VStr(uuids[i])) && "created_at" in r[i] && "updated_at" in r[i]
       && r[i]["created_at"] == r[i]["updated_at"])
  {
    seq(|items|, i requires 0 <= i < |items| => SampleDocument(items[i], uuids[i], now))
  }

  /** The payload grows by one document per item. */
  lemma SeedDocumentsStep(items: seq<Schemas.ProductCreateRequest>, uuids: seq<string>, now: int, i: nat)
    requires |uuids| == |items| && i < |items|
    ensures SeedDocuments(items[..i + 1], uuids[..i + 1], now)
            == SeedDocuments(items[..i], uuids[..i], now) + [SampleDocument(items[i], uuids[i], now)]
  {
    var a := SeedDocuments(items[..i + 1], uuids[..i + 1], now);
    var b := SeedDocuments(items[..i], uuids[..i], now);
    var c := b + [SampleDocument(items[i], uuids[i], now)];
    forall k | 0 <= k < |a|
      ensures a[k] == c[k]
    {
      if k < i {
        assert items[..i + 1][k] == items[..i][k] && uuids[..i + 1][k] == uuids[..i][k];
      }
    }
  }

  /** `ensure_seed_products`: nothing when the catalogue holds any product,
      otherwise the sample documents, stamped with one utcnow(). */
  method EnsureSeedProducts(products: Catalog.ProductsCollection, uuids: seq<string>, now: int)
    requires products.Valid() && |uuids| == |SampleProducts|
    modifies products
    ensures products.Valid()
    ensures old(products.docs) != [] ==> products.docs == old(products.docs)
    ensures old(products.docs) == [] ==> products.docs == SeedDocuments(SampleProducts, uuids, now)
  {
    var count := products.CountDocuments();
    if count != 0 {
      return;
    }
    var payload: seq<Doc> := [];
    var i := 0;
    while i < |SampleProducts|
      invariant 0 <= i <= |SampleProducts|
      invariant payload == SeedDocuments(SampleProducts[..i], uuids[..i], now)
      invariant products.Valid() && products.docs == old(products.docs) == []
    {
      SeedDocumentsStep(SampleProducts, uuids, now, i);
      payload := payload + [SampleDocument(SampleProducts[i], uuids[i], now)];
      i := i + 1;
    }
    assert SampleProducts[..i] == SampleProducts && uuids[..i] == uuids;
    if payload != [] {
      products.InsertMany(payload);
    }
  }

  /** The seeded catalogue holds exactly the three recommended samples and the
      one that is not. */
  lemma SeededRecommendation(uuids: seq<string>, now: int)
    requires |uuids| == |SampleProducts|
    ensures var docs := SeedDocuments(SampleProducts, uuids, now);
            && |SampleProducts| == 4
            && (forall i :: 0 <= i < 3 ==> Catalog.IsRecommended(docs[i]))
            && !Catalog.IsRecommended(docs[3])
  {
    var docs := SeedDocuments(SampleProducts, uuids, now);
    assert docs[3] == SampleDocument(SampleProducts[3], uuids[3], now);
  }
}
