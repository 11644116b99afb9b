/** The admin router (backend/app/routers/admin.py): the bearer-token gate
    header -> token -> claims -> admitted or forbidden, and product creation
    with its checks and the normalisation of the stored document. */
module Admin {
  import opened Values
  import Text
  import Http
  import Security
  import Schemas
  import Catalog
  import Seqs

  const ValidProductStatuses: set<string> := {"published", "draft", "out_of_stock"}

  /** The HTTPException details.  The Korean texts of the source file are
      stored mis-encoded, so the model names each one instead. */
  const AuthorizationMissing: string := "authorization header is missing"
  const BearerRequired: string := "bearer token is required"
  const TokenRejected: string := "token could not be verified"
  const AdminRequired: string := "admin role is required"
  const SalePriceNotBelowPrice: string := "sale price must be lower than price"
  const UnknownStatus: string := "unknown product status"
  const ProductCreated: string := "product created"

  // ------------------------------------------------------------- the gate

  /** `s.partition(" ")`: the text before the first space and the text after
      it, or the whole text and "" when there is no space. */
  function Partition(s: string): (r: (string, string))
    ensures ' ' !in r.0
    ensures ' ' !in s ==> r == (s, "")
    ensures ' ' in s ==> s == r.0 + " " + r.1
  {
    var i := Text.Find(s, ' ');
    if i == -1 then (s, "")
    else
      assert s == s[..i] + " " + s[i + 1..];
      (s[..i], s[i + 1..])
  }

  /** The first space separates a scheme without spaces from the rest. */
  lemma PartitionAt(scheme: string, rest: string)
    requires ' ' !in scheme
    ensures Partition(scheme + " " + rest) == (scheme, rest)
  {
    Text.FindAfter(scheme, ' ', rest);
    var s := scheme + " " + rest;
    assert s[..|scheme|] == scheme && s[|scheme| + 1..] == rest;
  }

  /** `_extract_token`. */
  function ExtractToken(authorization: Option<string>): (r: Result<string, Http.Failure>)
    ensures authorization.None? || authorization.value == "" ==>
      r == Err(Http.HttpError(Http.Unauthorized, AuthorizationMissing))
    ensures r.Ok? <==>
      && authorization.Some? && authorization.value != ""
      && Text.Lower(Partition(authorization.value).0) == "bearer"
      && Partition(authorization.value).1 != ""
    ensures r.Ok? ==> r.value == Text.Strip(Partition(authorization.value).1)
    ensures r.Err? ==> r.error.HttpError? && r.error.status == Http.Unauthorized
  {
    if authorization.None? || authorization.value == "" then
      Err(Http.HttpError(Http.Unauthorized, AuthorizationMissing))
    else
      var (scheme, token) := Partition(authorization.value);
      if Text.Lower(scheme) != "bearer" || token == "" then Err(Http.HttpError(Http.Unauthorized, BearerRequired))
      else Ok(Text.Strip(token))
  }

  /** A header of a bearer scheme in any case, one space and a token yields
      the token, stripped. */
  lemma BearerHeader(scheme: string, token: string)
    requires ' ' !in scheme && Text.Lower(scheme) == "bearer" && token != ""
    ensures ExtractToken(Some(scheme + " " + token)) == Ok(Text.Strip(token))
  {
    PartitionAt(scheme, token);
  }

  /** Another scheme, or no token part, is refused with 401. */
  lemma NotBearerRefused(scheme: string, token: string)
    requires ' ' !in scheme && Text.Lower(scheme) != "bearer"
    ensures ExtractToken(Some(scheme + " " + token)) == Err(Http.HttpError(Http.Unauthorized, BearerRequired))
    ensures ExtractToken(Some("Bearer")) == Err(Http.HttpError(Http.Unauthorized, BearerRequired))
  {
    PartitionAt(scheme, token);
    assert Partition("Bearer") == ("Bearer", "") by {
      assert "Bearer"[0] == 'B' && "Bearer"[1] == 'e' && "Bearer"[2] == 'a';
      assert "Bearer"[3] == 'r' && "Bearer"[4] == 'e' && "Bearer"[5] == 'r';
    }
  }

  /** "Bearer" is a scheme without spaces that lower-cases to "bearer". */
  lemma BearerScheme()
    ensures ' ' !in "Bearer" && Text.Lower("Bearer") == "bearer"
  {
    var l := Text.Lower("Bearer");
    assert l[0] == 'b' && l[1] == 'e' && l[2] == 'a' && l[3] == 'r' && l[4] == 'e' && l[5] == 'r';
  }

  /** The role the gate checks: `str(payload.get("role", "")).lower()`. */
  function GateRole(payload: Security.Claims): (role: string)
    ensures "role" !in payload ==> role == ""
    ensures "role" in payload && payload["role"].VStr? ==> role == Text.Lower(payload["role"].s)
  {
    Text.Lower(PyStr(Get(payload, "role", VStr(""))))
  }

  /** `require_admin` at time `now`: 401 when the token cannot be extracted
      or decoded, 403 unless the role is "admin", the payload otherwise. */
  function RequireAdmin(jwt: Security.Jwt, cfg: Security.Config, authorization: Option<string>, now: int)
      : (r: Result<Security.Claims, Http.Failure>)
    ensures r.Err? ==> r.error.HttpError? && (r.error.status == Http.Unauthorized || r.error.status == Http.Forbidden)
    ensures r.Err? && r.error.status == Http.Forbidden <==>
      && ExtractToken(authorization).Ok?
      && Security.DecodeAccessToken(jwt, cfg, ExtractToken(authorization).value, now).Ok?
      && GateRole(Security.DecodeAccessToken(jwt, cfg, ExtractToken(authorization).value, now).value) != "admin"
    ensures r.Ok? ==>
      && ExtractToken(authorization).Ok?
      && Security.DecodeAccessToken(jwt, cfg, ExtractToken(authorization).value, now) == Ok(r.value)
      && GateRole(r.value) == "admin"
  {
    match ExtractToken(authorization)
    case Err(e) => Err(e)
    case Ok(token) =>
      match Security.DecodeAccessToken(jwt, cfg, token, now)
      case Err(_) => Err(Http.HttpError(Http.Unauthorized, TokenRejected))
      case Ok(payload) =>
        if GateRole(payload) != "admin" then Err(Http.HttpError(Http.Forbidden, AdminRequired))
        else Ok(payload)
  }

  /** "Bearer" followed only by spaces gets past extraction as the empty token,
      which decoding then refuses. */
  lemma BlankBearerRefused(jwt: Security.Jwt, cfg: Security.Config, spaces: string, now: int)
    requires spaces != [] && forall i :: 0 <= i < |spaces| ==> spaces[i] == ' '
    ensures ExtractToken(Some("Bearer " + spaces)) == Ok("")
    ensures RequireAdmin(jwt, cfg, Some("Bearer " + spaces), now) == Err(Http.HttpError(Http.Unauthorized, TokenRejected))
  {
    BearerScheme();
    assert "Bearer " + spaces == "Bearer" + " " + spaces;
    BearerHeader("Bearer", spaces);
    BlankStrips(spaces);
    assert Security.DecodeAccessToken(jwt, cfg, "", now).Err?;
  }

  lemma {:induction false} BlankStrips(spaces: string)
    requires forall i :: 0 <= i < |spaces| ==> spaces[i] == ' '
    ensures Text.Strip(spaces) == ""
  {
    if spaces != [] {
      BlankStrips(spaces[1..]);
      assert spaces == [spaces[0]] + spaces[1..];
      Text.StripLeadingSpace(spaces[0], spaces[1..]);
    }
  }

  /** The header a client sends with a token. */
  function BearerOf(token: string): string {
    "Bearer " + token
  }

  /** A token issued for a role that lower-cases to "admin" passes the gate
      with its claims until it expires. */
  lemma AdminTokenAdmitted(jwt: Security.Jwt, cfg: Security.Config, userId: string, email: string, role: string,
                           expiresDelta: Option<int>, nowMicros: int, later: int)
    requires Security.SoundJwt(jwt) && userId != "" && Text.Lower(role) == "admin"
    ensures var c := Security.AccessClaims(userId, email, role, nowMicros, Security.ExpiresDelta(cfg, expiresDelta));
            var t := Security.GenerateAccessToken(jwt, cfg, userId, email, role, expiresDelta, nowMicros).value;
            later < c["exp"].i ==> RequireAdmin(jwt, cfg, Some(BearerOf(t)), later) == Ok(c)
  {
    GateOnIssued(jwt, cfg, userId, email, role, expiresDelta, nowMicros, later);
  }

  /** A token issued for any other role is forbidden while it is valid, and
      any expired token is unauthorised. */
  lemma OtherTokensRefused(jwt: Security.Jwt, cfg: Security.Config, userId: string, email: string, role: string,
                           expiresDelta: Option<int>, nowMicros: int, later: int)
    requires Security.SoundJwt(jwt) && userId != ""
    ensures var c := Security.AccessClaims(userId, email, role, nowMicros, Security.ExpiresDelta(cfg, expiresDelta));
            var t := Security.GenerateAccessToken(jwt, cfg, userId, email, role, expiresDelta, nowMicros).value;
            && (later < c["exp"].i && Text.Lower(role) != "admin" ==>
                  RequireAdmin(jwt, cfg, Some(BearerOf(t)), later) == Err(Http.HttpError(Http.Forbidden, AdminRequired)))
            && (c["exp"].i <= later ==>
                  RequireAdmin(jwt, cfg, Some(BearerOf(t)), later) == Err(Http.HttpError(Http.Unauthorized, TokenRejected)))
  {
    GateOnIssued(jwt, cfg, userId, email, role, expiresDelta, nowMicros, later);
  }

  /** What the gate makes of an issued token: the decode of the token itself
      and the lower-cased role. */
  lemma GateOnIssued(jwt: Security.Jwt, cfg: Security.Config, userId: string, email: string, role: string,
                     expiresDelta: Option<int>, nowMicros: int, later: int)
    requires Security.SoundJwt(jwt) && userId != ""
    ensures var c := Security.AccessClaims(userId, email, role, nowMicros, Security.ExpiresDelta(cfg, expiresDelta));
            var t := Security.GenerateAccessToken(jwt, cfg, userId, email, role, expiresDelta, nowMicros).value;
            && ExtractToken(Some(BearerOf(t))) == Ok(t)
            && GateRole(c) == Text.Lower(role)
            && Security.DecodeAccessToken(jwt, cfg, t, later) ==
                 (if later < c["exp"].i then Ok(c) else Err(Security.TokenDecodeError(Security.TokenInvalid)))
  {
    var c := Security.AccessClaims(userId, email, role, nowMicros, Security.ExpiresDelta(cfg, expiresDelta));
    Security.IssueThenDecode(jwt, cfg, userId, email, role, expiresDelta, nowMicros, later);
    var t := Security.GenerateAccessToken(jwt, cfg, userId, email, role, expiresDelta, nowMicros).value;
    assert t == jwt.encode(c, cfg.secretKey, cfg.algorithm);
    assert t != "" && Text.NoOuterSpace(t);
    BearerScheme();
    assert BearerOf(t) == "Bearer" + " " + t;
    BearerHeader("Bearer", t);
    Text.StripNoOuterSpace(t);
    Text.LowerIdempotent(role);
  }

  // ------------------------------------------------------- product creation

  /** The checks of `create_product` after the gate and body validation:
      400 for a truthy sale price not below the price, 400 for a status
      outside the three known ones. */
  function CheckProduct(jwt: Security.Jwt, cfg: Security.Config, authorization: Option<string>, now: int,
                        raw: Schemas.ProductCreateRequest): (r: Result<Schemas.ProductCreateRequest, Http.Failure>)
    ensures RequireAdmin(jwt, cfg, authorization, now).Err? ==> r == Err(RequireAdmin(jwt, cfg, authorization, now).error)
    ensures RequireAdmin(jwt, cfg, authorization, now).Ok? && Schemas.ValidateProductCreate(raw).Err? ==>
      r.Err? && r.error.Status() == Http.UnprocessableEntity
    ensures r.Ok? <==>
      && RequireAdmin(jwt, cfg, authorization, now).Ok?
      && Schemas.ValidateProductCreate(raw).Ok?
      && !SaleNotBelowPrice(Schemas.ValidateProductCreate(raw).value)
      && Schemas.ValidateProductCreate(raw).value.status in ValidProductStatuses
    ensures r.Ok? ==> r.value == Schemas.ValidateProductCreate(raw).value
    ensures r.Err? && r.error.Status() == Http.BadRequest ==>
      r.error in {Http.HttpError(Http.BadRequest, SalePriceNotBelowPrice), Http.HttpError(Http.BadRequest, UnknownStatus)}
  {
    match RequireAdmin(jwt, cfg, authorization, now)
    case Err(e) => Err(e)
    case Ok(_) =>
      match Schemas.ValidateProductCreate(raw)
      case Err(e) => Err(e)
      case Ok(p) =>
        if SaleNotBelowPrice(p) then Err(Http.HttpError(Http.BadRequest, SalePriceNotBelowPrice))
        else if p.status !in ValidProductStatuses then Err(Http.HttpError(Http.BadRequest, UnknownStatus))
        else Ok(p)
  }

  /** `payload.sale_price and payload.sale_price >= payload.price`. */
  predicate SaleNotBelowPrice(p: Schemas.ProductCreateRequest) {
    p.salePrice.Some? && p.salePrice.value != 0 && p.salePrice.value >= p.price
  }

  /** `x or None` for an optional text. */
  function TextOrNone(s: Option<string>): (r: Value)
    ensures r == VNull || (r.VStr? && r.s != "" && s == Some(r.s))
    ensures s.Some? && s.value != "" ==> r == VStr(s.value)
  {
    if s.Some? && s.value != "" then VStr(s.value) else VNull
  }

  function OptText(s: Option<string>): Value {
    match s
    case None => VNull
    case Some(t) => VStr(t)
  }

  predicate NonEmpty(x: string) { x != "" }

  /** `[x for x in xs if x]` of a list of texts, as a stored list: the
      non-empty texts of xs, in their order and with their repeats. */
  function NonEmptyTexts(xs: seq<string>): (r: Value)
    ensures r.VList? && |r.elems| <= |xs|
    ensures forall v :: v in r.elems ==> v.VStr? && v.s != "" && v.s in xs
    ensures forall x :: x in xs && x != "" ==> VStr(x) in r.elems
  {
    var kept := Seqs.Filter(NonEmpty, xs);
    var elems := seq(|kept|, i requires 0 <= i < |kept| => VStr(kept[i]));
    assert forall v :: v in elems ==> v.VStr? && v.s in kept by {
      forall v | v in elems ensures v.VStr? && v.s in kept {
        var i :| 0 <= i < |elems| && elems[i] == v;
      }
    }
    assert forall x :: x in kept ==> VStr(x) in elems by {
      forall x | x in kept ensures VStr(x) in elems {
        var i :| 0 <= i < |kept| && kept[i] == x;
        assert elems[i] == VStr(x);
      }
    }
    VList(elems)
  }

  /** NonEmptyTexts keeps the non-empty texts of xs in their order and with
      their repeats: the i-th stored text is the i-th that passes the filter. */
  lemma NonEmptyTextsInOrder(xs: seq<string>)
    ensures |NonEmptyTexts(xs).elems| == |Seqs.Filter(NonEmpty, xs)|
    ensures forall i :: 0 <= i < |NonEmptyTexts(xs).elems| ==>
      NonEmptyTexts(xs).elems[i] == VStr(Seqs.Filter(NonEmpty, xs)[i])
  {
  }

  const StoredKeys: set<string> := {"product_id", "title", "subtitle", "sku", "barcode", "price", "sale_price",
                                    "stock", "category", "shipping", "status", "thumbnail_url", "gallery",
                                    "description", "keywords", "tags", "is_recommended",
                                    "recommendation_reason", "created_at", "updated_at"}

  /** One field of the stored product: `payload.dict()` after the
      `product.update(...)` of create_product. */
  function StoredField(p: Schemas.ProductCreateRequest, productId: string, now: int, k: string): Value {
    if k == "product_id" then VStr(productId)
    else if k == "title" then VStr(p.title)
    else if k == "subtitle" then OptText(p.subtitle)
    else if k == "sku" then TextOrNone(p.sku)
    else if k == "barcode" then TextOrNone(p.barcode)
    else if k == "price" then VInt(p.price)
    else if k == "sale_price" then (if p.salePrice.Some? && p.salePrice.value != 0 then VInt(p.salePrice.value) else VNull)
    else if k == "stock" then VInt(p.stock)
    else if k == "category" then OptText(p.category)
    else if k == "shipping" then OptText(p.shipping)
    else if k == "status" then VStr(p.status)
    else if k == "thumbnail_url" then VStr(p.thumbnailUrl)
    else if k == "gallery" then NonEmptyTexts(p.gallery)
    else if k == "description" then VStr(p.description)
    else if k == "keywords" then NonEmptyTexts(p.keywords)
    else if k == "tags" then NonEmptyTexts(p.tags)
    else if k == "is_recommended" then VBool(p.isRecommended)
    else if k == "recommendation_reason" then TextOrNone(p.recommendationReason)
    else VInt(now)
  }

  /** The document create_product inserts. */
  function ProductDocument(p: Schemas.ProductCreateRequest, productId: string, now: int): (d: Doc)
    ensures d.Keys == StoredKeys && Catalog.Indexable(d)
    ensures d["product_id"] == VStr(productId) && d["title"] == VStr(p.title)
    ensures d["created_at"] == VInt(now) && d["updated_at"] == VInt(now)
    ensures d["tags"] == NonEmptyTexts(p.tags) && d["keywords"] == NonEmptyTexts(p.keywords)
    ensures d["sku"] == TextOrNone(p.sku) && d["barcode"] == TextOrNone(p.barcode)
    ensures d["recommendation_reason"] == TextOrNone(p.recommendationReason)
    ensures d["sale_price"] == VNull || (p.salePrice.Some? && p.salePrice.value != 0 && d["sale_price"] == VInt(p.salePrice.value))
  {
    StoredKeysListed();
    StoredFieldValues(p, productId, now);
    map k | k in StoredKeys :: StoredField(p, productId, now, k)
  }

  lemma StoredKeysListed()
    ensures "product_id" in StoredKeys && "title" in StoredKeys && "created_at" in StoredKeys
    ensures "updated_at" in StoredKeys && "tags" in StoredKeys && "keywords" in StoredKeys
    ensures "sku" in StoredKeys && "barcode" in StoredKeys && "recommendation_reason" in StoredKeys
    ensures "sale_price" in StoredKeys
  {
  }

  lemma StoredFieldValues(p: Schemas.ProductCreateRequest, productId: string, now: int)
    ensures StoredField(p, productId, now, "product_id") == VStr(productId)
    ensures StoredField(p, productId, now, "title") == VStr(p.title)
    ensures StoredField(p, productId, now, "created_at") == VInt(now)
    ensures StoredField(p, productId, now, "updated_at") == VInt(now)
    ensures StoredField(p, productId, now, "tags") == NonEmptyTexts(p.tags)
    ensures StoredField(p, productId, now, "keywords") == NonEmptyTexts(p.keywords)
    ensures StoredField(p, productId, now, "sku") == TextOrNone(p.sku)
    ensures StoredField(p, productId, now, "barcode") == TextOrNone(p.barcode)
    ensures StoredField(p, productId, now, "recommendation_reason") == TextOrNone(p.recommendationReason)
    ensures StoredField(p, productId, now, "sale_price") ==
      if p.salePrice.Some? && p.salePrice.value != 0 then VInt(p.salePrice.value) else VNull
  {
    StoredIdentityFields(p, productId, now);
    StoredListFields(p, productId, now);
    StoredOptionalFields(p, productId, now);
  }

  lemma StoredIdentityFields(p: Schemas.ProductCreateRequest, productId: string, now: int)
    ensures StoredField(p, productId, now, "product_id") == VStr(productId)
    ensures StoredField(p, productId, now, "title") == VStr(p.title)
    ensures StoredField(p, productId, now, "created_at") == VInt(now)
    ensures StoredField(p, productId, now, "updated_at") == VInt(now)
  {
  }

  lemma StoredListFields(p: Schemas.ProductCreateRequest, productId: string, now: int)
    ensures StoredField(p, productId, now, "tags") == NonEmptyTexts(p.tags)
    ensures StoredField(p, productId, now, "keywords") == NonEmptyTexts(p.keywords)
  {
  }

  lemma StoredOptionalFields(p: Schemas.ProductCreateRequest, productId: string, now: int)
    ensures StoredField(p, productId, now, "sku") == TextOrNone(p.sku)
    ensures StoredField(p, productId, now, "barcode") == TextOrNone(p.barcode)
    ensures StoredField(p, productId, now, "recommendation_reason") == TextOrNone(p.recommendationReason)
    ensures StoredField(p, productId, now, "sale_price") ==
      if p.salePrice.Some? && p.salePrice.value != 0 then VInt(p.salePrice.value) else VNull
  {
  }

  function Created(productId: string): Schemas.AdminActionResponse {
    Schemas.AdminActionResponse("success", ProductCreated, Some(map["product_id" := VStr(productId)]))
  }

  /** POST /admin/products; `productId` is the fresh uuid4 and `createdAt`
      the single utcnow() of the handler. */
  method CreateProduct(products: Catalog.ProductsCollection, jwt: Security.Jwt, cfg: Security.Config,
                       authorization: Option<string>, now: int, raw: Schemas.ProductCreateRequest,
                       productId: string, createdAt: int)
      returns (r: Result<Schemas.AdminActionResponse, Http.Failure>)
    requires products.Valid()
    modifies products
    ensures products.Valid()
    ensures CheckProduct(jwt, cfg, authorization, now, raw).Err? ==>
      r == Err(CheckProduct(jwt, cfg, authorization, now, raw).error) && products.docs == old(products.docs)
    ensures CheckProduct(jwt, cfg, authorization, now, raw).Ok? ==>
      && r == Ok(Created(productId))
      && products.docs == old(products.docs) + [ProductDocument(CheckProduct(jwt, cfg, authorization, now, raw).value, productId, createdAt)]
  {
    var checked := CheckProduct(jwt, cfg, authorization, now, raw);
    if checked.Err? {
      return Err(checked.error);
    }
    products.InsertOne(ProductDocument(checked.value, productId, createdAt));
    r := Ok(Created(productId));
  }

  lemma {:induction false} FindAppended(docs: seq<Doc>, d: Doc, productId: Value)
    requires forall i :: 0 <= i < |docs| ==> !Catalog.HasId(docs[i], productId)
    requires Catalog.HasId(d, productId)
    ensures Catalog.FindProduct(docs + [d], productId) == Some(d)
  {
    if docs != [] {
      assert (docs + [d])[1..] == docs[1..] + [d];
      FindAppended(docs[1..], d, productId);
    }
  }

  /** A created product, under a product_id no other product has, reads back
      from GET /product/{product_id} with the fields it was stored with and
      created_at equal to updated_at. */
  lemma CreatedProductDetail(docs: seq<Doc>, p: Schemas.ProductCreateRequest, productId: string, now: int)
    requires Catalog.AllIndexable(docs)
    requires forall i :: 0 <= i < |docs| ==> !Catalog.HasId(docs[i], VStr(productId))
    ensures var d := ProductDocument(p, productId, now);
            var r := Catalog.GetProductDetail(docs + [d], productId);
            && r.Ok?
            && r.value.Keys <= d.Keys
            && (forall k :: k in r.value ==> r.value[k] == d[k])
            && r.value["created_at"] == r.value["updated_at"] == VInt(now)
  {
    var d := ProductDocument(p, productId, now);
    FindAppended(docs, d, VStr(productId));
    assert Catalog.AllIndexable(docs + [d]);
    DetailKeysStored();
  }

  lemma DetailKeysStored()
    ensures Catalog.SummaryKeys <= StoredKeys && Catalog.DetailOnlyKeys <= StoredKeys
  {
  }
}
