/** Request and response bodies (backend/app/schemas.py) and the field
    constraints pydantic enforces before a handler runs.  A body that breaks a
    constraint is answered with 422 and never reaches the handler. */
module Schemas {
  import opened Values
  import Text
  import Http

  const MinPasswordLength: nat := 6

  datatype LoginRequest = LoginRequest(username: string, password: string)

  datatype RegisterRequest = RegisterRequest(email: string, password: string, fullName: Option<string> := None)

  datatype TokenResponse = TokenResponse(accessToken: string, tokenType: string := "bearer",
                                         userId: string, email: string, role: string)

  datatype RegisterResponse = RegisterResponse(message: string, email: string, userId: string,
                                               fullName: Option<string>, role: string)

  datatype AdminActionResponse = AdminActionResponse(status: string, message: string, data: Option<Doc>)

  /** `password: str = Field(..., min_length=6)`, shared by the login and the
      register body: the body unchanged, or 422. */
  function ValidatePassword<T>(body: T, password: string): (r: Result<T, Http.Failure>)
    ensures r.Ok? <==> |password| >= MinPasswordLength
    ensures r.Ok? ==> r.value == body
    ensures r.Err? ==> r.error.Status() == Http.UnprocessableEntity
  {
    if |password| < MinPasswordLength then Err(Http.Unprocessable("password")) else Ok(body)
  }

  function ValidateLogin(p: LoginRequest): Result<LoginRequest, Http.Failure> {
    ValidatePassword(p, p.password)
  }

  function ValidateRegister(p: RegisterRequest): Result<RegisterRequest, Http.Failure> {
    ValidatePassword(p, p.password)
  }

  /** The product body; the URL fields are kept as the text given. */
  datatype ProductCreateRequest = ProductCreateRequest(
    title: string,
    subtitle: Option<string> := None,
    sku: Option<string> := None,
    barcode: Option<string> := None,
    price: int,
    salePrice: Option<int> := None,
    stock: int,
    category: Option<string> := None,
    shipping: Option<string> := None,
    status: string := "published",
    thumbnailUrl: string,
    gallery: seq<string> := [],
    description: string,
    keywords: seq<string> := [],
    tags: seq<string> := [],
    isRecommended: bool := false,
    recommendationReason: Option<string> := None)

  function StripOpt(s: Option<string>): Option<string> {
    match s case None => None case Some(t) => Some(Text.Strip(t))
  }

  function StripAll(s: seq<string>): (r: seq<string>)
    ensures |r| == |s| && forall i :: 0 <= i < |s| ==> r[i] == Text.Strip(s[i])
  {
    seq(|s|, i requires 0 <= i < |s| => Text.Strip(s[i]))
  }

  /** `constr(strip_whitespace=True, ...)` strips before the length check. */
  function StripFields(p: ProductCreateRequest): ProductCreateRequest {
    p.(subtitle := StripOpt(p.subtitle), sku := StripOpt(p.sku), barcode := StripOpt(p.barcode),
       category := StripOpt(p.category), shipping := StripOpt(p.shipping), status := Text.Strip(p.status),
       keywords := StripAll(p.keywords), tags := StripAll(p.tags),
       recommendationReason := StripOpt(p.recommendationReason))
  }

  predicate AtMost(s: Option<string>, n: nat) {
    s.None? || |s.value| <= n
  }

  predicate AllAtMost(s: seq<string>, n: nat) {
    forall i :: 0 <= i < |s| ==> |s[i]| <= n
  }

  /** Every bound of ProductCreateRequest. */
  predicate ProductBounds(p: ProductCreateRequest) {
    && 1 <= |p.title| <= 120
    && AtMost(p.subtitle, 160) && AtMost(p.sku, 60) && AtMost(p.barcode, 80)
    && p.price >= 1
    && (p.salePrice.None? || p.salePrice.value >= 1)
    && p.stock >= 0
    && AtMost(p.category, 60) && AtMost(p.shipping, 60)
    && |p.status| <= 40
    && |p.description| >= 10
    && AllAtMost(p.keywords, 40) && AllAtMost(p.tags, 30)
    && AtMost(p.recommendationReason, 200)
  }

  predicate OptStripped(s: Option<string>) {
    s.None? || Text.NoOuterSpace(s.value)
  }

  predicate AllStripped(s: seq<string>) {
    forall i :: 0 <= i < |s| ==> Text.NoOuterSpace(s[i])
  }

  /** The fields declared with strip_whitespace carry no outer whitespace. */
  predicate Stripped(p: ProductCreateRequest) {
    && OptStripped(p.subtitle) && OptStripped(p.sku) && OptStripped(p.barcode)
    && OptStripped(p.category) && OptStripped(p.shipping) && Text.NoOuterSpace(p.status)
    && AllStripped(p.keywords) && AllStripped(p.tags) && OptStripped(p.recommendationReason)
  }

  /** What the handler receives for a product body: the stripped request when
      it meets every bound, 422 otherwise. */
  function ValidateProductCreate(raw: ProductCreateRequest): (r: Result<ProductCreateRequest, Http.Failure>)
    ensures r.Ok? <==> ProductBounds(StripFields(raw))
    ensures r.Ok? ==> r.value == StripFields(raw)
    ensures r.Ok? ==> ProductBounds(r.value) && Stripped(r.value)
    ensures r.Ok? ==> r.value.title == raw.title && r.value.price == raw.price && r.value.description == raw.description
    ensures r.Err? ==> r.error.Status() == Http.UnprocessableEntity
  {
    var p := StripFields(raw);
    if ProductBounds(p) then Ok(p) else Err(Http.Unprocessable("body"))
  }

  lemma StripOptIdempotent(s: Option<string>)
    ensures StripOpt(StripOpt(s)) == StripOpt(s)
  {
    if s.Some? {
      Text.StripIdempotent(s.value);
    }
  }

  lemma StripAllIdempotent(s: seq<string>)
    ensures StripAll(StripAll(s)) == StripAll(s)
  {
    forall i | 0 <= i < |s| {
      Text.StripIdempotent(s[i]);
    }
  }

  /** A validated body validates again to itself. */
  lemma ValidateProductIdempotent(raw: ProductCreateRequest)
    requires ValidateProductCreate(raw).Ok?
    ensures ValidateProductCreate(ValidateProductCreate(raw).value) == ValidateProductCreate(raw)
  {
    var p := StripFields(raw);
    StripOptIdempotent(raw.subtitle);
    StripOptIdempotent(raw.sku);
    StripOptIdempotent(raw.barcode);
    StripOptIdempotent(raw.category);
    StripOptIdempotent(raw.shipping);
    StripOptIdempotent(raw.recommendationReason);
    StripAllIdempotent(raw.keywords);
    StripAllIdempotent(raw.tags);
    Text.StripIdempotent(raw.status);
    assert StripFields(p) == p;
  }

  /** `CartItem`: the product summary the client sends is ignored on input. */
  datatype CartItem = CartItem(productId: string, quantity: int, product: Option<Doc> := None)

  /** `quantity: int = Field(..., ge=1)` for every item of a CartUpdateRequest. */
  function ValidateCartUpdate(items: seq<CartItem>): (r: Result<seq<CartItem>, Http.Failure>)
    ensures r.Ok? <==> forall i :: 0 <= i < |items| ==> items[i].quantity >= 1
    ensures r.Ok? ==> r.value == items
    ensures r.Err? ==> r.error.Status() == Http.UnprocessableEntity
  {
    if forall i :: 0 <= i < |items| ==> items[i].quantity >= 1 then Ok(items)
    else Err(Http.Unprocessable("items"))
  }

  datatype ReviewCreateRequest = ReviewCreateRequest(rating: int, content: string)

  datatype ReviewResponse = ReviewResponse(reviewId: int, productId: string, rating: int, content: string, createdAt: int)

  /** `rating` in 1..5, `content` of 10 to 1000 characters. */
  function ValidateReview(p: ReviewCreateRequest): (r: Result<ReviewCreateRequest, Http.Failure>)
    ensures r.Ok? <==> 1 <= p.rating <= 5 && 10 <= |p.content| <= 1000
    ensures r.Ok? ==> r.value == p
    ensures r.Err? ==> r.error.Status() == Http.UnprocessableEntity
  {
    if !(1 <= p.rating <= 5) then Err(Http.Unprocessable("rating"))
    else if !(10 <= |p.content| <= 1000) then Err(Http.Unprocessable("content"))
    else Ok(p)
  }
}
