# SwiftCart shop core in Dafny

SwiftCart is a small online shop. It has a FastAPI backend over MongoDB and a
React frontend. This project models the logic of both and proves properties
about that model.

Backend:

- password hashing and access tokens (`Security`);
- login and registration over the users collection (`Auth`);
- the bearer-token admin gate and product creation (`Admin`);
- the catalogue, cart and review endpoints (`Catalog`);
- the field bounds of the request bodies (`Schemas`);
- the demo-data seeding of products (`Seed`) and accounts (`SeedUsers`).

Frontend:

- the login session kept in the browser's two storages (`Session`);
- the cart page with its plus/minus/remove handlers and summary (`CartPage`);
- the single-page shop's cart screen with its selection and checkout (`CartScreen`);
- the top-level cart and navigation state (`AppState`);
- the product list filters and orderings (`ProductList`);
- the admin inventory table (`AdminInventory`);
- the paginated recommendation feed (`ProductFeed`);
- the account page's order tallies, cards and search (`MyPage`).

Shared modules:

- `Values`: Option and Result, and Python/JSON dynamic values with `dict.get`, truthiness, `int()` and `str()`.
- `Text`: strip, lower-case, substring and whitespace removal.
- `Seqs`: filter, toggle, a stable sort and no-duplicates.
- `Base64`: the standard alphabet with padding, and its decoder.
- `Http`: how a handler fails (an HTTPException, a 422 from request validation, or an uncaught exception).

How the model stands in for things it does not execute:

- **Cryptography.** PBKDF2 is a function-typed parameter (`Security.Kdf`). PyJWT is a pair of functions (`Security.Jwt`). The ghost predicate `Security.SoundJwt` states what the library guarantees: a token it encoded decodes under the same key and algorithm until `exp`, and nothing else decodes.
- **Clocks, uuids, ObjectIds and salts** are parameters.
- **MongoDB collections** are classes holding a map or a sequence:
  - users are a map keyed by e-mail, which plays the part of the unique index;
  - products are a sequence in natural order;
  - carts are a map from user id to a cart document;
  - the module-level review list is a sequence field.
- **Stateful frontend pieces** are classes whose methods update their fields as the handlers do:
  - `Session.Browser` holds the two storages;
  - `AppState.App` holds the page, selected product, user and cart;
  - `CartScreen.Screen` holds the selection;
  - `ProductFeed.Feed` holds the hook state.

## Model

| member | source | states |
|---|---|---|
| Security.ParseDefaultMinutes | backend/app/security.py:22-27 | the built-in default "120" parses to 120 minutes |
| Security.LoadConfig | backend/app/security.py:17-27 | each setting falls back to its default when unset; the token lifetime is the parsed environment value, or 120 when that value is not an integer |
| Security.SplitHash | backend/app/security.py:51-54 | splitting at the first '$' gives None exactly when there is no '$'; otherwise the two parts rejoin to the input and the left part has no '$' |
| Security.SplitJoin | backend/app/security.py:43-54 | splitting `a + "$" + b` gives back a and b whenever a has no '$' |
| Security.EncodingHasNoDollar | backend/app/security.py:103-105 | no base64 encoding contains a '$' |
| Security.HashPassword | backend/app/security.py:34-43 | ValueError exactly for an empty password; otherwise the encoding splits into the base64 of the salt and the base64 of the derived digest |
| Security.VerifyPassword | backend/app/security.py:46-61 | false for an empty password, an empty hash or a hash without '$'; the only error is the base64 decoding error, which this function does not catch; true implies a non-empty password and a '$' in the hash |
| Security.VerifyHashedPassword | backend/app/security.py:34-61 | a non-empty password verifies against its own hash |
| Security.VerifyOtherPassword | backend/app/security.py:34-61 | another password verifies against a hash exactly when the derivation gives it the same digest under that salt |
| Security.HashDependsOnSalt | backend/app/security.py:39-43 | two different salts give two different encodings of the same password |
| Security.AccessClaims | backend/app/security.py:74-82 | the payload has exactly sub, email, role, iat and exp; sub is the user id; email and role are lower-cased; iat and exp are integers |
| Security.WholeSecondsDifference | backend/app/security.py:80-81 | for a whole-second lifetime, the difference of the truncated timestamps is that lifetime in seconds |
| Security.ClaimsLifetime | backend/app/security.py:71-82 | exp − iat equals the token lifetime in whole seconds |
| Security.ExpiresDelta | backend/app/security.py:71-72 | without an explicit lifetime the configured minutes are used; otherwise the given one |
| Security.GenerateAccessToken | backend/app/security.py:64-83 | ValueError exactly for an empty user id; otherwise the library's encoding of the claims, under the configured key and algorithm |
| Security.NormaliseClaims | backend/app/security.py:96-99 | the keys are kept; every claim other than role and email is unchanged; role and email are lower-cased when they are strings and unchanged otherwise |
| Security.DecodeAccessToken | backend/app/security.py:86-100 | an empty token and any token the library rejects (bad signature, expired) give TokenDecodeError; a decoded payload comes back normalised |
| Security.NormaliseIssuedClaims | backend/app/security.py:74-100 | normalising issued claims changes nothing |
| Security.IssueThenDecode | backend/app/security.py:64-100 | an issued token decodes to exactly its claims strictly before exp and is rejected from exp on |
| Security.ForeignTokenRejected | backend/app/security.py:86-94 | a token the library did not encode under the configured key and algorithm never decodes |
| Auth.UsersCollection.constructor | backend/app/routers/auth.py:28-110 | an empty users collection, keyed by address |
| Auth.UsersCollection.FindOne | backend/app/routers/auth.py:33-34 | the document stored under the address, or None |
| Auth.UsersCollection.InsertOne | backend/app/routers/auth.py:96-102 | inserts under the document's address unless that address is taken (the duplicate-key case), leaving the store unchanged then |
| Auth.UsersCollection.MarkLogin | backend/app/routers/auth.py:49-57 | only last_login_at and updated_at of the matched document change |
| Auth.NormaliseEmail | backend/app/routers/auth.py:24-25 | the result has no outer whitespace and is lower case |
| Auth.NormaliseEmailIdempotent | backend/app/routers/auth.py:24-25 | normalising twice equals normalising once |
| Auth.StoredRole | backend/app/routers/auth.py:43 | the stored role lower-cased, "user" when absent |
| Auth.LoggedIn | backend/app/routers/auth.py:49-57 | after a login only that address's document changes, and only in its two timestamps |
| Auth.Login | backend/app/routers/auth.py:28-64 | answers as the login function says; the store gets the login timestamps on success and is unchanged otherwise |
| Auth.LoginFailureIndistinguishable | backend/app/routers/auth.py:33-40 | an unknown address and a wrong password give the identical 401 |
| Auth.NoHashNoLogin | backend/app/routers/auth.py:36-40 | a document without a password hash never logs in |
| Auth.LoginSuccess | backend/app/routers/auth.py:42-64 | a success is for the normalised address, with the stored role (default "user") and user_id (default str(_id)), token type "bearer", a verifying password, and a token that decodes to exactly those claims until it expires |
| Auth.NewUser | backend/app/routers/auth.py:86-94 | the inserted document has role "user", the normalised address and the fresh uuid |
| Auth.Register | backend/app/routers/auth.py:67-110 | answers and changes the store as the registration function says, with a racing insert between the pre-check and the insert |
| Auth.RegisterOutcome | backend/app/routers/auth.py:67-110 | success exactly when the password has at least 6 characters and the normalised address is free at the pre-check and at the insert; a refusal leaves the store as the insert found it; a success adds the new document under that address and answers with role "user" |
| Auth.RegisterConflict | backend/app/routers/auth.py:77-102 | a taken address gives the same 409 detail from the pre-check and from the insert |
| Auth.RegisterSuccess | backend/app/routers/auth.py:85-110 | a success adds exactly one document, under the normalised address, leaves every other document as it was, stores role "user" and the fresh uuid, and keeps a hash that the password verifies against |
| Auth.NewUserRole | backend/app/routers/auth.py:86-94 | the new document is never an administrator |
| Auth.RegisterAddsNoAdmin | backend/app/routers/auth.py:86-102 | registration never adds an administrator, whatever the body holds |
| Auth.RegisterThenLogin | backend/app/routers/auth.py:28-110 | whoever registered logs in with the same password under any spelling that normalises to the same address |
| Auth.NormaliseIgnoresCaseAndSpace | backend/app/routers/auth.py:24-25 | upper case and leading whitespace do not change the normalised address |
| Auth.RespellingConflicts | backend/app/routers/auth.py:77-83 | once "User@Example.com" is registered, " user@example.com" conflicts with 409 |
| Admin.Partition | backend/app/routers/admin.py:27 | the part before the first space has no space; without a space the rest is empty; with one the parts rejoin around it |
| Admin.PartitionAt | backend/app/routers/admin.py:27 | a scheme without spaces, one space and any rest partition back into scheme and rest |
| Admin.ExtractToken | backend/app/routers/admin.py:21-33 | a missing or empty header gives 401; success exactly when the scheme lower-cases to "bearer" and a token part follows; the token is the stripped rest; every failure is a 401 |
| Admin.BearerHeader | backend/app/routers/admin.py:27-33 | a bearer scheme in any case, a space and a token yield the stripped token |
| Admin.NotBearerRefused | backend/app/routers/admin.py:28-32 | "Basic abc" style headers and a bare "Bearer" give 401 |
| Admin.BearerScheme | backend/app/routers/admin.py:28 | "Bearer" has no space and lower-cases to "bearer" |
| Admin.GateRole | backend/app/routers/admin.py:47 | a missing role counts as ""; a string role is lower-cased |
| Admin.RequireAdmin | backend/app/routers/admin.py:36-53 | every failure is 401 or 403; 403 exactly when the token decodes but its role is not "admin"; success returns the decoded payload |
| Admin.BlankBearerRefused | backend/app/routers/admin.py:28-45 | "Bearer" followed by spaces passes extraction as "" and is then refused with 401 |
| Admin.AdminTokenAdmitted | backend/app/routers/admin.py:36-53 | a token issued for a role that lower-cases to "admin" passes the gate until it expires |
| Admin.OtherTokensRefused | backend/app/routers/admin.py:39-52 | a token issued for any other role gets 403 while valid and 401 once expired |
| Admin.GateOnIssued | backend/app/routers/admin.py:36-53 | what the gate answers for an issued token, as a function of its role and of the time relative to exp |
| Admin.CheckProduct | backend/app/routers/admin.py:66-87 | the gate first, then body validation, then 400 when a truthy sale price is not below the price or the status is not published, draft or out_of_stock |
| Admin.TextOrNone | backend/app/routers/admin.py:89-107 | an empty or missing text becomes None; a non-empty one is kept |
| Admin.NonEmptyTexts | backend/app/routers/admin.py:89-107 | the stored list holds exactly the non-empty texts of the input, no more entries than the input has |
| Admin.NonEmptyTextsInOrder | backend/app/routers/admin.py:89-107 | the i-th stored text is the i-th non-empty text of the input, so order and repeats are kept |
| Admin.ProductDocument | backend/app/routers/admin.py:89-107 | the stored document has the fresh product_id, created_at equal to updated_at, tags and keywords without empty texts, and falsy sku, barcode, sale_price and recommendation_reason as None |
| Admin.StoredKeysListed | backend/app/routers/admin.py:89-107 | the stored document holds the identity, list and optional fields |
| Admin.StoredFieldValues | backend/app/routers/admin.py:89-107 | the value stored under each of those fields |
| Admin.CreateProduct | backend/app/routers/admin.py:66-115 | on any check failure nothing is inserted; otherwise exactly the product document is appended and the response carries its product_id |
| Admin.FindAppended | backend/app/routers/admin.py:109 | a product appended under a fresh id is the one found for that id |
| Admin.CreatedProductDetail | backend/app/routers/admin.py:89-115 | a created product reads back through the detail endpoint with the values stored for it |
| Admin.DetailKeysStored | backend/app/routers/admin.py:89-107 | every field the summary and detail mappers read is stored by create_product |
| Catalog.ProductsCollection.constructor | backend/app/routers/product.py:138-191 | an empty products collection |
| Catalog.ProductsCollection.CountDocuments | backend/app/seed.py:116 | the number of stored products |
| Catalog.ProductsCollection.InsertOne | backend/app/routers/admin.py:109 | appends one document |
| Catalog.ProductsCollection.InsertMany | backend/app/seed.py:131-132 | appends the documents in order |
| Catalog.ProductToSummary | backend/app/routers/product.py:37-51 | the summary keys, each copied when present and defaulted otherwise |
| Catalog.ProductToDetail | backend/app/routers/product.py:54-68 | the summary extended by the detail keys; status defaults to "published" and updated_at to created_at |
| Catalog.SummaryAndDetailKeysDisjoint | backend/app/routers/product.py:37-68 | the detail fields do not overwrite summary fields |
| Catalog.BareDocumentDefaults | backend/app/routers/product.py:37-68 | a document with only the indexed keys gets price 0, stock 0, tags [], is_recommended False, sale_price None, status "published" and updated_at = created_at |
| Catalog.FindProduct | backend/app/routers/product.py:185-187 | the first product with the id in natural order, or None when there is none |
| Catalog.GetProductDetail | backend/app/routers/product.py:178-191 | 404 exactly when no product has the id; otherwise the `_product_to_detail` mapping of the first document with that id |
| Catalog.Matching | backend/app/routers/product.py:150-154 | True keeps the products whose is_recommended is True; False keeps all others, a missing field included; None keeps all |
| Catalog.RecommendedPartition | backend/app/routers/product.py:150-154 | the True and False selections split the catalogue between them |
| Catalog.Newest | backend/app/routers/product.py:158-160 | a permutation of the products, newest created_at first, with a missing created_at last |
| Catalog.Window | backend/app/routers/product.py:161-162 | skip then limit: the `size` elements from `skip` on, or fewer at the end |
| Catalog.Summaries | backend/app/routers/product.py:163-165 | each summary of the window, in order |
| Catalog.Ordered | backend/app/routers/product.py:150-160 | a permutation of the matching products, newest first |
| Catalog.PageOf | backend/app/routers/product.py:156-175 | the page number and size are echoed; total is the number of ordered products; at most page_size items |
| Catalog.ListProducts | backend/app/routers/product.py:138-175 | 422 exactly for page < 1 or page_size outside 1..60; otherwise at most page_size items, and total is the number of matching products |
| Catalog.PageContents | backend/app/routers/product.py:156-167 | item i of the page is the summary of match skip + i; a page before the end is full and the last one holds the rest; has_more iff page·page_size < total |
| Catalog.RequireUser | backend/app/routers/product.py:71-78 | 401 for an absent or whitespace-only header; otherwise the stripped id |
| Catalog.CartsCollection.constructor | backend/app/routers/product.py:194-224 | an empty carts collection |
| Catalog.CartsCollection.ReplaceItems | backend/app/routers/product.py:216-223 | upserts the user's cart with the given entries and update time; no other cart changes |
| Catalog.Replaced | backend/app/routers/product.py:216-223 | the cart holds exactly the given entries and the update time; an existing cart keeps its user id and creation time, and a new one is created now |
| Catalog.CartProductSummary | backend/app/routers/product.py:81-95 | None without a product document; otherwise its cart summary |
| Catalog.ToCartItem | backend/app/routers/product.py:126-135 | a kept entry's item carries its id rendered with str() and its int() quantity, which is at least 1; it has a product summary exactly when the product exists |
| Catalog.CartItemsOf | backend/app/routers/product.py:115-135 | at most one item per entry, each with a quantity of at least 1 |
| Catalog.CartItemsAreKeptEntries | backend/app/routers/product.py:115-135 | the cart holds, in stored order, exactly the entries with a product_id and a quantity that converts to an integer above 0 |
| Catalog.LoadCartItems | backend/app/routers/product.py:98-135 | the loop appends the items of the kept entries of the stored cart, an absent cart being empty |
| Catalog.StoredEntriesArePositiveItems | backend/app/routers/product.py:210-214 | the stored entries are the items with quantity > 0, in order, each as its id and quantity, and nothing else |
| Catalog.ValidBodyStoredInFull | backend/app/routers/product.py:203-214 | a body that passes validation is stored in full: one entry per item, in order |
| Catalog.UpdateCart | backend/app/routers/product.py:203-224 | 401 then 422 with no change; otherwise the user's stored cart becomes exactly the positive-quantity items in order, and the answer is that cart reloaded |
| Catalog.UpdateCartAnswer | backend/app/routers/product.py:203-224 | for a valid body the answer is every request item with a non-empty id, in order, with its product summary |
| Catalog.ReviewsFor | backend/app/routers/product.py:232-234 | the reviews of that product, in insertion order |
| Catalog.ReviewsAfterAppend | backend/app/routers/product.py:232-253 | a new review is listed last for its product and for no other |
| Catalog.NumberedIdsDistinct | backend/app/routers/product.py:244-253 | review ids numbered from one are distinct |
| Catalog.ReviewStore.constructor | backend/app/routers/product.py:26-34 | the list starts with the one demo review, numbered 1 |
| Catalog.ReviewStore.ListReviews | backend/app/routers/product.py:227-234 | the reviews of the product in insertion order |
| Catalog.ReviewStore.CreateReview | backend/app/routers/product.py:237-253 | an error exactly when the body is invalid, with no change then; otherwise the review gets id length + 1 and is appended |
| Schemas.ValidatePassword | backend/app/schemas.py:9-25 | for the login and the register body alike: 422 exactly for a password shorter than 6, otherwise the body unchanged |
| Schemas.StripAll | backend/app/schemas.py:73-90 | every element stripped, in order |
| Schemas.ValidateProductCreate | backend/app/schemas.py:73-90 | success exactly when the stripped body meets every bound (title 1–120, price ≥ 1, sale_price ≥ 1 when present, stock ≥ 0, description ≥ 10 and so on); the result is then exactly the stripped body |
| Schemas.StripOptIdempotent | backend/app/schemas.py:73-90 | stripping an optional text twice equals stripping it once |
| Schemas.StripAllIdempotent | backend/app/schemas.py:73-90 | stripping a list of texts twice equals stripping it once |
| Schemas.ValidateProductIdempotent | backend/app/schemas.py:73-90 | a validated body validates again to itself |
| Schemas.ValidateCartUpdate | backend/app/schemas.py:138-145 | 422 exactly when some item's quantity is below 1 |
| Schemas.ValidateReview | backend/app/schemas.py:148-150 | 422 exactly when the rating is outside 1..5 or the content length is outside 10..1000 |
| Seed.Texts | backend/app/seed.py:13-94 | a list value holding the texts in order |
| Seed.SeedFieldValues | backend/app/seed.py:120-129 | a seeded document has its uuid as product_id and created_at = updated_at = now |
| Seed.SampleKeysListed | backend/app/seed.py:120-129 | the seeded document keys include product_id, created_at and updated_at |
| Seed.SampleDocument | backend/app/seed.py:120-129 | a seeded document has a product_id and created_at = updated_at |
| Seed.SeedDocuments | backend/app/seed.py:120-129 | one document per sample item, in order |
| Seed.SeedDocumentsStep | backend/app/seed.py:120-129 | each loop pass appends the next item's document to the payload |
| Seed.EnsureSeedProducts | backend/app/seed.py:113-132 | a non-empty catalogue is left unchanged; an empty one receives exactly the len(SAMPLE_PRODUCTS) seeded documents |
| Seed.SeededRecommendation | backend/app/seed.py:13-94 | the seeded catalogue's recommended products are the three recommended samples |
| SeedUsers.SeedUserDoc | backend/app/seed.py:144-153 | the document stores the password hash and not the password; the role is the entry's, "user" when it has none |
| SeedUsers.SeedInto | backend/app/seed.py:139-154 | an address already present leaves the store unchanged; otherwise its document is added under it |
| SeedUsers.SeededKeepsOld | backend/app/seed.py:139-142 | seeding keeps every document already there |
| SeedUsers.Emails | backend/app/seed.py:97-110 | every entry's address is in the set |
| SeedUsers.SeededKeys | backend/app/seed.py:135-154 | the seeded store's addresses are the old ones plus the entries' addresses |
| SeedUsers.SeededKeyed | backend/app/seed.py:135-154 | seeding keeps the store keyed by address |
| SeedUsers.SeedingKnownChangesNothing | backend/app/seed.py:139-142 | seeding a store that already holds every entry's address changes nothing |
| SeedUsers.SeedUsersIdempotent | backend/app/seed.py:135-154 | a second run inserts nothing |
| SeedUsers.SeedStep | backend/app/seed.py:138-154 | one pass of the loop seeds the next entry |
| SeedUsers.SeedOne | backend/app/seed.py:139-154 | the loop body: check for the address, then insert |
| SeedUsers.EnsureSeedUsers | backend/app/seed.py:135-154 | the store ends as the seeding function gives for DEFAULT_USERS |
| SeedUsers.SeedPair | backend/app/seed.py:135-154 | seeding an empty store with two entries of different addresses holds exactly those two documents |
| SeedUsers.SeededDefaults | backend/app/seed.py:97-154 | seeding an empty store creates exactly the two default accounts |
| SeedUsers.SeededRoles | backend/app/seed.py:97-153 | the demo account is stored as "user" and the admin account as "admin" |
| SeedUsers.LowerOfRoleNames | backend/app/seed.py:97-110 | the role names are already lower case |
| SeedUsers.SeededAddressesNormal | backend/app/seed.py:97-110 | the seeded addresses are already normalised |
| SeedUsers.SeededAccountsAtTheGate | backend/app/seed.py:97-154 | after seeding, the admin account logs in with a token the gate admits, and the demo account gets 403 |
| SeedUsers.SeededLogin | backend/app/seed.py:135-154 | a seeded account logs in with its own password under its stored role |
| Session.Stored | frontend/src/utils/auth.js:18-24 | null and undefined store nothing; a string is stored as it is |
| Session.Normalised | frontend/src/utils/auth.js:75-78 | a string is trimmed and lower-cased; anything else becomes null |
| Session.ReadValue | frontend/src/utils/auth.js:10-16 | the stored value, or null when getItem throws |
| Session.WriteValue | frontend/src/utils/auth.js:18-28 | null and undefined remove the key; other values set it; when the removeItem or setItem call throws the storage is left unchanged |
| Session.WriteValueFrame | frontend/src/utils/auth.js:18-28 | a write touches no other key |
| Session.WriteAuthReads | frontend/src/utils/auth.js:80-98 | after the four writes each auth key reads what was written, or its old value when that write threw, and every other key is unchanged |
| Session.ClearedReadsNull | frontend/src/utils/auth.js:10-28 | after the removals an auth key reads null, unless removeItem throws while getItem works, when it reads its old value |
| Session.LookupPrecedence | frontend/src/utils/auth.js:33-63 | the getters return the local value when it is non-null, otherwise the session value |
| Session.SetThenGet | frontend/src/utils/auth.js:33-98 | after setAuthSession, with either remember setting, a fault-free chosen storage and an other storage that can be cleared or cannot be read, the getters return what was written: the token and user id as given, the email and role normalised |
| Session.RememberChoosesStore | frontend/src/utils/auth.js:80-98 | remember writes to local and clears session (when removeItem works there); otherwise the other way round |
| Session.SetKeepsOtherKeys | frontend/src/utils/auth.js:65-101 | keys other than the four auth keys are untouched |
| Session.RememberIntoFailingLocal | frontend/src/utils/auth.js:18-88 | a remembered login into a localStorage on which every call throws leaves the user logged out, if session storage can be cleared or cannot be read |
| Session.RememberIntoFullLocal | frontend/src/utils/auth.js:10-88 | a remembered login into a localStorage whose setItem throws but getItem works still returns the token of an earlier login, and without one returns null |
| Session.ClearThenGet | frontend/src/utils/auth.js:103-115 | after clearAuthSession every getter returns null, as long as removeItem works wherever getItem does |
| Session.Browser.constructor | frontend/src/utils/auth.js:1-115 | the two storages as given |
| Session.Browser.Get | frontend/src/utils/auth.js:33-63 | the getters' answer on the current storages |
| Session.Browser.Write | frontend/src/utils/auth.js:18-28 | one writeValue on the chosen storage; the other is untouched |
| Session.Browser.WriteFour | frontend/src/utils/auth.js:80-98 | the four writes on one storage |
| Session.Browser.SetAuthSession | frontend/src/utils/auth.js:65-101 | the storages become what setAuthSession leaves |
| Session.Browser.ClearAuthSession | frontend/src/utils/auth.js:103-115 | the storages become what clearAuthSession leaves |
| CartPage.JsNumber | frontend/src/pages/cart-page.jsx:32-41 | blank text is 0 |
| CartPage.JsNumberOfRendered | frontend/src/pages/cart-page.jsx:32-41 | Number() reads back every integer the backend renders with str() |
| CartPage.UnitPrice | frontend/src/pages/cart-page.jsx:32-41 | 0 without a product; a numeric sale price first; the price when there is no sale price; 0 when neither is usable |
| CartPage.FirstIndex | frontend/src/pages/cart-page.jsx:253-284 | the first position with the id, or −1 when none has it |
| CartPage.WithQuantity | frontend/src/pages/cart-page.jsx:253-284 | the items with the id get the new quantity; the rest are unchanged |
| CartPage.Remove | frontend/src/pages/cart-page.jsx:286-291 | exactly the items with another id, in their order, each as often as in the cart |
| CartPage.Increase | frontend/src/pages/cart-page.jsx:253-265 | one more for the items with the id and no change to the rest; an absent id changes nothing |
| CartPage.Decrease | frontend/src/pages/cart-page.jsx:267-284 | an absent id changes nothing; a quantity of at most 1 removes the item; otherwise one fewer |
| CartPage.IncreaseThenDecrease | frontend/src/pages/cart-page.jsx:253-284 | with distinct ids and positive quantities, minus undoes plus |
| CartPage.HandlersKeepPositive | frontend/src/pages/cart-page.jsx:253-291 | the handlers never leave a quantity below 1 |
| CartPage.RemoveKeepsPositive | frontend/src/pages/cart-page.jsx:286-291 | removing a line keeps every other quantity at 1 or more |
| CartPage.IncreaseQuantitySum | frontend/src/pages/cart-page.jsx:253-303 | plus adds one unit to the total quantity for each item with that id |
| CartPage.IncreaseAddsOne | frontend/src/pages/cart-page.jsx:253-303 | with distinct ids plus adds exactly one unit when the id is there and none otherwise |
| CartPage.Summarise | frontend/src/pages/cart-page.jsx:293-303 | distinct is the item count, quantity the sum of quantities, subtotal the sum of unit price × quantity |
| CartPage.Payload | frontend/src/pages/cart-page.jsx:224-229 | id and quantity of every item, in order, without the product |
| CartPage.PayloadAccepted | frontend/src/pages/cart-page.jsx:224-229 | the server accepts the payload exactly when every quantity is positive |
| CartPage.KimchiQueryShape | frontend/src/pages/cart-page.jsx:131-135 | with whitespace deleted, accepted exactly when the text is "김치추천" followed only by '!' |
| CartPage.Search | frontend/src/pages/cart-page.jsx:305-321 | the trimmed query and the category are passed on; the path is /search or /chat |
| CartPage.SearchRoute | frontend/src/pages/cart-page.jsx:314-318 | /search exactly when the query is the kimchi query |
| CartScreen.TotalsOf | frontend/src/components/CartPage.tsx:32-42 | the subtotal is over the selected positions; the fee is 0 exactly when the subtotal is ≥ 30000 or 0, and 3000 otherwise; total = subtotal + fee |
| CartScreen.AllIndices | frontend/src/components/CartPage.tsx:52-58 | every position once, in order |
| CartScreen.SubtotalOfAll | frontend/src/components/CartPage.tsx:33-35 | selecting every position sums the whole cart |
| CartScreen.SubtotalOfNone | frontend/src/components/CartPage.tsx:33-35 | an empty selection sums to 0 |
| CartScreen.CheckoutSplitsValue | frontend/src/components/CartPage.tsx:33-81 | the lines bought and the lines left share the cart's value |
| CartScreen.Synced | frontend/src/components/CartPage.tsx:19-30 | positions past the end are dropped and the others kept; a non-empty cart never ends with nothing selected; no duplicates are introduced |
| CartScreen.ToggledAll | frontend/src/components/CartPage.tsx:52-58 | cleared when everything is selected, every position otherwise |
| CartScreen.ToggleAllSubtotal | frontend/src/components/CartPage.tsx:32-58 | after select-all the subtotal is the whole cart's value or 0 |
| CartScreen.CouponIgnoresCaseAndSpace | frontend/src/components/CartPage.tsx:83-89 | case and surrounding whitespace do not change whether the coupon is accepted |
| CartScreen.PermutationNoDup | frontend/src/components/CartPage.tsx:69-80 | a rearranged selection still has no duplicates |
| CartScreen.Descending | frontend/src/components/CartPage.tsx:76-79 | a permutation of the selection in descending order |
| CartScreen.RemovalStep | frontend/src/components/CartPage.tsx:76-79 | each removal in descending order removes the next selected line |
| CartScreen.Screen.constructor | frontend/src/components/CartPage.tsx:15-30 | an empty selection |
| CartScreen.Screen.SyncSelection | frontend/src/components/CartPage.tsx:19-30 | the selection becomes its synced form |
| CartScreen.Screen.ToggleItem | frontend/src/components/CartPage.tsx:44-50 | the position is added when absent and removed when present; no duplicates |
| CartScreen.Screen.ToggleAll | frontend/src/components/CartPage.tsx:52-58 | the selection is cleared or becomes every position |
| CartScreen.Screen.HandleQuantity | frontend/src/components/CartPage.tsx:60-63 | a quantity below 1 is ignored; otherwise the line's quantity is updated |
| CartScreen.Screen.Checkout | frontend/src/components/CartPage.tsx:65-81 | nothing is removed for an empty selection or without a user; otherwise exactly the selected lines are removed |
| AppState.EntryIndex | frontend/src/App.tsx:103-108 | the first line of the same product, colour and size, or −1 when there is none |
| AppState.AddedToCart | frontend/src/App.tsx:101-118 | a match adds the quantity to the first same line and keeps the length; otherwise the item is appended |
| AppState.AddKeepsEntriesUnique | frontend/src/App.tsx:103-116 | if no two lines share a key before addToCart, none do after |
| AppState.AddToCartQuantity | frontend/src/App.tsx:101-118 | either way the total quantity grows by the item's quantity |
| AppState.WithoutIndices | frontend/src/App.tsx:128-130 | keeps only the lines at the positions not dropped |
| AppState.RemovedFromCart | frontend/src/App.tsx:128-130 | exactly the line at the index is removed; an index outside the cart changes nothing |
| AppState.RemoveBelowDropped | frontend/src/App.tsx:128-130 | removing below the dropped positions drops one position more |
| AppState.UpdatedCart | frontend/src/App.tsx:120-126 | outside the cart the update throws; inside, the quantity at the index is set and everything else is kept |
| AppState.App.constructor | frontend/src/App.tsx:94-130 | the home page, nothing selected, no user, an empty cart |
| AppState.App.NavigateTo | frontend/src/App.tsx:94-99 | the page is always set; the selected product changes only when a non-empty id is given |
| AppState.App.AddToCart | frontend/src/App.tsx:101-118 | the cart becomes the added-to cart and nothing else changes |
| AppState.App.UpdateCartItem | frontend/src/App.tsx:120-126 | the cart becomes the updated cart, or stays as it was when the update throws |
| AppState.App.RemoveFromCart | frontend/src/App.tsx:128-130 | the cart becomes the cart without that line |
| ProductList.Filtered | frontend/src/components/ProductListPage.tsx:123-148 | a subsequence holding exactly the products that pass the category, brand, inclusive price and text filters, each as often as in the list |
| ProductList.Sorted | frontend/src/components/ProductListPage.tsx:150-164 | a permutation: reversed for "latest", price ascending or descending, rating descending, review count descending otherwise |
| ProductList.ShownAreFiltered | frontend/src/components/ProductListPage.tsx:123-164 | the sorted page shows exactly the passing products, each as often as in the product list, and a failing one not at all |
| ProductList.ToggleBrand | frontend/src/components/ProductListPage.tsx:166-172 | the brand is selected afterwards exactly when it was not before; nothing else changes |
| ProductList.Reset | frontend/src/components/ProductListPage.tsx:174-179 | category "all", empty query, no brands, range 0..200000; the ordering is kept |
| ProductList.ResetPassesAll | frontend/src/components/ProductListPage.tsx:119-179 | after a reset every product priced within the default range is shown |
| ProductList.NeutralFilters | frontend/src/components/ProductListPage.tsx:125-144 | with a blank query, no brands and the "all" or empty category, only the inclusive price range decides |
| ProductList.QueryMatchesName | frontend/src/components/ProductListPage.tsx:140-144 | a name containing the trimmed query, ignoring case, passes the text filter |
| AdminInventory.Filtered | frontend/src/components/AdminPage.tsx:104-117 | an order-preserving subsequence of exactly the rows that pass the category, status and name filters |
| AdminInventory.NeutralShowsAll | frontend/src/components/AdminPage.tsx:104-117 | with every filter neutral the whole table is shown |
| AdminInventory.StatusOnly | frontend/src/components/AdminPage.tsx:109-111 | the status filter alone picks exactly the rows of that status |
| AdminInventory.SoldOutRows | frontend/src/components/AdminPage.tsx:36-117 | the sold-out filter shows the single sold-out row |
| ProductFeed.ExistingIds | frontend/src/components/product-feed.jsx:84-85 | exactly the product ids of the list |
| ProductFeed.Merge | frontend/src/components/product-feed.jsx:80-88 | page 1 replaces the list; a later page keeps the list as prefix and appends, in order, the incoming objects whose id is new; a null already in the list makes it throw |
| ProductFeed.MergeKeepsDistinct | frontend/src/components/product-feed.jsx:80-88 | when each page has no repeats, the merged list never shows a product twice |
| ProductFeed.DistinctFiltered | frontend/src/components/product-feed.jsx:84-88 | filtering keeps the ids distinct |
| ProductFeed.DeriveBadges | frontend/src/components/product-feed.jsx:26-35 | the first three tags when there are tags; otherwise "추천" for a recommended product, then a truthy shipping text; at most 3 |
| ProductFeed.DerivedPage | frontend/src/components/product-feed.jsx:207 | max(1, ceil(n / 12)) |
| ProductFeed.OnInView | frontend/src/components/product-feed.jsx:200-205 | the page advances by one exactly on a false→true edge with more pages, nothing loading and no error; the rest of the state is kept |
| ProductFeed.StayingInViewAdvancesOnce | frontend/src/components/product-feed.jsx:200-205 | staying in view advances the page at most once |
| ProductFeed.Feed.constructor | frontend/src/components/product-feed.jsx:47-52 | page 1, more pages assumed, not loading, no error, no products |
| ProductFeed.Feed.BeginFetch | frontend/src/components/product-feed.jsx:58-62 | a request starts exactly when not loading and (more pages or page 1); starting sets loading and clears the error |
| ProductFeed.Feed.Receive | frontend/src/components/product-feed.jsx:79-98 | the list becomes the merge of the response, has_more is taken from it, and loading ends |
| ProductFeed.Feed.Fail | frontend/src/components/product-feed.jsx:91-98 | the error is the message, or the default one when it is empty, and loading ends |
| ProductFeed.Feed.Retry | frontend/src/components/product-feed.jsx:109-112 | the retry count goes up and the error is cleared |
| ProductFeed.Feed.InViewChanged | frontend/src/components/product-feed.jsx:200-205 | the state moves as the in-view effect says |
| MyPage.Tally | frontend/src/pages/my-page.jsx:262-277 | total is the order count; shipping counts pending, processing and shipped; delivered counts delivered; cancelled counts cancelled and returned |
| MyPage.TallyOrders | frontend/src/pages/my-page.jsx:262-277 | the reduce loop computes the tally |
| MyPage.StatusCounts | frontend/src/pages/my-page.jsx:252-278 | the server summary as it is when present; the tally of the orders otherwise |
| MyPage.BucketsWithinTotal | frontend/src/pages/my-page.jsx:265-273 | shipping + delivered + cancelled ≤ total |
| MyPage.MissingStatusUncounted | frontend/src/pages/my-page.jsx:262-325 | an order without a status counts in the total only, while its card reads as received |
| MyPage.Filters | frontend/src/pages/my-page.jsx:279-285 | the pills in blueprint order, only the first active, each badge its counter or 0 |
| MyPage.TalliedPills | frontend/src/pages/my-page.jsx:262-285 | on the tally, the first badge counts the orders and the other three add up to at most that |
| MyPage.StatusKey | frontend/src/pages/my-page.jsx:320 | the status when non-empty, "pending" otherwise |
| MyPage.CardStatus | frontend/src/pages/my-page.jsx:318-336 | a known status gets its label, tone and message; an unknown one gets itself, "gray" and the generic message |
| MyPage.KnownMapsAgree | frontend/src/pages/my-page.jsx:23-46 | the label, tone and message maps cover the same six statuses |
| MyPage.GreyCards | frontend/src/pages/my-page.jsx:318-336 | a card is grey exactly for cancelled, returned and unknown statuses |
| MyPage.UserName | frontend/src/pages/my-page.jsx:337-340 | the trimmed full name when it is not blank, "SwiftCart 회원" otherwise |
| MyPage.HandleSearch | frontend/src/pages/my-page.jsx:353-364 | nothing for a blank keyword; /search exactly when it mentions "주문" or "상품"; /chat otherwise |
| MyPage.SearchIgnoresOuterSpace | frontend/src/pages/my-page.jsx:353-364 | whitespace around the keyword changes nothing |
| Base64.DecodeEncode | backend/app/security.py:103-108 | decoding an encoding gives back the bytes |
| Values.IntToStringRoundTrip | backend/app/routers/product.py:120-123 | int() of the str() of an integer is that integer |
| Values.ParseInt | backend/app/routers/product.py:120-123 | int() of text: surrounding whitespace ignored, an optional sign, then digit groups |
| Values.PyInt | backend/app/routers/product.py:120-123 | int() of a value: None where Python raises |
| Text.StripIdempotent | backend/app/routers/auth.py:24-25 | stripping twice equals stripping once |
| Text.LowerIdempotent | backend/app/routers/auth.py:24-25 | lower-casing twice equals lower-casing once |

## Left out

- Cryptography. PBKDF2-HMAC-SHA256, `hmac.compare_digest` and PyJWT signing and verification are not modelled. Each is an abstract deterministic function. Constant-time comparison is not modelled.
- Salt generation. The 16-byte salt is a parameter, not `secrets.token_bytes`.
- Base64 leniency. Python's `b64decode` skips characters outside the alphabet; the model's decoder is strict. The decode error in `verify_password` is not caught by the source. The model keeps it as `Security.Base64Error`, and login turns it into a server error.
- Security.VerifyPassword: does not state when a malformed hash raises instead of returning false, since that depends on the lenient decoder above.
- MongoDB. Motor I/O, connections and the startup hooks (`backend/app/database.py`, `backend/app/models.py`, `backend/app/main.py`) are not modelled. Collections are in-memory data.
- Sorting. `created_at` sorting is a stable reorder by the stored integer.
- Catalog.ListProducts: a missing `created_at` sorts as the oldest. MongoDB's ordering across mixed types is not modelled.
- Pydantic coercion. Type coercion (a numeric string for an int field, say), `EmailStr` and `HttpUrl` checks are not modelled. Bodies arrive with their declared types, and URL fields are kept as text.
- Text. Whitespace and case are ASCII only. Python's and JavaScript's Unicode whitespace and case mapping are not modelled.
- Admin error strings. The Korean detail strings of `backend/app/routers/admin.py` are mis-encoded in the source file. They are kept as named constants, not as their text.
- Clocks and ids. `datetime.utcnow()`, `uuid4()` and ObjectId are parameters.
- Auth.LoggedIn: the login update calls `utcnow()` twice, once for `last_login_at` and once for `updated_at`. The model reads one `now` for both; in the source the two readings can differ.
- Auth.LoginUserId: a stored user whose `user_id` field is present but None cannot be represented. In the source, `user.get` would then hand None to token generation.
- Unique indexes. The unique `product_id` index on products is not part of `Catalog.ProductsCollection.Valid`. Inserting a duplicate id, which MongoDB refuses, is not modelled; product ids come from `uuid4()`.
- Time units. The token timestamps take the time in microseconds and truncate to seconds.
- `list_by_category` (float prices), `recommend_products` and the admin dashboard are not modelled. They are float arithmetic or constant stubs.
- The constant routers `orders.py`, `search.py` and `home.py`, and `create_admin.py` (commented out), are not part of this model.
- `TokenResponse.token_type` is the default `"bearer"` in `Schemas.TokenResponse`. `Auth.LoginSuccess` states it for every login.
- Frontend plumbing is not modelled:
  - rendering, `fetch`, the `AUTH_EVENT` window event, toasts and router navigation;
  - the `useEffect` wiring and cancellation flags in `product-feed.jsx`.
  - Navigation is modelled only as the route it would go to.
- Storage faults. `Session.Faults` fixes, per storage, whether getItem, setItem and removeItem throw. A quota failure that depends on the size of the value, or that appears between two calls, is not modelled.
- JavaScript numbers. Floats are not modelled; prices are integers, and product ratings are integers in tenths.
- CartPage.JsNumber: `Number()` is modelled for optional-sign decimal integers only. Fractions, exponents, hex and `Infinity` read as NaN in the model.
- `admin-product-create.jsx`, `renderStars` and the discount in `product-detail.jsx`, the `salePercent` of `product-feed.jsx`, `Intl.NumberFormat` and the date formatting are not modelled. They are float or locale arithmetic.
- Aliasing. `AppState.App.AddToCart` and `AppState.App.UpdateCartItem` work on a copied sequence of values. The source's `newCart[i].quantity +=` also mutates the line object shared with the previous array; the model does not capture that aliasing.
- Product list. `ProductList.Filtered` takes the product list as a parameter instead of `mockProducts`. It treats the description as a plain string, where the source writes `?? ""`. The search query and category come from the app context, which is not part of this model.
- ProductFeed.ExistingIds: a JavaScript `Set` tells `null` from `undefined`; the model has one missing-id value.
- MyPage.CardStatus: looking up `constructor` or another object-prototype key in the status maps is not modelled.
- MyPage.UserName: a non-string `full_name` (which would throw on `trim`) is not modelled; the name is a string or absent.
- The random demo-data generators (`chat-suggestion-feed.jsx` and the `eco-demo/` copies), the static `eco-demo/` pages and `OrderHistoryPage.tsx` are not part of this model.
- The `isKimchiSearchQuery` copies in the home, search and chat pages, which target "김치찌개", are not part of this model.
- The mock `server/app/*` routers are superseded by `backend/` and are not part of this model.
