/** Login and registration (backend/app/routers/auth.py) over the users
    collection.  The collection's unique index on "email" makes it a map from
    e-mail address to document.  Clocks, uuid4(), salts and ObjectIds are
    parameters. */
module Auth {
  import opened Values
  import Text
  import Http
  import Security
  import Schemas

  const InvalidCredentials: string := "아이디 또는 비밀번호가 올바르지 않습니다."
  const EmailTaken: string := "이미 사용 중인 이메일입니다."
  const Registered: string := "회원가입이 완료되었습니다."

  /** A users document.  Fields that a document written by another tool may
      lack are Options; `oid` is `str(_id)`. */
  datatype UserDoc = UserDoc(
    oid: string,
    userId: Option<string>,
    email: string,
    passwordHash: Option<string>,
    fullName: Option<string>,
    role: Option<Value>,
    createdAt: int,
    updatedAt: int,
    lastLoginAt: Option<int>)

  type Users = map<string, UserDoc>

  /** Each document sits under its own e-mail address. */
  predicate KeyedByEmail(docs: Users) {
    forall e :: e in docs ==> docs[e].email == e
  }

  class UsersCollection {
    var docs: Users

    ghost predicate Valid()
      reads this
    {
      KeyedByEmail(docs)
    }

    constructor ()
      ensures docs == map[] && Valid()
    {
      docs := map[];
    }

    /** `find_one({"email": email})`. */
    method FindOne(email: string) returns (u: Option<UserDoc>)
      ensures u.Some? <==> email in docs
      ensures u.Some? ==> u.value == docs[email]
    {
      u := if email in docs then Some(docs[email]) else None;
    }

    /** `insert_one(doc)`: false where the unique index raises DuplicateKeyError. */
    method InsertOne(doc: UserDoc) returns (inserted: bool)
      requires Valid()
      modifies this
      ensures Valid()
      ensures inserted <==> doc.email !in old(docs)
      ensures docs == if inserted then old(docs)[doc.email := doc] else old(docs)
    {
      inserted := doc.email !in docs;
      if inserted {
        docs := docs[doc.email := doc];
      }
    }

    /** The `update_one` of a login: `$set` of last_login_at and updated_at. */
    method MarkLogin(email: string, now: int)
      requires Valid() && email in docs
      modifies this
      ensures Valid()
      ensures docs == LoggedIn(old(docs), email, now)
    {
      docs := LoggedIn(docs, email, now);
    }
  }

  /** `_normalise_email`: strip, then lower-case. */
  function NormaliseEmail(value: string): (r: string)
    ensures Text.NoOuterSpace(r) && Text.IsLower(r)
    ensures |r| <= |value|
  {
    Text.LowerKeepsNoOuterSpace(Text.Strip(value));
    Text.LowerIsLower(Text.Strip(value));
    Text.Lower(Text.Strip(value))
  }

  lemma NormaliseEmailIdempotent(value: string)
    ensures NormaliseEmail(NormaliseEmail(value)) == NormaliseEmail(value)
  {
    var r := NormaliseEmail(value);
    Text.StripNoOuterSpace(r);
    Text.LowerOfLower(r);
  }

  /** The role a login issues: `str(user.get("role", "user")).lower()`. */
  function StoredRole(u: UserDoc): (role: string)
    ensures Text.IsLower(role)
    ensures u.role.None? ==> role == "user"
    ensures u.role.Some? && u.role.value.VStr? ==> role == Text.Lower(u.role.value.s)
  {
    Text.LowerIsLower(PyStr(u.role.GetOr(VStr("user"))));
    assert Text.IsLower("user");
    Text.LowerOfLower("user");
    Text.Lower(PyStr(u.role.GetOr(VStr("user"))))
  }

  /** `user.get("user_id", str(user["_id"]))`. */
  function LoginUserId(u: UserDoc): string {
    u.userId.GetOr(u.oid)
  }

  /** The store after a successful login of `email`. */
  function LoggedIn(docs: Users, email: string, now: int): (r: Users)
    requires email in docs
    ensures r.Keys == docs.Keys
    ensures forall e :: e in docs && e != email ==> r[e] == docs[e]
    ensures r[email].lastLoginAt == Some(now) && r[email].updatedAt == now
    ensures r[email].(lastLoginAt := docs[email].lastLoginAt, updatedAt := docs[email].updatedAt) == docs[email]
    ensures KeyedByEmail(docs) ==> KeyedByEmail(r)
  {
    docs[email := docs[email].(lastLoginAt := Some(now), updatedAt := now)]
  }

  /** The response of POST /auth/login, `nowMicros` being the instant the
      token is issued. */
  function LoginResult(kdf: Security.Kdf, jwt: Security.Jwt, cfg: Security.Config, docs: Users,
                       body: Schemas.LoginRequest, nowMicros: int): Result<Schemas.TokenResponse, Http.Failure>
  {
    match Schemas.ValidateLogin(body)
    case Err(e) => Err(e)
    case Ok(payload) =>
      var email := NormaliseEmail(payload.username);
      if email !in docs then Err(Http.HttpError(Http.Unauthorized, InvalidCredentials))
      else
        var user := docs[email];
        match Security.VerifyPassword(kdf, payload.password, user.passwordHash.GetOr(""))
        case Err(_) => Err(Http.ServerError("binascii.Error"))
        case Ok(false) => Err(Http.HttpError(Http.Unauthorized, InvalidCredentials))
        case Ok(true) =>
          var userId, role := LoginUserId(user), StoredRole(user);
          match Security.GenerateAccessToken(jwt, cfg, userId, email, role, None, nowMicros)
          case Err(_) => Err(Http.ServerError("ValueError"))
          case Ok(token) =>
            Ok(Schemas.TokenResponse(accessToken := token, userId := userId, email := email, role := role))
  }

  /** POST /auth/login. */
  method Login(users: UsersCollection, kdf: Security.Kdf, jwt: Security.Jwt, cfg: Security.Config,
               body: Schemas.LoginRequest, nowMicros: int, now: int)
      returns (r: Result<Schemas.TokenResponse, Http.Failure>)
    requires users.Valid()
    modifies users
    ensures users.Valid()
    ensures r == LoginResult(kdf, jwt, cfg, old(users.docs), body, nowMicros)
    ensures users.docs == if r.Ok? then LoggedIn(old(users.docs), r.value.email, now) else old(users.docs)
  {
    var v := Schemas.ValidateLogin(body);
    if v.Err? {
      return Err(v.error);
    }
    var email := NormaliseEmail(body.username);
    var user := users.FindOne(email);
    if user.None? {
      return Err(Http.HttpError(Http.Unauthorized, InvalidCredentials));
    }
    var verified := Security.VerifyPassword(kdf, body.password, user.value.passwordHash.GetOr(""));
    if verified.Err? {
      return Err(Http.ServerError("binascii.Error"));
    }
    if !verified.value {
      return Err(Http.HttpError(Http.Unauthorized, InvalidCredentials));
    }
    var userId, role := LoginUserId(user.value), StoredRole(user.value);
    var token := Security.GenerateAccessToken(jwt, cfg, userId, email, role, None, nowMicros);
    if token.Err? {
      return Err(Http.ServerError("ValueError"));
    }
    users.MarkLogin(email, now);
    r := Ok(Schemas.TokenResponse(accessToken := token.value, userId := userId, email := email, role := role));
  }

  /** An unknown address and a wrong password are answered identically. */
  lemma LoginFailureIndistinguishable(kdf: Security.Kdf, jwt: Security.Jwt, cfg: Security.Config, docs: Users,
                                      body: Schemas.LoginRequest, nowMicros: int)
    requires |body.password| >= Schemas.MinPasswordLength
    ensures NormaliseEmail(body.username) !in docs ==>
      LoginResult(kdf, jwt, cfg, docs, body, nowMicros) == Err(Http.HttpError(Http.Unauthorized, InvalidCredentials))
    ensures NormaliseEmail(body.username) in docs &&
            Security.VerifyPassword(kdf, body.password, docs[NormaliseEmail(body.username)].passwordHash.GetOr("")) == Ok(false) ==>
      LoginResult(kdf, jwt, cfg, docs, body, nowMicros) == Err(Http.HttpError(Http.Unauthorized, InvalidCredentials))
  {
  }

  /** A stored document without a password hash never logs in. */
  lemma NoHashNoLogin(kdf: Security.Kdf, jwt: Security.Jwt, cfg: Security.Config, docs: Users,
                      body: Schemas.LoginRequest, nowMicros: int)
    requires NormaliseEmail(body.username) in docs && docs[NormaliseEmail(body.username)].passwordHash.None?
    ensures LoginResult(kdf, jwt, cfg, docs, body, nowMicros).Err?
  {
  }

  /** A successful login answers for the normalised address, the stored role
      lower-cased (default "user") and the stored user_id (default str(_id)),
      with a bearer token that decodes to exactly those claims until it expires. */
  lemma LoginSuccess(kdf: Security.Kdf, jwt: Security.Jwt, cfg: Security.Config, docs: Users,
                     body: Schemas.LoginRequest, nowMicros: int, later: int)
    requires LoginResult(kdf, jwt, cfg, docs, body, nowMicros).Ok?
    requires Security.SoundJwt(jwt)
    ensures var email := NormaliseEmail(body.username);
            var r := LoginResult(kdf, jwt, cfg, docs, body, nowMicros).value;
            && email in docs
            && r.email == email && r.tokenType == "bearer"
            && r.role == StoredRole(docs[email]) && r.userId == LoginUserId(docs[email]) != ""
            && Security.VerifyPassword(kdf, body.password, docs[email].passwordHash.GetOr("")) == Ok(true)
            && var c := Security.AccessClaims(r.userId, email, r.role, nowMicros, cfg.expiresMinutes * 60 * Security.MicrosPerSecond);
               Security.DecodeAccessToken(jwt, cfg, r.accessToken, later) ==
                 if later < c["exp"].i then Ok(c) else Err(Security.TokenDecodeError(Security.TokenInvalid))
  {
    var email := NormaliseEmail(body.username);
    var u := docs[email];
    Security.IssueThenDecode(jwt, cfg, LoginUserId(u), email, StoredRole(u), None, nowMicros, later);
  }

  // ---------------------------------------------------------------- register

  /** The document `register` inserts. */
  function NewUser(body: Schemas.RegisterRequest, passwordHash: string, uuid: string, oid: string,
                   createdAt: int, updatedAt: int): (u: UserDoc)
    ensures u.role == Some(VStr("user"))
    ensures u.email == NormaliseEmail(body.email) && u.userId == Some(uuid)
  {
    UserDoc(oid, Some(uuid), NormaliseEmail(body.email), Some(passwordHash), body.fullName,
            Some(VStr("user")), createdAt, updatedAt, None)
  }

  /** The response of POST /auth/register and the store after it.  `seen` is
      the store the pre-check reads; `current` is the store the insert meets,
      which another request may have changed in between. */
  function RegisterResult(kdf: Security.Kdf, seen: Users, current: Users, body: Schemas.RegisterRequest,
                          salt: seq<Security.byte>, uuid: string, oid: string, createdAt: int, updatedAt: int)
      : (r: (Result<Schemas.RegisterResponse, Http.Failure>, Users))
    requires |salt| == Security.SaltBytes
  {
    match Schemas.ValidateRegister(body)
    case Err(e) => (Err(e), current)
    case Ok(payload) =>
      var email := NormaliseEmail(payload.email);
      if email in seen then (Err(Http.HttpError(Http.Conflict, EmailTaken)), current)
      else match Security.HashPassword(kdf, payload.password, salt)
        case Err(_) => (Err(Http.ServerError("ValueError")), current)
        case Ok(h) =>
          var doc := NewUser(payload, h, uuid, oid, createdAt, updatedAt);
          if email in current then (Err(Http.HttpError(Http.Conflict, EmailTaken)), current)
          else (Ok(Schemas.RegisterResponse(Registered, email, uuid, payload.fullName, "user")), current[email := doc])
  }

  /** POST /auth/register.  `racing` is a document another request inserts
      while this one waits between its pre-check and its insert. */
  method Register(users: UsersCollection, kdf: Security.Kdf, body: Schemas.RegisterRequest,
                  salt: seq<Security.byte>, uuid: string, oid: string, createdAt: int, updatedAt: int,
                  racing: Option<UserDoc>)
      returns (r: Result<Schemas.RegisterResponse, Http.Failure>)
    requires users.Valid() && |salt| == Security.SaltBytes
    modifies users
    ensures users.Valid()
    ensures var between := if racing.Some? && racing.value.email !in old(users.docs)
                           then old(users.docs)[racing.value.email := racing.value] else old(users.docs);
            (r, users.docs) == RegisterResult(kdf, old(users.docs), between, body, salt, uuid, oid, createdAt, updatedAt)
  {
    var v := Schemas.ValidateRegister(body);
    if v.Err? {
      if racing.Some? {
        var _ := users.InsertOne(racing.value);
      }
      return Err(v.error);
    }
    var email := NormaliseEmail(body.email);
    var existing := users.FindOne(email);
    if racing.Some? {
      var _ := users.InsertOne(racing.value);
    }
    if existing.Some? {
      return Err(Http.HttpError(Http.Conflict, EmailTaken));
    }
    var h := Security.HashPassword(kdf, body.password, salt);
    if h.Err? {
      return Err(Http.ServerError("ValueError"));
    }
    var doc := NewUser(body, h.value, uuid, oid, createdAt, updatedAt);
    var inserted := users.InsertOne(doc);
    if !inserted {
      return Err(Http.HttpError(Http.Conflict, EmailTaken));
    }
    r := Ok(Schemas.RegisterResponse(Registered, email, uuid, body.fullName, "user"));
  }

  /** The three outcomes of a registration: refused and the store as the
      insert found it, or the new document added under the normalised address. */
  lemma RegisterOutcome(kdf: Security.Kdf, seen: Users, current: Users, body: Schemas.RegisterRequest,
                        salt: seq<Security.byte>, uuid: string, oid: string, createdAt: int, updatedAt: int)
    requires |salt| == Security.SaltBytes
    ensures var (r, after) := RegisterResult(kdf, seen, current, body, salt, uuid, oid, createdAt, updatedAt);
            var email := NormaliseEmail(body.email);
            && (r.Ok? <==> |body.password| >= Schemas.MinPasswordLength && email !in seen && email !in current)
            && (r.Err? ==> after == current)
            && (r.Ok? ==>
                  && Security.HashPassword(kdf, body.password, salt).Ok?
                  && after == current[email := NewUser(body, Security.HashPassword(kdf, body.password, salt).value,
                                                           uuid, oid, createdAt, updatedAt)]
                  && r.value == Schemas.RegisterResponse(Registered, email, uuid, body.fullName, "user"))
  {
    if |body.password| >= Schemas.MinPasswordLength {
      assert Schemas.ValidateRegister(body) == Ok(body);
      assert Security.HashPassword(kdf, body.password, salt).Ok?;
    }
  }

  /** A taken address is refused with the same 409, whether the pre-check or
      the insert finds it, and the store is left as the insert found it. */
  lemma RegisterConflict(kdf: Security.Kdf, seen: Users, current: Users, body: Schemas.RegisterRequest,
                         salt: seq<Security.byte>, uuid: string, oid: string, createdAt: int, updatedAt: int)
    requires |salt| == Security.SaltBytes && |body.password| >= Schemas.MinPasswordLength
    requires NormaliseEmail(body.email) in seen || NormaliseEmail(body.email) in current
    ensures RegisterResult(kdf, seen, current, body, salt, uuid, oid, createdAt, updatedAt)
         == (Err(Http.HttpError(Http.Conflict, EmailTaken)), current)
  {
  }

  /** A successful registration adds exactly one document, under the
      normalised address, with role "user" and a hash the password verifies
      against; the response carries no hash. */
  lemma RegisterSuccess(kdf: Security.Kdf, seen: Users, current: Users, body: Schemas.RegisterRequest,
                        salt: seq<Security.byte>, uuid: string, oid: string, createdAt: int, updatedAt: int)
    requires |salt| == Security.SaltBytes
    requires RegisterResult(kdf, seen, current, body, salt, uuid, oid, createdAt, updatedAt).0.Ok?
    ensures var (r, after) := RegisterResult(kdf, seen, current, body, salt, uuid, oid, createdAt, updatedAt);
            var email := NormaliseEmail(body.email);
            && email !in seen && email !in current
            && after.Keys == current.Keys + {email}
            && (forall e :: e in current ==> after[e] == current[e])
            && after[email].role == Some(VStr("user")) && after[email].userId == Some(uuid)
            && after[email].passwordHash.Some?
            && Security.VerifyPassword(kdf, body.password, after[email].passwordHash.value) == Ok(true)
            && r.value == Schemas.RegisterResponse(Registered, email, uuid, body.fullName, "user")
  {
    RegisterOutcome(kdf, seen, current, body, salt, uuid, oid, createdAt, updatedAt);
    var email := NormaliseEmail(body.email);
    assert |body.password| >= Schemas.MinPasswordLength && email !in current;
    var hash := Security.HashPassword(kdf, body.password, salt).value;
    InsertedUser(current, NewUser(body, hash, uuid, oid, createdAt, updatedAt));
    Security.VerifyHashedPassword(kdf, body.password, salt);
  }

  lemma InsertedUser(current: Users, doc: UserDoc)
    requires doc.email !in current
    ensures var after := current[doc.email := doc];
            after.Keys == current.Keys + {doc.email} && (forall e :: e in current ==> after[e] == current[e])
  {
  }

  /** The addresses whose stored role is "admin" once lower-cased, as
      require_admin reads it from a token issued at login. */
  predicate IsAdmin(u: UserDoc) {
    StoredRole(u) == "admin"
  }

  lemma NewUserRole(body: Schemas.RegisterRequest, passwordHash: string, uuid: string, oid: string,
                    createdAt: int, updatedAt: int)
    ensures StoredRole(NewUser(body, passwordHash, uuid, oid, createdAt, updatedAt)) == "user"
  {
    assert Text.IsLower("user");
    Text.LowerOfLower("user");
  }

  /** Registration never adds an administrator, whatever the body holds. */
  lemma RegisterAddsNoAdmin(kdf: Security.Kdf, seen: Users, current: Users, body: Schemas.RegisterRequest,
                            salt: seq<Security.byte>, uuid: string, oid: string, createdAt: int, updatedAt: int)
    requires |salt| == Security.SaltBytes
    ensures var after := RegisterResult(kdf, seen, current, body, salt, uuid, oid, createdAt, updatedAt).1;
            forall e :: e in after && IsAdmin(after[e]) ==> e in current && IsAdmin(current[e])
  {
    RegisterOutcome(kdf, seen, current, body, salt, uuid, oid, createdAt, updatedAt);
    var res := RegisterResult(kdf, seen, current, body, salt, uuid, oid, createdAt, updatedAt);
    if res.0.Ok? {
      var email := NormaliseEmail(body.email);
      var h := Security.HashPassword(kdf, body.password, salt).value;
      NewUserRole(body, h, uuid, oid, createdAt, updatedAt);
      forall e | e in res.1 && IsAdmin(res.1[e])
        ensures e in current && IsAdmin(current[e])
      {
        if e == email {
          assert false;
        }
      }
    }
  }

  /** Whoever registered can log in with the same password under any spelling
      of the address that normalises alike, as a "user" with the new user_id. */
  lemma RegisterThenLogin(kdf: Security.Kdf, jwt: Security.Jwt, cfg: Security.Config, seen: Users, current: Users,
                          body: Schemas.RegisterRequest, salt: seq<Security.byte>, uuid: string, oid: string,
                          createdAt: int, updatedAt: int, username: string, nowMicros: int)
    requires |salt| == Security.SaltBytes && uuid != ""
    requires RegisterResult(kdf, seen, current, body, salt, uuid, oid, createdAt, updatedAt).0.Ok?
    requires NormaliseEmail(username) == NormaliseEmail(body.email)
    ensures var after := RegisterResult(kdf, seen, current, body, salt, uuid, oid, createdAt, updatedAt).1;
            var r := LoginResult(kdf, jwt, cfg, after, Schemas.LoginRequest(username, body.password), nowMicros);
            r.Ok? && r.value.role == "user" && r.value.userId == uuid && r.value.email == NormaliseEmail(body.email)
  {
    RegisterOutcome(kdf, seen, current, body, salt, uuid, oid, createdAt, updatedAt);
    var after := RegisterResult(kdf, seen, current, body, salt, uuid, oid, createdAt, updatedAt).1;
    var email := NormaliseEmail(body.email);
    var h := Security.HashPassword(kdf, body.password, salt).value;
    var doc := NewUser(body, h, uuid, oid, createdAt, updatedAt);
    assert after[email] == doc;
    Security.VerifyHashedPassword(kdf, body.password, salt);
    assert Security.VerifyPassword(kdf, body.password, doc.passwordHash.GetOr("")) == Ok(true);
    NewUserRole(body, h, uuid, oid, createdAt, updatedAt);
    assert LoginUserId(doc) == uuid;
    var login := Schemas.LoginRequest(username, body.password);
    assert Schemas.ValidateLogin(login) == Ok(login);
    assert Security.GenerateAccessToken(jwt, cfg, uuid, email, "user", None, nowMicros).Ok?;
  }

  /** Upper case and leading whitespace make no difference to the address,
      so "User@Example.com" and " user@example.com" are one account. */
  lemma NormaliseIgnoresCaseAndSpace(value: string)
    ensures NormaliseEmail(Text.Lower(value)) == NormaliseEmail(value)
    ensures NormaliseEmail(" " + value) == NormaliseEmail(value)
  {
    Text.StripLower(value);
    Text.LowerIdempotent(Text.Strip(value));
    Text.StripLeadingSpace(' ', value);
  }

  /** Once an address is registered, registering it again in lower case after
      a space is refused with 409. */
  lemma RespellingConflicts(kdf: Security.Kdf, users: Users, email: string, password: string,
                            salt: seq<Security.byte>, uuid: string, oid: string, t: int,
                            salt2: seq<Security.byte>, uuid2: string, oid2: string, t2: int)
    requires |salt| == Security.SaltBytes && |salt2| == Security.SaltBytes
    requires RegisterResult(kdf, users, users, Schemas.RegisterRequest(email, password), salt, uuid, oid, t, t).0.Ok?
    ensures var first := RegisterResult(kdf, users, users, Schemas.RegisterRequest(email, password), salt, uuid, oid, t, t);
            var respelt := Schemas.RegisterRequest(" " + Text.Lower(email), password);
            RegisterResult(kdf, first.1, first.1, respelt, salt2, uuid2, oid2, t2, t2).0
              == Err(Http.HttpError(Http.Conflict, EmailTaken))
  {
    var first := RegisterResult(kdf, users, users, Schemas.RegisterRequest(email, password), salt, uuid, oid, t, t);
    RegisterOutcome(kdf, users, users, Schemas.RegisterRequest(email, password), salt, uuid, oid, t, t);
    NormaliseIgnoresCaseAndSpace(Text.Lower(email));
    NormaliseIgnoresCaseAndSpace(email);
    RegisterConflict(kdf, first.1, first.1, Schemas.RegisterRequest(" " + Text.Lower(email), password),
                     salt2, uuid2, oid2, t2, t2);
  }
}
