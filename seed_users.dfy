/** The default accounts of the demo seeding (backend/app/seed.py): each
    entry is inserted unless its address is already taken, with a hashed
    password and its role. */
module SeedUsers {
  import opened Values
  import Text
  import Http
  import Security
  import Schemas
  import Auth
  import Admin

  /** An entry of DEFAULT_USERS; role None stands for an entry without one. */
  datatype DefaultUser = DefaultUser(email: string, password: string, fullName: Option<string>, role: Option<string>)

  const DemoEmail: string := "demo@eco.com"
  const AdminEmail: string := "admin@eco.com"

  const DemoUser: DefaultUser := DefaultUser(DemoEmail, "password", Some("Eco Demo"), Some("user"))
  const AdminUser: DefaultUser := DefaultUser(AdminEmail, "admin1234", Some("Eco Admin"), Some("admin"))

  const DefaultUsers: seq<DefaultUser> := [DemoUser, AdminUser]

  /** What seeding one user takes from outside: the salt of hash_password,
      uuid4(), the ObjectId of the insert and utcnow(). */
  datatype Supplies = Supplies(salt: seq<Security.byte>, uuid: string, oid: string, now: int)

  predicate Seedable(users: seq<DefaultUser>, supplies: seq<Supplies>) {
    && |supplies| == |users|
    && (forall i :: 0 <= i < |supplies| ==> |supplies[i].salt| == Security.SaltBytes)
    && (forall i :: 0 <= i < |users| ==> users[i].password != "")
  }

  /** The document ensure_seed_users inserts for one entry: the hash of the
      password, never the password, and the entry's role, "user" by default. */
  function SeedUserDoc(kdf: Security.Kdf, u: DefaultUser, f: Supplies): (doc: Auth.UserDoc)
    requires |f.salt| == Security.SaltBytes && u.password != ""
    ensures doc.email == u.email && doc.userId == Some(f.uuid)
    ensures doc.passwordHash == Some(Security.HashPassword(kdf, u.password, f.salt).value)
    ensures doc.role == Some(VStr(u.role.GetOr("user")))
    ensures doc.createdAt == doc.updatedAt == f.now && doc.lastLoginAt.None?
  {
    Auth.UserDoc(f.oid, Some(f.uuid), u.email, Some(Security.HashPassword(kdf, u.password, f.salt).value),
                 u.fullName, Some(VStr(u.role.GetOr("user"))), f.now, f.now, None)
  }

  /** One entry of the loop of ensure_seed_users: its document is inserted
      unless its address is taken. */
  function SeedInto(kdf: Security.Kdf, docs: Auth.Users, u: DefaultUser, f: Supplies): (r: Auth.Users)
    requires |f.salt| == Security.SaltBytes && u.password != ""
    ensures r.Keys == docs.Keys + {u.email}
    ensures forall e :: e in docs ==> r[e] == docs[e]
    ensures u.email !in docs ==> r[u.email] == SeedUserDoc(kdf, u, f)
    ensures Auth.KeyedByEmail(docs) ==> Auth.KeyedByEmail(r)
  {
    if u.email in docs then docs else docs[u.email := SeedUserDoc(kdf, u, f)]
  }

  /** The users collection after ensure_seed_users has gone through the given
      entries, built as its loop builds it, one entry at a time. */
  function SeededUsers(kdf: Security.Kdf, docs: Auth.Users, users: seq<DefaultUser>, supplies: seq<Supplies>): Auth.Users
    requires Seedable(users, supplies)
    decreases |users|
  {
    if users == [] then docs
    else
      var n := |users| - 1;
      assert forall i :: 0 <= i < n ==> users[..n][i] == users[i];
      SeedInto(kdf, SeededUsers(kdf, docs, users[..n], supplies[..n]), users[n], supplies[n])
  }

  lemma SeedablePrefix(users: seq<DefaultUser>, supplies: seq<Supplies>, n: int)
    requires Seedable(users, supplies) && 0 <= n <= |users|
    ensures Seedable(users[..n], supplies[..n])
  {
    assert forall i :: 0 <= i < n ==> users[..n][i] == users[i];
  }

  /** Seeding keeps every document already there. */
  lemma {:induction false} SeededKeepsOld(kdf: Security.Kdf, docs: Auth.Users, users: seq<DefaultUser>,
                                          supplies: seq<Supplies>)
    requires Seedable(users, supplies)
    ensures var r := SeededUsers(kdf, docs, users, supplies);
            docs.Keys <= r.Keys && forall e :: e in docs ==> r[e] == docs[e]
    decreases |users|
  {
    if users != [] {
      var n := |users| - 1;
      SeedablePrefix(users, supplies, n);
      SeededKeepsOld(kdf, docs, users[..n], supplies[..n]);
    }
  }

  /** The addresses of the entries. */
  function Emails(users: seq<DefaultUser>): (r: set<string>)
    ensures forall i :: 0 <= i < |users| ==> users[i].email in r
    decreases |users|
  {
    if users == [] then {}
    else
      var n := |users| - 1;
      assert forall i :: 0 <= i < n ==> users[..n][i] == users[i];
      Emails(users[..n]) + {users[n].email}
  }

  /** Every entry's address is in the seeded collection, and no other address
      is added. */
  lemma {:induction false} SeededKeys(kdf: Security.Kdf, docs: Auth.Users, users: seq<DefaultUser>,
                                      supplies: seq<Supplies>)
    requires Seedable(users, supplies)
    ensures SeededUsers(kdf, docs, users, supplies).Keys == docs.Keys + Emails(users)
    decreases |users|
  {
    if users != [] {
      var n := |users| - 1;
      SeedablePrefix(users, supplies, n);
      SeededKeys(kdf, docs, users[..n], supplies[..n]);
    }
  }

  /** Seeding keeps the collection keyed by address. */
  lemma {:induction false} SeededKeyed(kdf: Security.Kdf, docs: Auth.Users, users: seq<DefaultUser>,
                                       supplies: seq<Supplies>)
    requires Seedable(users, supplies) && Auth.KeyedByEmail(docs)
    ensures Auth.KeyedByEmail(SeededUsers(kdf, docs, users, supplies))
    decreases |users|
  {
    if users != [] {
      var n := |users| - 1;
      SeedablePrefix(users, supplies, n);
      SeededKeyed(kdf, docs, users[..n], supplies[..n]);
    }
  }

  /** Seeding a collection that already holds every entry's address changes
      nothing. */
  lemma {:induction false} SeedingKnownChangesNothing(kdf: Security.Kdf, docs: Auth.Users, users: seq<DefaultUser>,
                                                       supplies: seq<Supplies>)
    requires Seedable(users, supplies)
    requires Emails(users) <= docs.Keys
    ensures SeededUsers(kdf, docs, users, supplies) == docs
    decreases |users|
  {
    if users != [] {
      var n := |users| - 1;
      SeedablePrefix(users, supplies, n);
      SeedingKnownChangesNothing(kdf, docs, users[..n], supplies[..n]);
    }
  }

  /** A second run of ensure_seed_users inserts nothing. */
  lemma SeedUsersIdempotent(kdf: Security.Kdf, docs: Auth.Users, users: seq<DefaultUser>,
                            supplies1: seq<Supplies>, supplies2: seq<Supplies>)
    requires Seedable(users, supplies1) && Seedable(users, supplies2)
    ensures var once := SeededUsers(kdf, docs, users, supplies1);
            SeededUsers(kdf, once, users, supplies2) == once
  {
    SeededKeys(kdf, docs, users, supplies1);
    SeedingKnownChangesNothing(kdf, SeededUsers(kdf, docs, users, supplies1), users, supplies2);
  }

  /** One more entry of the loop: the prefix up to and including entry i. */
  lemma SeedStep(kdf: Security.Kdf, docs: Auth.Users, users: seq<DefaultUser>, supplies: seq<Supplies>, i: int)
    requires Seedable(users, supplies) && 0 <= i < |users|
    ensures Seedable(users[..i], supplies[..i]) && Seedable(users[..i + 1], supplies[..i + 1])
    ensures SeededUsers(kdf, docs, users[..i + 1], supplies[..i + 1])
         == SeedInto(kdf, SeededUsers(kdf, docs, users[..i], supplies[..i]), users[i], supplies[i])
  {
    SeedablePrefix(users, supplies, i);
    SeedablePrefix(users, supplies, i + 1);
    assert users[..i + 1][..i] == users[..i] && supplies[..i + 1][..i] == supplies[..i];
  }

  /** The body of the loop of ensure_seed_users. */
  method SeedOne(users: Auth.UsersCollection, kdf: Security.Kdf, user: DefaultUser, f: Supplies)
    requires users.Valid() && |f.salt| == Security.SaltBytes && user.password != ""
    modifies users
    ensures users.Valid()
    ensures users.docs == SeedInto(kdf, old(users.docs), user, f)
  {
    var existing := users.FindOne(user.email);
    if existing.None? {
      var inserted := users.InsertOne(SeedUserDoc(kdf, user, f));
    }
  }

  /** `ensure_seed_users`, `supplies[i]` being what the i-th entry takes from outside. */
  method EnsureSeedUsers(users: Auth.UsersCollection, kdf: Security.Kdf, supplies: seq<Supplies>)
    requires users.Valid() && Seedable(DefaultUsers, supplies)
    modifies users
    ensures users.Valid()
    ensures users.docs == SeededUsers(kdf, old(users.docs), DefaultUsers, supplies)
  {
    var i := 0;
    SeedStep(kdf, users.docs, DefaultUsers, supplies, 0);
    while i < |DefaultUsers|
      invariant 0 <= i <= |DefaultUsers| && users.Valid()
      invariant Seedable(DefaultUsers[..i], supplies[..i])
      invariant users.docs == SeededUsers(kdf, old(users.docs), DefaultUsers[..i], supplies[..i])
    {
      SeedStep(kdf, old(users.docs), DefaultUsers, supplies, i);
      SeedOne(users, kdf, DefaultUsers[i], supplies[i]);
      i := i + 1;
    }
    assert DefaultUsers[..i] == DefaultUsers && supplies[..i] == supplies;
  }

  /** Seeding an empty collection with two entries of different addresses
      inserts both. */
  lemma SeedPair(kdf: Security.Kdf, u0: DefaultUser, u1: DefaultUser, f0: Supplies, f1: Supplies)
    requires |f0.salt| == Security.SaltBytes && |f1.salt| == Security.SaltBytes
    requires u0.password != "" && u1.password != "" && u0.email != u1.email
    ensures Seedable([u0, u1], [f0, f1])
    ensures SeededUsers(kdf, map[], [u0, u1], [f0, f1])
            == map[u0.email := SeedUserDoc(kdf, u0, f0), u1.email := SeedUserDoc(kdf, u1, f1)]
  {
    var us, fs := [u0, u1], [f0, f1];
    assert us[..1] == [u0] && fs[..1] == [f0];
    assert [u0][..0] == [] && [f0][..0] == [];
    assert SeededUsers(kdf, map[], [u0], [f0]) == map[u0.email := SeedUserDoc(kdf, u0, f0)];
  }

  /** Seeding an empty collection creates exactly the two default accounts. */
  lemma SeededDefaults(kdf: Security.Kdf, supplies: seq<Supplies>)
    requires Seedable(DefaultUsers, supplies)
    ensures var docs := SeededUsers(kdf, map[], DefaultUsers, supplies);
            && docs.Keys == {DemoEmail, AdminEmail}
            && docs[DemoEmail] == SeedUserDoc(kdf, DemoUser, supplies[0])
            && docs[AdminEmail] == SeedUserDoc(kdf, AdminUser, supplies[1])
  {
    var f0, f1 := supplies[0], supplies[1];
    assert supplies == [f0, f1];
    SeedPair(kdf, DemoUser, AdminUser, f0, f1);
  }

  /** The demo account is stored as "user" and the admin one as "admin". */
  lemma SeededRoles(kdf: Security.Kdf, f0: Supplies, f1: Supplies)
    requires |f0.salt| == Security.SaltBytes && |f1.salt| == Security.SaltBytes
    ensures Auth.StoredRole(SeedUserDoc(kdf, DemoUser, f0)) == "user"
    ensures Auth.StoredRole(SeedUserDoc(kdf, AdminUser, f1)) == "admin"
  {
    LowerOfRoleNames();
  }

  lemma LowerOfRoleNames()
    ensures Text.Lower("user") == "user" && Text.Lower("admin") == "admin"
  {
    assert Text.IsLower("user") && Text.IsLower("admin");
    Text.LowerOfLower("user");
    Text.LowerOfLower("admin");
  }

  /** The seeded addresses are already in normal form. */
  lemma SeededAddressesNormal()
    ensures Auth.NormaliseEmail(DemoEmail) == DemoEmail && Auth.NormaliseEmail(AdminEmail) == AdminEmail
  {
    assert Text.NoOuterSpace(DemoEmail) && Text.IsLower(DemoEmail);
    assert Text.NoOuterSpace(AdminEmail) && Text.IsLower(AdminEmail);
    Text.StripNoOuterSpace(DemoEmail);
    Text.StripNoOuterSpace(AdminEmail);
    Text.LowerOfLower(DemoEmail);
    Text.LowerOfLower(AdminEmail);
  }

  /** After seeding an empty collection, the admin account logs in as
      "admin" and its token passes require_admin until it expires, while the
      demo account logs in as "user" and is forbidden. */
  lemma SeededAccountsAtTheGate(kdf: Security.Kdf, jwt: Security.Jwt, cfg: Security.Config,
                                supplies: seq<Supplies>, nowMicros: int, later: int)
    requires Seedable(DefaultUsers, supplies) && Security.SoundJwt(jwt)
    requires supplies[0].uuid != "" && supplies[1].uuid != ""
    ensures var docs := SeededUsers(kdf, map[], DefaultUsers, supplies);
            var admin := Auth.LoginResult(kdf, jwt, cfg, docs, Schemas.LoginRequest(AdminEmail, "admin1234"), nowMicros);
            var demo := Auth.LoginResult(kdf, jwt, cfg, docs, Schemas.LoginRequest(DemoEmail, "password"), nowMicros);
            var exp := Security.TimestampSeconds(nowMicros + Security.ExpiresDelta(cfg, None));
            && admin.Ok? && admin.value.role == "admin" && admin.value.userId == supplies[1].uuid
            && demo.Ok? && demo.value.role == "user" && demo.value.userId == supplies[0].uuid
            && (later < exp ==>
                  && Admin.RequireAdmin(jwt, cfg, Some(Admin.BearerOf(admin.value.accessToken)), later).Ok?
                  && Admin.RequireAdmin(jwt, cfg, Some(Admin.BearerOf(demo.value.accessToken)), later)
                       == Err(Http.HttpError(Http.Forbidden, Admin.AdminRequired)))
  {
    var docs := SeededUsers(kdf, map[], DefaultUsers, supplies);
    SeededDefaults(kdf, supplies);
    SeededRoles(kdf, supplies[0], supplies[1]);
    SeededAddressesNormal();
    SeededLogin(kdf, jwt, cfg, docs, AdminUser, supplies[1], nowMicros);
    SeededLogin(kdf, jwt, cfg, docs, DemoUser, supplies[0], nowMicros);
    Admin.AdminTokenAdmitted(jwt, cfg, supplies[1].uuid, AdminEmail, "admin", None, nowMicros, later);
    Admin.OtherTokensRefused(jwt, cfg, supplies[0].uuid, DemoEmail, "user", None, nowMicros, later);
  }

  /** A seeded account logs in with its own password, under its stored role. */
  lemma SeededLogin(kdf: Security.Kdf, jwt: Security.Jwt, cfg: Security.Config, docs: Auth.Users,
                    u: DefaultUser, s: Supplies, nowMicros: int)
    requires |s.salt| == Security.SaltBytes && |u.password| >= Schemas.MinPasswordLength && s.uuid != ""
    requires Auth.NormaliseEmail(u.email) == u.email
    requires u.email in docs && docs[u.email] == SeedUserDoc(kdf, u, s)
    ensures var r := Auth.LoginResult(kdf, jwt, cfg, docs, Schemas.LoginRequest(u.email, u.password), nowMicros);
            var role := Auth.StoredRole(docs[u.email]);
            && r.Ok? && r.value.role == role && r.value.userId == s.uuid
            && r.value.accessToken == Security.GenerateAccessToken(jwt, cfg, s.uuid, u.email, role, None, nowMicros).value
  {
    var body := Schemas.LoginRequest(u.email, u.password);
    assert Schemas.ValidateLogin(body) == Ok(body);
    Security.VerifyHashedPassword(kdf, u.password, s.salt);
    assert Auth.LoginUserId(docs[u.email]) == s.uuid;
  }
}
