/** Password hashing and access tokens (backend/app/security.py).

    PBKDF2-HMAC-SHA256 and PyJWT are foreign libraries: the key derivation is
    a function-typed parameter (any deterministic function of its inputs), and
    PyJWT is a pair of functions whose guarantees are stated once, as the
    ghost predicate SoundJwt.  Salts and the clock are parameters. */
module Security {
  import opened Values
  import Text
  import Base64

  type byte = Base64.byte

  const Pbkdf2Algorithm: string := "sha256"
  const Pbkdf2Iterations: nat := 310000
  const SaltBytes: nat := 16
  const DefaultSecretKey: string := "change-me"
  const DefaultAlgorithm: string := "HS256"
  const DefaultExpiresMinutes: int := 120
  const MicrosPerSecond: int := 1000000

  /** `hashlib.pbkdf2_hmac(algorithm, password.encode("utf-8"), salt, iterations)`. */
  type Kdf = (string, string, seq<byte>, nat) -> seq<byte>

  /** ValueError, TokenDecodeError, and the binascii.Error that b64decode raises. */
  datatype Error = ValueError(message: string) | TokenDecodeError(message: string) | Base64Error

  const PasswordRequired: string := "password must be a non-empty string"
  const UserIdRequired: string := "user_id is required to generate an access token"
  const TokenMissing: string := "access token is missing"
  const TokenInvalid: string := "access token is invalid"

  /** The module-level settings read from the environment at import. */
  datatype Config = Config(secretKey: string, algorithm: string, expiresMinutes: int)

  /** `os.getenv(name, default)`. */
  function Getenv(env: map<string, string>, name: string, default: string): string {
    if name in env then env[name] else default
  }

  lemma ParseDefaultMinutes()
    ensures ParseInt("120") == Some(120)
  {
    var d := "120";
    assert IsDigit(d[0]) && IsDigit(d[1]) && IsDigit(d[2]);
    Values.ParseUnsigned(d);
    DigitsOfDefault();
  }

  lemma DigitsOfDefault()
    ensures DigitsValue("120") == 120
  {
    assert DigitsValue("1") == 1 by {
      assert "1"[..0] == "";
    }
    assert DigitsValue("12") == 12 by {
      assert "12"[..1] == "1";
    }
    assert "120"[..2] == "12";
  }

  /** The module constants: each falls back to its default when unset, and the
      token lifetime also falls back to 120 minutes when it is not an integer. */
  function LoadConfig(env: map<string, string>): (c: Config)
    ensures "JWT_SECRET_KEY" !in env ==> c.secretKey == DefaultSecretKey
    ensures "JWT_ALGORITHM" !in env ==> c.algorithm == DefaultAlgorithm
    ensures "JWT_ACCESS_TOKEN_EXPIRES_MINUTES" !in env ==> c.expiresMinutes == 120
    ensures "JWT_ACCESS_TOKEN_EXPIRES_MINUTES" in env ==>
      c.expiresMinutes == ParseInt(env["JWT_ACCESS_TOKEN_EXPIRES_MINUTES"]).GetOr(120)
  {
    var minutes := ParseInt(Getenv(env, "JWT_ACCESS_TOKEN_EXPIRES_MINUTES", "120"));
    assert "JWT_ACCESS_TOKEN_EXPIRES_MINUTES" !in env ==> minutes == Some(120) by {
      ParseDefaultMinutes();
    }
    Config(Getenv(env, "JWT_SECRET_KEY", DefaultSecretKey),
           Getenv(env, "JWT_ALGORITHM", DefaultAlgorithm),
           match minutes case Some(m) => m case None => DefaultExpiresMinutes)
  }

  // ---------------------------------------------------------------- hashing

  function Derive(kdf: Kdf, password: string, salt: seq<byte>): seq<byte> {
    kdf(Pbkdf2Algorithm, password, salt, Pbkdf2Iterations)
  }

  /** `encoded_hash.split("$", 1)` unpacked into two names: None where the
      unpacking raises ValueError (no '$'). */
  function SplitHash(encoded: string): (r: Option<(string, string)>)
    ensures r.None? <==> '$' !in encoded
    ensures r.Some? ==> encoded == r.value.0 + "$" + r.value.1 && '$' !in r.value.0
  {
    var i := Text.Find(encoded, '$');
    if i == -1 then None
    else
      assert encoded == encoded[..i] + "$" + encoded[i + 1..];
      Some((encoded[..i], encoded[i + 1..]))
  }

  /** Splitting at the first '$' undoes joining with '$' when the left part has none. */
  lemma {:induction false} SplitJoin(a: string, b: string)
    requires '$' !in a
    ensures SplitHash(a + "$" + b) == Some((a, b))
  {
    var s := a + "$" + b;
    var r := SplitHash(s);
    Text.FindAfter(a, '$', b);
    assert r.value.0 == s[..|a|] == a;
    assert r.value.1 == s[|a| + 1..] == b;
  }

  /** No base64 symbol or pad is a '$'. */
  lemma EncodingHasNoDollar(b: seq<byte>)
    ensures '$' !in Base64.Encode(b)
  {
  }

  /** `hash_password`: base64(salt) + "$" + base64(digest); ValueError for the
      empty password.  The salt is the 16 random bytes of secrets.token_bytes. */
  function HashPassword(kdf: Kdf, password: string, salt: seq<byte>): (r: Result<string, Error>)
    requires |salt| == SaltBytes
    ensures r.Err? <==> password == ""
    ensures r.Err? ==> r.error == ValueError(PasswordRequired)
    ensures r.Ok? ==> SplitHash(r.value) == Some((Base64.Encode(salt), Base64.Encode(Derive(kdf, password, salt))))
  {
    if password == "" then Err(ValueError(PasswordRequired))
    else
      var saltText, digestText := Base64.Encode(salt), Base64.Encode(Derive(kdf, password, salt));
      EncodingHasNoDollar(salt);
      SplitJoin(saltText, digestText);
      Ok(saltText + "$" + digestText)
  }

  /** `verify_password`.  False for an empty password, an empty hash or a hash
      without '$'; a part that is not base64 raises (Base64Error), as in the
      source, which does not catch it. */
  function VerifyPassword(kdf: Kdf, password: string, encoded: string): (r: Result<bool, Error>)
    ensures password == "" || encoded == "" || '$' !in encoded ==> r == Ok(false)
    ensures r.Err? ==> r.error == Base64Error
    ensures r == Ok(true) ==> password != "" && '$' in encoded
  {
    if password == "" || encoded == "" then Ok(false)
    else match SplitHash(encoded)
      case None => Ok(false)
      case Some((saltText, digestText)) =>
        match Base64.Decode(saltText)
        case None => Err(Base64Error)
        case Some(salt) =>
          match Base64.Decode(digestText)
          case None => Err(Base64Error)
          case Some(expected) => Ok(Derive(kdf, password, salt) == expected)
  }

  /** A password verifies against its own hash. */
  lemma VerifyHashedPassword(kdf: Kdf, password: string, salt: seq<byte>)
    requires |salt| == SaltBytes && password != ""
    ensures HashPassword(kdf, password, salt).Ok?
    ensures VerifyPassword(kdf, password, HashPassword(kdf, password, salt).value) == Ok(true)
  {
    Base64.DecodeEncode(salt);
    Base64.DecodeEncode(Derive(kdf, password, salt));
  }

  /** Another password verifies against the hash exactly when the derivation
      cannot tell the two apart under that salt. */
  lemma VerifyOtherPassword(kdf: Kdf, password: string, other: string, salt: seq<byte>)
    requires |salt| == SaltBytes && password != ""
    ensures HashPassword(kdf, password, salt).Ok?
    ensures VerifyPassword(kdf, other, HashPassword(kdf, password, salt).value)
         == Ok(other != "" && Derive(kdf, other, salt) == Derive(kdf, password, salt))
  {
    Base64.DecodeEncode(salt);
    Base64.DecodeEncode(Derive(kdf, password, salt));
  }

  /** Two different salts give two different encodings of the same password. */
  lemma HashDependsOnSalt(kdf: Kdf, password: string, salt1: seq<byte>, salt2: seq<byte>)
    requires |salt1| == SaltBytes && |salt2| == SaltBytes && password != "" && salt1 != salt2
    ensures HashPassword(kdf, password, salt1) != HashPassword(kdf, password, salt2)
  {
    Base64.DecodeEncode(salt1);
    Base64.DecodeEncode(salt2);
  }

  // ----------------------------------------------------------------- tokens

  type Claims = map<string, Value>

  /** PyJWT: `jwt.encode(payload, key, algorithm)` and
      `jwt.decode(token, key, algorithms=[algorithm])` at time `now` (seconds);
      decode is None where PyJWT raises InvalidTokenError. */
  datatype Jwt = Jwt(encode: (Claims, string, string) -> string,
                     decode: (string, string, string, int) -> Option<Claims>)

  /** What the library guarantees: a token it encoded decodes, under the same
      key and algorithm, to the same claims until its "exp" second is reached;
      it never encodes to the empty string, nor to one with outer whitespace
      (a compact JWS is base64url text and dots); and it accepts no token that
      is not its own encoding of the claims it returns (a changed signature
      fails). */
  ghost predicate SoundJwt(jwt: Jwt) {
    && (forall c: Claims, key: string, alg: string ::
          jwt.encode(c, key, alg) != "" && Text.NoOuterSpace(jwt.encode(c, key, alg)))
    && (forall c: Claims, key: string, alg: string, now: int :: jwt.decode(jwt.encode(c, key, alg), key, alg, now) ==
          if "exp" in c && c["exp"].VInt? && c["exp"].i <= now then None else Some(c))
    && (forall t: string, key: string, alg: string, now: int :: jwt.decode(t, key, alg, now).Some? ==>
          t == jwt.encode(jwt.decode(t, key, alg, now).value, key, alg))
  }

  /** `int(dt.timestamp())` for a time given in microseconds since the epoch:
      the conversion truncates toward zero. */
  function TimestampSeconds(micros: int): int {
    if micros >= 0 then micros / MicrosPerSecond else -((-micros) / MicrosPerSecond)
  }

  /** The payload `generate_access_token` signs. */
  function AccessClaims(userId: string, email: string, role: string, nowMicros: int, deltaMicros: int): (c: Claims)
    ensures c.Keys == {"sub", "email", "role", "iat", "exp"}
    ensures c["sub"] == VStr(userId)
    ensures c["email"] == VStr(Text.Lower(email)) && c["role"] == VStr(Text.Lower(role))
    ensures c["iat"].VInt? && c["exp"].VInt?
  {
    map["sub" := VStr(userId),
        "email" := VStr(Text.Lower(email)),
        "role" := VStr(Text.Lower(role)),
        "iat" := VInt(TimestampSeconds(nowMicros)),
        "exp" := VInt(TimestampSeconds(nowMicros + deltaMicros))]
  }

  lemma WholeSecondsDifference(now: int, delta: int)
    requires now >= 0 && now + delta >= 0 && delta % MicrosPerSecond == 0
    ensures TimestampSeconds(now + delta) - TimestampSeconds(now) == delta / MicrosPerSecond
  {
    var q, r := now / MicrosPerSecond, now % MicrosPerSecond;
    var d := delta / MicrosPerSecond;
    assert now + delta == (q + d) * MicrosPerSecond + r;
  }

  /** For a lifetime of whole seconds, "exp" - "iat" is that many seconds. */
  lemma ClaimsLifetime(userId: string, email: string, role: string, nowMicros: int, deltaMicros: int)
    requires nowMicros >= 0 && nowMicros + deltaMicros >= 0 && deltaMicros % MicrosPerSecond == 0
    ensures AccessClaims(userId, email, role, nowMicros, deltaMicros)["exp"].i
          - AccessClaims(userId, email, role, nowMicros, deltaMicros)["iat"].i == deltaMicros / MicrosPerSecond
  {
    WholeSecondsDifference(nowMicros, deltaMicros);
  }

  /** The lifetime used when the caller gives none: the configured minutes. */
  function ExpiresDelta(cfg: Config, expiresDelta: Option<int>): (d: int)
    ensures expiresDelta.None? ==> d == cfg.expiresMinutes * 60 * MicrosPerSecond
    ensures expiresDelta.Some? ==> d == expiresDelta.value
  {
    match expiresDelta
    case Some(d) => d
    case None => cfg.expiresMinutes * 60 * MicrosPerSecond
  }

  /** `generate_access_token`: ValueError for an empty user_id, otherwise the
      signed AccessClaims. */
  function GenerateAccessToken(jwt: Jwt, cfg: Config, userId: string, email: string, role: string,
                               expiresDelta: Option<int>, nowMicros: int): (r: Result<string, Error>)
    ensures r.Err? <==> userId == ""
    ensures r.Err? ==> r.error == ValueError(UserIdRequired)
    ensures r.Ok? ==> r.value == jwt.encode(AccessClaims(userId, email, role, nowMicros, ExpiresDelta(cfg, expiresDelta)),
                                           cfg.secretKey, cfg.algorithm)
  {
    if userId == "" then Err(ValueError(UserIdRequired))
    else Ok(jwt.encode(AccessClaims(userId, email, role, nowMicros, ExpiresDelta(cfg, expiresDelta)),
                       cfg.secretKey, cfg.algorithm))
  }

  /** Lower-cases the "role" and "email" claims where they are strings. */
  function NormaliseClaims(p: Claims): (r: Claims)
    ensures r.Keys == p.Keys
    ensures forall k :: k in p && k != "role" && k != "email" ==> r[k] == p[k]
    ensures forall k :: k in p && (k == "role" || k == "email") ==>
      r[k] == (if p[k].VStr? then VStr(Text.Lower(p[k].s)) else p[k])
  {
    map k | k in p :: if (k == "role" || k == "email") && p[k].VStr? then VStr(Text.Lower(p[k].s)) else p[k]
  }

  /** `decode_access_token` at time `now` (seconds). */
  function DecodeAccessToken(jwt: Jwt, cfg: Config, token: string, now: int): (r: Result<Claims, Error>)
    ensures token == "" ==> r == Err(TokenDecodeError(TokenMissing))
    ensures token != "" && jwt.decode(token, cfg.secretKey, cfg.algorithm, now).None? ==>
      r == Err(TokenDecodeError(TokenInvalid))
    ensures r.Err? ==> r.error.TokenDecodeError?
    ensures r.Ok? ==>
      && jwt.decode(token, cfg.secretKey, cfg.algorithm, now).Some?
      && r.value == NormaliseClaims(jwt.decode(token, cfg.secretKey, cfg.algorithm, now).value)
  {
    if token == "" then Err(TokenDecodeError(TokenMissing))
    else match jwt.decode(token, cfg.secretKey, cfg.algorithm, now)
      case None => Err(TokenDecodeError(TokenInvalid))
      case Some(payload) => Ok(NormaliseClaims(payload))
  }

  lemma NormaliseIssuedClaims(userId: string, email: string, role: string, nowMicros: int, deltaMicros: int)
    ensures NormaliseClaims(AccessClaims(userId, email, role, nowMicros, deltaMicros))
         == AccessClaims(userId, email, role, nowMicros, deltaMicros)
  {
    Text.LowerIdempotent(email);
    Text.LowerIdempotent(role);
  }

  /** An issued token decodes to the claims it was issued with strictly before
      its "exp" second, and is rejected as invalid from that second on. */
  lemma IssueThenDecode(jwt: Jwt, cfg: Config, userId: string, email: string, role: string,
                        expiresDelta: Option<int>, nowMicros: int, later: int)
    requires SoundJwt(jwt) && userId != ""
    ensures GenerateAccessToken(jwt, cfg, userId, email, role, expiresDelta, nowMicros).Ok?
    ensures var c := AccessClaims(userId, email, role, nowMicros, ExpiresDelta(cfg, expiresDelta));
            var t := GenerateAccessToken(jwt, cfg, userId, email, role, expiresDelta, nowMicros).value;
            DecodeAccessToken(jwt, cfg, t, later) ==
              if later < c["exp"].i then Ok(c) else Err(TokenDecodeError(TokenInvalid))
  {
    NormaliseIssuedClaims(userId, email, role, nowMicros, ExpiresDelta(cfg, expiresDelta));
  }

  /** A token the library did not encode under the configured key and
      algorithm is never accepted. */
  lemma ForeignTokenRejected(jwt: Jwt, cfg: Config, token: string, now: int)
    requires SoundJwt(jwt)
    requires forall c :: jwt.encode(c, cfg.secretKey, cfg.algorithm) != token
    ensures DecodeAccessToken(jwt, cfg, token, now).Err?
  {
  }
}
