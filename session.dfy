/** The client's login session (frontend/src/utils/auth.js): four keys kept
    either in localStorage ("remember me") or in sessionStorage, read back with
    the local value taking precedence.  Each storage call that throws (quota,
    privacy mode) is caught on its own: a getItem that throws reads as null, a
    setItem or removeItem that throws leaves the storage as it was. */
module Session {
  import opened Values
  import Text

  const AccessTokenKey: string := "swiftcart_access_token"
  const UserIdKey: string := "swiftcart_user_id"
  const UserEmailKey: string := "swiftcart_user_email"
  const UserRoleKey: string := "swiftcart_user_role"

  predicate IsAuthKey(k: string) {
    k == AccessTokenKey || k == UserIdKey || k == UserEmailKey || k == UserRoleKey
  }

  /** A JavaScript value handed to setItem: null, undefined, a string, or any
      other value, which storage keeps as its String(...) text. */
  datatype Js = JsNull | JsUndefined | JsString(s: string) | JsOther(shown: string)

  /** What a write leaves under its key: nothing for null and undefined,
      otherwise the value's text. */
  function Stored(v: Js): (r: Option<string>)
    ensures r.None? <==> v.JsNull? || v.JsUndefined?
    ensures v.JsString? ==> r == Some(v.s)
  {
    match v
    case JsNull => None
    case JsUndefined => None
    case JsString(s) => Some(s)
    case JsOther(shown) => Some(shown)
  }

  /** `typeof v === "string" ? v.trim().toLowerCase() : null`. */
  function Normalised(v: Js): (r: Js)
    ensures r.JsString? <==> v.JsString?
    ensures !r.JsString? ==> r.JsNull?
    ensures r.JsString? ==> Text.IsLower(r.s) && Text.NoOuterSpace(r.s)
  {
    match v
    case JsString(s) =>
      Text.LowerIsLower(Text.Strip(s));
      Text.LowerKeepsNoOuterSpace(Text.Strip(s));
      JsString(Text.Lower(Text.Strip(s)))
    case _ => JsNull
  }

  /** Which calls on one storage throw: getItem (privacy mode), setItem
      (quota or privacy mode) and removeItem, each on its own; readValue and
      writeValue catch each failure separately. */
  datatype Faults = Faults(getFails: bool, setFails: bool, removeFails: bool)

  const NoFaults: Faults := Faults(false, false, false)

  /** Every call on the storage throws. */
  const AllFail: Faults := Faults(true, true, true)

  /** `readValue`: getItem, or null when getItem throws. */
  function ReadValue(m: map<string, string>, getFails: bool, key: string): (r: Option<string>)
    ensures getFails ==> r.None?
    ensures !getFails ==> (r.Some? <==> key in m)
    ensures r.Some? ==> key in m && r.value == m[key]
  {
    if getFails || key !in m then None else Some(m[key])
  }

  /** Whether the call writeValue makes for v throws: removeItem for null and
      undefined, setItem otherwise. */
  predicate WriteFails(f: Faults, v: Js) {
    if Stored(v).None? then f.removeFails else f.setFails
  }

  /** `writeValue`: removeItem for null and undefined, setItem otherwise; a
      call that throws leaves the storage as it was. */
  function WriteValue(m: map<string, string>, f: Faults, key: string, v: Js): (r: map<string, string>)
    ensures WriteFails(f, v) ==> r == m
    ensures !WriteFails(f, v) ==> ReadValue(r, false, key) == Stored(v)
  {
    match Stored(v)
    case None => if f.removeFails then m else m - {key}
    case Some(s) => if f.setFails then m else m[key := s]
  }

  /** A write touches no other key. */
  lemma WriteValueFrame(m: map<string, string>, f: Faults, key: string, v: Js)
    ensures forall k :: k != key ==> ReadValue(WriteValue(m, f, key, v), false, k) == ReadValue(m, false, k)
  {
  }

  /** Whether a window exists and which calls of its two storages throw. */
  datatype Env = Env(hasWindow: bool, local: Faults, session: Faults)

  datatype Stores = Stores(local: map<string, string>, session: map<string, string>)

  /** `a ?? b` for getItem results. */
  function Coalesce(a: Option<string>, b: Option<string>): Option<string> {
    if a.Some? then a else b
  }

  /** The four getters: null without a window, else the local value if there
      is one, else the session value. */
  function Lookup(env: Env, st: Stores, key: string): Option<string> {
    if !env.hasWindow then None
    else Coalesce(ReadValue(st.local, env.local.getFails, key), ReadValue(st.session, env.session.getFails, key))
  }

  /** The four writes of setAuthSession into one storage. */
  function WriteAuth(m: map<string, string>, f: Faults, token: Js, userId: Js, email: Js, role: Js): map<string, string> {
    var m1 := WriteValue(m, f, AccessTokenKey, token);
    var m2 := WriteValue(m1, f, UserIdKey, userId);
    var m3 := WriteValue(m2, f, UserEmailKey, email);
    WriteValue(m3, f, UserRoleKey, role)
  }

  /** The four removals into one storage: WriteAuth with every value null. */
  function ClearAuth(m: map<string, string>, f: Faults): map<string, string> {
    WriteAuth(m, f, JsNull, JsNull, JsNull, JsNull)
  }

  /** The storages after `setAuthSession`. */
  function SetSession(env: Env, st: Stores, token: Js, userId: Js, remember: bool, email: Js, role: Js): Stores {
    if !env.hasWindow then st
    else if remember then
      Stores(WriteAuth(st.local, env.local, token, userId, Normalised(email), Normalised(role)),
             ClearAuth(st.session, env.session))
    else
      Stores(ClearAuth(st.local, env.local),
             WriteAuth(st.session, env.session, token, userId, Normalised(email), Normalised(role)))
  }

  /** The storages after `clearAuthSession`. */
  function ClearSession(env: Env, st: Stores): Stores {
    if !env.hasWindow then st
    else Stores(ClearAuth(st.local, env.local), ClearAuth(st.session, env.session))
  }

  /** What one storage holds under each auth key after WriteAuth: the value
      written when its call succeeds, the old value when it throws; every
      other key is left alone. */
  lemma WriteAuthReads(m: map<string, string>, f: Faults, token: Js, userId: Js, email: Js, role: Js)
    ensures var r := WriteAuth(m, f, token, userId, email, role);
      && ReadValue(r, false, AccessTokenKey) == (if WriteFails(f, token) then ReadValue(m, false, AccessTokenKey) else Stored(token))
      && ReadValue(r, false, UserIdKey) == (if WriteFails(f, userId) then ReadValue(m, false, UserIdKey) else Stored(userId))
      && ReadValue(r, false, UserEmailKey) == (if WriteFails(f, email) then ReadValue(m, false, UserEmailKey) else Stored(email))
      && ReadValue(r, false, UserRoleKey) == (if WriteFails(f, role) then ReadValue(m, false, UserRoleKey) else Stored(role))
    ensures forall k :: !IsAuthKey(k) ==> ReadValue(WriteAuth(m, f, token, userId, email, role), false, k) == ReadValue(m, false, k)
  {
    var m1 := WriteValue(m, f, AccessTokenKey, token);
    var m2 := WriteValue(m1, f, UserIdKey, userId);
    var m3 := WriteValue(m2, f, UserEmailKey, email);
    var m4 := WriteValue(m3, f, UserRoleKey, role);
    WriteValueFrame(m, f, AccessTokenKey, token);
    WriteValueFrame(m1, f, UserIdKey, userId);
    WriteValueFrame(m2, f, UserEmailKey, email);
    WriteValueFrame(m3, f, UserRoleKey, role);
    assert ReadValue(m4, false, AccessTokenKey) == ReadValue(m1, false, AccessTokenKey);
    assert ReadValue(m4, false, UserIdKey) == ReadValue(m2, false, UserIdKey);
    assert ReadValue(m4, false, UserEmailKey) == ReadValue(m3, false, UserEmailKey);
  }

  /** After the four removals an auth key reads null, unless removeItem throws
      while getItem works: then it still reads the old value. */
  lemma ClearedReadsNull(m: map<string, string>, f: Faults, key: string)
    requires IsAuthKey(key)
    ensures !f.removeFails || f.getFails ==> ReadValue(ClearAuth(m, f), f.getFails, key).None?
    ensures f.removeFails && !f.getFails ==> ReadValue(ClearAuth(m, f), f.getFails, key) == ReadValue(m, false, key)
  {
    WriteAuthReads(m, f, JsNull, JsNull, JsNull, JsNull);
  }

  /** The getters prefer a local value and fall back to the session value. */
  lemma LookupPrecedence(env: Env, st: Stores, key: string)
    requires env.hasWindow
    ensures !env.local.getFails && key in st.local ==> Lookup(env, st, key) == Some(st.local[key])
    ensures env.local.getFails || key !in st.local ==> Lookup(env, st, key) == ReadValue(st.session, env.session.getFails, key)
    ensures Lookup(env, st, key).None? <==>
      ReadValue(st.local, env.local.getFails, key).None? && ReadValue(st.session, env.session.getFails, key).None?
  {
  }

  /** After setAuthSession the getters return what was written, in either
      branch, as long as the storage chosen does not throw and the keys of
      the other one can be removed or cannot be read. */
  lemma SetThenGet(env: Env, st: Stores, token: Js, userId: Js, remember: bool, email: Js, role: Js)
    requires env.hasWindow
    requires remember ==> env.local == NoFaults && (!env.session.removeFails || env.session.getFails)
    requires !remember ==> env.session == NoFaults && (!env.local.removeFails || env.local.getFails)
    ensures Lookup(env, SetSession(env, st, token, userId, remember, email, role), AccessTokenKey) == Stored(token)
    ensures Lookup(env, SetSession(env, st, token, userId, remember, email, role), UserIdKey) == Stored(userId)
    ensures Lookup(env, SetSession(env, st, token, userId, remember, email, role), UserEmailKey) == Stored(Normalised(email))
    ensures Lookup(env, SetSession(env, st, token, userId, remember, email, role), UserRoleKey) == Stored(Normalised(role))
  {
    var ne, nr := Normalised(email), Normalised(role);
    if remember {
      WriteAuthReads(st.local, env.local, token, userId, ne, nr);
      WriteAuthReads(st.session, env.session, JsNull, JsNull, JsNull, JsNull);
    } else {
      WriteAuthReads(st.local, env.local, JsNull, JsNull, JsNull, JsNull);
      WriteAuthReads(st.session, env.session, token, userId, ne, nr);
    }
  }

  /** `remember` decides the storage: the other one is left without any auth
      key (when removeItem works there). */
  lemma RememberChoosesStore(env: Env, st: Stores, token: Js, userId: Js, remember: bool, email: Js, role: Js, key: string)
    requires env.hasWindow && IsAuthKey(key)
    ensures remember && !env.session.removeFails ==> key !in SetSession(env, st, token, userId, remember, email, role).session
    ensures !remember && !env.local.removeFails ==> key !in SetSession(env, st, token, userId, remember, email, role).local
  {
    WriteAuthReads(st.local, env.local, JsNull, JsNull, JsNull, JsNull);
    WriteAuthReads(st.session, env.session, JsNull, JsNull, JsNull, JsNull);
  }

  /** No storage changes outside the four keys. */
  lemma SetKeepsOtherKeys(env: Env, st: Stores, token: Js, userId: Js, remember: bool, email: Js, role: Js, key: string)
    requires !IsAuthKey(key)
    ensures var r := SetSession(env, st, token, userId, remember, email, role);
      ReadValue(r.local, false, key) == ReadValue(st.local, false, key) &&
      ReadValue(r.session, false, key) == ReadValue(st.session, false, key)
  {
    var ne, nr := Normalised(email), Normalised(role);
    WriteAuthReads(st.local, env.local, token, userId, ne, nr);
    WriteAuthReads(st.session, env.session, token, userId, ne, nr);
    WriteAuthReads(st.local, env.local, JsNull, JsNull, JsNull, JsNull);
    WriteAuthReads(st.session, env.session, JsNull, JsNull, JsNull, JsNull);
  }

  /** A remembered login into a localStorage on which every call throws
      leaves the user signed out: nothing can be read from local storage and
      session storage is cleared (or cannot be read either). */
  lemma RememberIntoFailingLocal(env: Env, st: Stores, token: Js, userId: Js, email: Js, role: Js, key: string)
    requires env.hasWindow && env.local == AllFail && IsAuthKey(key)
    requires !env.session.removeFails || env.session.getFails
    ensures Lookup(env, SetSession(env, st, token, userId, true, email, role), key).None?
  {
    ClearedReadsNull(st.session, env.session, key);
  }

  /** A remembered login into a full localStorage, where setItem throws but
      getItem works, keeps answering with the token an earlier login left
      there, and without one falls back to the cleared session storage. */
  lemma RememberIntoFullLocal(env: Env, st: Stores, token: Js, userId: Js, email: Js, role: Js)
    requires env.hasWindow && !env.local.getFails && env.local.setFails
    requires Stored(token).Some?
    ensures AccessTokenKey in st.local ==>
      Lookup(env, SetSession(env, st, token, userId, true, email, role), AccessTokenKey) == Some(st.local[AccessTokenKey])
    ensures AccessTokenKey !in st.local && (!env.session.removeFails || env.session.getFails) ==>
      Lookup(env, SetSession(env, st, token, userId, true, email, role), AccessTokenKey).None?
  {
    WriteAuthReads(st.local, env.local, token, userId, Normalised(email), Normalised(role));
    ClearedReadsNull(st.session, env.session, AccessTokenKey);
  }

  /** After clearAuthSession every getter returns null, as long as removeItem
      works on every storage whose getItem does. */
  lemma ClearThenGet(env: Env, st: Stores, key: string)
    requires IsAuthKey(key)
    requires !env.local.removeFails || env.local.getFails
    requires !env.session.removeFails || env.session.getFails
    ensures Lookup(env, ClearSession(env, st), key).None?
  {
    ClearedReadsNull(st.local, env.local, key);
    ClearedReadsNull(st.session, env.session, key);
  }

  /** The browser's two storages as the helpers in auth.js change them. */
  class Browser {
    const env: Env
    var local: map<string, string>
    var session: map<string, string>

    constructor(env: Env, local: map<string, string>, session: map<string, string>)
      ensures this.env == env && this.local == local && this.session == session
    {
      this.env := env;
      this.local := local;
      this.session := session;
    }

    function Contents(): Stores
      reads this
    {
      Stores(local, session)
    }

    /** `getAccessToken`, `getUserId`, `getUserEmail`, `getUserRole`. */
    function Get(key: string): (r: Option<string>)
      reads this
      ensures !env.hasWindow ==> r.None?
      ensures r.Some? ==> (key in local && r.value == local[key] && !env.local.getFails) ||
                          (key in session && r.value == session[key] && !env.session.getFails)
    {
      Lookup(env, Contents(), key)
    }

    /** `writeValue(window.localStorage, key, v)` or the same on sessionStorage. */
    method Write(toLocal: bool, key: string, v: Js)
      modifies this
      ensures toLocal ==> local == WriteValue(old(local), env.local, key, v) && session == old(session)
      ensures !toLocal ==> session == WriteValue(old(session), env.session, key, v) && local == old(local)
    {
      var faults := if toLocal then env.local else env.session;
      if WriteFails(faults, v) {
        return;
      }
      if toLocal {
        local := WriteValue(local, NoFaults, key, v);
      } else {
        session := WriteValue(session, NoFaults, key, v);
      }
    }

    /** Four consecutive writeValue calls on one storage. */
    method WriteFour(toLocal: bool, token: Js, userId: Js, email: Js, role: Js)
      modifies this
      ensures toLocal ==> local == WriteAuth(old(local), env.local, token, userId, email, role) && session == old(session)
      ensures !toLocal ==> session == WriteAuth(old(session), env.session, token, userId, email, role) && local == old(local)
    {
      Write(toLocal, AccessTokenKey, token);
      Write(toLocal, UserIdKey, userId);
      Write(toLocal, UserEmailKey, email);
      Write(toLocal, UserRoleKey, role);
    }

    method SetAuthSession(token: Js, userId: Js, remember: bool, email: Js, role: Js)
      modifies this
      ensures Contents() == SetSession(env, old(Contents()), token, userId, remember, email, role)
    {
      if !env.hasWindow {
        return;
      }
      var normalisedEmail := Normalised(email);
      var normalisedRole := Normalised(role);
      WriteFour(remember, token, userId, normalisedEmail, normalisedRole);
      WriteFour(!remember, JsNull, JsNull, JsNull, JsNull);
    }

    method ClearAuthSession()
      modifies this
      ensures Contents() == ClearSession(env, old(Contents()))
    {
      if !env.hasWindow {
        return;
      }
      WriteFour(true, JsNull, JsNull, JsNull, JsNull);
      WriteFour(false, JsNull, JsNull, JsNull, JsNull);
    }
  }
}
