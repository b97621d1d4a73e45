/**
  The cookie-backed session: a map of values under string keys plus the
  max-age the cookie is saved with, and the client's cookie jar that carries
  the saved values from one request to the next.
 */
module Sessions {
  import opened Wrappers

  /** The dynamic values the handlers store: booleans, integers and strings. */
  datatype Value = Bool(b: bool) | Int(i: int) | Str(s: string)

  datatype Session = Session(values: map<string, Value>, maxAge: int)

  const IsLoginKey := "isLogin"
  const IdKey := "id"
  const NameKey := "name"
  const EmailKey := "email"
  const StatusKey := "status"
  const MessageKey := "message"

  /**
    The max-age every session starts a request with: the cookie store's
    default of 30 days. The options are not part of the cookie, so a max-age
    set by one handler does not carry over to the next request.
   */
  const StoreMaxAge := 86400 * 30
  /** Three hours, set on a successful login. */
  const LoginMaxAge := 10800
  /** A negative max-age makes the client delete the cookie. */
  const ExpireMaxAge := -1

  /** `sess.Values[key]`, with an absent key read as no value. */
  function Get(s: Session, key: string): (v: Option<Value>)
    ensures v.Some? <==> key in s.values
    ensures v.Some? ==> s.values[key] == v.value
  {
    if key in s.values then Some(s.values[key]) else None
  }

  /** `sess.Values["isLogin"] != true` is false: the stored value is the boolean true. */
  predicate LoggedIn(s: Session) {
    Get(s, IsLoginKey) == Some(Bool(true))
  }

  /**
    The shape the login handler gives a session: whenever the login flag is
    true, the name is a string and the id an integer. The home page and the
    add-project handler rely on it in their type assertions.
   */
  predicate Consistent(s: Session) {
    LoggedIn(s) ==> (NameKey in s.values && s.values[NameKey].Str? && IdKey in s.values && s.values[IdKey].Int?)
  }

  /** The flash pair a page shows: whatever is stored under "status" and "message". */
  datatype Flash = Flash(status: Option<Value>, message: Option<Value>)

  /** Sets `key` and keeps every other key and the max-age. */
  function Put(s: Session, key: string, v: Value): (r: Session)
    ensures Get(r, key) == Some(v)
    ensures forall k :: k != key ==> Get(r, k) == Get(s, k)
    ensures r.values.Keys == s.values.Keys + {key}
    ensures r.maxAge == s.maxAge
  {
    Session(s.values[key := v], s.maxAge)
  }

  /**
    Read-then-delete of the flash: the pair as stored, and the session with
    both keys removed and every other key and the max-age unchanged.
   */
  function ConsumeFlash(s: Session): (r: (Flash, Session))
    ensures r.0 == Flash(Get(s, StatusKey), Get(s, MessageKey))
    ensures r.1.values.Keys == s.values.Keys - {StatusKey, MessageKey}
    ensures forall k :: k != StatusKey && k != MessageKey ==> Get(r.1, k) == Get(s, k)
    ensures r.1.maxAge == s.maxAge
  {
    (Flash(Get(s, StatusKey), Get(s, MessageKey)), Session(s.values - {MessageKey, StatusKey}, s.maxAge))
  }

  /** A flash is shown once: consuming again finds nothing. */
  lemma ConsumeFlashTwice(s: Session)
    ensures ConsumeFlash(ConsumeFlash(s).1).0 == Flash(None, None)
    ensures ConsumeFlash(ConsumeFlash(s).1).1 == ConsumeFlash(s).1
  {
  }

  /** Removing the flash keeps the login keys, so it keeps a session consistent. */
  lemma ConsumeFlashConsistent(s: Session)
    requires Consistent(s)
    ensures Consistent(ConsumeFlash(s).1)
  {
    assert Get(ConsumeFlash(s).1, IsLoginKey) == Get(s, IsLoginKey);
    assert Get(ConsumeFlash(s).1, NameKey) == Get(s, NameKey);
    assert Get(ConsumeFlash(s).1, IdKey) == Get(s, IdKey);
  }

  // ---- The client's cookie jar -------------------------------------------

  /** The session cookie the client holds: the saved values, or none. */
  type Jar = Option<map<string, Value>>

  /** The session a request starts from: the jar's values, or empty, with the store's max-age. */
  function Load(jar: Jar): (s: Session)
    ensures s.maxAge == StoreMaxAge
    ensures jar.None? ==> s.values == map[]
    ensures jar.Some? ==> s.values == jar.value
  {
    Session(jar.GetOr(map[]), StoreMaxAge)
  }

  /**
    The jar after a response: a cookie saved with a negative max-age is
    deleted, any other saved cookie replaces the old one, and a response that
    saved nothing leaves the jar as it was.
   */
  function Store(jar: Jar, saved: Option<Session>): (j: Jar)
    ensures saved.None? ==> j == jar
    ensures saved.Some? && saved.value.maxAge < 0 ==> j.None?
    ensures saved.Some? && 0 <= saved.value.maxAge ==> j == Some(saved.value.values)
  {
    match saved
    case None => jar
    case Some(s) => if s.maxAge < 0 then None else Some(s.values)
  }

  predicate ConsistentJar(jar: Jar) {
    Consistent(Load(jar))
  }

  /** A jar stays consistent when a consistent session is saved into it. */
  lemma StoreConsistent(jar: Jar, saved: Option<Session>)
    requires ConsistentJar(jar)
    requires saved.Some? ==> Consistent(saved.value)
    ensures ConsistentJar(Store(jar, saved))
  {
    if saved.Some? && 0 <= saved.value.maxAge {
      assert Load(Store(jar, saved)).values == saved.value.values;
      assert Get(Load(Store(jar, saved)), IsLoginKey) == Get(saved.value, IsLoginKey);
    }
  }
}
