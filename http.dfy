/**
 * The HTTP vocabulary the FastAPI handlers share: error replies
 * (`HTTPException(status_code, detail)`), `Set-Cookie` headers, the
 * browser's cookie store they act on, and environment lookups.
 */
module Http {
  import opened Wrappers

  /** An `HTTPException`: the reply is `{"detail": detail}` with this status. */
  datatype HttpError = HttpError(status: nat, detail: string)

  /** An unhandled Python exception, which the framework answers with 500. */
  const InternalError := HttpError(500, "Internal Server Error")

  /** One `Set-Cookie` header, with the attributes `Response.set_cookie` accepts. */
  datatype SetCookie = SetCookie(
    name: string,
    value: string,
    maxAge: Option<int>,
    expires: Option<int>,
    path: string,
    domain: Option<string>,
    secure: bool,
    httpOnly: bool,
    sameSite: string)

  /** A browser keeps one cookie per name, domain and path. */
  datatype CookieKey = CookieKey(name: string, domain: Option<string>, path: string)

  type CookieJar = map<CookieKey, string>

  function KeyOf(c: SetCookie): CookieKey {
    CookieKey(c.name, c.domain, c.path)
  }

  /** A header with a non-positive max-age deletes the cookie; any other header stores it. */
  function Store(jar: CookieJar, c: SetCookie): (r: CookieJar)
    ensures c.maxAge.Some? && c.maxAge.value <= 0 ==> KeyOf(c) !in r
    ensures !(c.maxAge.Some? && c.maxAge.value <= 0) ==> KeyOf(c) in r && r[KeyOf(c)] == c.value
    ensures forall k :: k != KeyOf(c) ==> (k in r <==> k in jar) && (k in r ==> r[k] == jar[k])
  {
    if c.maxAge.Some? && c.maxAge.value <= 0 then jar - {KeyOf(c)} else jar[KeyOf(c) := c.value]
  }

  /** Applies the headers of one reply in order. */
  function StoreAll(jar: CookieJar, cs: seq<SetCookie>): CookieJar
    decreases |cs|
  {
    if cs == [] then jar else StoreAll(Store(jar, cs[0]), cs[1..])
  }

  /** A cookie no header of the reply names is left as it was. */
  lemma {:induction false} StoreAllUntouched(jar: CookieJar, cs: seq<SetCookie>, k: CookieKey)
    requires forall i :: 0 <= i < |cs| ==> KeyOf(cs[i]) != k
    ensures k in StoreAll(jar, cs) <==> k in jar
    ensures k in jar ==> StoreAll(jar, cs)[k] == jar[k]
    decreases |cs|
  {
    if cs != [] {
      StoreAllUntouched(Store(jar, cs[0]), cs[1..], k);
    }
  }

  /** Process environment: `os.getenv(key, default)`. */
  type Env = map<string, string>

  function GetEnv(env: Env, key: string, default: string): (v: string)
    ensures key !in env ==> v == default
    ensures key in env ==> v == env[key]
  {
    if key in env then env[key] else default
  }

  /** `os.getenv(key)` without a default: `None` when unset. */
  function LookupEnv(env: Env, key: string): (v: Option<string>)
    ensures v.Some? <==> key in env
    ensures v.Some? ==> v.value == env[key]
  {
    if key in env then Some(env[key]) else None
  }

  /** `COOKIE_NAME`, read identically by the users router and the auth helpers. */
  function CookieName(env: Env): string {
    GetEnv(env, "COOKIE_NAME", "session")
  }
}
