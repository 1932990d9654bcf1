/**
 * The server's session helpers: strict verification of the session cookie,
 * a lenient decode, loading the signed-in user, and the two role gates.
 *
 * Firebase's `verify_session_cookie` is a foreign call; the verdict it
 * gives for each cookie value is the `verify` parameter.
 */
module SessionAuth {
  import opened Wrappers
  import opened Text
  import opened Json
  import opened Http
  import opened Schema
  import opened Registration

  type Claims = map<string, Value>

  /** Firebase's verdict on a session cookie: unusable, valid but revoked, or valid. */
  datatype CookieVerdict =
    | Rejected(reason: string)
    | RevokedSession(reason: string, claims: Claims)
    | LiveSession(claims: Claims)

  type Verifier = string -> CookieVerdict

  const NoCookie := HttpError(401, "No session cookie found.")

  /** `request.cookies.get(COOKIE_NAME)`, when truthy. */
  function SessionValue(env: Env, cookies: map<string, string>): (v: Option<string>)
    ensures v.Some? <==> CookieName(env) in cookies && cookies[CookieName(env)] != ""
    ensures v.Some? ==> v.value == cookies[CookieName(env)]
  {
    var name := CookieName(env);
    if name in cookies && cookies[name] != "" then Some(cookies[name]) else None
  }

  /**
   * `verify_session_cookie`: 401 without a cookie, 401 when Firebase refuses
   * it (a revoked session counts only when `checkRevoked`), and otherwise
   * the decoded claims unchanged.
   */
  function VerifySessionCookie(env: Env, cookies: map<string, string>, verify: Verifier, checkRevoked: bool): (r: Result<Claims, HttpError>)
    ensures SessionValue(env, cookies).None? ==> r == Failure(NoCookie)
    ensures r.Success? ==> SessionValue(env, cookies).Some?
    ensures r.Success? ==> var verdict := verify(SessionValue(env, cookies).value);
      verdict == LiveSession(r.value) || (!checkRevoked && verdict.RevokedSession? && verdict.claims == r.value)
    ensures r.Failure? ==> r.error.status == 401
    ensures SessionValue(env, cookies).Some? && verify(SessionValue(env, cookies).value).LiveSession? ==> r.Success?
  {
    match SessionValue(env, cookies)
    case None => Failure(NoCookie)
    case Some(cookie) =>
      match verify(cookie)
      case Rejected(reason) => Failure(HttpError(401, "Invalid/expired session cookie: " + reason))
      case RevokedSession(reason, claims) =>
        if checkRevoked then Failure(HttpError(401, "Invalid/expired session cookie: " + reason)) else Success(claims)
      case LiveSession(claims) => Success(claims)
  }

  /** `verify_session_cookie_dependency`: the strict check, revocation included. */
  function VerifySessionCookieDependency(env: Env, cookies: map<string, string>, verify: Verifier): (r: Result<Claims, HttpError>)
    ensures r.Success? ==> SessionValue(env, cookies).Some? && verify(SessionValue(env, cookies).value) == LiveSession(r.value)
  {
    VerifySessionCookie(env, cookies, verify, true)
  }

  /** `decode_session_cookie_best_effort`: never raises; `None` for a missing or unusable cookie, revoked or not. */
  function DecodeBestEffort(env: Env, cookies: map<string, string>, verify: Verifier): (r: Option<Claims>)
    ensures SessionValue(env, cookies).None? ==> r.None?
    ensures r.Some? ==> !verify(SessionValue(env, cookies).value).Rejected?
  {
    match SessionValue(env, cookies)
    case None => None
    case Some(cookie) =>
      match verify(cookie)
      case Rejected(_) => None
      case RevokedSession(_, claims) => Some(claims)
      case LiveSession(claims) => Some(claims)
  }

  /** The lenient decode is the verification without the revocation check, with every failure turned into `None`. */
  lemma BestEffortIsLenientVerify(env: Env, cookies: map<string, string>, verify: Verifier)
    ensures var strict := VerifySessionCookie(env, cookies, verify, false);
      DecodeBestEffort(env, cookies, verify) == (if strict.Success? then Some(strict.value) else None)
  {
  }

  /** Whatever the strict check accepts, the lenient decode accepts with the same claims. */
  lemma StrictImpliesBestEffort(env: Env, cookies: map<string, string>, verify: Verifier)
    requires VerifySessionCookie(env, cookies, verify, true).Success?
    ensures DecodeBestEffort(env, cookies, verify) == Some(VerifySessionCookie(env, cookies, verify, true).value)
  {
  }

  /** A revoked session is where the two differ: refused by the strict check, decoded by the lenient one. */
  lemma RevokedSessionGap(env: Env, cookies: map<string, string>, verify: Verifier)
    requires SessionValue(env, cookies).Some? && verify(SessionValue(env, cookies).value).RevokedSession?
    ensures VerifySessionCookie(env, cookies, verify, true).Failure?
    ensures DecodeBestEffort(env, cookies, verify) == Some(verify(SessionValue(env, cookies).value).claims)
  {
  }

  /**
   * `get_current_user`: the strict check, then the `uid` claim, then the
   * user stored under that uid. A `uid` claim that is not a string matches
   * no stored uid.
   */
  function GetCurrentUser(env: Env, cookies: map<string, string>, verify: Verifier, users: seq<UserRow>): (r: Result<UserRow, HttpError>)
    ensures r.Success? ==> r.value in users
    ensures r.Success? ==> var claims := VerifySessionCookie(env, cookies, verify, true);
      claims.Success? && "uid" in claims.value && claims.value["uid"] == Str(r.value.firebaseUid)
    ensures r.Failure? ==> r.error.status == 401
    ensures VerifySessionCookie(env, cookies, verify, true).Success? ==>
      var claims := VerifySessionCookie(env, cookies, verify, true).value;
      (("uid" !in claims || !PyTruthy(claims["uid"])) ==> r == Failure(HttpError(401, "Invalid token: missing uid.")))
      && ("uid" in claims && claims["uid"].Str? && claims["uid"].s != "" ==>
            (r.Success? <==> Registered(users, claims["uid"].s)))
  {
    match VerifySessionCookie(env, cookies, verify, true)
    case Failure(e) => Failure(e)
    case Success(claims) =>
      if "uid" !in claims || !PyTruthy(claims["uid"]) then Failure(HttpError(401, "Invalid token: missing uid."))
      else
        var found := if claims["uid"].Str? then FindByUid(users, claims["uid"].s) else None;
        match found
        case None => Failure(HttpError(401, "User not found."))
        case Some(k) => Success(users[k])
  }

  /** `require_hr`: the role, lower-cased, must be "hr"; otherwise 403. */
  function RequireHr(user: UserRow): (r: Result<UserRow, HttpError>)
    ensures r.Success? <==> ToLower(user.role) == "hr"
    ensures r.Success? ==> r.value == user
    ensures r.Failure? ==> r.error == HttpError(403, "HR only")
  {
    if ToLower(user.role) == "hr" then Success(user) else Failure(HttpError(403, "HR only"))
  }

  /** `require_recruiter`: the role, lower-cased, must be "recruiter"; otherwise 403. */
  function RequireRecruiter(user: UserRow): (r: Result<UserRow, HttpError>)
    ensures r.Success? <==> ToLower(user.role) == "recruiter"
    ensures r.Success? ==> r.value == user
    ensures r.Failure? ==> r.error == HttpError(403, "Recruiter only")
  {
    if ToLower(user.role) == "recruiter" then Success(user) else Failure(HttpError(403, "Recruiter only"))
  }

  /** A user with the role an endpoint needs, after the session and the user have been checked. */
  function Gate(env: Env, cookies: map<string, string>, verify: Verifier, users: seq<UserRow>, hr: bool): (r: Result<UserRow, HttpError>)
    ensures r.Success? ==> GetCurrentUser(env, cookies, verify, users) == Success(r.value)
    ensures r.Failure? ==> r.error.status == 401 || r.error.status == 403
    ensures r.Success? ==> ToLower(r.value.role) == (if hr then "hr" else "recruiter")
    ensures GetCurrentUser(env, cookies, verify, users).Failure? ==> r == Failure(GetCurrentUser(env, cookies, verify, users).error)
    ensures (GetCurrentUser(env, cookies, verify, users).Success?
      && ToLower(GetCurrentUser(env, cookies, verify, users).value.role) == (if hr then "hr" else "recruiter")) ==>
      r == GetCurrentUser(env, cookies, verify, users)
    ensures (GetCurrentUser(env, cookies, verify, users).Success?
      && ToLower(GetCurrentUser(env, cookies, verify, users).value.role) != (if hr then "hr" else "recruiter")) ==>
      r == Failure(HttpError(403, if hr then "HR only" else "Recruiter only"))
  {
    match GetCurrentUser(env, cookies, verify, users)
    case Failure(e) => Failure(e)
    case Success(user) => if hr then RequireHr(user) else RequireRecruiter(user)
  }

  /** No user passes both role gates. */
  lemma GatesExclusive(user: UserRow)
    ensures !(RequireHr(user).Success? && RequireRecruiter(user).Success?)
  {
  }

  /** Every stored user, as registration leaves the table, passes exactly the gate of its own role. */
  lemma StoredUsersPassTheirGate(users: seq<UserRow>, nextId: nat, k: nat)
    requires TableInvariant(users, nextId) && k < |users|
    ensures users[k].role == "HR" ==> RequireHr(users[k]).Success? && RequireRecruiter(users[k]).Failure?
    ensures users[k].role == "Recruiter" ==> RequireRecruiter(users[k]).Success? && RequireHr(users[k]).Failure?
  {
    assert RolesKnown(users);
    StoredRoleGates(users[k]);
  }

  /** The two stored roles pass exactly their own gate. */
  lemma StoredRoleGates(user: UserRow)
    requires user.role == "HR" || user.role == "Recruiter"
    ensures user.role == "HR" ==> RequireHr(user).Success? && RequireRecruiter(user).Failure?
    ensures user.role == "Recruiter" ==> RequireRecruiter(user).Success? && RequireHr(user).Failure?
  {
    RoleNamesLowered();
  }

  /** With `COOKIE_NAME` set to anything but "session", the cookie that sign-in sets is never found. */
  lemma RenamedCookieNeverFound(env: Env, value: string, verify: Verifier, users: seq<UserRow>)
    requires CookieName(env) != "session"
    ensures VerifySessionCookie(env, map[SessionCookie(value).name := value], verify, true) == Failure(NoCookie)
    ensures GetCurrentUser(env, map[SessionCookie(value).name := value], verify, users) == Failure(NoCookie)
  {
  }
}
