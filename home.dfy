/**
 * The landing page's sign-in and sign-out handlers.
 *
 * Google sign-in, the id token and the `/check-user` round trip are
 * collapsed into one `Exchange`: what the landing page ends up holding once
 * those awaits have settled. The message of a `TypeError` the engine raises
 * is a parameter, since its wording belongs to the engine.
 */
module Home {
  import opened Wrappers
  import opened Text
  import opened Json
  import opened Browser
  import opened Registration
  import RouteGuard

  /** How the sign-in awaits settled. */
  datatype Exchange =
    // `signInWithGoogle`, `getIdToken` or `fetch` threw; `message` is `err?.message`
    | Threw(message: Option<string>)
    // sign-in resolved without a Firebase user
    | NoFirebaseUser
    // the server replied; `body` is what `resp.json()` gave, or the message it threw
    | Replied(ok: bool, body: Result<Value, string>)

  /** What `handleLogin` resolves to: `{ ok: false, error }` or `{ ok: true, data }`. */
  datatype LoginResult = LoginFailed(error: Value) | LoginSucceeded(data: Value)

  const NoUserMessage := "No Firebase user returned from sign-in"
  const FallbackError := "Registration failed. Please verify company and role."

  /** `err?.message || "Login failed"`. */
  function Caught(message: Option<string>): (m: string)
    ensures m != ""
    ensures message.Some? && message.value != "" ==> m == message.value
  {
    if message.Some? && message.value != "" then message.value else "Login failed"
  }

  /** `body.detail || body.message || "Registration failed. ..."` for a refused sign-in. */
  function ErrorMessage(body: Value): (m: Value)
    ensures JsTruthy(m)
    ensures JsPresent(Member(Some(body), "detail")) ==> m == body.fields["detail"]
    ensures !JsPresent(Member(Some(body), "detail")) && JsPresent(Member(Some(body), "message")) ==>
      m == body.fields["message"]
    ensures !JsPresent(Member(Some(body), "detail")) && !JsPresent(Member(Some(body), "message")) ==>
      m == Str(FallbackError)
  {
    Or(Or(Member(Some(body), "detail"), Member(Some(body), "message")), Some(Str(FallbackError))).value
  }

  /** `data.user?.role || extraInfo.role || ""`: the role the server sent wins over the one the form chose. */
  function RoleChoice(data: Value, extraInfo: map<string, Value>): (r: Value)
    ensures JsPresent(Member(Member(Some(data), "user"), "role")) ==> r == data.fields["user"].fields["role"]
    ensures !JsPresent(Member(Member(Some(data), "user"), "role")) && "role" in extraInfo && JsTruthy(extraInfo["role"]) ==>
      r == extraInfo["role"]
    ensures !JsPresent(Member(Member(Some(data), "user"), "role")) && !("role" in extraInfo && JsTruthy(extraInfo["role"])) ==> r == Str("")
    ensures !JsTruthy(r) ==> r == Str("")
  {
    var extra := if "role" in extraInfo then Some(extraInfo["role"]) else None;
    Or(Or(Member(Member(Some(data), "user"), "role"), extra), Some(Str(""))).value
  }

  /**
   * `serverRole === "hr"` picks the HR workspace and anything else the
   * recruiter one; `None` when the role is not a string and
   * `toLowerCase` throws.
   */
  function Destination(role: Value): (d: Option<string>)
    ensures d.Some? <==> role.Str?
    ensures d.Some? ==> (d.value == RouteGuard.HrPrefix <==> ToLower(role.s) == "hr")
    ensures d.Some? ==> (d.value == RouteGuard.RecruiterPrefix <==> ToLower(role.s) != "hr")
  {
    if !role.Str? then None
    else if ToLower(role.s) == "hr" then Some(RouteGuard.HrPrefix)
    else Some(RouteGuard.RecruiterPrefix)
  }

  /** The result of `handleLogin` for each way the awaits settle. */
  function Login(x: Exchange, extraInfo: map<string, Value>, typeError: string): (r: LoginResult)
    ensures r.LoginSucceeded? <==>
      x.Replied? && x.ok && x.body.Success? && x.body.value != Null
      && Destination(RoleChoice(x.body.value, extraInfo)).Some?
    ensures r.LoginSucceeded? ==> r.data == x.body.value
    ensures x.Threw? ==> r == LoginFailed(Str(Caught(x.message)))
    ensures x.NoFirebaseUser? ==> r == LoginFailed(Str(NoUserMessage))
    ensures x.Replied? && !x.ok && x.body.Success? && x.body.value != Null ==> r == LoginFailed(ErrorMessage(x.body.value))
    ensures x.Replied? && !x.ok && x.body.Failure? ==> r == LoginFailed(Str(FallbackError))
    ensures x.Replied? && x.ok && x.body.Failure? ==> r == LoginFailed(Str(Caught(Some(x.body.error))))
    ensures r.LoginFailed? ==> JsTruthy(r.error)
    // the three `TypeError`s: a null body read on either reply, and `toLowerCase` on a non-string role
    ensures (x.Replied? && x.body.Success?
      && (x.body.value == Null || (x.ok && Destination(RoleChoice(x.body.value, extraInfo)).None?))) ==>
      r == LoginFailed(Str(Caught(Some(typeError))))
  {
    match x
    case Threw(message) => LoginFailed(Str(Caught(message)))
    case NoFirebaseUser => LoginFailed(Str(NoUserMessage))
    case Replied(ok, body) =>
      if !ok then
        // an unreadable body falls back to `{}`; `null.detail` throws
        var b := if body.Success? then body.value else Obj(map[]);
        if b == Null then LoginFailed(Str(Caught(Some(typeError))))
        else LoginFailed(ErrorMessage(b))
      else if body.Failure? then LoginFailed(Str(Caught(Some(body.error))))
      else if body.value == Null then LoginFailed(Str(Caught(Some(typeError))))
      else if Destination(RoleChoice(body.value, extraInfo)).None? then LoginFailed(Str(Caught(Some(typeError))))
      else LoginSucceeded(body.value)
  }

  /** A readable, non-null reply to a successful sign-in: the point where the profile is stored and the modal closed. */
  predicate ReplyRead(x: Exchange) {
    x.Replied? && x.ok && x.body.Success? && x.body.value != Null
  }

  /** `data.user` of a readable reply: what is written to storage when it is truthy. */
  function StoredUser(x: Exchange): (u: Option<Value>)
    ensures u.Some? ==> ReplyRead(x) && x.body.value.Obj? && "user" in x.body.value.fields && u.value == x.body.value.fields["user"]
  {
    if ReplyRead(x) then Member(Some(x.body.value), "user") else None
  }

  /** The profile object the server sends back, as JSON. */
  function ProfileJson(p: Profile): (v: Value)
    ensures v.Obj? && "role" in v.fields && v.fields["role"] == Str(p.role)
  {
    Obj(map[
      "uid" := Str(p.uid),
      "name" := Str(p.name),
      "email" := (if p.email.Some? then Str(p.email.value) else Null),
      "role" := Str(p.role),
      "company_name" := Str(p.companyName)])
  }

  /** The reply body of `/check-user` for an accepted sign-in or registration. */
  function AcceptedJson(message: string, p: Profile): (v: Value)
    ensures v.Obj? && "user" in v.fields && v.fields["user"] == ProfileJson(p)
  {
    Obj(map["message" := Str(message), "user" := ProfileJson(p)])
  }

  /** The reply body of a refused `/check-user`: `{"detail": ...}`. */
  function RefusedJson(detail: string): (v: Value)
    ensures v.Obj? && v.fields == map["detail" := Str(detail)]
  {
    Obj(map["detail" := Str(detail)])
  }

  /** The landing page's state and the browser state its handlers act on. */
  class Home {
    var authLoading: bool
    var modalOpen: bool
    var profileOpen: bool
    var firebaseSignedIn: bool
    var storage: map<string, Value>
    var pushed: seq<string>
    var toasts: seq<string>

    constructor (storage: map<string, Value>, firebaseSignedIn: bool)
      ensures !authLoading && !modalOpen && !profileOpen
      ensures this.storage == storage && this.firebaseSignedIn == firebaseSignedIn
      ensures pushed == [] && toasts == []
    {
      authLoading := false;
      modalOpen := false;
      profileOpen := false;
      this.firebaseSignedIn := firebaseSignedIn;
      this.storage := storage;
      pushed := [];
      toasts := [];
    }

    /**
     * `handleLogin`: the profile is stored only when the reply carries one,
     * the modal closes once a readable reply is in, the page moves to the
     * role's workspace only on success, and every failure signs the
     * Firebase client out again.
     */
    method HandleLogin(x: Exchange, extraInfo: map<string, Value>, typeError: string) returns (r: LoginResult)
      modifies this
      ensures r == Login(x, extraInfo, typeError)
      ensures !authLoading && profileOpen == old(profileOpen)
      ensures firebaseSignedIn <==> r.LoginSucceeded?
      ensures JsPresent(StoredUser(x)) ==> storage == old(storage)[ProfileKey := StoredUser(x).value]
      ensures !JsPresent(StoredUser(x)) ==> storage == old(storage)
      ensures modalOpen == (if ReplyRead(x) then false else old(modalOpen))
      ensures r.LoginSucceeded? ==> pushed == old(pushed) + [Destination(RoleChoice(r.data, extraInfo)).value]
      ensures r.LoginFailed? ==> pushed == old(pushed)
      ensures r.LoginSucceeded? ==> toasts == old(toasts) + ["Signed in successfully"]
      ensures r.LoginFailed? && !ReplyRead(x) ==> toasts == old(toasts) + [JsString(r.error)]
      ensures r.LoginFailed? && ReplyRead(x) ==> toasts == old(toasts) + ["Signed in successfully", JsString(r.error)]
    {
      authLoading := true;
      r := Login(x, extraInfo, typeError);
      if ReplyRead(x) {
        var user := StoredUser(x);
        if JsPresent(user) {
          storage := storage[ProfileKey := user.value];
        }
        modalOpen := false;
        toasts := toasts + ["Signed in successfully"];
      }
      if r.LoginSucceeded? {
        firebaseSignedIn := true;
        pushed := pushed + [Destination(RoleChoice(r.data, extraInfo)).value];
      } else {
        toasts := toasts + [JsString(r.error)];
        firebaseSignedIn := false;
      }
      authLoading := false;
    }

    /** `handleLogout`: whatever the server says, the stored profile and the Firebase client state are cleared. */
    method HandleLogout(outcome: FetchOutcome)
      modifies this
      ensures ProfileKey !in storage && storage == old(storage) - {ProfileKey}
      ensures !profileOpen && !firebaseSignedIn && !authLoading
      ensures toasts == old(toasts) + ["Logged out"]
      ensures modalOpen == old(modalOpen) && pushed == old(pushed)
    {
      authLoading := true;
      // the reply of `/session-logout` is not read, and a throw is swallowed
      firebaseSignedIn := false;
      storage := storage - {ProfileKey};
      profileOpen := false;
      toasts := toasts + ["Logged out"];
      authLoading := false;
    }
  }

  /** The role of an accepted reply is the stored row's role, whatever the form sent. */
  lemma AcceptedRole(message: string, p: Profile, extraInfo: map<string, Value>)
    requires p.role != ""
    ensures RoleChoice(AcceptedJson(message, p), extraInfo) == Str(p.role)
  {
    var data := AcceptedJson(message, p);
    assert Member(Member(Some(data), "user"), "role") == Some(Str(p.role));
  }

  /**
   * A sign-in the server accepts sends the browser to the workspace of the
   * stored role, and the route guard lets a session whose role claim is
   * that role through.
   */
  lemma AcceptedSignInReachesWorkspace(message: string, p: Profile, extraInfo: map<string, Value>, cookies: map<string, string>)
    requires p.role == "HR" || p.role == "Recruiter"
    requires RouteGuard.HasSession(cookies)
    ensures var dest := Destination(RoleChoice(AcceptedJson(message, p), extraInfo));
      dest.Some?
      && (p.role == "HR" ==> dest.value == RouteGuard.HrPrefix)
      && (p.role == "Recruiter" ==> dest.value == RouteGuard.RecruiterPrefix)
      && RouteGuard.Handle(dest.value, cookies, Some(map["role" := Str(p.role)])) == RouteGuard.Next
  {
    AcceptedRole(message, p, extraInfo);
    RoleDestination(p.role);
    RoleClaimPasses(p.role, cookies);
  }

  /** The two stored roles pick their own workspaces. */
  lemma RoleDestination(role: string)
    requires role == "HR" || role == "Recruiter"
    ensures role == "HR" ==> Destination(Str(role)) == Some(RouteGuard.HrPrefix)
    ensures role == "Recruiter" ==> Destination(Str(role)) == Some(RouteGuard.RecruiterPrefix)
  {
    RoleNamesLowered();
  }

  /** A session whose role claim is a stored role is let into that role's workspace. */
  lemma RoleClaimPasses(role: string, cookies: map<string, string>)
    requires role == "HR" || role == "Recruiter"
    requires RouteGuard.HasSession(cookies)
    ensures role == "HR" ==> RouteGuard.Handle(RouteGuard.HrPrefix, cookies, Some(map["role" := Str(role)])) == RouteGuard.Next
    ensures role == "Recruiter" ==>
      RouteGuard.Handle(RouteGuard.RecruiterPrefix, cookies, Some(map["role" := Str(role)])) == RouteGuard.Next
  {
    var payload := map["role" := Str(role)];
    assert RouteGuard.ResolveRole(Some(payload)) == Some(if role == "HR" then "hr" else "recruiter") by {
      RouteGuard.TopLevelRoleWins(payload, role);
      LoweredRole(role);
    }
    RouteGuard.OwnWorkspaceLetsIn(cookies, Some(payload));
  }

  lemma LoweredRole(role: string)
    requires role == "HR" || role == "Recruiter"
    ensures ToLower(role) == if role == "HR" then "hr" else "recruiter"
  {
    RoleNamesLowered();
  }

  /** A refusal from the server is shown with the server's own `detail`. */
  lemma RefusalShowsServerDetail(detail: string, extraInfo: map<string, Value>, typeError: string)
    requires detail != ""
    ensures Login(Replied(false, Success(RefusedJson(detail))), extraInfo, typeError) == LoginFailed(Str(detail))
  {
  }

  /** The form's role only matters when the reply carries no role of its own. */
  lemma FormRoleIsFallback(data: Value, extraInfo: map<string, Value>, role: Value)
    requires !JsPresent(Member(Member(Some(data), "user"), "role"))
    requires JsTruthy(role)
    ensures RoleChoice(data, extraInfo["role" := role]) == role
  {
  }
}
