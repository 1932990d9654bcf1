/**
 * The Next.js middleware that guards the landing page and the two
 * workspaces. It reads the `session` cookie, decodes it without checking
 * its signature, resolves a role claim, and either lets the request through
 * or redirects it. The decoder is a foreign call: its outcome for the
 * request's cookie is a parameter (`None` when decoding threw).
 */
module RouteGuard {
  import opened Wrappers
  import opened Text
  import opened Json

  datatype Decision = Next | Redirect(dest: string)

  type Payload = map<string, Value>

  const SessionCookieName := "session"
  const WorkspacePrefix := "/workspace"
  const WorkspaceDir := "/workspace/"
  const HrPrefix := WorkspaceDir + "hr"
  const RecruiterPrefix := WorkspaceDir + "recruiter"

  /** Both workspace prefixes extend "/workspace" and are not prefixes of each other. */
  lemma PrefixFacts(path: string)
    ensures StartsWith(path, HrPrefix) ==> StartsWith(path, WorkspacePrefix)
    ensures StartsWith(path, RecruiterPrefix) ==> StartsWith(path, WorkspacePrefix)
    ensures !(StartsWith(path, HrPrefix) && StartsWith(path, RecruiterPrefix))
    ensures StartsWith(path, HrPrefix) || StartsWith(path, RecruiterPrefix) ==> path != "/"
  {
    assert StartsWith(HrPrefix, WorkspacePrefix);
    assert StartsWith(RecruiterPrefix, WorkspacePrefix);
    if StartsWith(path, HrPrefix) {
      StartsWithPrefix(path, WorkspacePrefix, HrPrefix);
      StartsWithConflict(path, HrPrefix, RecruiterPrefix, 11);
    }
    if StartsWith(path, RecruiterPrefix) {
      StartsWithPrefix(path, WorkspacePrefix, RecruiterPrefix);
    }
  }

  /** Both workspaces lie under "/workspace/", which lies under "/workspace". */
  lemma DirFacts(path: string)
    ensures StartsWith(path, HrPrefix) ==> StartsWith(path, WorkspaceDir)
    ensures StartsWith(path, RecruiterPrefix) ==> StartsWith(path, WorkspaceDir)
    ensures StartsWith(path, WorkspaceDir) ==> StartsWith(path, WorkspacePrefix)
  {
    assert StartsWith(HrPrefix, WorkspaceDir);
    assert StartsWith(RecruiterPrefix, WorkspaceDir);
    assert StartsWith(WorkspaceDir, WorkspacePrefix);
    if StartsWith(path, HrPrefix) {
      StartsWithPrefix(path, WorkspaceDir, HrPrefix);
    }
    if StartsWith(path, RecruiterPrefix) {
      StartsWithPrefix(path, WorkspaceDir, RecruiterPrefix);
    }
    if StartsWith(path, WorkspaceDir) {
      StartsWithPrefix(path, WorkspacePrefix, WorkspaceDir);
    }
  }

  /** `req.cookies.get("session")?.value` is truthy. */
  predicate HasSession(cookies: map<string, string>)
    ensures SessionCookieName !in cookies ==> !HasSession(cookies)
    ensures HasSession(cookies) ==> cookies[SessionCookieName] != ""
  {
    SessionCookieName in cookies && cookies[SessionCookieName] != ""
  }

  /** `config.matcher`: the guard runs for "/" and "/workspace/:path*" only. */
  predicate Matched(path: string)
    ensures StartsWith(path, HrPrefix) || StartsWith(path, RecruiterPrefix) ==> Matched(path)
    ensures Matched(path) ==> path == "/" || StartsWith(path, WorkspacePrefix)
  {
    DirFacts(path);
    path == "/" || path == "/workspace" || StartsWith(path, WorkspaceDir)
  }

  /** The four claim locations, in the order they are probed. */
  function RoleCandidates(payload: Payload): (cs: seq<Option<Value>>)
    ensures |cs| == 4
  {
    var p := Some(Obj(payload));
    var roles := Member(p, "roles");
    [ Member(p, "role"),
      Member(Member(p, "custom"), "role"),
      Member(Member(p, "claims"), "role"),
      if JsPresent(roles) then First(roles) else None ]
  }

  /** `c0 || c1 || ... || null`: the first truthy candidate. */
  function FirstTruthy(cs: seq<Option<Value>>): (r: Option<Value>)
    ensures r.Some? ==> JsTruthy(r.value) && r in cs
    ensures r.None? <==> forall k :: 0 <= k < |cs| ==> !JsPresent(cs[k])
    ensures forall k :: 0 <= k < |cs| && JsPresent(cs[k]) && (forall j :: 0 <= j < k ==> !JsPresent(cs[j])) ==> r == cs[k]
  {
    if cs == [] then None
    else if JsPresent(cs[0]) then cs[0]
    else
      var r := FirstTruthy(cs[1..]);
      assert forall k :: 1 <= k < |cs| ==> cs[k] == cs[1..][k - 1];
      r
  }

  /** The lower-cased role, or `None` (JavaScript `null`) when no claim resolves or decoding threw. */
  function ResolveRole(decoded: Option<Payload>): (role: Option<string>)
    ensures decoded.None? ==> role.None?
    ensures role.Some? ==> role.value == ToLower(role.value)
  {
    match decoded
    case None => None
    case Some(payload) =>
      match FirstTruthy(RoleCandidates(payload))
      case None => None
      case Some(v) =>
        ToLowerIdempotent(JsString(v));
        Some(ToLower(JsString(v)))
  }

  /** How a template literal prints the role: `null` prints as "null". */
  function RoleText(role: Option<string>): (r: string)
    ensures role.Some? ==> r == role.value
    ensures r == "hr" <==> role == Some("hr")
    ensures r == "recruiter" <==> role == Some("recruiter")
  {
    if role.Some? then role.value else "null"
  }

  /** The middleware's decision for a matched path. */
  function Guard(path: string, cookies: map<string, string>, decoded: Option<Payload>): (d: Decision)
    // a workspace page is only shown to the role it belongs to
    ensures d == Next && StartsWith(path, HrPrefix) ==>
      HasSession(cookies) && ResolveRole(decoded) == Some("hr")
    ensures d == Next && StartsWith(path, RecruiterPrefix) ==>
      HasSession(cookies) && ResolveRole(decoded) == Some("recruiter")
    // a visitor with a session never sees the landing page
    ensures path == "/" && HasSession(cookies) ==> d.Redirect?
    // without a session only the workspaces are refused, and they send the visitor home
    ensures !HasSession(cookies) ==> (d.Redirect? <==> StartsWith(path, WorkspacePrefix)) && (d.Redirect? ==> d.dest == "/")
    ensures d.Redirect? ==> d.dest == "/" || StartsWith(d.dest, WorkspaceDir)
    // a signed-in visitor on the other role's workspace is sent to the workspace its role names
    ensures HasSession(cookies) && StartsWith(path, HrPrefix) && ResolveRole(decoded) != Some("hr") ==>
      d == Redirect(WorkspaceDir + RoleText(ResolveRole(decoded)))
    ensures HasSession(cookies) && StartsWith(path, RecruiterPrefix) && ResolveRole(decoded) != Some("recruiter") ==>
      d == Redirect(WorkspaceDir + RoleText(ResolveRole(decoded)))
    // every other signed-in request for a path other than "/" passes
    ensures (HasSession(cookies) && path != "/"
      && (StartsWith(path, HrPrefix) ==> ResolveRole(decoded) == Some("hr"))
      && (StartsWith(path, RecruiterPrefix) ==> ResolveRole(decoded) == Some("recruiter"))) ==>
      d == Next
  {
    PrefixFacts(path);
    if !HasSession(cookies) then
      if StartsWith(path, WorkspacePrefix) then Redirect("/") else Next
    else
      var role := ResolveRole(decoded);
      if path == "/" then
        if role == Some("hr") then Redirect(HrPrefix)
        else if role == Some("recruiter") then Redirect(RecruiterPrefix)
        else Redirect("/")
      else if StartsWith(path, HrPrefix) && role != Some("hr") then
        Redirect(WorkspaceDir + RoleText(role))
      else if StartsWith(path, RecruiterPrefix) && role != Some("recruiter") then
        Redirect(WorkspaceDir + RoleText(role))
      else
        Next
  }

  /** A request as Next.js handles it: unmatched paths never reach the guard. */
  function Handle(path: string, cookies: map<string, string>, decoded: Option<Payload>): (d: Decision)
    ensures !Matched(path) ==> d == Next
    ensures Matched(path) ==> d == Guard(path, cookies, decoded)
  {
    if Matched(path) then Guard(path, cookies, decoded) else Next
  }

  /** On a matched path the guard's own "/workspace" prefix test means "not the landing page". */
  lemma MatchedWorkspacePrefix(path: string)
    requires Matched(path)
    ensures StartsWith(path, WorkspacePrefix) <==> path != "/"
  {
    if StartsWith(path, WorkspaceDir) {
      assert StartsWith(WorkspaceDir, WorkspacePrefix);
      StartsWithPrefix(path, WorkspacePrefix, WorkspaceDir);
    }
  }

  /** Role resolution reads `role` first, ahead of every nested claim. */
  lemma TopLevelRoleWins(payload: Payload, r: string)
    requires "role" in payload && payload["role"] == Str(r) && r != ""
    ensures ResolveRole(Some(payload)) == Some(ToLower(r))
  {
    JsStringOfText(r);
  }

  /** A falsy top-level role is skipped in favour of `custom.role`. */
  lemma FalsyRoleSkipped(payload: Payload, custom: map<string, Value>, r: string)
    requires "role" in payload && !JsTruthy(payload["role"])
    requires "custom" in payload && payload["custom"] == Obj(custom)
    requires "role" in custom && custom["role"] == Str(r) && r != ""
    ensures ResolveRole(Some(payload)) == Some(ToLower(r))
  {
    var cs := RoleCandidates(payload);
    assert !JsPresent(cs[0]) && cs[1] == Some(Str(r));
    JsStringOfText(r);
  }

  /** `claims.role` is consulted only when neither `role` nor `custom.role` resolves. */
  lemma ClaimsRoleThird(payload: Payload, claims: map<string, Value>, r: string)
    requires "role" !in payload && "custom" !in payload
    requires "claims" in payload && payload["claims"] == Obj(claims)
    requires "role" in claims && claims["role"] == Str(r) && r != ""
    ensures ResolveRole(Some(payload)) == Some(ToLower(r))
  {
    var cs := RoleCandidates(payload);
    assert !JsPresent(cs[0]) && !JsPresent(cs[1]) && cs[2] == Some(Str(r));
    JsStringOfText(r);
  }

  /** The first entry of `roles` is the last resort. */
  lemma RolesListLast(payload: Payload, r: string, rest: seq<Value>)
    requires "role" !in payload && "custom" !in payload && "claims" !in payload
    requires "roles" in payload && payload["roles"] == Arr([Str(r)] + rest)
    requires r != ""
    ensures ResolveRole(Some(payload)) == Some(ToLower(r))
  {
    var cs := RoleCandidates(payload);
    assert !JsPresent(cs[0]) && !JsPresent(cs[1]) && !JsPresent(cs[2]) && cs[3] == Some(Str(r));
    JsStringOfText(r);
  }

  /** A payload with no truthy candidate resolves to no role. */
  lemma NoClaimNoRole(payload: Payload)
    requires forall k :: 0 <= k < 4 ==> !JsPresent(RoleCandidates(payload)[k])
    ensures ResolveRole(Some(payload)) == None
  {
  }

  /** A cookie that cannot be decoded is "no role": an HR page then redirects to "/workspace/null". */
  lemma UndecodableCookieOnHrPage(path: string, cookies: map<string, string>)
    requires HasSession(cookies) && StartsWith(path, HrPrefix)
    ensures Guard(path, cookies, None) == Redirect("/workspace/null")
  {
  }

  /** With a session whose role is neither "hr" nor "recruiter" (or none), "/" redirects to itself, and so does the next request. */
  lemma LandingRedirectLoop(cookies: map<string, string>, decoded: Option<Payload>)
    requires HasSession(cookies) && ResolveRole(decoded) != Some("hr") && ResolveRole(decoded) != Some("recruiter")
    ensures Guard("/", cookies, decoded) == Redirect("/")
    ensures Handle(Guard("/", cookies, decoded).dest, cookies, decoded) == Redirect("/")
  {
  }

  /** Each workspace's own address lets a session with that workspace's role through. */
  lemma OwnWorkspaceLetsIn(cookies: map<string, string>, decoded: Option<Payload>)
    requires HasSession(cookies)
    ensures ResolveRole(decoded) == Some("hr") ==> Handle(HrPrefix, cookies, decoded) == Next
    ensures ResolveRole(decoded) == Some("recruiter") ==> Handle(RecruiterPrefix, cookies, decoded) == Next
  {
    assert StartsWith(HrPrefix, WorkspaceDir) && StartsWith(HrPrefix, HrPrefix);
    assert StartsWith(RecruiterPrefix, WorkspaceDir) && StartsWith(RecruiterPrefix, RecruiterPrefix);
    PrefixFacts(HrPrefix);
    PrefixFacts(RecruiterPrefix);
    assert Matched(HrPrefix) && Matched(RecruiterPrefix);
  }

  /** The landing page sends each recognised role to its workspace, where it is let through. */
  lemma LandingSendsRoleHome(cookies: map<string, string>, decoded: Option<Payload>)
    requires HasSession(cookies)
    requires ResolveRole(decoded) == Some("hr") || ResolveRole(decoded) == Some("recruiter")
    ensures Guard("/", cookies, decoded) == Redirect(WorkspaceDir + ResolveRole(decoded).value)
    ensures Handle(Guard("/", cookies, decoded).dest, cookies, decoded) == Next
  {
    OwnWorkspaceLetsIn(cookies, decoded);
    if ResolveRole(decoded) == Some("hr") {
      assert Guard("/", cookies, decoded) == Redirect(HrPrefix);
    } else {
      assert Guard("/", cookies, decoded) == Redirect(RecruiterPrefix);
    }
  }

  /** A recruiter on an HR page is sent to the recruiter workspace, and symmetrically. */
  lemma MismatchRedirectsToOwnWorkspace(path: string, cookies: map<string, string>, decoded: Option<Payload>)
    requires HasSession(cookies) && path != "/"
    ensures StartsWith(path, HrPrefix) && ResolveRole(decoded) == Some("recruiter") ==>
      Guard(path, cookies, decoded) == Redirect(RecruiterPrefix)
    ensures StartsWith(path, RecruiterPrefix) && ResolveRole(decoded) == Some("hr") ==>
      Guard(path, cookies, decoded) == Redirect(HrPrefix)
  {
    PrefixFacts(path);
  }

  /** The HR test is a bare prefix test: "/workspace/hrx" counts as an HR page. */
  lemma HrPrefixCoversHrx(cookies: map<string, string>, decoded: Option<Payload>)
    requires HasSession(cookies)
    ensures ResolveRole(decoded) == Some("hr") ==> Guard("/workspace/hrx", cookies, decoded) == Next
    ensures ResolveRole(decoded) == None ==> Guard("/workspace/hrx", cookies, decoded) == Redirect("/workspace/null")
  {
    assert StartsWith("/workspace/hrx", HrPrefix);
    PrefixFacts("/workspace/hrx");
  }

  /** Other workspace paths pass for anyone holding a session. */
  lemma OtherWorkspacePathsPass(path: string, cookies: map<string, string>, decoded: Option<Payload>)
    requires HasSession(cookies) && path != "/"
    requires !StartsWith(path, HrPrefix) && !StartsWith(path, RecruiterPrefix)
    ensures Guard(path, cookies, decoded) == Next
  {
  }
}
