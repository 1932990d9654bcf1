/**
 * The `/check-user` endpoint (sign-in check and registration in one) and
 * the `/session-logout` endpoint of the users router.
 *
 * Firebase is a foreign service: what `verify_id_token` made of the bearer
 * token and what `create_session_cookie` returned are parameters. Setting
 * custom claims is best effort and never changes the reply, so it is not
 * modelled.
 */
module Registration {
  import opened Wrappers
  import opened Text
  import opened Json
  import opened Http
  import opened Schema

  /** What `verify_id_token` made of the bearer token. */
  datatype IdToken =
    | TokenRejected(reason: string)
    | TokenVerified(uid: string, email: Option<string>, name: Option<string>, displayName: Option<string>)

  /** What `create_session_cookie` returned for the same token. */
  datatype Minting = MintFailed(reason: string) | Minted(cookie: string)

  /** The `user` object of a successful reply. */
  datatype Profile = Profile(uid: string, name: string, email: Option<string>, role: string, companyName: string)

  datatype Reply =
    | Refused(error: HttpError)
    | Accepted(status: nat, message: string, user: Profile, cookie: SetCookie)

  /** The optional JSON object body; `None` when the request has none. */
  type Body = Option<map<string, Value>>

  /** The handler's verdict before a session cookie is minted. */
  datatype Decision =
    | Refuse(error: HttpError)
    | SignIn(row: UserRow)
    | Register(row: UserRow)

  const RolesRequired := "role and company_name are required in request body for registration"
  const AlreadyRegistered := "User already registered. Please login instead."
  const CompanyTaken := "Company already exists. Cannot create HR for this company."
  const CompanyUnknown := "Company does not exist. Please contact HR."
  const InvalidRole := "Invalid role. Must be 'HR' or 'Recruiter'."

  // ---------------------------------------------------------------------
  // Reading the request

  /** `name or displayName or ""`. */
  function ChosenName(name: Option<string>, displayName: Option<string>): (r: string)
    ensures name.Some? && name.value != "" ==> r == name.value
    ensures (name.None? || name.value == "") && displayName.Some? ==> r == displayName.value
    ensures r == "" <==> (name.None? || name.value == "") && (displayName.None? || displayName.value == "")
  {
    if name.Some? && name.value != "" then name.value
    else if displayName.Some? && displayName.value != "" then displayName.value
    else ""
  }

  /** Login mode is an absent or empty body (`not payload`). */
  predicate IsLoginMode(body: Body)
    ensures body.None? ==> IsLoginMode(body)
    ensures body.Some? && "role" in body.value ==> !IsLoginMode(body)
  {
    body.None? || body.value == map[]
  }

  /** `(payload.get("role") or "").strip()`; `None` when that raises. */
  function RoleField(payload: map<string, Value>): (r: Option<string>)
    ensures r.None? <==> "role" in payload && PyTruthy(payload["role"]) && !payload["role"].Str?
    ensures "role" in payload && payload["role"].Str? ==> r == Some(Strip(payload["role"].s))
    ensures "role" !in payload ==> r == Some("")
  {
    StrippedGet(payload, "role")
  }

  /** The stripped `company_name` when it is a string, `""` for any other value or none. */
  function CompanyField(payload: map<string, Value>): (r: string)
    ensures r != "" ==> "company_name" in payload && payload["company_name"].Str? && r == Strip(payload["company_name"].s)
    ensures "company_name" in payload && payload["company_name"].Str? ==> r == Strip(payload["company_name"].s)
  {
    if "company_name" in payload && payload["company_name"].Str? then Strip(payload["company_name"].s) else ""
  }

  // ---------------------------------------------------------------------
  // `ILIKE`

  /** SQL `LIKE` on already case-folded text: `%` matches any run, `_` any one character. */
  predicate LikeMatch(s: string, p: string)
    ensures LikeMatch(s, p) && (forall i :: 0 <= i < |p| ==> p[i] != '%') ==> |s| == |p|
    decreases |s| + |p|
  {
    if p == [] then s == []
    else if p[0] == '%' then LikeMatch(s, p[1..]) || (s != [] && LikeMatch(s[1..], p))
    else s != [] && (p[0] == '_' || s[0] == p[0]) && LikeMatch(s[1..], p[1..])
  }

  /** `value ILIKE pattern`. */
  predicate ILike(value: string, pattern: string) {
    LikeMatch(ToLower(value), ToLower(pattern))
  }

  /** `ILIKE` ignores case on both sides. */
  lemma ILikeIgnoresCase(value: string, pattern: string)
    ensures ILike(value, pattern) <==> ILike(ToLower(value), ToLower(pattern))
  {
    ToLowerIdempotent(value);
    ToLowerIdempotent(pattern);
  }

  /** Every pattern matches itself: each wildcard can stand for itself. */
  lemma {:induction false} LikeMatchReflexive(s: string)
    ensures LikeMatch(s, s)
    decreases |s|
  {
    if s != [] {
      LikeMatchReflexive(s[1..]);
      if s[0] == '%' {
        assert LikeMatch(s[1..], s[1..]);
        assert LikeMatch(s[1..], s);
      }
    }
  }

  /** Names that agree up to case always match each other. */
  lemma SameUpToCaseMatches(value: string, pattern: string)
    requires ToLower(value) == ToLower(pattern)
    ensures ILike(value, pattern)
  {
    LikeMatchReflexive(ToLower(pattern));
  }

  predicate NoWildcards(p: string) {
    forall i :: 0 <= i < |p| ==> p[i] != '%' && p[i] != '_'
  }

  /** Without wildcards a pattern matches exactly the text equal to it. */
  lemma {:induction false} LikeMatchLiteral(s: string, p: string)
    requires NoWildcards(p)
    ensures LikeMatch(s, p) <==> s == p
    decreases |s| + |p|
  {
    if p != [] && s != [] {
      LikeMatchLiteral(s[1..], p[1..]);
      if s[0] == p[0] && s[1..] == p[1..] {
        assert s == [s[0]] + s[1..] && p == [p[0]] + p[1..];
      }
    }
  }

  /** A company name without wildcards matches exactly the names equal to it up to case. */
  lemma ILikeLiteral(value: string, pattern: string)
    requires NoWildcards(pattern)
    ensures ILike(value, pattern) <==> ToLower(value) == ToLower(pattern)
  {
    var p := ToLower(pattern);
    assert NoWildcards(p) by {
      forall i | 0 <= i < |p| ensures p[i] != '%' && p[i] != '_' {
        assert p[i] == LowerChar(pattern[i]);
      }
    }
    LikeMatchLiteral(ToLower(value), p);
  }

  /** A lone `%` matches every name. */
  lemma {:induction false} PercentMatchesAll(s: string)
    ensures LikeMatch(s, "%")
    decreases |s|
  {
    if s != [] {
      PercentMatchesAll(s[1..]);
    }
  }

  // ---------------------------------------------------------------------
  // Queries on the users table

  /** `filter(User.firebase_uid == uid).first()`, as a position in the table. */
  function FindByUid(users: seq<UserRow>, uid: string, from: nat := 0): (r: Option<nat>)
    requires from <= |users|
    ensures r.Some? ==> from <= r.value < |users| && users[r.value].firebaseUid == uid
    ensures r.Some? ==> forall k :: from <= k < r.value ==> users[k].firebaseUid != uid
    ensures r.None? <==> forall k :: from <= k < |users| ==> users[k].firebaseUid != uid
    decreases |users| - from
  {
    if from == |users| then None
    else if users[from].firebaseUid == uid then Some(from)
    else FindByUid(users, uid, from + 1)
  }

  /** `filter(User.company_name.ilike(name)).first()`, as a position in the table. */
  function FirstCompanyMatch(users: seq<UserRow>, pattern: string, from: nat := 0): (r: Option<nat>)
    requires from <= |users|
    ensures r.Some? ==> from <= r.value < |users| && ILike(users[r.value].companyName, pattern)
    ensures r.Some? ==> forall k :: from <= k < r.value ==> !ILike(users[k].companyName, pattern)
    ensures r.None? <==> forall k :: from <= k < |users| ==> !ILike(users[k].companyName, pattern)
    decreases |users| - from
  {
    if from == |users| then None
    else if ILike(users[from].companyName, pattern) then Some(from)
    else FirstCompanyMatch(users, pattern, from + 1)
  }

  predicate Registered(users: seq<UserRow>, uid: string) {
    exists k :: 0 <= k < |users| && users[k].firebaseUid == uid
  }

  // ---------------------------------------------------------------------
  // The decision

  /** The new user's identity: the next id and what the verified token says. */
  datatype Applicant = Applicant(id: nat, uid: string, name: string, email: Option<string>)

  function NewRow(a: Applicant, role: string, company: string): (r: UserRow)
    ensures r.id == a.id && r.firebaseUid == a.uid && r.name == a.name && r.email == a.email
    ensures r.role == role && r.companyName == company && r.companyId.None?
  {
    UserRow(a.id, a.uid, a.name, a.email, role, company, None)
  }

  /** Login mode: the stored user with this uid, or 404. */
  function SignInDecision(users: seq<UserRow>, uid: string): (d: Decision)
    ensures d.SignIn? <==> Registered(users, uid)
    ensures d.SignIn? ==> d.row in users && d.row.firebaseUid == uid
    ensures !d.SignIn? ==> d == Refuse(HttpError(404, "User is not registered"))
  {
    match FindByUid(users, uid)
    case Some(k) => SignIn(users[k])
    case None => Refuse(HttpError(404, "User is not registered"))
  }

  /**
   * The role rule, for a new uid with both fields present and the role
   * already lower-cased: an HR needs a company no stored name matches, a
   * recruiter one that a stored name matches, and any other role is refused.
   */
  function RoleRule(users: seq<UserRow>, a: Applicant, role: string, company: string): (d: Decision)
    ensures !d.SignIn?
    ensures d.Register? ==>
      d.row.id == a.id && d.row.firebaseUid == a.uid && d.row.name == a.name && d.row.email == a.email && d.row.companyId.None?
    ensures d.Register? ==> (d.row.role == "HR" && role == "hr") || (d.row.role == "Recruiter" && role == "recruiter")
    ensures role == "hr" ==> (d.Register? <==> forall k :: 0 <= k < |users| ==> !ILike(users[k].companyName, company))
    ensures role == "hr" && d.Register? ==> d.row.companyName == company
    ensures role == "hr" && !d.Register? ==> d == Refuse(HttpError(400, CompanyTaken))
    ensures role == "recruiter" ==> (d.Register? <==> exists k :: 0 <= k < |users| && ILike(users[k].companyName, company))
    ensures role == "recruiter" && d.Register? ==>
      d.row.companyName == users[FirstCompanyMatch(users, company).value].companyName
    ensures role == "recruiter" && !d.Register? ==> d == Refuse(HttpError(400, CompanyUnknown))
    ensures role != "hr" && role != "recruiter" ==> d == Refuse(HttpError(400, InvalidRole))
  {
    var found := FirstCompanyMatch(users, company);
    if role == "hr" then
      if found.Some? then Refuse(HttpError(400, CompanyTaken))
      else Register(NewRow(a, "HR", company))
    else if role == "recruiter" then
      if found.None? then Refuse(HttpError(400, CompanyUnknown))
      else Register(NewRow(a, "Recruiter", users[found.value].companyName))
    else Refuse(HttpError(400, InvalidRole))
  }

  /** Registration mode: required fields first, then the uid, then the role rule. */
  function Registration(users: seq<UserRow>, a: Applicant, role: string, company: string): (d: Decision)
    ensures role == "" || company == "" ==> d == Refuse(HttpError(400, RolesRequired))
    ensures role != "" && company != "" && Registered(users, a.uid) ==> d == Refuse(HttpError(400, AlreadyRegistered))
    ensures d.Register? ==> !Registered(users, a.uid) && role != "" && company != ""
    ensures role != "" && company != "" && !Registered(users, a.uid) ==> d == RoleRule(users, a, ToLower(role), company)
  {
    if role == "" || company == "" then Refuse(HttpError(400, RolesRequired))
    else if FindByUid(users, a.uid).Some? then Refuse(HttpError(400, AlreadyRegistered))
    else RoleRule(users, a, ToLower(role), company)
  }

  /** Everything `check_user` decides before the session cookie is minted, in the order the handler checks it. */
  function Decide(users: seq<UserRow>, nextId: nat, token: IdToken, body: Body): (d: Decision)
    ensures token.TokenRejected? ==> d == Refuse(HttpError(401, "Invalid or expired ID token: " + token.reason))
    ensures d.SignIn? ==> token.TokenVerified? && IsLoginMode(body) && d.row in users && d.row.firebaseUid == token.uid
    ensures d.Register? ==> token.TokenVerified? && !IsLoginMode(body) && !Registered(users, token.uid)
    ensures d.Register? ==> d.row.id == nextId && d.row.firebaseUid == token.uid && d.row.companyId.None?
    ensures d.Register? ==> d.row.role == "HR" || d.row.role == "Recruiter"
  {
    match token
    case TokenRejected(reason) => Refuse(HttpError(401, "Invalid or expired ID token: " + reason))
    case TokenVerified(uid, email, name, displayName) =>
      if IsLoginMode(body) then SignInDecision(users, uid)
      else
        match RoleField(body.value)
        case None => Refuse(InternalError)
        case Some(role) =>
          Registration(users, Applicant(nextId, uid, ChosenName(name, displayName), email), role, CompanyField(body.value))
  }

  /** The table after the decision: one row appended on registration, nothing otherwise. */
  function Apply(users: seq<UserRow>, d: Decision): (r: seq<UserRow>)
    ensures d.Register? ==> r == users + [d.row]
    ensures !d.Register? ==> r == users
  {
    if d.Register? then users + [d.row] else users
  }

  /** The `Set-Cookie` header of a successful reply: "session", http-only, secure, 14 days. */
  function SessionCookie(value: string): (c: SetCookie)
    ensures c.name == "session" && c.value == value && c.path == "/" && c.domain.None?
    ensures c.httpOnly && c.secure && c.sameSite == "Lax"
    ensures c.maxAge == Some(14 * 24 * 60 * 60) && c.maxAge.value > 0
  {
    SetCookie("session", value, Some(1209600), None, "/", None, true, true, "Lax")
  }

  function ProfileOf(row: UserRow): Profile {
    Profile(row.firebaseUid, row.name, row.email, row.role, row.companyName)
  }

  /** The reply: a refusal as it stands, any other decision with a minted cookie or 401. */
  function Respond(d: Decision, mint: Minting): (r: Reply)
    ensures d.Refuse? ==> r == Refused(d.error)
    ensures !d.Refuse? && mint.MintFailed? ==> r == Refused(HttpError(401, "Failed to create session cookie: " + mint.reason))
    ensures r.Accepted? ==> !d.Refuse? && mint.Minted? && r.cookie == SessionCookie(mint.cookie) && r.user == ProfileOf(d.row)
    ensures r.Accepted? ==> (r.status == 200 <==> d.SignIn?) && (r.status == 201 <==> d.Register?)
  {
    if d.Refuse? then Refused(d.error)
    else if mint.MintFailed? then Refused(HttpError(401, "Failed to create session cookie: " + mint.reason))
    else if d.SignIn? then Accepted(200, "User exists", ProfileOf(d.row), SessionCookie(mint.cookie))
    else Accepted(201, if d.row.role == "HR" then "HR user created successfully" else "Recruiter user created successfully",
                  ProfileOf(d.row), SessionCookie(mint.cookie))
  }

  // ---------------------------------------------------------------------
  // The table invariant kept by registration

  predicate IdsBelow(users: seq<UserRow>, nextId: nat) {
    forall i :: 0 <= i < |users| ==> users[i].id < nextId
  }

  predicate IdsIncreasing(users: seq<UserRow>) {
    forall i, j :: 0 <= i < j < |users| ==> users[i].id < users[j].id
  }

  predicate UidsUnique(users: seq<UserRow>) {
    forall i, j :: 0 <= i < j < |users| ==> users[i].firebaseUid != users[j].firebaseUid
  }

  predicate RolesKnown(users: seq<UserRow>) {
    forall i :: 0 <= i < |users| ==> users[i].role == "HR" || users[i].role == "Recruiter"
  }

  predicate HasHr(users: seq<UserRow>, company: string) {
    exists j :: 0 <= j < |users| && users[j].role == "HR" && users[j].companyName == company
  }

  predicate Anchored(users: seq<UserRow>) {
    forall i :: 0 <= i < |users| ==> HasHr(users, users[i].companyName)
  }

  predicate HrCompaniesDistinct(users: seq<UserRow>) {
    forall i, j :: 0 <= i < j < |users| && users[i].role == "HR" && users[j].role == "HR" ==>
      ToLower(users[i].companyName) != ToLower(users[j].companyName)
  }

  predicate NoCompanyIds(users: seq<UserRow>) {
    forall i :: 0 <= i < |users| ==> users[i].companyId.None?
  }

  /**
   * What registration maintains: ids increase and stay below the next id,
   * uids are unique, every row is an HR or a recruiter of a company that
   * has an HR, no two HRs share a company up to case, and no row carries a
   * `company_id`.
   */
  predicate TableInvariant(users: seq<UserRow>, nextId: nat) {
    IdsBelow(users, nextId) && IdsIncreasing(users) && UidsUnique(users) && RolesKnown(users)
    && Anchored(users) && HrCompaniesDistinct(users) && NoCompanyIds(users)
  }

  lemma HasHrGrows(users: seq<UserRow>, row: UserRow, company: string)
    requires HasHr(users, company)
    ensures HasHr(users + [row], company)
  {
    var j :| 0 <= j < |users| && users[j].role == "HR" && users[j].companyName == company;
    assert (users + [row])[j] == users[j];
  }

  /** What a registration decision guarantees about the row it appends. */
  lemma RegisterFacts(users: seq<UserRow>, nextId: nat, token: IdToken, body: Body)
    requires Decide(users, nextId, token, body).Register?
    ensures Admissible(users, nextId, Decide(users, nextId, token, body).row)
  {
    var row := Decide(users, nextId, token, body).row;
    var role := RoleField(body.value).value;
    var company := CompanyField(body.value);
    var a := Applicant(nextId, token.uid, ChosenName(token.name, token.displayName), token.email);
    assert Decide(users, nextId, token, body) == Registration(users, a, role, company) == RoleRule(users, a, ToLower(role), company);
    if row.role == "Recruiter" {
      var k := FirstCompanyMatch(users, company).value;
      assert users[k].companyName == row.companyName;
    }
  }

  /** The requirements on a row appended by registration. */
  predicate Admissible(users: seq<UserRow>, nextId: nat, row: UserRow) {
    row.id == nextId && !Registered(users, row.firebaseUid) && row.companyId.None?
    && (row.role == "HR" || row.role == "Recruiter")
    && (row.role == "HR" ==> forall k :: 0 <= k < |users| ==> !ILike(users[k].companyName, row.companyName))
    && (row.role == "Recruiter" ==> exists k :: 0 <= k < |users| && users[k].companyName == row.companyName)
  }

  lemma AppendKeepsKeys(users: seq<UserRow>, nextId: nat, row: UserRow)
    requires TableInvariant(users, nextId) && Admissible(users, nextId, row)
    ensures IdsBelow(users + [row], nextId + 1) && IdsIncreasing(users + [row]) && UidsUnique(users + [row])
  {
    var users' := users + [row];
    forall i, j | 0 <= i < j < |users'|
      ensures users'[i].id < users'[j].id && users'[i].firebaseUid != users'[j].firebaseUid
    {
      assert users'[i] == users[i];
      if j < |users| {
        assert users'[j] == users[j];
      }
    }
  }

  lemma AppendKeepsAnchored(users: seq<UserRow>, nextId: nat, row: UserRow)
    requires TableInvariant(users, nextId) && Admissible(users, nextId, row)
    ensures Anchored(users + [row])
  {
    var users' := users + [row];
    forall i | 0 <= i < |users'|
      ensures HasHr(users', users'[i].companyName)
    {
      if i < |users| {
        assert users'[i] == users[i];
        HasHrGrows(users, row, users[i].companyName);
      } else if row.role == "Recruiter" {
        var k :| 0 <= k < |users| && users[k].companyName == row.companyName;
        HasHrGrows(users, row, users[k].companyName);
      } else {
        assert users'[|users|] == row;
      }
    }
  }

  lemma AppendKeepsHrDistinct(users: seq<UserRow>, nextId: nat, row: UserRow)
    requires TableInvariant(users, nextId) && Admissible(users, nextId, row)
    ensures HrCompaniesDistinct(users + [row])
  {
    var users' := users + [row];
    forall i, j | 0 <= i < j < |users'| && users'[i].role == "HR" && users'[j].role == "HR"
      ensures ToLower(users'[i].companyName) != ToLower(users'[j].companyName)
    {
      assert users'[i] == users[i];
      if j < |users| {
        assert users'[j] == users[j];
      } else if ToLower(users[i].companyName) == ToLower(row.companyName) {
        SameUpToCaseMatches(users[i].companyName, row.companyName);
      }
    }
  }

  /** Appending an admissible row keeps the invariant. */
  lemma AppendPreservesInvariant(users: seq<UserRow>, nextId: nat, row: UserRow)
    requires TableInvariant(users, nextId) && Admissible(users, nextId, row)
    ensures TableInvariant(users + [row], nextId + 1)
  {
    AppendKeepsKeys(users, nextId, row);
    AppendKeepsAnchored(users, nextId, row);
    AppendKeepsHrDistinct(users, nextId, row);
    var users' := users + [row];
    assert RolesKnown(users') && NoCompanyIds(users') by {
      forall i | 0 <= i < |users'|
        ensures (users'[i].role == "HR" || users'[i].role == "Recruiter") && users'[i].companyId.None?
      {
        if i < |users| {
          assert users'[i] == users[i];
        }
      }
    }
  }

  /** Every decision keeps the invariant, whatever the token and the body. */
  lemma DecidePreservesInvariant(users: seq<UserRow>, nextId: nat, token: IdToken, body: Body)
    requires TableInvariant(users, nextId)
    ensures var d := Decide(users, nextId, token, body);
      TableInvariant(Apply(users, d), if d.Register? then nextId + 1 else nextId)
  {
    var d := Decide(users, nextId, token, body);
    if d.Register? {
      RegisterFacts(users, nextId, token, body);
      assert Admissible(users, nextId, d.row);
      AppendPreservesInvariant(users, nextId, d.row);
    }
  }

  // ---------------------------------------------------------------------
  // The handler

  /** `db.add(new_user); db.commit()`: appends one row and advances the id sequence. */
  method InsertUser(db: Database, row: UserRow)
    modifies db
    ensures db.users == old(db.users) + [row] && db.nextUserId == old(db.nextUserId) + 1
    ensures db.companies == old(db.companies) && db.jobs == old(db.jobs)
    ensures db.nextJobId == old(db.nextJobId) && db.resumes == old(db.resumes)
  {
    db.users := db.users + [row];
    db.nextUserId := db.nextUserId + 1;
  }

  /**
   * `check_user`: verifies the token, runs the checks in order, inserts and
   * commits the new user, and only then mints the session cookie. A failed
   * mint therefore answers 401 while the new row stays stored.
   */
  method CheckUser(db: Database, token: IdToken, body: Body, mint: Minting) returns (reply: Reply)
    requires TableInvariant(db.users, db.nextUserId)
    modifies db
    ensures TableInvariant(db.users, db.nextUserId)
    ensures db.users == Apply(old(db.users), Decide(old(db.users), old(db.nextUserId), token, body))
    ensures db.nextUserId == old(db.nextUserId) + (if |db.users| > |old(db.users)| then 1 else 0)
    ensures reply == Respond(Decide(old(db.users), old(db.nextUserId), token, body), mint)
    ensures db.companies == old(db.companies) && db.jobs == old(db.jobs)
    ensures db.nextJobId == old(db.nextJobId) && db.resumes == old(db.resumes)
  {
    DecidePreservesInvariant(db.users, db.nextUserId, token, body);
    var decided := DecideRequest(db.users, db.nextUserId, token, body);
    if decided.Register? {
      InsertUser(db, decided.row);
    }
    reply := Respond(decided, mint);
  }

  /** The checks of `check_user`, in the handler's order, against the table as it stands: they reach the decision `Decide` states. */
  method DecideRequest(users: seq<UserRow>, nextId: nat, token: IdToken, body: Body) returns (decided: Decision)
    ensures decided == Decide(users, nextId, token, body)
  {
    if token.TokenRejected? {
      decided := Refuse(HttpError(401, "Invalid or expired ID token: " + token.reason));
    } else if IsLoginMode(body) {
      var existing := FindByUid(users, token.uid);
      if existing.None? {
        decided := Refuse(HttpError(404, "User is not registered"));
      } else {
        decided := SignIn(users[existing.value]);
      }
    } else {
      var role := RoleField(body.value);
      var company := CompanyField(body.value);
      var a := Applicant(nextId, token.uid, ChosenName(token.name, token.displayName), token.email);
      if role.None? {
        decided := Refuse(InternalError);
      } else if role.value == "" || company == "" {
        decided := Refuse(HttpError(400, RolesRequired));
      } else if FindByUid(users, token.uid).Some? {
        decided := Refuse(HttpError(400, AlreadyRegistered));
      } else {
        assert Decide(users, nextId, token, body) == RoleRule(users, a, ToLower(role.value), company);
        var found := FirstCompanyMatch(users, company);
        var lowered := ToLower(role.value);
        if lowered == "hr" {
          if found.Some? {
            decided := Refuse(HttpError(400, CompanyTaken));
          } else {
            decided := Register(NewRow(a, "HR", company));
          }
        } else if lowered == "recruiter" {
          if found.None? {
            decided := Refuse(HttpError(400, CompanyUnknown));
          } else {
            decided := Register(NewRow(a, "Recruiter", users[found.value].companyName));
          }
        } else {
          decided := Refuse(HttpError(400, InvalidRole));
        }
      }
    }
  }

  // ---------------------------------------------------------------------
  // Properties of the decision

  /** Login mode answers with the stored user exactly when the uid is registered, and 404 otherwise. */
  lemma LoginMode(users: seq<UserRow>, nextId: nat, uid: string, email: Option<string>, name: Option<string>, dn: Option<string>, body: Body)
    requires IsLoginMode(body) && UidsUnique(users)
    ensures var d := Decide(users, nextId, TokenVerified(uid, email, name, dn), body);
      (d.SignIn? <==> Registered(users, uid))
      && (d.SignIn? ==> forall k :: 0 <= k < |users| && users[k].firebaseUid == uid ==> d.row == users[k])
      && (!d.SignIn? ==> d == Refuse(HttpError(404, "User is not registered")))
  {
    var r := FindByUid(users, uid);
    if r.Some? {
      forall k | 0 <= k < |users| && users[k].firebaseUid == uid
        ensures users[k] == users[r.value]
      {
      }
    }
  }

  /** A well-formed registration by a new uid is decided by the role rule. */
  lemma ReachesRoleRule(users: seq<UserRow>, nextId: nat, t: IdToken, payload: map<string, Value>)
    requires t.TokenVerified? && !Registered(users, t.uid)
    requires RoleField(payload).Some? && RoleField(payload).value != "" && CompanyField(payload) != ""
    ensures Decide(users, nextId, t, Some(payload)) ==
      RoleRule(users, Applicant(nextId, t.uid, ChosenName(t.name, t.displayName), t.email), ToLower(RoleField(payload).value), CompanyField(payload))
  {
    assert payload != map[] by {
      assert "company_name" in payload;
    }
  }

  /** A registration body needs a non-empty role and a non-empty string company name, checked before anything else. */
  lemma FieldsRequired(users: seq<UserRow>, nextId: nat, t: IdToken, payload: map<string, Value>)
    requires t.TokenVerified? && payload != map[]
    requires RoleField(payload).Some?
    ensures (RoleField(payload).value == "" || CompanyField(payload) == "") <==>
      Decide(users, nextId, t, Some(payload)) == Refuse(HttpError(400, RolesRequired))
  {
  }

  /** A non-string company name counts as missing. */
  lemma NonStringCompanyIsMissing(users: seq<UserRow>, nextId: nat, t: IdToken, payload: map<string, Value>)
    requires t.TokenVerified? && RoleField(payload).Some?
    requires "company_name" in payload && !payload["company_name"].Str?
    ensures Decide(users, nextId, t, Some(payload)) == Refuse(HttpError(400, RolesRequired))
  {
  }

  /** A registered uid cannot register again, whatever role it asks for. */
  lemma NoSecondRegistration(users: seq<UserRow>, nextId: nat, t: IdToken, payload: map<string, Value>)
    requires t.TokenVerified? && Registered(users, t.uid)
    requires RoleField(payload).Some? && RoleField(payload).value != "" && CompanyField(payload) != ""
    ensures Decide(users, nextId, t, Some(payload)) == Refuse(HttpError(400, AlreadyRegistered))
  {
    assert payload != map[] by {
      assert "company_name" in payload;
    }
  }

  /** An HR registration succeeds exactly when no stored company name matches the requested one. */
  lemma HrRule(users: seq<UserRow>, nextId: nat, t: IdToken, payload: map<string, Value>)
    requires t.TokenVerified? && !Registered(users, t.uid)
    requires RoleField(payload).Some? && ToLower(RoleField(payload).value) == "hr" && CompanyField(payload) != ""
    ensures var d := Decide(users, nextId, t, Some(payload));
      (d.Register? <==> forall k :: 0 <= k < |users| ==> !ILike(users[k].companyName, CompanyField(payload)))
      && (d.Register? ==> d.row.role == "HR" && d.row.companyName == CompanyField(payload))
      && (!d.Register? ==> d == Refuse(HttpError(400, CompanyTaken)))
  {
    assert RoleField(payload).value != "" by {
      assert ToLower(RoleField(payload).value) != "";
    }
    ReachesRoleRule(users, nextId, t, payload);
  }

  /** A recruiter registration succeeds exactly when a stored company matches, and takes the first match's spelling. */
  lemma RecruiterRule(users: seq<UserRow>, nextId: nat, t: IdToken, payload: map<string, Value>)
    requires t.TokenVerified? && !Registered(users, t.uid)
    requires RoleField(payload).Some? && ToLower(RoleField(payload).value) == "recruiter" && CompanyField(payload) != ""
    ensures var d := Decide(users, nextId, t, Some(payload));
      (d.Register? <==> exists k :: 0 <= k < |users| && ILike(users[k].companyName, CompanyField(payload)))
      && (d.Register? ==>
            d.row.role == "Recruiter" && d.row.companyName == users[FirstCompanyMatch(users, CompanyField(payload)).value].companyName)
      && (!d.Register? ==> d == Refuse(HttpError(400, CompanyUnknown)))
  {
    assert RoleField(payload).value != "" by {
      assert ToLower(RoleField(payload).value) != "";
    }
    ReachesRoleRule(users, nextId, t, payload);
  }

  /** Any role other than HR or recruiter, in any case, is refused. */
  lemma OtherRolesRefused(users: seq<UserRow>, nextId: nat, t: IdToken, payload: map<string, Value>)
    requires t.TokenVerified? && !Registered(users, t.uid)
    requires RoleField(payload).Some? && RoleField(payload).value != "" && CompanyField(payload) != ""
    requires ToLower(RoleField(payload).value) != "hr" && ToLower(RoleField(payload).value) != "recruiter"
    ensures Decide(users, nextId, t, Some(payload)) == Refuse(HttpError(400, InvalidRole))
  {
    assert RoleField(payload).value != "" by {
      assert ToLower(RoleField(payload).value) != "";
    }
    ReachesRoleRule(users, nextId, t, payload);
  }

  /** `company_name` is an `ILIKE` pattern: a recruiter asking for "%" joins the first stored company. */
  lemma PercentJoinsFirstCompany(users: seq<UserRow>, nextId: nat, t: IdToken, payload: map<string, Value>)
    requires t.TokenVerified? && !Registered(users, t.uid) && |users| > 0
    requires RoleField(payload).Some? && ToLower(RoleField(payload).value) == "recruiter" && CompanyField(payload) == "%"
    ensures var d := Decide(users, nextId, t, Some(payload));
      d.Register? && d.row.companyName == users[0].companyName
  {
    PercentMatchesAll(ToLower(users[0].companyName));
    assert ToLower("%") == "%";
    RecruiterRule(users, nextId, t, payload);
  }

  /** A failed mint after a registration answers 401, yet the new user stays stored. */
  lemma MintFailureKeepsRow(users: seq<UserRow>, nextId: nat, t: IdToken, body: Body, reason: string)
    requires Decide(users, nextId, t, body).Register?
    ensures Respond(Decide(users, nextId, t, body), MintFailed(reason)).Refused?
    ensures Respond(Decide(users, nextId, t, body), MintFailed(reason)).error.status == 401
    ensures |Apply(users, Decide(users, nextId, t, body))| == |users| + 1
  {
  }

  // ---------------------------------------------------------------------
  // Logout

  /** `COOKIE_SECURE`: "1", "true" or "yes" in any case; false when unset. */
  function CookieSecure(env: Env): (b: bool)
    ensures "COOKIE_SECURE" !in env ==> !b
    ensures b <==> "COOKIE_SECURE" in env && ToLower(env["COOKIE_SECURE"]) in {"1", "true", "yes"}
  {
    ToLower(GetEnv(env, "COOKIE_SECURE", "false")) in {"1", "true", "yes"}
  }

  /** `COOKIE_DOMAIN` when set to a non-empty value. */
  function CookieDomain(env: Env): (d: Option<string>)
    ensures d.Some? ==> "COOKIE_DOMAIN" in env && d.value == env["COOKIE_DOMAIN"] != ""
    ensures d.None? ==> "COOKIE_DOMAIN" !in env || env["COOKIE_DOMAIN"] == ""
  {
    var v := LookupEnv(env, "COOKIE_DOMAIN");
    if v.Some? && v.value != "" then v else None
  }

  function CookiePath(env: Env): (p: string)
    ensures "COOKIE_PATH" !in env ==> p == "/"
    ensures "COOKIE_PATH" in env ==> p == env["COOKIE_PATH"]
  {
    GetEnv(env, "COOKIE_PATH", "/")
  }

  /** `COOKIE_SAMESITE`, with "Lax" for an unset or empty value. */
  function CookieSameSite(env: Env): (s: string)
    ensures s != ""
    ensures "COOKIE_SAMESITE" in env && env["COOKIE_SAMESITE"] != "" ==> s == env["COOKIE_SAMESITE"]
    ensures "COOKIE_SAMESITE" !in env || env["COOKIE_SAMESITE"] == "" ==> s == "Lax"
  {
    var v := GetEnv(env, "COOKIE_SAMESITE", "Lax");
    if v != "" then v else "Lax"
  }

  /** The response's `set_cookie` refuses any SameSite other than strict, lax or none, in any case. */
  predicate SameSiteAccepted(s: string)
    ensures SameSiteAccepted(s) ==> 3 <= |s| <= 6
  {
    ToLower(s) in {"strict", "lax", "none"}
  }

  /** The SameSite check ignores case. */
  lemma SameSiteIgnoresCase(s: string)
    ensures SameSiteAccepted(s) <==> SameSiteAccepted(ToLower(s))
  {
    ToLowerIdempotent(s);
  }

  /** `delete_cookie` sets an empty, already expired cookie with the framework's own defaults. */
  function DeletionHeader(env: Env): (c: SetCookie)
    ensures c.name == CookieName(env) && c.value == "" && c.maxAge == Some(0)
  {
    SetCookie(CookieName(env), "", Some(0), Some(0), CookiePath(env), CookieDomain(env), false, false, "lax")
  }

  /** The explicit expired cookie set after the deletion. */
  function ExpiryHeader(env: Env): (c: SetCookie)
    ensures c.name == CookieName(env) && c.value == "" && c.maxAge == Some(0) && c.httpOnly
    ensures c.secure == CookieSecure(env)
  {
    SetCookie(CookieName(env), "", Some(0), Some(0), CookiePath(env), CookieDomain(env), CookieSecure(env), true, CookieSameSite(env))
  }

  /**
   * `session_logout`: 200 `{"message": "Logged out"}` with two expiring
   * headers, whatever the request carries; a SameSite setting the framework
   * refuses makes it fail with 500.
   */
  function SessionLogout(env: Env): (r: Result<seq<SetCookie>, HttpError>)
    ensures r.Success? <==> SameSiteAccepted(CookieSameSite(env))
    ensures r.Failure? ==> r.error == InternalError
    ensures r.Success? ==> |r.value| == 2 && forall i :: 0 <= i < 2 ==>
      r.value[i].name == CookieName(env) && r.value[i].value == "" && r.value[i].maxAge == Some(0)
  {
    if SameSiteAccepted(CookieSameSite(env)) then Success([DeletionHeader(env), ExpiryHeader(env)]) else Failure(InternalError)
  }

  /** With the default cookie settings, logout removes the cookie a sign-in stored. */
  lemma LogoutClearsSessionCookie(env: Env, jar: CookieJar, value: string)
    requires "COOKIE_NAME" !in env && "COOKIE_PATH" !in env && "COOKIE_DOMAIN" !in env && "COOKIE_SAMESITE" !in env
    ensures SessionLogout(env).Success?
    ensures KeyOf(SessionCookie(value)) !in StoreAll(Store(jar, SessionCookie(value)), SessionLogout(env).value)
  {
    LowersTo("Lax", "lax");
    var cs := SessionLogout(env).value;
    var j1 := Store(jar, SessionCookie(value));
    assert KeyOf(cs[0]) == KeyOf(SessionCookie(value));
    var j2 := Store(j1, cs[0]);
    var j3 := Store(j2, cs[1]);
    assert cs[1..][1..] == [];
    assert StoreAll(j1, cs) == StoreAll(j2, cs[1..]) == StoreAll(j3, []);
  }

  /** With `COOKIE_NAME` set to anything but "session", logout leaves the sign-in cookie in place. */
  lemma RenamedCookieSurvivesLogout(env: Env, jar: CookieJar, value: string)
    requires CookieName(env) != "session" && SessionLogout(env).Success?
    ensures KeyOf(SessionCookie(value)) in StoreAll(Store(jar, SessionCookie(value)), SessionLogout(env).value)
  {
    StoreAllUntouched(Store(jar, SessionCookie(value)), SessionLogout(env).value, KeyOf(SessionCookie(value)));
  }
}
