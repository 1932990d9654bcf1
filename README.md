# hire-hub: sign-in, role routing and the recruiter workspace, in Dafny

hire-hub is a hiring platform with two kinds of users: HR staff, who
register a company, and recruiters, who join an existing company. A user
signs in with Google through Firebase. The FastAPI server's `/check-user`
endpoint turns the Firebase id token into a `session` cookie, and in the
same request either recognises a stored user (sign-in) or registers a new
one (registration). The Next.js client then stores the profile in
`localStorage` under `hh_user` and navigates to `/workspace/hr` or
`/workspace/recruiter`. A middleware guards those workspaces by decoding
the role claim of the cookie. The recruiter's job endpoints sit behind the
server-side session helpers and role gates.

This project models that core and proves what it promises:

- `route_guard.dfy`: the Next.js middleware. It covers role resolution
  from the cookie's claims, the redirects for `/` and the two workspaces,
  and the route matcher.
- `session_auth.dfy`: the server's session helpers, `get_current_user`
  and the `require_hr` and `require_recruiter` gates.
- `registration.dfy`: `/check-user` and `/session-logout`. It covers the
  order of the checks, the `ILIKE` company rule, the table invariant that
  registration keeps, and the cookie headers.
- `recruiter_jobs.dfy`: job creation, the newest-first job listing and the
  summary counts.
- `home.dfy`: the landing page's `handleLogin` and `handleLogout`.
- `login_forms.dfy`: the two sign-in dialogs.
- `shells.dfy`: the two workspace shells. They derive the active section
  from the URL, navigate to a chosen section, and log out.
- `workspace_pages.dfy`: the single-file HR and recruiter workspace pages.
- `workspace_fixtures.dfy` and `hr_candidates_page.dfy`: the mock data the
  pages generate.
- `matching.dfy`, `candidates.dfy` and `paging.dfy`: the candidate tables
  and their pagination.
- Supporting modules:
  - `wrappers.dfy`: `Option` and `Result`.
  - `text.dfy`: case folding, stripping and number rendering.
  - `json.dfy`: JSON values with JavaScript and Python truthiness.
  - `http.dfy`: errors, `Set-Cookie` headers, the browser cookie jar and
    the environment.
  - `schema.dfy`: database rows and the database object.
  - `browser.dfy`: the storage key and fetch outcomes.
  - `roster.dfy`: mock job cards and candidates.

Foreign services are parameters of the model, never called:

- Firebase `verify_id_token`, `create_session_cookie` and
  `verify_session_cookie`;
- `decodeJwt`;
- `fetch`;
- `Math.random`;
- the process environment.

Server handlers that write to the database are methods on a `Database`
object. Their contracts name the new table contents in terms of the pure
decision functions, and lemmas prove the properties of those functions.
Client components that hold state are classes whose methods are their
event handlers.

## Model

| member | source | states |
|---|---|---|
| Text.ToLower | client/src/middleware.js:39 | Same length as the input; every ASCII capital is lowered and every other character is kept |
| Text.Strip | server/app/routers/recruiter/jobs.py:34-35 | The result is the input with a run of whitespace removed from each end: a contiguous slice of the input, all whitespace before and after it, and neither starting nor ending with whitespace |
| Text.StripEmptyIffBlank | server/app/routers/recruiter/jobs.py:38 | A text strips to nothing exactly when it is all whitespace |
| Text.RoleNamesLowered | server/app/utils/auth.py:95 | "HR" lowers to "hr" and "Recruiter" to "recruiter" |
| Text.StripTrailing | client/src/components/dashboard/hr/HrShell.js:37 | Removes exactly the trailing run of the character: what remains is a prefix not ending in it, and everything removed was that character |
| Text.StripTrailingAbsorbs | client/src/components/dashboard/hr/HrShell.js:37 | One more trailing slash gives the same stripped path |
| Text.NatToString | client/src/app/workspace/recruiter/page.js:79 | The decimal rendering of an index is a non-empty run of digits |
| Text.ParseNatToString | client/src/app/workspace/recruiter/page.js:79 | Parsing the rendering gives back the number |
| Text.NatToStringInjective | client/src/app/workspace/recruiter/page.js:79 | Different indices render differently, so generated ids cannot collide |
| Json.StrippedGet | server/app/routers/recruiter/jobs.py:34-35 | `(d.get(k) or "").strip()`: raises (None) exactly for a truthy non-string; a string value gives its stripped text; a missing or falsy value gives "" |
| Json.Member | client/src/middleware.js:32-37 | Optional chaining yields a value exactly when the receiver is an object holding the key, and that value is the key's value |
| Json.Or | client/src/middleware.js:32-37 | The JavaScript `or` operator yields one of its operands: the left one when truthy, and truthy when either one is |
| Json.JsStringOfText | client/src/app/page.js:75 | A string, or a one-element array of a string, prints as that string in a toast |
| Json.JsString | client/src/app/page.js:75 | A string prints as itself; only strings and arrays can print as empty; a boolean prints as "true" exactly when it is true |
| Http.Store | server/app/routers/users.py:264-281 | A Set-Cookie header with non-positive max-age removes its name, domain and path from the browser jar; any other header stores its value; every other cookie is untouched |
| Http.StoreAllUntouched | server/app/routers/users.py:264-281 | A cookie that none of a reply's headers name is left as it was |
| Http.GetEnv | server/app/routers/users.py:231-235 | `os.getenv(key, default)`: the set value, otherwise the default |
| Http.LookupEnv | server/app/routers/users.py:232 | `os.getenv(key)`: present exactly when the key is set, and then the value it is set to |
| RouteGuard.PrefixFacts | client/src/middleware.js:53-61 | Both workspace prefixes extend "/workspace", no path has both, and neither covers "/" |
| RouteGuard.DirFacts | client/src/middleware.js:53-68 | Both workspaces lie under "/workspace/", which lies under "/workspace" |
| RouteGuard.HasSession | client/src/middleware.js:21 | No `session` cookie, or an empty one, is no session |
| RouteGuard.Matched | client/src/middleware.js:67-69 | Every HR and recruiter workspace path is matched; every matched path is "/" or lies under "/workspace" |
| RouteGuard.RoleText | client/src/middleware.js:55-60 | The printed role names the HR or the recruiter workspace exactly when the role is that one; a missing role prints as something else |
| RouteGuard.RoleCandidates | client/src/middleware.js:32-37 | The four claim locations are probed in a fixed order |
| RouteGuard.FirstTruthy | client/src/middleware.js:32-37 | The chain of `or` operators yields the first truthy candidate, and nothing exactly when no candidate is truthy |
| RouteGuard.ResolveRole | client/src/middleware.js:27-44 | An undecodable cookie gives no role; a resolved role is already lower-case |
| RouteGuard.Guard | client/src/middleware.js:21-64 | An HR page passes only for role "hr" and a recruiter page only for "recruiter"; a signed-in visitor on the other workspace is sent to "/workspace/" followed by the role as printed; every other signed-in request for a path other than "/" passes; with a session "/" always redirects; without one exactly the workspace paths redirect, to "/"; every redirect goes to "/" or under "/workspace/" |
| RouteGuard.Handle | client/src/middleware.js:67-69 | Paths outside the matcher pass untouched; matched paths get the guard's decision |
| RouteGuard.MatchedWorkspacePrefix | client/src/middleware.js:67-69 | On a matched path the "/workspace" prefix test means "not the landing page" |
| RouteGuard.TopLevelRoleWins | client/src/middleware.js:32-39 | A truthy top-level `role` decides the role, lower-cased, ahead of every nested claim |
| RouteGuard.FalsyRoleSkipped | client/src/middleware.js:32-39 | A falsy top-level role falls through to `custom.role` |
| RouteGuard.ClaimsRoleThird | client/src/middleware.js:32-39 | `claims.role` decides when neither `role` nor `custom` is present |
| RouteGuard.RolesListLast | client/src/middleware.js:32-39 | The first entry of `roles` decides when no other claim is present |
| RouteGuard.NoClaimNoRole | client/src/middleware.js:32-37 | A payload with no truthy candidate resolves to no role |
| RouteGuard.UndecodableCookieOnHrPage | client/src/middleware.js:41-56 | An undecodable session on an HR page redirects to "/workspace/null" |
| RouteGuard.LandingRedirectLoop | client/src/middleware.js:46-51 | A session whose role is anything but "hr" or "recruiter", or none, redirects "/" to itself, and the next request does the same |
| RouteGuard.OwnWorkspaceLetsIn | client/src/middleware.js:53-64 | A session whose role is "hr" is let into the HR workspace, and one whose role is "recruiter" into the recruiter workspace |
| RouteGuard.LandingSendsRoleHome | client/src/middleware.js:46-51 | "/" sends a recognised role to its own workspace, where the guard then lets it through |
| RouteGuard.MismatchRedirectsToOwnWorkspace | client/src/middleware.js:53-61 | A recruiter on an HR page goes to the recruiter workspace, and an HR on a recruiter page to the HR workspace |
| RouteGuard.HrPrefixCoversHrx | client/src/middleware.js:53-56 | The HR test is a bare prefix test: "/workspace/hrx" is treated as an HR page |
| RouteGuard.OtherWorkspacePathsPass | client/src/middleware.js:53-64 | Any other workspace path passes for anyone holding a session |
| SessionAuth.SessionValue | server/app/utils/auth.py:24-25 | The cookie named by `COOKIE_NAME` is read when present and non-empty |
| SessionAuth.VerifySessionCookie | server/app/utils/auth.py:16-41 | No cookie gives 401 "No session cookie found."; a refused cookie gives 401 (a revoked one only when revocation is checked); otherwise the decoded claims unchanged |
| SessionAuth.VerifySessionCookieDependency | server/app/utils/auth.py:44-49 | Succeeds only for a live, unrevoked session, with that session's claims |
| SessionAuth.DecodeBestEffort | server/app/utils/auth.py:52-67 | Never fails: no result for a missing or unusable cookie, and the claims for a live or revoked one |
| SessionAuth.BestEffortIsLenientVerify | server/app/utils/auth.py:52-67 | The lenient decode equals the non-revocation-checking verification with every failure turned into no result |
| SessionAuth.StrictImpliesBestEffort | server/app/utils/auth.py:44-67 | Whatever the strict check accepts, the lenient decode accepts with the same claims |
| SessionAuth.RevokedSessionGap | server/app/utils/auth.py:44-67 | A revoked session is refused by the strict check and decoded by the lenient one |
| SessionAuth.GetCurrentUser | server/app/utils/auth.py:70-90 | The user returned is a stored user whose uid is the cookie's `uid` claim; every failure is 401; a verified session whose uid is stored always succeeds |
| SessionAuth.RequireHr | server/app/utils/auth.py:94-97 | Passes the user unchanged exactly when the lower-cased role is "hr", otherwise 403 "HR only" |
| SessionAuth.RequireRecruiter | server/app/utils/auth.py:100-105 | Passes the user unchanged exactly when the lower-cased role is "recruiter", otherwise 403 "Recruiter only" |
| SessionAuth.Gate | server/app/utils/auth.py:94-105 | Current-user failures pass through unchanged; a current user whose lower-cased role is the required one passes as is; any other gets 403 "HR only" or "Recruiter only"; a gated caller always has the required role |
| SessionAuth.GatesExclusive | server/app/utils/auth.py:94-105 | No user passes both role gates |
| SessionAuth.StoredUsersPassTheirGate | server/app/utils/auth.py:94-105 | Every user that registration stores passes the gate of its own role and fails the other |
| SessionAuth.StoredRoleGates | server/app/utils/auth.py:94-105 | The roles "HR" and "Recruiter" pass exactly their own gate |
| SessionAuth.RenamedCookieNeverFound | server/app/utils/auth.py:13 | With `COOKIE_NAME` other than "session", the cookie sign-in sets is never found, so every gated call fails with 401 |
| Registration.CompanyField | server/app/routers/users.py:125-126 | A string `company_name` is read stripped; any other value counts as "" |
| Registration.ChosenName | server/app/routers/users.py:97 | The token's non-empty name wins, then its display name; the name is empty only when both are missing or empty |
| Registration.IsLoginMode | server/app/routers/users.py:100 | No body is sign-in mode; a body carrying a role never is |
| Registration.RoleField | server/app/routers/users.py:124 | The stripped role string; "" when the key is absent; no value exactly when a truthy non-string makes `.strip()` raise |
| Registration.LikeMatchReflexive | server/app/routers/users.py:142-145 | Every company name matches itself as an ILIKE pattern |
| Registration.SameUpToCaseMatches | server/app/routers/users.py:142-145 | Names equal up to case always match each other |
| Registration.LikeMatchLiteral | server/app/routers/users.py:142-145 | A pattern without wildcards matches exactly the text equal to it |
| Registration.ILikeLiteral | server/app/routers/users.py:142-145 | A company name without wildcards matches exactly the names equal to it up to case |
| Registration.LikeMatch | server/app/routers/users.py:144 | A pattern without `%` matches only text of its own length |
| Registration.ILikeIgnoresCase | server/app/routers/users.py:144 | ILIKE gives the same answer after lower-casing either side |
| Registration.PercentMatchesAll | server/app/routers/users.py:142-145 | A lone "%" matches every name |
| Registration.FindByUid | server/app/routers/users.py:134-140 | `first()` by uid: the earliest row with that uid, and none exactly when no row has it |
| Registration.FirstCompanyMatch | server/app/routers/users.py:142-145 | `first()` by ILIKE: the earliest matching row, and none exactly when no row matches |
| Registration.SignInDecision | server/app/routers/users.py:100-121 | Sign-in succeeds exactly for a registered uid, with that uid's stored row; otherwise 404 "User is not registered" |
| Registration.RoleRule | server/app/routers/users.py:148-228 | "hr" registers exactly when no stored company matches, and the row keeps the requested name; "recruiter" registers exactly when one matches, and the row takes the first match's name; every other role gets 400 "Invalid role" |
| Registration.Registration | server/app/routers/users.py:124-228 | Missing fields, then an existing uid, are refused before the role rule, which sees the lower-cased role |
| Registration.Decide | server/app/routers/users.py:66-228 | A rejected token gives 401; a sign-in returns the caller's own stored row in login mode; a registration is for an unregistered uid outside login mode, with the next id, the token's uid, role "HR" or "Recruiter" and no company id |
| Registration.NewRow | server/app/routers/users.py:155-161 | The new row carries the token's uid, name and email, the given role and company name, and no company id |
| Registration.Apply | server/app/routers/users.py:160-163 | The table gains exactly the new row on registration and is unchanged otherwise |
| Registration.SessionCookie | server/app/routers/users.py:38-63 | The header sets "session" with the minted value, path "/", http-only, secure, SameSite "Lax", for 14 days |
| Registration.Respond | server/app/routers/users.py:38-63 | A refusal is sent as it stands; a failed mint gives 401; an accepted reply carries the minted cookie and the row's profile, 200 for sign-in and 201 for registration |
| Registration.HasHrGrows | server/app/routers/users.py:148-222 | A company that has an HR still has one after a row is appended |
| Registration.RegisterFacts | server/app/routers/users.py:148-222 | The row a registration appends is admissible for the table |
| Registration.AppendKeepsKeys | server/app/routers/users.py:148-222 | Appending an admissible row keeps ids increasing and below the next id, and uids unique |
| Registration.AppendKeepsAnchored | server/app/routers/users.py:148-222 | Appending an admissible row keeps every row's company backed by an HR |
| Registration.AppendKeepsHrDistinct | server/app/routers/users.py:148-222 | Appending an admissible row keeps HR company names distinct up to case |
| Registration.AppendPreservesInvariant | server/app/routers/users.py:148-222 | Appending an admissible row keeps the whole table invariant |
| Registration.DecidePreservesInvariant | server/app/routers/users.py:66-228 | Whatever the token and body, the table after the decision satisfies the invariant again |
| Registration.InsertUser | server/app/routers/users.py:162-163 | Appends exactly one row, advances the user id, and leaves the other tables alone |
| Registration.CheckUser | server/app/routers/users.py:66-228 | The table becomes the decision applied to the old table, with the invariant kept; the reply is the decision's response to the mint; the other tables are unchanged |
| Registration.DecideRequest | server/app/routers/users.py:80-225 | Running the checks in the handler's order against the current table (token, login mode, missing fields, existing uid, then the role with its company lookup) reaches exactly the decision `Decide` defines |
| Registration.LoginMode | server/app/routers/users.py:100-121 | In login mode a registered uid gets its first stored row and an unknown uid gets 404 |
| Registration.ReachesRoleRule | server/app/routers/users.py:124-145 | A well-formed registration by a new uid is decided by the role rule on the lower-cased role and the stripped company |
| Registration.FieldsRequired | server/app/routers/users.py:124-132 | An empty role or company is refused with 400 before anything else is checked, and only then |
| Registration.NonStringCompanyIsMissing | server/app/routers/users.py:125-132 | A non-string `company_name` is refused as missing |
| Registration.NoSecondRegistration | server/app/routers/users.py:134-140 | A registered uid cannot register again, whatever role it asks for |
| Registration.HrRule | server/app/routers/users.py:148-183 | An HR registration succeeds exactly when no stored company matches, with role "HR" and the requested name; otherwise 400 "Company already exists" |
| Registration.RecruiterRule | server/app/routers/users.py:186-222 | A recruiter registration succeeds exactly when a stored company matches, taking the first match's name; otherwise 400 "Company does not exist" |
| Registration.OtherRolesRefused | server/app/routers/users.py:225-228 | Any role other than hr or recruiter, in any case, is refused with 400 |
| Registration.PercentJoinsFirstCompany | server/app/routers/users.py:142-145 | A recruiter asking for company "%" joins the first stored user's company |
| Registration.MintFailureKeepsRow | server/app/routers/users.py:38-50 | When minting fails after a registration the reply is 401, yet the new row is stored |
| Registration.CookieSecure | server/app/routers/users.py:234 | True exactly when `COOKIE_SECURE` is "1", "true" or "yes" in any case; false when unset |
| Registration.CookieDomain | server/app/routers/users.py:232 | The domain is used only when `COOKIE_DOMAIN` is set and non-empty |
| Registration.CookiePath | server/app/routers/users.py:233 | `COOKIE_PATH` when set, otherwise "/" |
| Registration.CookieSameSite | server/app/routers/users.py:235 | The `COOKIE_SAMESITE` value when it is set and non-empty, otherwise "Lax" |
| Registration.SameSiteAccepted | server/app/routers/users.py:280 | Only a setting of three to six characters can be accepted |
| Registration.SameSiteIgnoresCase | server/app/routers/users.py:280 | The SameSite check ignores case |
| Registration.DeletionHeader | server/app/routers/users.py:264-267 | `delete_cookie` sets an empty, already expired cookie under `COOKIE_NAME` |
| Registration.ExpiryHeader | server/app/routers/users.py:271-281 | The explicit header is an empty, expired, http-only cookie under `COOKIE_NAME` with the configured secure flag |
| Registration.SessionLogout | server/app/routers/users.py:239-283 | Succeeds exactly when the SameSite setting is one the framework accepts, with two expiring headers; otherwise 500 |
| Registration.LogoutClearsSessionCookie | server/app/routers/users.py:239-283 | With the default settings, logout removes the cookie that sign-in stored in the browser |
| Registration.RenamedCookieSurvivesLogout | server/app/routers/users.py:231 | With `COOKIE_NAME` other than "session", the sign-in cookie survives logout |
| RecruiterJobs.ValidateJob | server/app/routers/recruiter/jobs.py:27-51 | Every branch of the body checks: an unparsable body gives 400 "Invalid JSON body."; a non-object body or a truthy non-string field gives 500; an empty stripped field gives 400 "Both title and description are required."; a title over 255 gives 400 "Title too long (max 255)."; a description under 10 gives 400 "Description too short (min 10)."; every other body succeeds with the two stripped strings |
| RecruiterJobs.PresenceBeforeLength | server/app/routers/recruiter/jobs.py:38-46 | An empty title is reported as missing, however long the description |
| RecruiterJobs.TitleLengthBeforeDescription | server/app/routers/recruiter/jobs.py:43-51 | An over-long title is reported before a short description |
| RecruiterJobs.FindCompany | server/app/routers/recruiter/jobs.py:68-73 | A stored company with that id, and none exactly when no company has it |
| RecruiterJobs.CompanyRelation | server/app/routers/recruiter/jobs.py:57 | The relationship is loaded through `company_id`: none without it, and a loaded company has that id and is stored |
| RecruiterJobs.DerivedCompanyId | server/app/routers/recruiter/jobs.py:54-59 | The column wins when set; any id found comes from the column or the relationship |
| RecruiterJobs.FallbackAddsNothing | server/app/routers/recruiter/jobs.py:54-59 | The relationship fallback never supplies a company id that the column lacks |
| RecruiterJobs.NewJob | server/app/routers/recruiter/jobs.py:27-95 | Validation errors pass through; no company id gives 400; an unknown company gives 400; a valid body from a caller whose company exists creates exactly the job with the validated fields, the caller's company and id, the next id and the current time |
| RecruiterJobs.JobsInvariantGrows | server/app/routers/recruiter/jobs.py:83-85 | Appending a job with the next id keeps job ids increasing and below the next id |
| RecruiterJobs.CreateJob | server/app/routers/recruiter/jobs.py:27-95 | Returns the decision for the old tables, so a valid request from a recruiter with an existing company stores a job; on success exactly that job is appended and the id advances; on failure nothing changes; the job-id invariant holds; other tables are unchanged |
| RecruiterJobs.InsertJob | server/app/routers/recruiter/jobs.py:83-85 | Appends exactly the job under the next id, advances the id, keeps the job-id invariant and leaves the other tables alone |
| RecruiterJobs.RegisteredRecruitersCannotPost | server/app/routers/recruiter/jobs.py:54-65 | A recruiter stored by registration has no company id, so every job it submits is refused with 400 |
| RecruiterJobs.OwnedBy | server/app/routers/recruiter/jobs.py:107-109 | Exactly the jobs whose recruiter is the caller |
| RecruiterJobs.InsertNewest | server/app/routers/recruiter/jobs.py:110 | Inserting adds the job once and keeps all others |
| RecruiterJobs.InsertKeepsOrder | server/app/routers/recruiter/jobs.py:110 | Inserting into a newest-first list keeps it newest first |
| RecruiterJobs.NewestFirst | server/app/routers/recruiter/jobs.py:110 | The result is ordered newest first and is a permutation of the input |
| RecruiterJobs.ViewOf | server/app/routers/recruiter/jobs.py:116-132 | A view copies the job's fields and has a company name exactly when the job's company exists |
| RecruiterJobs.Views | server/app/routers/recruiter/jobs.py:114-133 | One view per job, in order |
| RecruiterJobs.Listing | server/app/routers/recruiter/jobs.py:107-135 | As many entries as the caller has jobs, all the caller's, and newest first |
| RecruiterJobs.ListRecruiterJobs | server/app/routers/recruiter/jobs.py:107-135 | The loop builds the listing, and the total is its length |
| RecruiterJobs.ListingIsExactlyTheCallersJobs | server/app/routers/recruiter/jobs.py:107-112 | The sorted listing holds each of the caller's jobs exactly as often as it is stored, and no other job |
| RecruiterJobs.MatchingJobs | server/app/routers/recruiter/jobs.py:163-167 | Exactly the caller's jobs with the given id |
| RecruiterJobs.RecruiterSummary | server/app/routers/recruiter/jobs.py:139-223 | The job count is the number of the caller's jobs, and the shortlist count is 0 because no shortlist model or column exists |
| RecruiterJobs.AtMostOneMatch | server/app/routers/recruiter/jobs.py:163-167 | With distinct job ids, a resume joins at most one of the caller's jobs |
| RecruiterJobs.ResumesForCaller | server/app/routers/recruiter/jobs.py:163-167 | Exactly the resumes whose job belongs to the caller |
| RecruiterJobs.ResumeCountIsPerResume | server/app/routers/recruiter/jobs.py:158-168 | The join counts each resume submitted to one of the caller's jobs exactly once |
| Roster.ShortlistOf | client/src/app/workspace/recruiter/page.js:91 | The shortlist is no longer than the list |
| Roster.ShortlistMembers | client/src/app/workspace/recruiter/page.js:91 | The shortlist holds exactly the shortlisted candidates |
| WorkspaceFixtures.Generated | client/src/app/workspace/recruiter/page.js:66-89 | 23 candidates, each scoring between 60 and 99 |
| WorkspaceFixtures.CandidateAt | client/src/app/workspace/recruiter/page.js:76-86 | A score of at least 60, below 100 for a draw below 40; shortlisted exactly for multiples of 7; two skills from the list; a job id of one of the three cards |
| WorkspaceFixtures.SuccessorMultipleOfSeven | client/src/app/workspace/recruiter/page.js:85 | The next index is a multiple of 7 exactly when the index leaves remainder 6 |
| WorkspaceFixtures.FakeCandidates | client/src/app/workspace/recruiter/page.js:76-88 | The loop pushes exactly the generated list |
| WorkspaceFixtures.IdsDistinct | client/src/app/workspace/recruiter/page.js:79 | Ids are "c1" to "c23", all distinct |
| WorkspaceFixtures.EverySeventh | client/src/app/workspace/recruiter/page.js:85 | When exactly every seventh position is flagged, the shortlist of a prefix is every seventh candidate in it |
| WorkspaceFixtures.ShortlistedPositions | client/src/app/workspace/recruiter/page.js:85 | Candidate `i` is shortlisted exactly when `i` is a multiple of 7 |
| WorkspaceFixtures.EverySeventhOfTwentyThree | client/src/app/workspace/recruiter/page.js:85-91 | In 23 such candidates the shortlist is the 7th, 14th and 21st |
| WorkspaceFixtures.ShortlistIsEverySeventh | client/src/app/workspace/recruiter/page.js:91 | The page's shortlist is exactly candidates 7, 14 and 21 |
| WorkspaceFixtures.ShortlistIds | client/src/app/workspace/recruiter/page.js:79-85 | The shortlisted ids are c7, c14 and c21 |
| HrCandidatesPage.Candidates | client/src/app/workspace/hr/candidates/page.js:12-24 | 18 candidates |
| HrCandidatesPage.CandidateAt | client/src/app/workspace/hr/candidates/page.js:12-23 | A score from 60 to 99; shortlisted exactly for multiples of 5; one of the three skill sets; a job id of one of the three cards |
| HrCandidatesPage.ScoresAndIds | client/src/app/workspace/hr/candidates/page.js:13-15 | Scores lie in 60 to 99; ids are "hc1" to "hc18", all distinct |
| HrCandidatesPage.EveryFifth | client/src/app/workspace/hr/candidates/page.js:23 | When exactly every fifth position from 0 is flagged, the shortlist of a prefix is every fifth candidate in it |
| HrCandidatesPage.ShortlistedPositions | client/src/app/workspace/hr/candidates/page.js:23 | Candidate `i` is shortlisted exactly when `i` is a multiple of 5 |
| HrCandidatesPage.EveryFifthOfEighteen | client/src/app/workspace/hr/candidates/page.js:12-23 | In 18 such candidates the shortlist is the 1st, 6th, 11th and 16th |
| HrCandidatesPage.ShortlistIsEveryFifth | client/src/app/workspace/hr/candidates/page.js:23 | The page's shortlisted candidates are exactly the 1st, 6th, 11th and 16th |
| HrCandidatesPage.ShortlistIds | client/src/app/workspace/hr/candidates/page.js:13-23 | Their ids are hc1, hc6, hc11 and hc16 |
| Paging.PageCount | client/src/components/dashboard/hr/Candidates.js:13 | At least 1, and the fewest pages of the given size that hold all the items |
| Paging.SliceIndex | client/src/components/dashboard/hr/Candidates.js:14 | A slice bound is clamped into the list, with negative bounds counted from the end |
| Paging.JsSlice | client/src/components/dashboard/hr/Candidates.js:14 | `slice` never yields more than `end - start` items or items not in the list; for non-negative bounds it is the clamped subsequence |
| Paging.PageItems | client/src/components/dashboard/hr/Candidates.js:14 | A page holds at most `size` items of the list, and for page 1 upwards exactly the items from `(page-1)*size` to `page*size`, clamped to the list, with the start never negative |
| Paging.HandlersStayInRange | client/src/components/dashboard/hr/Candidates.js:31-42 | Prev and Next keep an in-range page in range and move it by one except at the ends |
| Paging.Prev | client/src/components/dashboard/hr/Candidates.js:31-42 | The larger of 1 and the page before |
| Paging.Next | client/src/components/dashboard/hr/Candidates.js:31-42 | The smaller of the page count and the page after |
| Paging.NextRecoversPastEnd | client/src/components/dashboard/hr/Candidates.js:31-42 | Next brings a page past the end back to the last page; Prev does not, unless the page is just past it |
| Paging.PagesUpToPrefix | client/src/components/dashboard/hr/Candidates.js:13-14 | Pages 1 to k together hold exactly the first k*size items |
| Paging.PagesPartition | client/src/components/dashboard/hr/Candidates.js:13-14 | Reading pages 1 to pageCount gives back the whole list, each item once, in order |
| Paging.PageEmptiness | client/src/components/dashboard/hr/Candidates.js:13-14 | A page past the count is empty, and every page up to the count is non-empty when the list is |
| CandidatesTable.CandidatesView.constructor | client/src/components/dashboard/hr/Candidates.js:10 | The table opens on page 1, which is in range |
| CandidatesTable.CandidatesView.Shown | client/src/components/dashboard/hr/Candidates.js:14 | At most 6 rows, all drawn from the candidates |
| CandidatesTable.CandidatesView.PrevPage | client/src/components/dashboard/hr/Candidates.js:31 | The page becomes `max(1, page - 1)` and stays in range |
| CandidatesTable.CandidatesView.NextPage | client/src/components/dashboard/hr/Candidates.js:42 | The page becomes `min(pageCount, page + 1)` and stays in range |
| CandidatesTable.PageStaysInRange | client/src/components/dashboard/hr/Candidates.js:31-42 | With only Prev and Next, the page never leaves 1 to pageCount |
| CandidatesTable.EmptyTableIffEmptyMessage | client/src/components/dashboard/hr/Candidates.js:104-106 | On an in-range page the table is empty exactly when "No candidates yet." shows |
| Matching.InitialSelection | client/src/components/dashboard/recruiter/Matching.js:18-20 | The first job's id, and "All jobs" exactly when there are no jobs |
| Matching.ForJob | client/src/components/dashboard/recruiter/Matching.js:24-26 | No selection keeps every candidate; a selection keeps exactly that job's candidates |
| Matching.Narrows | client/src/components/dashboard/recruiter/Matching.js:25 | Only a selection narrows the list, and the empty id does not |
| Matching.ForJobAppend | client/src/components/dashboard/recruiter/Matching.js:24-26 | The filter keeps the candidates' order: it distributes over concatenation |
| Matching.FindJob | client/src/components/dashboard/recruiter/Matching.js:47 | `find` gives the first job with the selected id, and none exactly when no job has it |
| Matching.Label | client/src/components/dashboard/recruiter/Matching.js:47 | The caption is the found job's title, or "All jobs" when there is no such job or its title is empty |
| Matching.ChosenJobLabelled | client/src/components/dashboard/recruiter/Matching.js:47-58 | With distinct job ids, choosing a job from the menu captions the dropdown with its title |
| Matching.MatchingView.constructor | client/src/components/dashboard/recruiter/Matching.js:17-21 | Starts on the first job and page 1 |
| Matching.MatchingView.Shown | client/src/components/dashboard/recruiter/Matching.js:27-31 | At most 5 rows, all candidates of the selected job |
| Matching.MatchingView.PrevPage | client/src/components/dashboard/recruiter/Matching.js:72 | The page becomes `max(1, page - 1)`; the selection is kept |
| Matching.MatchingView.NextPage | client/src/components/dashboard/recruiter/Matching.js:83 | The page becomes `min(pageCount, page + 1)`; the selection is kept |
| Matching.MatchingView.Select | client/src/components/dashboard/recruiter/Matching.js:52-58 | The selection changes and the page is kept |
| Matching.EmptyMessageIffNoCandidate | client/src/components/dashboard/recruiter/Matching.js:140-143 | The empty message shows exactly when a selection leaves no candidate |
| Matching.StalePageAfterSelection | client/src/components/dashboard/recruiter/Matching.js:21-31 | After selecting a job with fewer pages, the kept page number shows an empty table |
| WorkspaceShells.FirstSection | client/src/components/dashboard/hr/HrShell.js:39-41 | The first section whose path begins the pathname, and none exactly when no section's path does |
| WorkspaceShells.SectionPath | client/src/components/dashboard/hr/HrShell.js:46-52 | Every section path starts with the base; it is the base exactly for the dashboard, and otherwise the base, a slash and the section |
| WorkspaceShells.ActiveSection | client/src/components/dashboard/hr/HrShell.js:35-43 | The active section is the dashboard or a listed section; no pathname, or the base itself, gives the dashboard |
| WorkspaceShells.TrailingSlashIgnored | client/src/components/dashboard/hr/HrShell.js:37 | A trailing slash never changes the active section |
| WorkspaceShells.HrRoundTrip | client/src/components/dashboard/hr/HrShell.js:35-52 | Choosing an HR section and reading the URL back gives the same section |
| WorkspaceShells.RecruiterRoundTrip | client/src/components/dashboard/recruiter/RecruiterShell.js:33-50 | Choosing a recruiter section and reading the URL back gives the same section |
| WorkspaceShells.NestedPageKeepsSection | client/src/components/dashboard/hr/HrShell.js:39 | A page nested under jobs keeps "jobs" highlighted |
| WorkspaceShells.Shell.constructor | client/src/components/dashboard/hr/HrShell.js:20-27 | Mounting reads the stored profile when there is one |
| WorkspaceShells.Shell.SetActive | client/src/components/dashboard/hr/HrShell.js:46-52 | Navigates to the section's path and changes nothing else |
| WorkspaceShells.Shell.HandleLogout | client/src/components/dashboard/hr/HrShell.js:55-83 | Only an ok reply clears the stored profile and the user and goes home; a refused or unreachable server only shows an error; loading always ends |
| WorkspaceShells.HrSectionsGuarded | client/src/components/dashboard/hr/HrShell.js:46-52 | Every HR section path reached through the middleware passes only for role "hr" |
| WorkspaceShells.RecruiterSectionsGuarded | client/src/components/dashboard/recruiter/RecruiterShell.js:44-50 | Every recruiter section path reached through the middleware passes only for role "recruiter" |
| WorkspacePages.RecruiterMain | client/src/app/workspace/recruiter/page.js:136-145 | Each known section shows its own view, with the candidates, jobs or shortlist it needs; any other value shows the dashboard |
| WorkspacePages.HrMain | client/src/app/workspace/hr/page.js:113-121 | Each known section shows its own view, with the candidates, jobs or shortlist it needs; any other value shows the dashboard |
| WorkspacePages.RecruiterSectionsDistinct | client/src/app/workspace/recruiter/page.js:136-145 | Different sidebar entries lead to different views |
| WorkspacePages.AvatarInitial | client/src/app/workspace/recruiter/page.js:302 | Always truthy: the name's first letter, else the email's, else "U" |
| WorkspacePages.WorkspacePage.constructor | client/src/app/workspace/recruiter/page.js:39-52 | Opens on the dashboard with the stored profile when there is one |
| WorkspacePages.WorkspacePage.SetActive | client/src/app/workspace/recruiter/page.js:39 | Sets the section in component state only |
| WorkspacePages.WorkspacePage.HandleLogout | client/src/app/workspace/recruiter/page.js:94-128 | Only an ok reply removes the stored profile and goes home; the in-memory user is never cleared; loading always ends |
| Home.Caught | client/src/app/page.js:106-116 | The reported message is never empty: the error's own message when it has one, "Login failed" otherwise |
| Home.ErrorMessage | client/src/app/page.js:70-73 | A truthy message: `detail` first, then `message`, then the fallback text |
| Home.RoleChoice | client/src/app/page.js:97-99 | The server's truthy role wins; otherwise a truthy form role; with neither the role is "" |
| Home.Destination | client/src/app/page.js:97-103 | Defined exactly for a string role; "hr" in any case goes to the HR workspace, everything else to the recruiter workspace |
| Home.Login | client/src/app/page.js:26-120 | Success exactly for an ok reply with a readable, non-null body whose role is a string, with that body as data; each failure path gets its own truthy error, and the three `TypeError` paths (a null body on either reply, a non-string role) fail with the caught `TypeError` |
| Home.StoredUser | client/src/app/page.js:85-91 | What is stored is the `user` of a readable reply |
| Home.ProfileJson | server/app/routers/users.py:105-111 | The profile object carries the stored role |
| Home.AcceptedJson | server/app/routers/users.py:103-112 | An accepted reply carries the profile under `user` |
| Home.RefusedJson | server/app/routers/users.py:117-121 | A refusal body is exactly `{"detail": ...}` |
| Home.Home.constructor | client/src/app/page.js:19-21 | The page opens with no loading, no open modal and no open profile menu |
| Home.Home.HandleLogin | client/src/app/page.js:26-120 | Returns the login result; the Firebase client stays signed in only on success; the profile is stored only when the reply carries one; the modal closes once a reply is read; navigation happens only on success, to the role's workspace; the toasts match each path; loading ends |
| Home.Home.HandleLogout | client/src/app/page.js:122-156 | Whatever the server says, the stored profile is removed, the menu closes, the Firebase client is signed out and "Logged out" is shown |
| Home.AcceptedRole | client/src/app/page.js:97-99 | The role of an accepted reply is the stored row's role, whatever the form sent |
| Home.AcceptedSignInReachesWorkspace | client/src/app/page.js:97-103 | An accepted sign-in navigates to the stored role's workspace, and the middleware lets a session with that role claim through |
| Home.RoleDestination | client/src/app/page.js:97-103 | "HR" goes to the HR workspace and "Recruiter" to the recruiter workspace |
| Home.RoleClaimPasses | client/src/middleware.js:53-64 | A session whose role claim is a stored role is let into that role's workspace |
| Home.LoweredRole | client/src/app/page.js:100 | The stored roles lower to "hr" and "recruiter" |
| Home.RefusalShowsServerDetail | client/src/app/page.js:70-73 | A refused sign-in reports the server's own `detail` |
| Home.FormRoleIsFallback | client/src/app/page.js:97-99 | The form's role decides only when the reply carries no role |
| LoginForms.FormPayload | client/src/components/LoginModal.js:43-60 | Sign-in sends `{}`; registration is incomplete exactly when a field is empty, and otherwise sends the role and the trimmed company |
| LoginForms.SignInBodyIsLoginMode | client/src/components/LoginModal.js:59 | The sign-in body is read by the server as login mode |
| LoginForms.RegisterBodyReadBack | client/src/components/LoginModal.js:53-55 | A registration body is never read as login mode, and the server reads back the stripped role and the trimmed company |
| LoginForms.RoleUnstripped | client/src/components/LoginModal.js:53-55 | The offered roles strip to themselves |
| LoginForms.BlankCompanyRefusedByServer | client/src/components/LoginModal.js:48-55 | A company of spaces passes the dialog's check and is then refused by the server as missing |
| LoginForms.LandingLoginModal.constructor | client/src/components/landing/LoginModal.js:8-10 | Opens in sign-in mode with empty fields |
| LoginForms.LandingLoginModal.SetOpen | client/src/components/landing/LoginModal.js:12-24 | Closing resets the form and the mode; opening keeps them |
| LoginForms.LandingLoginModal.PressKey | client/src/components/landing/LoginModal.js:26-32 | Escape closes an open dialog; any other key, or a closed dialog, changes nothing |
| LoginForms.LandingLoginModal.SwitchMode | client/src/components/landing/LoginModal.js:132-135 | The tabs change the mode and keep what was typed |
| LoginForms.LandingLoginModal.Fill | client/src/components/landing/LoginModal.js:208-223 | Typing sets the role and the company |
| LoginForms.LandingLoginModal.Submit | client/src/components/landing/LoginModal.js:36-52 | Hands the body on, or shows the missing-field toast and sends nothing |
| LoginForms.LandingLoginModal.EnabledRegisterSubmits | client/src/components/landing/LoginModal.js:256 | An enabled register button always submits |
| LoginForms.LandingLoginModal.RegisterDisabled | client/src/components/landing/LoginModal.js:256 | The button is disabled while signing in, and enabled only with a role and a company |
| LoginForms.LoginModal.constructor | client/src/components/LoginModal.js:7-11 | Opens in sign-in mode with empty fields and no errors |
| LoginForms.LoginModal.SetOpen | client/src/components/LoginModal.js:13-27 | Closing resets the form, the mode and both errors; opening keeps them |
| LoginForms.LoginModal.ServerErrorChanged | client/src/components/LoginModal.js:29-31 | A non-empty server error is copied; an empty one leaves the copy |
| LoginForms.LoginModal.PressKey | client/src/components/LoginModal.js:33-39 | Escape closes an open dialog; any other key, or a closed dialog, changes nothing |
| LoginForms.LoginModal.SwitchMode | client/src/components/LoginModal.js:77 | Changing the mode clears both errors and keeps what was typed |
| LoginForms.LoginModal.Fill | client/src/components/LoginModal.js:144-157 | Typing sets the role and the company |
| LoginForms.LoginModal.Submit | client/src/components/LoginModal.js:43-60 | Clears both errors, then hands the body on or reports the missing field inline |
| LoginForms.LoginModal.Banner | client/src/components/LoginModal.js:164-168 | No empty message is shown; sign-in shows only the server's error; registration shows something exactly when either error is set, with the form's error first |

## Left out

- FastAPI's own replies outside the handlers' code are not modelled:
  - the 403 that `HTTPBearer` sends for a missing bearer header;
  - the 422 for a body that is not a JSON object.
  A non-object registration body is treated as login mode when empty and
  as an object otherwise.
- The `users.company_name` column is assumed to exist. The `User` model
  in `server/app/models/users.py` declares no such attribute, so as
  shipped `server/app/routers/users.py` fails before any SQL runs: line
  110 (`user.company_name`) and line 144 (`User.company_name.ilike`) raise
  `AttributeError`, and line 160 (`User(company_name=...)`) raises
  `TypeError`. Every sign-in of a registered user, and every well-formed
  registration by a new uid, therefore answers 500. The model describes
  the router's evident intent instead: Registration.SignInDecision,
  Registration.RoleRule, Registration.HrRule and Registration.RecruiterRule
  state success paths that the shipped code never reaches. The 404 for an
  unknown uid, the 400 for missing fields and the 400 for an existing uid
  are reached as modelled.
- Database constraints are not modelled: unique indexes, foreign keys and
  `NOT NULL`. In particular `users.name` and `users.email` are declared
  `NOT NULL`, but `UserRow.email` is optional: the model registers a token
  that carries no email, where the real insert fails with 500.
- `first()` without `ORDER BY` is taken to return rows in insertion
  order, and ties in `ORDER BY created_at DESC` keep insertion order.
  PostgreSQL promises neither.
- A job's `created_at` is the caller's clock, never null. The null branch
  of `isoformat()` and the rendering of timestamps as text are not
  modelled.
- The `ILIKE` escape character is not modelled. Only `%` and `_` are
  wildcards.
- Text.Strip: whitespace is the six ASCII characters space, tab, line
  feed, carriage return, vertical tab and form feed. Python's `str.strip`
  also removes the separators `\x1c` to `\x1f`, `\x85` and the Unicode
  spaces, and `trim` removes the Unicode spaces, so a `company_name` of
  "\x1cAcme" is stored as "Acme" by the server but kept whole by the model.
- Text.ToLower: case folding covers the ASCII letters only; `toLowerCase`
  and `str.lower` also fold the other Unicode letters.
- The sign-in buttons' `disabled` state is the loading flag itself and is
  not modelled apart from it.
- Firebase internals are parameters, not code:
  - how tokens and session cookies are verified;
  - `set_custom_user_claims`, which never affects a reply and is left out;
  - the client SDK's sign-in state, which is a `firebaseSignedIn` flag;
  - the contents of the JWT, which the middleware receives already decoded.
- `session_logout` decodes the cookie on a best-effort basis and never
  uses the result. That decode is left out.
- The recruiter summary's optional shortlist model and `is_shortlisted`
  column do not exist in the repository, so only their fallback value 0
  is modelled.
- Mock data: the recruiter page's random scores are a parameter (the
  draws), and fractional experience values are rendered as text.
  Floating point is not modelled.
- `localStorage` contents that fail `JSON.parse` are not modelled. The
  stored profile is a JSON value or absent.
- Browser side effects are not modelled:
  - `router.refresh`, console logging and `document.body` overflow;
  - layout constants and rendering;
  - races between overlapping async handlers, since each handler is
    modelled as running to completion.
- Home.Login: the text of the `TypeError` is one parameter. It stands for
  the three different messages the engine raises: reading `detail` of a
  null body on a refused reply, reading `user` of a null body on an ok
  reply, and calling `toLowerCase` on a role that is not a string.
- Home.Home.HandleLogin: the `serverError` prop of the inline-error dialog
  is never passed by the landing page, so `ServerErrorChanged` is modelled
  on its own and not wired to `HandleLogin`.
- Roster.ShortlistOf: its own contract states only the length bound.
  Membership is stated by Roster.ShortlistMembers, and the exact lists for
  the pages by the fixture lemmas.
- WorkspacePages: the HR page duplicates the recruiter page's generator
  and logout. One definition models both, and `HrMain` models the HR
  page's `renderMain`.
- Matching: the recruiter page's inline `MatchingMain` is the same
  component as `Matching.js` and is modelled by it.
- Dialog layout, focus handling and rendered markup are not modelled.
  Toasts are sequences of strings, and a non-string value is shown through
  `String()`.
