/**
 * The single-file recruiter and HR workspace pages: a section held in
 * component state, the main view chosen from it, the avatar's initial, and
 * a logout that differs from the shells' in what it leaves behind.
 */
module WorkspacePages {
  import opened Wrappers
  import opened Json
  import opened Roster
  import opened Browser

  /** The main views, with the data each one is given. */
  datatype View =
    | DashboardView
    | MatchingView(candidates: seq<Candidate>, jobs: seq<JobCard>)
    | CandidatesView(candidates: seq<Candidate>, jobs: seq<JobCard>)
    | JobsView(jobs: seq<JobCard>)
    | ResumesView
    | ShortlistedView(candidates: seq<Candidate>)

  const RecruiterSections: set<string> := {"dashboard", "matching", "jobs", "resumes", "shortlisted"}
  const HrSections: set<string> := {"dashboard", "candidates", "jobs", "shortlisted"}

  /** The recruiter page's `renderMain`: a known section shows its view; any other value shows the dashboard. */
  function RecruiterMain(active: string, candidates: seq<Candidate>, jobs: seq<JobCard>): (v: View)
    ensures active !in RecruiterSections ==> v == DashboardView
    ensures v.DashboardView? <==> active !in RecruiterSections - {"dashboard"}
    ensures v.MatchingView? <==> active == "matching"
    ensures v.MatchingView? ==> v.candidates == candidates && v.jobs == jobs
    ensures v.JobsView? <==> active == "jobs"
    ensures v.ResumesView? <==> active == "resumes"
    ensures v.ShortlistedView? <==> active == "shortlisted"
    ensures v.ShortlistedView? ==> v.candidates == ShortlistOf(candidates)
    ensures !v.CandidatesView?
  {
    if active == "dashboard" then DashboardView
    else if active == "matching" then MatchingView(candidates, jobs)
    else if active == "jobs" then JobsView(jobs)
    else if active == "resumes" then ResumesView
    else if active == "shortlisted" then ShortlistedView(ShortlistOf(candidates))
    else DashboardView
  }

  /** The HR page's `renderMain`: a known section shows its view; any other value shows the dashboard. */
  function HrMain(active: string, candidates: seq<Candidate>, jobs: seq<JobCard>): (v: View)
    ensures active !in HrSections ==> v == DashboardView
    ensures v.DashboardView? <==> active !in HrSections - {"dashboard"}
    ensures v.CandidatesView? <==> active == "candidates"
    ensures v.CandidatesView? ==> v.candidates == candidates && v.jobs == jobs
    ensures v.JobsView? <==> active == "jobs"
    ensures v.ShortlistedView? <==> active == "shortlisted"
    ensures v.ShortlistedView? ==> v.candidates == ShortlistOf(candidates)
    ensures !v.MatchingView? && !v.ResumesView?
  {
    if active == "dashboard" then DashboardView
    else if active == "candidates" then CandidatesView(candidates, jobs)
    else if active == "jobs" then JobsView(jobs)
    else if active == "shortlisted" then ShortlistedView(ShortlistOf(candidates))
    else DashboardView
  }

  /** Each sidebar entry of the recruiter page leads to a different view. */
  lemma RecruiterSectionsDistinct(a: string, b: string, candidates: seq<Candidate>, jobs: seq<JobCard>)
    requires a in RecruiterSections && b in RecruiterSections && a != b
    ensures RecruiterMain(a, candidates, jobs) != RecruiterMain(b, candidates, jobs)
  {
  }

  /** `user?.name?.[0] || user?.email?.[0] || "U"`. */
  function AvatarInitial(user: Option<Value>): (r: Value)
    ensures JsTruthy(r)
    ensures user.None? ==> r == Str("U")
    ensures forall n :: Member(user, "name") == Some(Str(n)) && n != "" ==> r == Str([n[0]])
    ensures forall e :: !JsPresent(First(Member(user, "name"))) && Member(user, "email") == Some(Str(e)) && e != "" ==>
      r == Str([e[0]])
    ensures !JsPresent(First(Member(user, "name"))) && !JsPresent(First(Member(user, "email"))) ==> r == Str("U")
  {
    var picked := Or(Or(First(Member(user, "name")), First(Member(user, "email"))), Some(Str("U")));
    picked.value
  }

  /** A page's state: the chosen section, the user read at mount, and the browser state logout acts on. */
  class WorkspacePage {
    var active: string
    var user: Option<Value>
    var authLoading: bool
    var storage: map<string, Value>
    var pushed: seq<string>
    var toasts: seq<string>

    /** The page opens on the dashboard with the stored profile, when there is one. */
    constructor (storage: map<string, Value>)
      ensures active == "dashboard" && this.storage == storage
      ensures user == (if ProfileKey in storage then Some(storage[ProfileKey]) else None)
      ensures !authLoading && pushed == [] && toasts == []
    {
      active := "dashboard";
      this.storage := storage;
      user := if ProfileKey in storage then Some(storage[ProfileKey]) else None;
      authLoading := false;
      pushed := [];
      toasts := [];
    }

    /** A sidebar entry sets the section in component state; the URL does not change. */
    method SetActive(section: string)
      modifies this
      ensures active == section
      ensures user == old(user) && storage == old(storage) && pushed == old(pushed) && toasts == old(toasts)
      ensures authLoading == old(authLoading)
    {
      active := section;
    }

    /**
     * `handleLogout`: only an ok reply removes the stored profile and goes
     * home. Unlike the shells, the page never clears its `user`.
     */
    method HandleLogout(outcome: FetchOutcome)
      modifies this
      ensures !authLoading && user == old(user) && active == old(active)
      ensures outcome == Responded(true) ==>
        storage == old(storage) - {ProfileKey} && pushed == old(pushed) + ["/"] && toasts == old(toasts) + ["Logged out"]
      ensures outcome == Responded(false) ==>
        storage == old(storage) && pushed == old(pushed) && toasts == old(toasts) + ["Logout failed"]
      ensures outcome == Unreachable ==>
        storage == old(storage) && pushed == old(pushed) && toasts == old(toasts) + ["Logout failed (server unreachable)"]
    {
      authLoading := true;
      match outcome {
        case Unreachable =>
          toasts := toasts + ["Logout failed (server unreachable)"];
        case Responded(ok) =>
          if !ok {
            toasts := toasts + ["Logout failed"];
          } else {
            storage := storage - {ProfileKey};
            toasts := toasts + ["Logged out"];
            pushed := pushed + ["/"];
          }
      }
      authLoading := false;
    }
  }
}
