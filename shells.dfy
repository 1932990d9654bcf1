/**
 * The HR and recruiter workspace shells. Both derive the highlighted
 * section from the pathname, push a section's path when one is chosen, and
 * log out through the server. The two files differ only in the base path
 * and in the list of sections, so one definition serves both.
 */
module WorkspaceShells {
  import opened Wrappers
  import opened Text
  import opened Json
  import opened Browser
  import RouteGuard

  const Dashboard := "dashboard"
  const HrBase := RouteGuard.HrPrefix
  const HrSections: seq<string> := ["jobs", "candidates", "shortlisted"]
  const RecruiterBase := RouteGuard.RecruiterPrefix
  const RecruiterSections: seq<string> := ["jobs", "resumes", "matching", "shortlisted"]

  /** The path of a section: the base for the dashboard, `base + "/" + section` for any other value. */
  function SectionPath(base: string, section: string): (p: string)
    ensures StartsWith(p, base)
    ensures p == base <==> section == Dashboard
    ensures section != Dashboard ==> StartsWith(p, base + "/") && p[|base| + 1..] == section
  {
    if section == Dashboard then base
    else
      var p := base + "/" + section;
      assert p[..|base|] == base && p[..|base| + 1] == base + "/";
      p
  }

  /** The first section, from `from` on, whose path begins `p`. */
  function FirstSection(base: string, sections: seq<string>, p: string, from: nat := 0): (r: Option<nat>)
    requires from <= |sections|
    ensures r.Some? ==> (from <= r.value < |sections| && StartsWith(p, base + "/" + sections[r.value])
      && forall k :: from <= k < r.value ==> !StartsWith(p, base + "/" + sections[k]))
    ensures r.None? ==> forall k :: from <= k < |sections| ==> !StartsWith(p, base + "/" + sections[k])
    decreases |sections| - from
  {
    if from == |sections| then None
    else if StartsWith(p, base + "/" + sections[from]) then Some(from)
    else FirstSection(base, sections, p, from + 1)
  }

  /**
   * `active`: "dashboard" without a pathname; otherwise, with the trailing
   * slashes removed, "dashboard" for the base itself, else the first
   * section whose path begins the pathname, else "dashboard".
   */
  function ActiveSection(base: string, sections: seq<string>, pathname: Option<string>): (r: string)
    ensures r == Dashboard || r in sections
    ensures pathname.None? || pathname == Some("") ==> r == Dashboard
    ensures pathname.Some? && StripTrailing(pathname.value, '/') == base ==> r == Dashboard
  {
    if pathname.None? || pathname.value == "" then Dashboard
    else
      var p := StripTrailing(pathname.value, '/');
      if p == base then Dashboard
      else match FirstSection(base, sections, p)
        case None => Dashboard
        case Some(k) => sections[k]
  }

  /** Trailing slashes never change the section. */
  lemma TrailingSlashIgnored(base: string, sections: seq<string>, path: string)
    requires path != ""
    ensures ActiveSection(base, sections, Some(path + "/")) == ActiveSection(base, sections, Some(path))
  {
    StripTrailingAbsorbs(path, '/');
  }

  /** HR: choosing a section and reading the pathname back gives the same section. */
  lemma HrRoundTrip(section: string)
    requires section == Dashboard || section in HrSections
    ensures ActiveSection(HrBase, HrSections, Some(SectionPath(HrBase, section))) == section
  {
    var p := SectionPath(HrBase, section);
    assert StripTrailing(p, '/') == p;
    if section != Dashboard {
      var k :| 0 <= k < |HrSections| && HrSections[k] == section;
      assert StartsWith(p, HrBase + "/" + HrSections[k]);
      forall j | 0 <= j < k ensures !StartsWith(p, HrBase + "/" + HrSections[j]) {
        StartsWithConflict(p, HrBase + "/" + HrSections[k], HrBase + "/" + HrSections[j], |HrBase| + 1);
      }
    }
  }

  /** Recruiter: choosing a section and reading the pathname back gives the same section. */
  lemma RecruiterRoundTrip(section: string)
    requires section == Dashboard || section in RecruiterSections
    ensures ActiveSection(RecruiterBase, RecruiterSections, Some(SectionPath(RecruiterBase, section))) == section
  {
    var p := SectionPath(RecruiterBase, section);
    assert StripTrailing(p, '/') == p;
    if section != Dashboard {
      var k :| 0 <= k < |RecruiterSections| && RecruiterSections[k] == section;
      assert StartsWith(p, RecruiterBase + "/" + RecruiterSections[k]);
      forall j | 0 <= j < k ensures !StartsWith(p, RecruiterBase + "/" + RecruiterSections[j]) {
        StartsWithConflict(p, RecruiterBase + "/" + RecruiterSections[k], RecruiterBase + "/" + RecruiterSections[j], |RecruiterBase| + 1);
      }
    }
  }

  /** Deeper pages keep their section highlighted: a job's detail page highlights "jobs". */
  lemma NestedPageKeepsSection(rest: string)
    ensures ActiveSection(HrBase, HrSections, Some(HrBase + "/jobs" + rest)) == "jobs"
  {
    var p := HrBase + "/jobs" + rest;
    var q := StripTrailing(p, '/');
    assert p[..|HrBase + "/jobs"|] == HrBase + "/jobs";
    assert p[|HrBase + "/jobs"| - 1] == 's';
    assert |q| >= |HrBase + "/jobs"|;
    assert q[..|HrBase + "/jobs"|] == p[..|HrBase + "/jobs"|];
  }

  /** A shell's state: its user, the loading flag, and the browser's storage, navigation and toasts it acts on. */
  class Shell {
    const base: string
    var user: Option<Value>
    var authLoading: bool
    var storage: map<string, Value>
    var pushed: seq<string>
    var toasts: seq<string>

    /** Mounting reads the stored profile, when there is one. */
    constructor (base: string, storage: map<string, Value>)
      ensures this.base == base && this.storage == storage
      ensures user == (if ProfileKey in storage then Some(storage[ProfileKey]) else None)
      ensures !authLoading && pushed == [] && toasts == []
    {
      this.base := base;
      this.storage := storage;
      user := if ProfileKey in storage then Some(storage[ProfileKey]) else None;
      authLoading := false;
      pushed := [];
      toasts := [];
    }

    /** `setActive`: navigates to the section's path. */
    method SetActive(section: string)
      modifies this
      ensures pushed == old(pushed) + [SectionPath(base, section)]
      ensures user == old(user) && storage == old(storage) && toasts == old(toasts) && authLoading == old(authLoading)
    {
      pushed := pushed + [SectionPath(base, section)];
    }

    /**
     * `handleLogout`: only an ok reply clears the stored profile and the
     * user and goes home; every outcome ends with `authLoading` false.
     */
    method HandleLogout(outcome: FetchOutcome)
      modifies this
      ensures !authLoading
      ensures outcome == Responded(true) ==>
        storage == old(storage) - {ProfileKey} && user.None?
        && pushed == old(pushed) + ["/"] && toasts == old(toasts) + ["Logged out"]
      ensures outcome == Responded(false) ==>
        storage == old(storage) && user == old(user) && pushed == old(pushed) && toasts == old(toasts) + ["Logout failed"]
      ensures outcome == Unreachable ==>
        storage == old(storage) && user == old(user) && pushed == old(pushed)
        && toasts == old(toasts) + ["Logout failed (server unreachable)"]
    {
      authLoading := true;
      match outcome {
        case Unreachable =>
          toasts := toasts + ["Logout failed (server unreachable)"];
        case Responded(ok) =>
          if !ok {
            toasts := toasts + ["Logout failed"];
          } else {
            storage := storage - {ProfileKey};
            user := None;
            toasts := toasts + ["Logged out"];
            pushed := pushed + ["/"];
          }
      }
      authLoading := false;
    }
  }

  /** Every HR section path is behind the guard's HR rule: the middleware only lets an "hr" role through. */
  lemma HrSectionsGuarded(section: string, cookies: map<string, string>, decoded: Option<RouteGuard.Payload>)
    ensures RouteGuard.Handle(SectionPath(HrBase, section), cookies, decoded) == RouteGuard.Next ==>
      RouteGuard.HasSession(cookies) && RouteGuard.ResolveRole(decoded) == Some("hr")
  {
    var p := SectionPath(HrBase, section);
    if section != Dashboard {
      assert p[..|HrBase|] == HrBase;
    }
    assert StartsWith(p, HrBase);
    assert StartsWith(p, RouteGuard.WorkspaceDir) by {
      StartsWithPrefix(p, RouteGuard.WorkspaceDir, HrBase);
    }
  }

  /** Every recruiter section path is behind the guard's recruiter rule. */
  lemma RecruiterSectionsGuarded(section: string, cookies: map<string, string>, decoded: Option<RouteGuard.Payload>)
    ensures RouteGuard.Handle(SectionPath(RecruiterBase, section), cookies, decoded) == RouteGuard.Next ==>
      RouteGuard.HasSession(cookies) && RouteGuard.ResolveRole(decoded) == Some("recruiter")
  {
    var p := SectionPath(RecruiterBase, section);
    if section != Dashboard {
      assert p[..|RecruiterBase|] == RecruiterBase;
    }
    assert StartsWith(p, RecruiterBase);
    assert StartsWith(p, RouteGuard.WorkspaceDir) by {
      StartsWithPrefix(p, RouteGuard.WorkspaceDir, RecruiterBase);
    }
  }
}
