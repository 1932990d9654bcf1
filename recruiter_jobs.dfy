/**
 * The recruiter's job endpoints: creating a job for the recruiter's
 * company, listing the recruiter's own jobs newest first, and the summary
 * counts. The caller is the user that the recruiter gate let through.
 */
module RecruiterJobs {
  import opened Wrappers
  import opened Text
  import opened Json
  import opened Http
  import opened Schema
  import Registration

  const MaxTitle := 255
  const MinDescription := 10

  // ---------------------------------------------------------------------
  // Creating a job

  /**
   * The body checks in the handler's order: JSON, then the two stripped
   * fields (a truthy non-string, or a body that is not an object, raises),
   * then presence, the title's length and the description's length.
   */
  function ValidateJob(body: Option<Value>): (r: Result<(string, string), HttpError>)
    ensures body.None? ==> r == Failure(HttpError(400, "Invalid JSON body."))
    ensures body.Some? && !body.value.Obj? ==> r == Failure(InternalError)
    ensures r.Success? ==> (body.Some? && body.value.Obj?
      && StrippedGet(body.value.fields, "title") == Some(r.value.0)
      && StrippedGet(body.value.fields, "description") == Some(r.value.1))
    ensures r.Success? ==> r.value.0 != "" && |r.value.0| <= MaxTitle && |r.value.1| >= MinDescription
    ensures r.Failure? ==> r.error.status == 400 || r.error == InternalError
    ensures body.Some? && body.value.Obj? ==>
      var t, d := StrippedGet(body.value.fields, "title"), StrippedGet(body.value.fields, "description");
      && ((t.None? || d.None?) ==> r == Failure(InternalError))
      && (t.Some? && d.Some? && (t.value == "" || d.value == "") ==>
          r == Failure(HttpError(400, "Both title and description are required.")))
      && (t.Some? && d.Some? && t.value != "" && d.value != "" && |t.value| > MaxTitle ==>
          r == Failure(HttpError(400, "Title too long (max 255).")))
      && (t.Some? && d.Some? && t.value != "" && d.value != "" && |t.value| <= MaxTitle && |d.value| < MinDescription ==>
          r == Failure(HttpError(400, "Description too short (min 10).")))
      && (t.Some? && d.Some? && t.value != "" && d.value != "" && |t.value| <= MaxTitle && |d.value| >= MinDescription ==>
          r == Success((t.value, d.value)))
  {
    if body.None? then Failure(HttpError(400, "Invalid JSON body."))
    else if !body.value.Obj? then Failure(InternalError)
    else
      var title := StrippedGet(body.value.fields, "title");
      var description := StrippedGet(body.value.fields, "description");
      if title.None? || description.None? then Failure(InternalError)
      else if title.value == "" || description.value == "" then Failure(HttpError(400, "Both title and description are required."))
      else if |title.value| > MaxTitle then Failure(HttpError(400, "Title too long (max 255)."))
      else if |description.value| < MinDescription then Failure(HttpError(400, "Description too short (min 10)."))
      else Success((title.value, description.value))
  }

  /** The presence check comes first: an empty title is reported as missing, however long the description. */
  lemma PresenceBeforeLength(fields: map<string, Value>)
    requires StrippedGet(fields, "title") == Some("") && StrippedGet(fields, "description").Some?
    ensures ValidateJob(Some(Obj(fields))) == Failure(HttpError(400, "Both title and description are required."))
  {
  }

  /** The title's length is checked before the description's. */
  lemma TitleLengthBeforeDescription(fields: map<string, Value>)
    requires StrippedGet(fields, "title").Some? && |StrippedGet(fields, "title").value| > MaxTitle
    requires StrippedGet(fields, "description").Some? && StrippedGet(fields, "description").value != ""
    ensures ValidateJob(Some(Obj(fields))) == Failure(HttpError(400, "Title too long (max 255)."))
  {
  }

  /** The first company with this id: `filter(Company.id == company_id).first()`. */
  function FindCompany(companies: seq<Company>, id: int): (r: Option<Company>)
    ensures r.Some? ==> r.value in companies && r.value.id == id
    ensures r.None? <==> forall k :: 0 <= k < |companies| ==> companies[k].id != id
  {
    if companies == [] then None
    else if companies[0].id == id then Some(companies[0])
    else FindCompany(companies[1..], id)
  }

  /** The user's `company` relationship, which is loaded through `company_id`. */
  function CompanyRelation(user: UserRow, companies: seq<Company>): (r: Option<Company>)
    ensures user.companyId.None? ==> r.None?
    ensures r.Some? ==> user.companyId == Some(r.value.id) && r.value in companies
  {
    if user.companyId.Some? then FindCompany(companies, user.companyId.value) else None
  }

  /** `company_id`, falling back to the id of the `company` relationship. */
  function DerivedCompanyId(user: UserRow, companies: seq<Company>): (r: Option<int>)
    ensures user.companyId.Some? ==> r == user.companyId
    ensures r.Some? ==> user.companyId.Some? || CompanyRelation(user, companies).Some?
  {
    if user.companyId.Some? then user.companyId
    else match CompanyRelation(user, companies)
      case Some(c) => Some(c.id)
      case None => None
  }

  /** The relationship is loaded through the same column, so the fallback never supplies an id. */
  lemma FallbackAddsNothing(user: UserRow, companies: seq<Company>)
    ensures DerivedCompanyId(user, companies) == user.companyId
  {
  }

  /** Everything `create_job` decides: the validated body, the caller's company, and the row it stores. */
  function NewJob(companies: seq<Company>, nextId: nat, caller: UserRow, body: Option<Value>, now: int): (r: Result<JobRow, HttpError>)
    ensures ValidateJob(body).Failure? ==> r == Failure(ValidateJob(body).error)
    ensures ValidateJob(body).Success? && caller.companyId.None? ==>
      r == Failure(HttpError(400, "Recruiter is not associated with any company."))
    ensures ValidateJob(body).Success? && caller.companyId.Some? && FindCompany(companies, caller.companyId.value).None? ==>
      r == Failure(HttpError(400, "Associated company not found."))
    ensures r.Success? ==> (ValidateJob(body).Success?
      && r.value.title == ValidateJob(body).value.0 && r.value.description == ValidateJob(body).value.1)
    ensures r.Success? ==> (caller.companyId == Some(r.value.companyId)
      && exists k :: 0 <= k < |companies| && companies[k].id == r.value.companyId)
    ensures r.Success? ==> r.value.recruiterId == caller.id && r.value.id == nextId && r.value.createdAt == now
    ensures ValidateJob(body).Success? && caller.companyId.Some? && FindCompany(companies, caller.companyId.value).Some? ==>
      r == Success(JobRow(nextId, ValidateJob(body).value.0, ValidateJob(body).value.1, caller.companyId.value, caller.id, now))
  {
    match ValidateJob(body)
    case Failure(e) => Failure(e)
    case Success(fields) =>
      match DerivedCompanyId(caller, companies)
      case None => Failure(HttpError(400, "Recruiter is not associated with any company."))
      case Some(companyId) =>
        if FindCompany(companies, companyId).None? then Failure(HttpError(400, "Associated company not found."))
        else Success(JobRow(nextId, fields.0, fields.1, companyId, caller.id, now))
  }

  /** Job ids increase in insertion order and stay below the next id. */
  predicate JobsInvariant(jobs: seq<JobRow>, nextId: nat) {
    (forall i :: 0 <= i < |jobs| ==> jobs[i].id < nextId)
    && (forall i, j :: 0 <= i < j < |jobs| ==> jobs[i].id < jobs[j].id)
  }

  /** Appending a job that takes the next id keeps the ids increasing and below the new next id. */
  lemma JobsInvariantGrows(jobs: seq<JobRow>, nextId: nat, job: JobRow)
    requires JobsInvariant(jobs, nextId) && job.id == nextId
    ensures JobsInvariant(jobs + [job], nextId + 1)
  {
    var js := jobs + [job];
    assert forall i :: 0 <= i < |jobs| ==> js[i] == jobs[i];
  }

  /** `create_job`: validates, derives the company, then adds and commits the job; nothing is stored on any error. */
  method CreateJob(db: Database, caller: UserRow, body: Option<Value>, now: int) returns (r: Result<JobRow, HttpError>)
    requires JobsInvariant(db.jobs, db.nextJobId)
    modifies db
    ensures r == NewJob(old(db.companies), old(db.nextJobId), caller, body, now)
    ensures r.Success? ==> db.jobs == old(db.jobs) + [r.value] && db.nextJobId == old(db.nextJobId) + 1
    ensures r.Failure? ==> db.jobs == old(db.jobs) && db.nextJobId == old(db.nextJobId)
    ensures JobsInvariant(db.jobs, db.nextJobId)
    ensures db.users == old(db.users) && db.nextUserId == old(db.nextUserId)
    ensures db.companies == old(db.companies) && db.resumes == old(db.resumes)
  {
    var fields := ValidateJob(body);
    if fields.Failure? {
      return Failure(fields.error);
    }
    var companyId := DerivedCompanyId(caller, db.companies);
    if companyId.None? {
      return Failure(HttpError(400, "Recruiter is not associated with any company."));
    }
    var company := FindCompany(db.companies, companyId.value);
    if company.None? {
      return Failure(HttpError(400, "Associated company not found."));
    }
    var job := JobRow(db.nextJobId, fields.value.0, fields.value.1, companyId.value, caller.id, now);
    InsertJob(db, job);
    r := Success(job);
  }

  /** `db.add(job)` and `db.commit()`: the job is appended under the next id, which then advances. */
  method InsertJob(db: Database, job: JobRow)
    requires JobsInvariant(db.jobs, db.nextJobId) && job.id == db.nextJobId
    modifies db
    ensures db.jobs == old(db.jobs) + [job] && db.nextJobId == old(db.nextJobId) + 1
    ensures JobsInvariant(db.jobs, db.nextJobId)
    ensures db.users == old(db.users) && db.nextUserId == old(db.nextUserId)
    ensures db.companies == old(db.companies) && db.resumes == old(db.resumes)
  {
    JobsInvariantGrows(db.jobs, db.nextJobId, job);
    db.jobs := db.jobs + [job];
    db.nextJobId := db.nextJobId + 1;
  }

  /** Recruiters that registration stores carry no `company_id`, so every job they submit is refused. */
  lemma RegisteredRecruitersCannotPost(users: seq<UserRow>, nextUserId: nat, k: nat,
                                       companies: seq<Company>, nextId: nat, body: Option<Value>, now: int)
    requires Registration.TableInvariant(users, nextUserId) && k < |users|
    requires ValidateJob(body).Success?
    ensures NewJob(companies, nextId, users[k], body, now) == Failure(HttpError(400, "Recruiter is not associated with any company."))
  {
  }

  // ---------------------------------------------------------------------
  // Listing

  /** `filter(Job.recruiter_id == rid)`, in table order. */
  function OwnedBy(jobs: seq<JobRow>, rid: nat): (r: seq<JobRow>)
    ensures forall j :: j in r <==> j in jobs && j.recruiterId == rid
    ensures |r| <= |jobs|
  {
    if jobs == [] then []
    else if jobs[0].recruiterId == rid then [jobs[0]] + OwnedBy(jobs[1..], rid)
    else OwnedBy(jobs[1..], rid)
  }

  /** Newest first: no job is followed by a newer one. */
  predicate NewestFirstOrder(js: seq<JobRow>) {
    forall i, j :: 0 <= i < j < |js| ==> js[i].createdAt >= js[j].createdAt
  }

  /** Places `j` before the first job that is not newer than it. */
  function InsertNewest(j: JobRow, s: seq<JobRow>): (r: seq<JobRow>)
    ensures |r| == |s| + 1
    ensures multiset(r) == multiset(s) + multiset{j}
    decreases |s|
  {
    if s == [] || s[0].createdAt <= j.createdAt then [j] + s
    else
      assert s == [s[0]] + s[1..];
      [s[0]] + InsertNewest(j, s[1..])
  }

  /** Inserting keeps a newest-first sequence newest first. */
  lemma {:induction false} InsertKeepsOrder(j: JobRow, s: seq<JobRow>)
    requires NewestFirstOrder(s)
    ensures NewestFirstOrder(InsertNewest(j, s))
    decreases |s|
  {
    if s != [] && s[0].createdAt > j.createdAt {
      var rest := InsertNewest(j, s[1..]);
      InsertKeepsOrder(j, s[1..]);
      forall x | x in rest ensures x.createdAt <= s[0].createdAt {
        assert x in multiset(rest);
        if x != j {
          assert x in multiset(s[1..]);
          var k :| 0 <= k < |s[1..]| && s[1..][k] == x;
          assert s[k + 1] == x;
        }
      }
      assert InsertNewest(j, s) == [s[0]] + rest;
    }
  }

  /** `order_by(Job.created_at.desc())`: a stable sort, newest first. */
  function NewestFirst(js: seq<JobRow>): (r: seq<JobRow>)
    ensures NewestFirstOrder(r)
    ensures multiset(r) == multiset(js)
    decreases |js|
  {
    if js == [] then []
    else
      assert js == [js[0]] + js[1..];
      InsertKeepsOrder(js[0], NewestFirst(js[1..]));
      InsertNewest(js[0], NewestFirst(js[1..]))
  }

  /** One entry of the listing. */
  datatype JobView = JobView(
    id: nat,
    title: string,
    description: string,
    companyId: int,
    companyName: Option<string>,
    recruiterId: nat,
    createdAt: int)

  /** A job with the name of its company, or `None` when the company is gone. */
  function ViewOf(j: JobRow, companies: seq<Company>): (v: JobView)
    ensures v.id == j.id && v.recruiterId == j.recruiterId && v.createdAt == j.createdAt
    ensures v.companyName.Some? <==> exists k :: 0 <= k < |companies| && companies[k].id == j.companyId
  {
    var c := FindCompany(companies, j.companyId);
    JobView(j.id, j.title, j.description, j.companyId, if c.Some? then Some(c.value.name) else None, j.recruiterId, j.createdAt)
  }

  /** The views of a sequence of jobs, one for one. */
  function Views(js: seq<JobRow>, companies: seq<Company>): (vs: seq<JobView>)
    ensures |vs| == |js|
    ensures forall i :: 0 <= i < |js| ==> vs[i] == ViewOf(js[i], companies)
  {
    if js == [] then [] else Views(js[..|js| - 1], companies) + [ViewOf(js[|js| - 1], companies)]
  }

  /** The listing's rows: the caller's jobs, newest first, each with its company name. */
  function Listing(jobs: seq<JobRow>, companies: seq<Company>, rid: nat): (vs: seq<JobView>)
    ensures |vs| == |OwnedBy(jobs, rid)|
    ensures forall i :: 0 <= i < |vs| ==> vs[i].recruiterId == rid
    ensures forall i, j :: 0 <= i < j < |vs| ==> vs[i].createdAt >= vs[j].createdAt
  {
    var ordered := NewestFirst(OwnedBy(jobs, rid));
    assert |ordered| == |OwnedBy(jobs, rid)| by {
      assert |multiset(ordered)| == |multiset(OwnedBy(jobs, rid))|;
    }
    assert forall i :: 0 <= i < |ordered| ==> ordered[i] in OwnedBy(jobs, rid) by {
      forall i | 0 <= i < |ordered| ensures ordered[i] in OwnedBy(jobs, rid) {
        assert ordered[i] in multiset(ordered);
      }
    }
    Views(ordered, companies)
  }

  /** `list_recruiter_jobs`: queries the caller's jobs and builds the listing one job at a time. */
  method ListRecruiterJobs(db: Database, caller: UserRow) returns (total: nat, results: seq<JobView>)
    ensures results == Listing(db.jobs, db.companies, caller.id)
    ensures total == |results|
  {
    var companies := db.companies;
    var jobs := NewestFirst(OwnedBy(db.jobs, caller.id));
    results := [];
    var i := 0;
    while i < |jobs|
      invariant 0 <= i <= |jobs|
      invariant results == Views(jobs[..i], companies)
    {
      assert jobs[..i + 1][..i] == jobs[..i];
      results := results + [ViewOf(jobs[i], companies)];
      i := i + 1;
    }
    assert jobs[..i] == jobs;
    total := |results|;
  }

  /** Every job of the caller appears in the listing, exactly as often as it is stored. */
  lemma ListingIsExactlyTheCallersJobs(jobs: seq<JobRow>, rid: nat)
    ensures multiset(NewestFirst(OwnedBy(jobs, rid))) == multiset(OwnedBy(jobs, rid))
    ensures forall j :: j in NewestFirst(OwnedBy(jobs, rid)) <==> j in jobs && j.recruiterId == rid
  {
    var ordered := NewestFirst(OwnedBy(jobs, rid));
    forall j ensures j in ordered <==> j in OwnedBy(jobs, rid) {
      assert j in ordered <==> j in multiset(ordered);
    }
  }

  // ---------------------------------------------------------------------
  // Summary

  /** The counts the summary returns. */
  datatype Summary = Summary(totalJobs: nat, totalResumes: nat, totalShortlisted: nat)

  /** Rows of `resumes JOIN jobs ON resumes.job_id = jobs.id WHERE jobs.recruiter_id = rid`. */
  function JoinCount(resumes: seq<ResumeRow>, jobs: seq<JobRow>, rid: nat): nat {
    if resumes == [] then 0
    else |MatchingJobs(jobs, resumes[0].jobId, rid)| + JoinCount(resumes[1..], jobs, rid)
  }

  /** The caller's jobs with this id. */
  function MatchingJobs(jobs: seq<JobRow>, id: int, rid: nat): (r: seq<JobRow>)
    ensures forall j :: j in r <==> j in jobs && j.id == id && j.recruiterId == rid
  {
    if jobs == [] then []
    else if jobs[0].id == id && jobs[0].recruiterId == rid then [jobs[0]] + MatchingJobs(jobs[1..], id, rid)
    else MatchingJobs(jobs[1..], id, rid)
  }

  /**
   * `recruiter_summary`. The repository defines neither a shortlist model
   * nor an `is_shortlisted` column on resumes, so the shortlist count takes
   * its fallback of 0.
   */
  function RecruiterSummary(jobs: seq<JobRow>, resumes: seq<ResumeRow>, rid: nat): (s: Summary)
    ensures s.totalJobs == |OwnedBy(jobs, rid)|
    ensures s.totalShortlisted == 0
  {
    Summary(|OwnedBy(jobs, rid)|, JoinCount(resumes, jobs, rid), 0)
  }

  /** With distinct job ids, a resume joins at most one job. */
  lemma {:induction false} AtMostOneMatch(jobs: seq<JobRow>, nextId: nat, id: int, rid: nat)
    requires JobsInvariant(jobs, nextId)
    ensures |MatchingJobs(jobs, id, rid)| == (if exists k :: 0 <= k < |jobs| && jobs[k].id == id && jobs[k].recruiterId == rid then 1 else 0)
  {
    if jobs != [] {
      AtMostOneMatch(jobs[1..], nextId, id, rid);
      if jobs[0].id == id {
        assert forall k :: 0 < k < |jobs| ==> jobs[k].id != id;
        assert forall k :: 0 <= k < |jobs| - 1 ==> jobs[1..][k] == jobs[k + 1];
      } else {
        assert forall k :: 0 <= k < |jobs| - 1 ==> jobs[1..][k] == jobs[k + 1];
        if exists k :: 0 <= k < |jobs| && jobs[k].id == id && jobs[k].recruiterId == rid {
          var k :| 0 <= k < |jobs| && jobs[k].id == id && jobs[k].recruiterId == rid;
          assert jobs[1..][k - 1] == jobs[k];
        }
      }
    }
  }

  /** A resume is counted when its job is one of the caller's. */
  predicate ForCallersJob(r: ResumeRow, jobs: seq<JobRow>, rid: nat) {
    exists k :: 0 <= k < |jobs| && jobs[k].id == r.jobId && jobs[k].recruiterId == rid
  }

  /** The resumes submitted to the caller's jobs. */
  function ResumesForCaller(resumes: seq<ResumeRow>, jobs: seq<JobRow>, rid: nat): (r: seq<ResumeRow>)
    ensures forall x :: x in r <==> x in resumes && ForCallersJob(x, jobs, rid)
  {
    if resumes == [] then []
    else if ForCallersJob(resumes[0], jobs, rid) then [resumes[0]] + ResumesForCaller(resumes[1..], jobs, rid)
    else ResumesForCaller(resumes[1..], jobs, rid)
  }

  /** Since job ids are distinct, the join counts each resume submitted to one of the caller's jobs once. */
  lemma {:induction false} ResumeCountIsPerResume(resumes: seq<ResumeRow>, jobs: seq<JobRow>, nextId: nat, rid: nat)
    requires JobsInvariant(jobs, nextId)
    ensures RecruiterSummary(jobs, resumes, rid).totalResumes == |ResumesForCaller(resumes, jobs, rid)|
  {
    if resumes != [] {
      AtMostOneMatch(jobs, nextId, resumes[0].jobId, rid);
      ResumeCountIsPerResume(resumes[1..], jobs, nextId, rid);
    }
  }
}
