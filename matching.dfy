/**
 * The recruiter's matching table: a job selector that narrows the
 * candidates to one job, and five candidates per page. The workspace page's
 * own `MatchingMain` is the same component and is modelled by this one.
 */
module Matching {
  import opened Wrappers
  import opened Roster
  import Paging

  const PageSize := 5

  /** The dropdown starts on the first job, or on "All jobs" (`null`) when there is none. */
  function InitialSelection(jobs: seq<JobCard>): (r: Option<string>)
    ensures r.None? <==> jobs == []
    ensures r.Some? ==> r.value == jobs[0].id
  {
    if |jobs| > 0 then Some(jobs[0].id) else None
  }

  /** Whether a selection narrows the list: `null` and the empty id are falsy. */
  predicate Narrows(selected: Option<string>)
    ensures Narrows(selected) ==> selected.Some?
    ensures selected == Some("") ==> !Narrows(selected)
  {
    selected.Some? && selected.value != ""
  }

  /** `candidates.filter((c) => selectedJob ? c.jobId === selectedJob : true)`. */
  function ForJob(cs: seq<Candidate>, selected: Option<string>): (r: seq<Candidate>)
    ensures !Narrows(selected) ==> r == cs
    ensures Narrows(selected) ==> forall c :: c in r <==> c in cs && c.jobId == selected.value
    ensures |r| <= |cs|
  {
    if cs == [] then []
    else
      var last := cs[|cs| - 1];
      ForJob(cs[..|cs| - 1], selected) + (if !Narrows(selected) || last.jobId == selected.value then [last] else [])
  }

  /** Narrowing keeps the candidates' order: the filter of a concatenation is the concatenation of the filters. */
  lemma {:induction false} ForJobAppend(a: seq<Candidate>, b: seq<Candidate>, selected: Option<string>)
    ensures ForJob(a + b, selected) == ForJob(a, selected) + ForJob(b, selected)
    decreases |b|
  {
    if b != [] {
      assert (a + b)[..|a + b| - 1] == a + b[..|b| - 1];
      ForJobAppend(a, b[..|b| - 1], selected);
    } else {
      assert a + b == a;
    }
  }

  /** `jobs.find((j) => j.id === selectedJob)`: the first job with the selected id. */
  function FindJob(jobs: seq<JobCard>, selected: Option<string>, from: nat := 0): (r: Option<nat>)
    requires from <= |jobs|
    ensures r.Some? ==> (from <= r.value < |jobs| && selected == Some(jobs[r.value].id)
      && forall k :: from <= k < r.value ==> selected != Some(jobs[k].id))
    ensures r.None? ==> forall k :: from <= k < |jobs| ==> selected != Some(jobs[k].id)
    decreases |jobs| - from
  {
    if from == |jobs| then None
    else if selected == Some(jobs[from].id) then Some(from)
    else FindJob(jobs, selected, from + 1)
  }

  /** The dropdown's caption: the selected job's title, or "All jobs" when no job has that id or its title is empty. */
  function Label(jobs: seq<JobCard>, selected: Option<string>): (l: string)
    ensures FindJob(jobs, selected).None? ==> l == "All jobs"
    ensures FindJob(jobs, selected).Some? ==>
      var title := jobs[FindJob(jobs, selected).value].title;
      l == if title != "" then title else "All jobs"
  {
    match FindJob(jobs, selected)
    case None => "All jobs"
    case Some(k) => if jobs[k].title != "" then jobs[k].title else "All jobs"
  }

  /** With distinct job ids, choosing a job from the menu captions the dropdown with that job's title. */
  lemma ChosenJobLabelled(jobs: seq<JobCard>, k: nat)
    requires k < |jobs| && jobs[k].title != ""
    requires forall i, j :: 0 <= i < j < |jobs| ==> jobs[i].id != jobs[j].id
    ensures Label(jobs, Some(jobs[k].id)) == jobs[k].title
  {
  }

  /** The component's state: the selected job and the page, over fixed candidates and jobs. */
  class MatchingView {
    const candidates: seq<Candidate>
    const jobs: seq<JobCard>
    var selectedJob: Option<string>
    var page: int

    /** The handlers only ever produce pages from 1 upwards. */
    predicate Valid()
      reads this
    {
      page >= 1
    }

    constructor (candidates: seq<Candidate>, jobs: seq<JobCard>)
      ensures this.candidates == candidates && this.jobs == jobs
      ensures selectedJob == InitialSelection(jobs) && page == 1
      ensures Valid()
    {
      this.candidates := candidates;
      this.jobs := jobs;
      selectedJob := InitialSelection(jobs);
      page := 1;
    }

    function Filtered(): seq<Candidate>
      reads this
    {
      ForJob(candidates, selectedJob)
    }

    function PageCount(): nat
      reads this
    {
      Paging.PageCount(|Filtered()|, PageSize)
    }

    /** The rows of the table. */
    function Shown(): (r: seq<Candidate>)
      reads this
      ensures |r| <= PageSize
      ensures forall c :: c in r ==> c in Filtered()
    {
      Paging.PageItems(Filtered(), page, PageSize)
    }

    /** "No candidates for the selected job." */
    predicate ShowsEmptyMessage()
      reads this
    {
      |Filtered()| == 0
    }

    /** The Prev button. */
    method PrevPage()
      modifies this
      ensures page == Paging.Prev(old(page)) && selectedJob == old(selectedJob)
      ensures old(Valid()) ==> Valid()
    {
      page := Paging.Prev(page);
    }

    /** The Next button. */
    method NextPage()
      modifies this
      ensures page == Paging.Next(old(page), old(PageCount())) && selectedJob == old(selectedJob)
      ensures old(Valid()) ==> Valid()
    {
      page := Paging.Next(page, PageCount());
    }

    /** A dropdown item: `null` for "All jobs", otherwise a job's id. The page is left as it was. */
    method Select(job: Option<string>)
      modifies this
      ensures selectedJob == job && page == old(page)
      ensures old(Valid()) ==> Valid()
    {
      selectedJob := job;
    }
  }

  /** The empty message shows exactly when the selection leaves no candidate. */
  lemma EmptyMessageIffNoCandidate(cs: seq<Candidate>, selected: Option<string>)
    ensures |ForJob(cs, selected)| == 0 <==> forall c :: c in cs ==> Narrows(selected) && c.jobId != selected.value
  {
    if |ForJob(cs, selected)| != 0 {
      assert ForJob(cs, selected)[0] in ForJob(cs, selected);
    }
  }

  /**
   * Choosing another job keeps the page number: when the new list has fewer
   * pages, the table is empty even when the job has candidates (and so the
   * empty message is not shown either).
   */
  lemma StalePageAfterSelection(cs: seq<Candidate>, selected: Option<string>, page: int)
    requires page > Paging.PageCount(|ForJob(cs, selected)|, PageSize)
    ensures Paging.PageItems(ForJob(cs, selected), page, PageSize) == []
  {
    Paging.PageEmptiness(ForJob(cs, selected), page, PageSize);
  }
}
