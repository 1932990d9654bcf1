/**
 * The mock records the workspace pages render: job cards and candidates.
 * Job and candidate ids are strings ("j1", "c7", "hc3").
 */
module Roster {
  datatype JobCard = JobCard(id: string, title: string, applicants: nat, status: string)

  /**
   * A candidate row. `score` is a whole percentage; `experience` is the
   * rendered text of a number of years.
   */
  datatype Candidate = Candidate(
    id: string,
    name: string,
    score: int,
    skills: seq<string>,
    experience: string,
    jobId: string,
    shortlisted: bool)

  /** `candidates.filter((c) => c.shortlisted)`, in order. */
  function ShortlistOf(cs: seq<Candidate>): (r: seq<Candidate>)
    ensures |r| <= |cs|
  {
    if cs == [] then []
    else ShortlistOf(cs[..|cs| - 1]) + (if cs[|cs| - 1].shortlisted then [cs[|cs| - 1]] else [])
  }

  /** The shortlist holds exactly the shortlisted candidates. */
  lemma {:induction false} ShortlistMembers(cs: seq<Candidate>)
    ensures forall c :: c in ShortlistOf(cs) <==> c in cs && c.shortlisted
  {
    if cs != [] {
      var init := cs[..|cs| - 1];
      ShortlistMembers(init);
      assert cs == init + [cs[|cs| - 1]];
    }
  }
}
