/** The HR candidates page: three job cards and 18 candidates computed from the index alone. */
module HrCandidatesPage {
  import opened Text
  import opened Roster
  import WorkspaceFixtures

  const Jobs: seq<JobCard> := [
    JobCard("hj1", "HR Manager", 4, "Open"),
    JobCard("hj2", "Recruiter", 12, "Open"),
    JobCard("hj3", "People Ops", 3, "Closed")]

  const SkillSets: seq<seq<string>> := [
    ["Communication", "Excel", "Sourcing"],
    ["Interviewing", "Onboarding"],
    ["Employee Relations", "Analytics"]]

  const CandidateCount := 18

  /** The candidate at index `i` (from 0) of `Array.from({ length: 18 }).map(...)`. */
  function CandidateAt(i: nat): (c: Candidate)
    ensures 60 <= c.score < 100
    ensures c.shortlisted <==> i % 5 == 0
    ensures c.skills in SkillSets
    ensures c.jobId in {"hj1", "hj2", "hj3"}
  {
    Candidate("hc" + NatToString(i + 1), "Candidate " + NatToString(i + 1), 60 + (i * 7) % 40,
              SkillSets[i % 3], WorkspaceFixtures.Experience(i % 5), Jobs[i % |Jobs|].id, i % 5 == 0)
  }

  function Candidates(): (cs: seq<Candidate>)
    ensures |cs| == CandidateCount
  {
    seq(CandidateCount, i requires 0 <= i < CandidateCount => CandidateAt(i))
  }

  /** Scores stay within 60 to 99, and ids are "hc1" to "hc18", all distinct. */
  lemma ScoresAndIds()
    ensures forall k :: 0 <= k < CandidateCount ==> 60 <= Candidates()[k].score <= 99
    ensures forall k :: 0 <= k < CandidateCount ==> Candidates()[k].id == "hc" + NatToString(k + 1)
    ensures forall i, j :: 0 <= i < j < CandidateCount ==> Candidates()[i].id != Candidates()[j].id
  {
    var cs := Candidates();
    forall i, j | 0 <= i < j < CandidateCount ensures cs[i].id != cs[j].id {
      if cs[i].id == cs[j].id {
        assert NatToString(i + 1) == cs[i].id[2..];
        NatToStringInjective(i + 1, j + 1);
      }
    }
  }

  /** In a list where exactly the positions 0, 5, 10, ... are shortlisted, the first `m` hold every fifth. */
  lemma {:induction false} EveryFifth(cs: seq<Candidate>, m: nat)
    requires m <= |cs|
    requires forall k :: 0 <= k < |cs| ==> (cs[k].shortlisted <==> k % 5 == 0)
    ensures ShortlistOf(cs[..m]) == seq((m + 4) / 5, j requires 0 <= j < (m + 4) / 5 => cs[5 * j])
  {
    if m > 0 {
      EveryFifth(cs, m - 1);
      assert cs[..m][..m - 1] == cs[..m - 1];
      var before := seq((m + 3) / 5, j requires 0 <= j < (m + 3) / 5 => cs[5 * j]);
      var after := seq((m + 4) / 5, j requires 0 <= j < (m + 4) / 5 => cs[5 * j]);
      if (m - 1) % 5 == 0 {
        assert after == before + [cs[m - 1]];
      } else {
        assert after == before;
      }
    }
  }

  /** Candidate `i` is shortlisted when `i` is a multiple of 5. */
  lemma ShortlistedPositions()
    ensures forall k :: 0 <= k < CandidateCount ==> (Candidates()[k].shortlisted <==> k % 5 == 0)
  {
  }

  /** In 18 candidates shortlisted at every fifth position, the shortlist is the 1st, 6th, 11th and 16th. */
  lemma EveryFifthOfEighteen(cs: seq<Candidate>)
    requires |cs| == CandidateCount
    requires forall k :: 0 <= k < |cs| ==> (cs[k].shortlisted <==> k % 5 == 0)
    ensures ShortlistOf(cs) == [cs[0], cs[5], cs[10], cs[15]]
  {
    EveryFifth(cs, 18);
    assert cs[..18] == cs;
    assert (18 + 4) / 5 == 4;
    FourPicks(cs);
  }

  lemma FourPicks(cs: seq<Candidate>)
    requires |cs| >= 16
    ensures seq(4, j requires 0 <= j < 4 => cs[5 * j]) == [cs[0], cs[5], cs[10], cs[15]]
  {
  }

  /** The shortlisted candidates are the 1st, 6th, 11th and 16th. */
  lemma ShortlistIsEveryFifth()
    ensures ShortlistOf(Candidates()) == [Candidates()[0], Candidates()[5], Candidates()[10], Candidates()[15]]
  {
    ShortlistedPositions();
    EveryFifthOfEighteen(Candidates());
  }

  /** Their ids are hc1, hc6, hc11 and hc16. */
  lemma ShortlistIds()
    ensures [Candidates()[0].id, Candidates()[5].id, Candidates()[10].id, Candidates()[15].id] == ["hc1", "hc6", "hc11", "hc16"]
  {
    var cs := Candidates();
    ShortlistedNumbers();
    assert cs[0].id == CandidateAt(0).id == "hc" + NatToString(1);
    assert cs[5].id == CandidateAt(5).id == "hc" + NatToString(6);
    assert cs[10].id == CandidateAt(10).id == "hc" + NatToString(11);
    assert cs[15].id == CandidateAt(15).id == "hc" + NatToString(16);
  }

  /** The ids of the candidates at positions 0, 5, 10 and 15. */
  lemma ShortlistedNumbers()
    ensures "hc" + NatToString(1) == "hc1" && "hc" + NatToString(6) == "hc6"
    ensures "hc" + NatToString(11) == "hc11" && "hc" + NatToString(16) == "hc16"
  {
    assert NatToString(1) == "1" && NatToString(6) == "6";
    assert NatToString(11) == NatToString(1) + [DigitChar(1)] == "11";
    assert NatToString(16) == NatToString(1) + [DigitChar(6)] == "16";
    assert "hc" + "11" == "hc11" && "hc" + "16" == "hc16";
  }
}
