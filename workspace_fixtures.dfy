/**
 * The mock data both workspace pages build: three job cards and 23
 * candidates generated in a loop from the index. The scores are random
 * (`Math.floor(60 + Math.random() * 40)`); each one is 60 plus a whole
 * number below 40, which the generator takes as its `draws`.
 */
module WorkspaceFixtures {
  import opened Text
  import opened Roster

  const Skills: seq<string> := ["React", "Node", "Python", "SQL", "Docker", "Data Analysis", "TypeScript"]

  const Jobs: seq<JobCard> := [
    JobCard("j1", "Frontend Intern", 12, "Open"),
    JobCard("j2", "Backend Intern", 22, "Open"),
    JobCard("j3", "Data Analyst", 8, "Closed")]

  const CandidateCount := 23

  /** `${(i % 4) + 0.5} yrs`: a whole number of years plus a half. */
  function Experience(years: nat): string {
    NatToString(years) + ".5 yrs"
  }

  /** The candidate the loop pushes for index `i` (from 1). */
  function CandidateAt(i: nat, draw: nat): (c: Candidate)
    ensures c.score >= 60 && (draw < 40 ==> c.score < 100)
    ensures c.shortlisted <==> i % 7 == 0
    ensures |c.skills| == 2 && c.skills[0] in Skills && c.skills[1] in Skills
    ensures c.jobId in {"j1", "j2", "j3"}
  {
    Candidate("c" + NatToString(i), "Candidate " + NatToString(i), 60 + draw,
              [Skills[i % |Skills|], Skills[(i + 2) % |Skills|]],
              Experience(i % 4), Jobs[i % |Jobs|].id, i % 7 == 0)
  }

  /** Every draw is a whole number below 40. */
  predicate Draws(draws: seq<nat>) {
    |draws| == CandidateCount && forall k :: 0 <= k < |draws| ==> draws[k] < 40
  }

  /** The list the loop builds: candidate `k + 1` at position `k`. */
  function Generated(draws: seq<nat>): (cs: seq<Candidate>)
    requires Draws(draws)
    ensures |cs| == CandidateCount
    ensures forall k :: 0 <= k < |cs| ==> 60 <= cs[k].score <= 99
  {
    seq(CandidateCount, k requires 0 <= k < CandidateCount => CandidateAt(k + 1, draws[k]))
  }

  /** `fakeCandidates`: `for (let i = 1; i <= 23; i++) arr.push(...)`. */
  method FakeCandidates(draws: seq<nat>) returns (arr: seq<Candidate>)
    requires Draws(draws)
    ensures arr == Generated(draws)
  {
    arr := [];
    var i := 1;
    while i <= CandidateCount
      invariant 1 <= i <= CandidateCount + 1
      invariant arr == Generated(draws)[..i - 1]
    {
      arr := arr + [CandidateAt(i, draws[i - 1])];
      i := i + 1;
    }
  }

  /** Candidate ids are "c1" to "c23", all distinct. */
  lemma IdsDistinct(draws: seq<nat>)
    requires Draws(draws)
    ensures forall k :: 0 <= k < CandidateCount ==> Generated(draws)[k].id == "c" + NatToString(k + 1)
    ensures forall i, j :: 0 <= i < j < CandidateCount ==> Generated(draws)[i].id != Generated(draws)[j].id
  {
    var cs := Generated(draws);
    forall k | 0 <= k < CandidateCount
      ensures cs[k].id == "c" + NatToString(k + 1)
    {
      assert cs[k] == CandidateAt(k + 1, draws[k]);
    }
    forall i, j | 0 <= i < j < CandidateCount ensures cs[i].id != cs[j].id {
      if cs[i].id == cs[j].id {
        assert NatToString(i + 1) == cs[i].id[1..] == cs[j].id[1..] == NatToString(j + 1);
        NatToStringInjective(i + 1, j + 1);
      }
    }
  }

  /** The candidates at positions 6, 13, 20, ...: the first `n` of them. */
  function EverySeventhOf(cs: seq<Candidate>, n: nat): (r: seq<Candidate>)
    requires 7 * n <= |cs|
    ensures |r| == n
  {
    if n == 0 then [] else EverySeventhOf(cs, n - 1) + [cs[7 * (n - 1) + 6]]
  }

  /** In a list where exactly the positions 6, 13, 20, ... are shortlisted, the first `m` hold every seventh. */
  lemma {:induction false} EverySeventh(cs: seq<Candidate>, m: nat)
    requires m <= |cs|
    requires forall k :: 0 <= k < |cs| ==> (cs[k].shortlisted <==> k % 7 == 6)
    ensures 7 * (m / 7) <= |cs|
    ensures ShortlistOf(cs[..m]) == EverySeventhOf(cs, m / 7)
  {
    assert m == 7 * (m / 7) + m % 7;
    if m > 0 {
      EverySeventh(cs, m - 1);
      var prefix := cs[..m];
      assert prefix[..m - 1] == cs[..m - 1] && prefix[m - 1] == cs[m - 1];
      var q := (m - 1) / 7;
      assert m - 1 == 7 * q + (m - 1) % 7;
      if (m - 1) % 7 == 6 {
        assert m / 7 == q + 1 && 7 * q + 6 == m - 1;
      } else {
        assert m / 7 == q;
      }
    }
  }

  /** Candidate `i` is shortlisted when `i` is a multiple of 7. */
  lemma ShortlistedPositions(draws: seq<nat>)
    requires Draws(draws)
    ensures forall k :: 0 <= k < CandidateCount ==> (Generated(draws)[k].shortlisted <==> k % 7 == 6)
  {
    forall k | 0 <= k < CandidateCount
      ensures Generated(draws)[k].shortlisted <==> k % 7 == 6
    {
      assert Generated(draws)[k] == CandidateAt(k + 1, draws[k]);
      SuccessorMultipleOfSeven(k);
    }
  }

  lemma SuccessorMultipleOfSeven(k: nat)
    ensures (k + 1) % 7 == 0 <==> k % 7 == 6
  {
    var q := k / 7;
    assert k == 7 * q + k % 7;
    if k % 7 == 6 {
      assert k + 1 == 7 * (q + 1);
    } else {
      assert k + 1 == 7 * q + (k % 7 + 1);
    }
  }

  /** `shortlistedCandidates` is exactly the 7th, 14th and 21st candidate. */
  lemma ShortlistIsEverySeventh(draws: seq<nat>)
    requires Draws(draws)
    ensures ShortlistOf(Generated(draws)) == [Generated(draws)[6], Generated(draws)[13], Generated(draws)[20]]
  {
    ShortlistedPositions(draws);
    EverySeventhOfTwentyThree(Generated(draws));
  }

  /** In 23 candidates shortlisted at every seventh position from the 7th, the shortlist is the 7th, 14th and 21st. */
  lemma EverySeventhOfTwentyThree(cs: seq<Candidate>)
    requires |cs| == CandidateCount
    requires forall k :: 0 <= k < |cs| ==> (cs[k].shortlisted <==> k % 7 == 6)
    ensures ShortlistOf(cs) == [cs[6], cs[13], cs[20]]
  {
    EverySeventh(cs, 23);
    assert cs[..23] == cs;
    assert 23 / 7 == 3;
    assert EverySeventhOf(cs, 1) == [cs[6]];
    assert EverySeventhOf(cs, 2) == [cs[6], cs[13]];
  }

  /** Their ids are c7, c14 and c21. */
  lemma ShortlistIds(draws: seq<nat>)
    requires Draws(draws)
    ensures [Generated(draws)[6].id, Generated(draws)[13].id, Generated(draws)[20].id] == ["c7", "c14", "c21"]
  {
    var cs := Generated(draws);
    ShortlistedNumbers();
    assert cs[6].id == CandidateAt(7, draws[6]).id == "c" + NatToString(7);
    assert cs[13].id == CandidateAt(14, draws[13]).id == "c" + NatToString(14);
    assert cs[20].id == CandidateAt(21, draws[20]).id == "c" + NatToString(21);
  }

  /** The ids of candidates 7, 14 and 21. */
  lemma ShortlistedNumbers()
    ensures "c" + NatToString(7) == "c7" && "c" + NatToString(14) == "c14" && "c" + NatToString(21) == "c21"
  {
    assert NatToString(7) == "7";
    assert NatToString(14) == NatToString(1) + [DigitChar(4)] == "14";
    assert NatToString(21) == NatToString(2) + [DigitChar(1)] == "21";
    assert "c" + "14" == "c14" && "c" + "21" == "c21";
  }
}
