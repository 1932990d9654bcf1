/** The HR candidates table: six candidates per page, with Prev and Next. */
module CandidatesTable {
  import opened Roster
  import Paging

  const PageSize := 6

  /** The component's state: the page, over a fixed list of candidates. */
  class CandidatesView {
    const candidates: seq<Candidate>
    var page: int

    predicate Valid()
      reads this
    {
      page >= 1
    }

    constructor (candidates: seq<Candidate>)
      ensures this.candidates == candidates && page == 1
      ensures Valid()
    {
      this.candidates := candidates;
      page := 1;
    }

    function PageCount(): nat
      reads this
    {
      Paging.PageCount(|candidates|, PageSize)
    }

    /** The rows of the table. */
    function Shown(): (r: seq<Candidate>)
      reads this
      ensures |r| <= PageSize
      ensures forall c :: c in r ==> c in candidates
    {
      Paging.PageItems(candidates, page, PageSize)
    }

    /** "No candidates yet." */
    predicate ShowsEmptyMessage()
      reads this
    {
      |candidates| == 0
    }

    /** The Prev button. */
    method PrevPage()
      modifies this
      ensures page == Paging.Prev(old(page))
      ensures old(Valid()) ==> Valid()
    {
      page := Paging.Prev(page);
    }

    /** The Next button. */
    method NextPage()
      modifies this
      ensures page == Paging.Next(old(page), PageCount())
      ensures old(Valid()) ==> Valid()
    {
      page := Paging.Next(page, PageCount());
    }
  }

  /** With no other handler than Prev and Next, the page never leaves [1, pageCount]. */
  lemma PageStaysInRange(candidates: seq<Candidate>, page: int)
    requires 1 <= page <= Paging.PageCount(|candidates|, PageSize)
    ensures var c := Paging.PageCount(|candidates|, PageSize);
      1 <= Paging.Prev(page) <= c && 1 <= Paging.Next(page, c) <= c
  {
    Paging.HandlersStayInRange(page, Paging.PageCount(|candidates|, PageSize));
  }

  /** The table is empty on an in-range page exactly when the empty message shows. */
  lemma EmptyTableIffEmptyMessage(candidates: seq<Candidate>, page: int)
    requires 1 <= page <= Paging.PageCount(|candidates|, PageSize)
    ensures Paging.PageItems(candidates, page, PageSize) == [] <==> |candidates| == 0
  {
    Paging.PageEmptiness(candidates, page, PageSize);
  }
}
