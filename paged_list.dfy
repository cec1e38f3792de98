/** The paginated problem lists (table: 10 per page, grid: 12, compact:
    15): problems loaded at todo, the progress-and-search filter, pages of
    the filtered list with clamped navigation, an optimistic toggle rolled
    back when the request fails, and row selection. */
module PagedList {
  import opened Domain
  import opened Collections
  import opened ListState
  import opened JsNumber

  const TablePerPage: nat := 10
  const GridPerPage: nat := 12
  const CompactPerPage: nat := 15

  /** The selection after "select all": cleared when its size equals the
      length of the current page, otherwise exactly the ids on the page. */
  function SelectAllToggled(sel: set<string>, page: seq<ListItem>): (r: set<string>)
    ensures |sel| == |page| ==> r == {}
    ensures |sel| != |page| ==> forall x :: x in r <==> exists i :: 0 <= i < |page| && page[i].problem.id == x
  {
    if |sel| == |page| then {} else set i | 0 <= i < |page| :: page[i].problem.id
  }

  /** The size test of "select all" is not a subset test: a full selection
      from another page of the same length is cleared, not replaced. */
  lemma SelectAllClearsForeignSelection(a: ApiProblem, b: ApiProblem)
    requires a.id != b.id
    ensures SelectAllToggled({a.id}, [ListItem(b, Todo)]) == {}
  {
  }

  /** A page within the page count starts inside the list, and its slice
      is the run of positions the footer reports. */
  lemma PageRange<T>(s: seq<T>, page: int, perPage: nat)
    requires perPage > 0 && page >= 1 && page <= TotalPages(|s|, perPage)
    ensures var start := (page - 1) * perPage;
      var stop := if start + perPage < |s| then start + perPage else |s|;
      start < stop <= |s| && PageSlice(s, page, perPage) == s[start .. stop]
  {
    PagesAreChunks(s, page, perPage);
    ChunkAt(s, perPage, page - 1);
  }

  /** Page `page` of `s`: within the page count it is the matching chunk
      of the list, after it the page is empty. */
  function PageOf<T>(s: seq<T>, page: int, perPage: nat): (r: seq<T>)
    requires perPage > 0 && page >= 1
    ensures |r| <= perPage
    ensures page <= TotalPages(|s|, perPage) ==> page <= |Chunks(s, perPage)| && r == Chunks(s, perPage)[page - 1]
    ensures page > TotalPages(|s|, perPage) ==> r == []
  {
    if page <= TotalPages(|s|, perPage) then
      PageInRange(s, page, perPage);
      PageSlice(s, page, perPage)
    else
      PageBeyond(s, page, perPage);
      PageSlice(s, page, perPage)
  }

  /** The "Showing first to last of n" footer shown under a page in
      range: the one-based positions of that page within the list. */
  function Footer<T>(s: seq<T>, page: int, perPage: nat): (r: (int, int))
    requires perPage > 0 && 1 <= page <= TotalPages(|s|, perPage)
    ensures 1 <= r.0 <= r.1 <= |s|
    ensures r.1 - r.0 + 1 == |PageSlice(s, page, perPage)| && PageSlice(s, page, perPage) == s[r.0 - 1 .. r.1]
  {
    var start := (page - 1) * perPage;
    PageRange(s, page, perPage);
    (start + 1, if start + perPage < |s| then start + perPage else |s|)
  }

  class PagedProblemsList {
    const perPage: nat
    var items: seq<ListItem>
    var selected: set<string>
    var progressFilter: ProgressFilter
    var searchTerm: string
    var currentPage: int

    ghost predicate Valid()
      reads this
    {
      perPage > 0 && currentPage >= 1
    }

    /** A list with `n` problems per page, on page 1, with no data. */
    constructor (n: nat)
      requires n > 0
      ensures Valid() && perPage == n
      ensures items == [] && selected == {} && progressFilter == AnyProgress && searchTerm == "" && currentPage == 1
    {
      perPage := n;
      items := [];
      selected := {};
      progressFilter := AnyProgress;
      searchTerm := "";
      currentPage := 1;
    }

    /** The filtered list: progress filter and title search (these lists
        have no difficulty filter). */
    function Filtered(): (r: seq<ListItem>)
      reads this
      ensures r == FilterItems(items, progressFilter, AnyDifficulty, searchTerm)
      ensures IsSubsequence(r, items)
    {
      FilterItems(items, progressFilter, AnyDifficulty, searchTerm)
    }

    function PageCount(): (t: nat)
      reads this
      requires Valid()
      ensures t == TotalPages(|Filtered()|, perPage)
    {
      TotalPages(|Filtered()|, perPage)
    }

    /** The items on the current page. */
    function PageItems(): (r: seq<ListItem>)
      reads this
      requires Valid()
      ensures |r| <= perPage
      ensures var f := Filtered();
        currentPage <= TotalPages(|f|, perPage) ==> currentPage <= |Chunks(f, perPage)| && r == Chunks(f, perPage)[currentPage - 1]
      ensures currentPage > TotalPages(|Filtered()|, perPage) ==> r == []
    {
      PageOf(Filtered(), currentPage, perPage)
    }

    /** The header percentage. */
    function Percent(): (p: int)
      reads this
      ensures HeaderPercentAgreesAt(CompletedCount(items), |items|, p)
      ensures 0 <= p <= 100
    {
      HeaderPercentAgrees(CompletedCount(items), |items|);
      CompletionPercent(CompletedCount(items), |items|)
    }

    /** The problems arrived, all at todo, or the request failed and the
        list is unchanged. */
    method Load(result: Option<seq<ApiProblem>>)
      modifies this`items
      ensures result.Some? ==> items == AllTodo(result.value)
      ensures result.None? ==> items == old(items)
    {
      if result.Some? {
        items := AllTodo(result.value);
      }
    }

    /** Changing a filter keeps the current page, which may then lie past
        the last page and show nothing. */
    method SetFilters(pf: ProgressFilter, term: string)
      requires Valid()
      modifies this`progressFilter, this`searchTerm
      ensures Valid() && progressFilter == pf && searchTerm == term && currentPage == old(currentPage)
    {
      progressFilter, searchTerm := pf, term;
    }

    method Previous()
      requires Valid()
      modifies this`currentPage
      ensures Valid() && currentPage == PreviousPage(old(currentPage))
      ensures old(currentPage) <= PageCount() ==> currentPage <= PageCount()
    {
      currentPage := PreviousPage(currentPage);
    }

    /** "Next", shown only while there is more than one page. */
    method Next()
      requires Valid() && PageCount() > 1
      modifies this`currentPage
      ensures Valid() && currentPage == NextPage(old(currentPage), PageCount())
      ensures 1 <= currentPage <= PageCount()
    {
      currentPage := NextPage(currentPage, PageCount());
    }

    /** A numbered page button. */
    method GoToPage(n: int)
      requires Valid() && n in PageButtons(PageCount())
      modifies this`currentPage
      ensures Valid() && currentPage == n && 1 <= n <= PageCount()
    {
      currentPage := n;
    }

    /** The optimistic toggle: flip the problem shown at `current` at once,
        then, if the request failed, set it back to `current`. */
    method ToggleProblemStatus(id: string, current: Status, requestOk: bool)
      modifies this`items
      ensures requestOk ==> items == SetStatus(old(items), id, Flip(current))
      ensures !requestOk ==> items == SetStatus(SetStatus(old(items), id, Flip(current)), id, current)
      ensures !requestOk && AllAt(old(items), id, current) ==> items == old(items)
    {
      items := SetStatus(items, id, Flip(current));
      if !requestOk {
        if AllAt(old(items), id, current) {
          SetStatusUndone(old(items), id, current, Flip(current));
        }
        items := SetStatus(items, id, current);
      }
    }

    method ToggleRowSelection(id: string)
      modifies this`selected
      ensures selected == Toggled(old(selected), id)
    {
      selected := Toggled(selected, id);
    }

    method ClearSelection()
      modifies this`selected
      ensures selected == {}
    {
      selected := {};
    }

    /** "Select all" of the table list. */
    method ToggleAllSelection()
      requires Valid()
      modifies this`selected
      ensures selected == SelectAllToggled(old(selected), PageItems())
    {
      selected := SelectAllToggled(selected, PageItems());
    }
  }

  /** The header percentage is the rounded completion percentage. */
  predicate HeaderPercentAgreesAt(done: nat, total: nat, p: int)
    requires done <= total
  {
    HeaderPercent(done, total) == Finite(p as real)
  }
}
