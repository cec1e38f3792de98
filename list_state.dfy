/** The client-side list state shared by the problem lists: items with a
    todo/done progress, the filter chain (progress, difficulty,
    case-insensitive title search), selection toggles, page slicing with
    clamped navigation and the completion percentage. */
module ListState {
  import opened Domain
  import opened Collections
  import opened Text
  import opened JsNumber

  datatype Status = Todo | Done

  function Flip(s: Status): (r: Status)
    ensures r != s
  {
    if s == Todo then Done else Todo
  }

  /** A problem as the problems endpoint delivers it to the lists. */
  datatype ApiProblem = ApiProblem(id: string, title: string, difficulty: Difficulty, url: string, isPremium: bool)

  /** A problem with its progress in a list. */
  datatype ListItem = ListItem(problem: ApiProblem, progress: Status)

  /** The progress select: "all", "todo" or "done". */
  datatype ProgressFilter = AnyProgress | OnlyProgress(status: Status)

  /** The difficulty select: "all", "Easy", "Medium" or "Hard". */
  datatype DifficultyFilter = AnyDifficulty | OnlyDifficulty(difficulty: Difficulty)

  predicate ProgressMatches(item: ListItem, f: ProgressFilter)
  {
    f.AnyProgress? || item.progress == f.status
  }

  predicate DifficultyMatches(item: ListItem, f: DifficultyFilter)
  {
    f.AnyDifficulty? || item.problem.difficulty == f.difficulty
  }

  /** The lower-cased title contains the lower-cased term, or the term is
      empty. */
  predicate SearchMatches(item: ListItem, term: string)
  {
    term == "" || Contains(ToLower(item.problem.title), ToLower(term))
  }

  /** An item is shown iff it passes all three filters. */
  predicate Shown(item: ListItem, pf: ProgressFilter, df: DifficultyFilter, term: string)
  {
    ProgressMatches(item, pf) && DifficultyMatches(item, df) && SearchMatches(item, term)
  }

  function ProgressSel(pf: ProgressFilter): ListItem -> bool { (x: ListItem) => ProgressMatches(x, pf) }
  function DifficultySel(df: DifficultyFilter): ListItem -> bool { (x: ListItem) => DifficultyMatches(x, df) }
  function SearchSel(term: string): ListItem -> bool { (x: ListItem) => SearchMatches(x, term) }
  function FirstTwoSel(pf: ProgressFilter, df: DifficultyFilter): ListItem -> bool
  {
    (x: ListItem) => ProgressMatches(x, pf) && DifficultyMatches(x, df)
  }
  function ShownSel(pf: ProgressFilter, df: DifficultyFilter, term: string): ListItem -> bool
  {
    (x: ListItem) => Shown(x, pf, df, term)
  }

  /** The three chained filters of a list: the result is the subsequence of
      the items that pass all three, in their original order. */
  function FilterItems(items: seq<ListItem>, pf: ProgressFilter, df: DifficultyFilter, term: string): (r: seq<ListItem>)
    ensures r == Filter(ShownSel(pf, df, term), items)
    ensures IsSubsequence(r, items)
  {
    var r := Filter(SearchSel(term), Filter(DifficultySel(df), Filter(ProgressSel(pf), items)));
    FilterFilter(ProgressSel(pf), DifficultySel(df), FirstTwoSel(pf, df), items);
    FilterFilter(FirstTwoSel(pf, df), SearchSel(term), ShownSel(pf, df, term), items);
    FilterIsSubsequence(ShownSel(pf, df, term), items);
    r
  }

  /** The selection after clicking `x`: removed if present, added otherwise. */
  function Toggled(sel: set<string>, x: string): (r: set<string>)
    ensures x in r <==> x !in sel
    ensures forall y :: y != x ==> (y in r <==> y in sel)
  {
    if x in sel then sel - {x} else sel + {x}
  }

  /** Clicking the same entry twice restores the selection. */
  lemma ToggleTwice(sel: set<string>, x: string)
    ensures Toggled(Toggled(sel, x), x) == sel
  {
  }

  /** Every item with id `id` takes progress `s`; the others keep theirs. */
  function SetStatus(items: seq<ListItem>, id: string, s: Status): (r: seq<ListItem>)
    ensures |r| == |items|
    ensures forall i :: 0 <= i < |items| ==>
      r[i].problem == items[i].problem
      && r[i].progress == (if items[i].problem.id == id then s else items[i].progress)
  {
    seq(|items|, i requires 0 <= i < |items| =>
      if items[i].problem.id == id then items[i].(progress := s) else items[i])
  }

  /** All the items with id `id` have progress `s`. */
  predicate AllAt(items: seq<ListItem>, id: string, s: Status)
  {
    forall i :: 0 <= i < |items| && items[i].problem.id == id ==> items[i].progress == s
  }

  /** Setting back the progress the items had undoes an update: the
      rollback of a failed optimistic toggle restores the list. */
  lemma {:induction false} SetStatusUndone(items: seq<ListItem>, id: string, s: Status, t: Status)
    requires AllAt(items, id, s)
    ensures SetStatus(SetStatus(items, id, t), id, s) == items
  {
    var r := SetStatus(SetStatus(items, id, t), id, s);
    forall i | 0 <= i < |items| ensures r[i] == items[i] {
      assert r[i].problem == items[i].problem && r[i].progress == items[i].progress;
    }
  }

  /** A toggle flips exactly the items with that id, given the progress they
      were shown with. */
  lemma FlipsExactlyThatId(items: seq<ListItem>, id: string, current: Status)
    requires AllAt(items, id, current)
    ensures var r := SetStatus(items, id, Flip(current));
      forall i :: 0 <= i < |items| ==>
        (r[i].progress != items[i].progress <==> items[i].problem.id == id)
  {
  }

  /** Freshly loaded problems, every one at progress todo. */
  function AllTodo(problems: seq<ApiProblem>): (r: seq<ListItem>)
    ensures |r| == |problems|
    ensures forall i :: 0 <= i < |problems| ==> r[i].problem == problems[i] && r[i].progress == Todo
  {
    seq(|problems|, i requires 0 <= i < |problems| => ListItem(problems[i], Todo))
  }

  function DoneSel(): ListItem -> bool { (x: ListItem) => x.progress == Done }

  /** Number of items at progress done. */
  function CompletedCount(items: seq<ListItem>): (n: nat)
    ensures n <= |items|
  {
    Count(DoneSel(), items)
  }

  /** Nothing is completed right after loading. */
  lemma {:induction false} NothingCompletedAfterLoad(problems: seq<ApiProblem>)
    ensures CompletedCount(AllTodo(problems)) == 0
  {
    var items := AllTodo(problems);
    FilterNone(DoneSel(), items);
  }

  /** `Math.ceil(n / perPage)`: the fewest pages of `perPage` holding `n`
      items. */
  function TotalPages(n: nat, perPage: nat): (t: nat)
    requires perPage > 0
    ensures t == (n + perPage - 1) / perPage
    ensures (t - 1) * perPage < n <= t * perPage || (t == 0 && n == 0)
  {
    var t := (n + perPage - 1) / perPage;
    assert t * perPage <= n + perPage - 1 < t * perPage + perPage;
    assert (t - 1) * perPage == t * perPage - perPage;
    t
  }

  /** `slice((page - 1) * perPage, page * perPage)` of the filtered list. */
  function PageSlice<T>(s: seq<T>, page: int, perPage: nat): (r: seq<T>)
    requires perPage > 0 && page >= 1
    ensures |r| <= perPage
  {
    var start := (page - 1) * perPage;
    if start >= |s| then [] else s[start .. if start + perPage < |s| then start + perPage else |s|]
  }

  /** Pages 1 .. TotalPages are the consecutive chunks of the list, so they
      partition it in order; every later page is empty. */
  lemma PagesAreChunks<T>(s: seq<T>, page: int, perPage: nat)
    requires perPage > 0 && page >= 1
    ensures |Chunks(s, perPage)| == TotalPages(|s|, perPage)
    ensures Flatten(Chunks(s, perPage)) == s
    ensures page <= TotalPages(|s|, perPage) ==> PageSlice(s, page, perPage) == Chunks(s, perPage)[page - 1]
    ensures page > TotalPages(|s|, perPage) ==> PageSlice(s, page, perPage) == []
  {
    ChunksPartition(s, perPage);
    if page <= TotalPages(|s|, perPage) {
      PageInRange(s, page, perPage);
    } else {
      PageBeyond(s, page, perPage);
    }
  }

  lemma PageInRange<T>(s: seq<T>, page: int, perPage: nat)
    requires perPage > 0 && 1 <= page <= TotalPages(|s|, perPage)
    ensures page <= |Chunks(s, perPage)| && PageSlice(s, page, perPage) == Chunks(s, perPage)[page - 1]
  {
    ChunksCount(s, perPage);
    ChunkAt(s, perPage, page - 1);
    assert (page - 1) * perPage + perPage == page * perPage;
  }

  lemma PageBeyond<T>(s: seq<T>, page: int, perPage: nat)
    requires perPage > 0 && page > TotalPages(|s|, perPage)
    ensures PageSlice(s, page, perPage) == []
  {
    MulMono(TotalPages(|s|, perPage), page - 1, perPage);
  }

  /** "Previous": `Math.max(1, page - 1)`. */
  function PreviousPage(page: int): (r: int)
    ensures r >= 1 && r >= page - 1 && r <= (if page > 1 then page - 1 else 1)
  {
    if page - 1 > 1 then page - 1 else 1
  }

  /** "Next": `Math.min(totalPages, page + 1)`. */
  function NextPage(page: int, total: int): (r: int)
    ensures r <= total && r <= page + 1 && (r == total || r == page + 1)
  {
    if page + 1 < total then page + 1 else total
  }

  /** From a page in range, Previous and Next stay in range. */
  lemma NavigationStaysInRange(page: int, total: int)
    requires 1 <= page <= total
    ensures 1 <= PreviousPage(page) <= total
    ensures 1 <= NextPage(page, total) <= total
  {
  }

  /** The numbered page buttons: 1 .. min(5, totalPages). */
  function PageButtons(total: int): (r: seq<int>)
    ensures |r| == (if total < 0 then 0 else if total < 5 then total else 5)
    ensures forall i :: 0 <= i < |r| ==> r[i] == i + 1 && 1 <= r[i] <= total
  {
    var n := if total < 0 then 0 else if total < 5 then total else 5;
    seq(n, i requires 0 <= i < n => i + 1)
  }

  /** The completion percentage of the enhanced list: 0 without data,
      otherwise `Math.round(100 * done / total)`. */
  function CompletionPercent(done: nat, total: nat): (r: int)
    ensures total == 0 ==> r == 0
    ensures total > 0 ==> 2 * r * total - total <= 200 * done < 2 * r * total + total
    ensures done <= total ==> 0 <= r <= 100
  {
    if total > 0 then RoundedPercent(done, total) else 0
  }

  /** `Math.round` on a JavaScript number: the floor of `v + 1/2`. */
  function Round(n: Num): (m: Num)
    ensures n.Finite? <==> m.Finite?
    ensures n.Finite? ==> m.v == (n.v + 0.5).Floor as real
  {
    if n.Finite? then Finite((n.v + 0.5).Floor as real) else n
  }

  /** `n || 0`: NaN and zero are falsy. */
  function OrZero(n: Num): (m: Num)
    ensures n == NaN ==> m == Finite(0.0)
    ensures n != NaN ==> m == n || (m == Finite(0.0) && n == Finite(0.0))
  {
    if n == NaN || n == Finite(0.0) then Finite(0.0) else n
  }

  /** The header percentage of the paged lists:
      `Math.round((done / total) * 100) || 0`. */
  function HeaderPercent(done: nat, total: nat): Num
  {
    OrZero(Round(PercentOf(done, total)))
  }

  /** For any list, the header percentage of the paged lists and the
      completion percentage of the enhanced list agree, `0 / 0` included. */
  lemma HeaderPercentAgrees(done: nat, total: nat)
    requires done <= total
    ensures HeaderPercent(done, total) == Finite(CompletionPercent(done, total) as real)
  {
    if total > 0 {
      var r := CompletionPercent(done, total);
      var x := done as real * 100.0 / total as real;
      assert x * total as real == done as real * 100.0;
      RoundBracket(x, total as real, r, done as real);
      FloorIs(x + 0.5, r);
    }
  }

  lemma RoundBracket(x: real, t: real, r: int, d: real)
    requires t > 0.0 && x * t == d * 100.0
    requires (2 * r) as real * t - t <= 200.0 * d < (2 * r) as real * t + t
    ensures r as real <= x + 0.5 < r as real + 1.0
  {
    var lo := r as real - 0.5;
    var hi := r as real + 0.5;
    assert lo * t * 2.0 == (2 * r) as real * t - t;
    assert hi * t * 2.0 == (2 * r) as real * t + t;
    assert x * t * 2.0 == 200.0 * d;
    assert lo * t <= x * t < hi * t;
  }

  lemma FloorIs(y: real, r: int)
    requires r as real <= y < r as real + 1.0
    ensures y.Floor == r
  {
  }
}
