/** The enhanced problems list: problems merged with the progress saved in
    the browser, the three-way filter, per-problem and bulk completion, and
    row selection. The browser storage is the `saved` map. */
module EnhancedList {
  import opened Domain
  import opened Collections
  import opened ListState

  /** A saved progress entry; `completedAt` is present only for done. */
  datatype SavedEntry = SavedEntry(progress: Status, completedAt: Option<int>)

  /** The progress a loaded problem takes: its saved progress, todo when
      there is none. */
  function SavedStatus(saved: map<string, SavedEntry>, id: string): (s: Status)
    ensures id !in saved ==> s == Todo
    ensures id in saved ==> s == saved[id].progress
  {
    if id in saved then saved[id].progress else Todo
  }

  /** The loaded list: every problem with its saved progress. */
  function WithSaved(problems: seq<ApiProblem>, saved: map<string, SavedEntry>): (r: seq<ListItem>)
    ensures |r| == |problems|
    ensures forall i :: 0 <= i < |problems| ==>
      r[i].problem == problems[i] && r[i].progress == SavedStatus(saved, problems[i].id)
  {
    seq(|problems|, i requires 0 <= i < |problems| => ListItem(problems[i], SavedStatus(saved, problems[i].id)))
  }

  /** The entry written when a problem takes progress `s` at `now`. */
  function EntryFor(s: Status, now: int): (e: SavedEntry)
    ensures e.progress == s && (e.completedAt.Some? <==> s == Done)
  {
    SavedEntry(s, if s == Done then Some(now) else None)
  }

  /** An item that bulk completion marks: selected and still todo. */
  predicate BulkMarks(item: ListItem, sel: set<string>)
  {
    item.problem.id in sel && item.progress == Todo
  }

  /** The list after bulk completion of the selection. */
  function BulkDone(items: seq<ListItem>, sel: set<string>): (r: seq<ListItem>)
    ensures |r| == |items|
    ensures forall i :: 0 <= i < |items| ==>
      r[i].problem == items[i].problem
      && r[i].progress == (if BulkMarks(items[i], sel) then Done else items[i].progress)
  {
    seq(|items|, i requires 0 <= i < |items| =>
      if BulkMarks(items[i], sel) then items[i].(progress := Done) else items[i])
  }

  /** The ids bulk completion marks. */
  function MarkedIds(items: seq<ListItem>, sel: set<string>): set<string>
  {
    set i | 0 <= i < |items| && BulkMarks(items[i], sel) :: items[i].problem.id
  }

  /** The saved map after bulk completion walked over `items` in order. */
  function BulkSaved(saved: map<string, SavedEntry>, items: seq<ListItem>, sel: set<string>, now: int): map<string, SavedEntry>
  {
    if items == [] then saved
    else
      var last := items[|items| - 1];
      var before := BulkSaved(saved, items[..|items| - 1], sel, now);
      if BulkMarks(last, sel) then before[last.problem.id := EntryFor(Done, now)] else before
  }

  /** Bulk completion writes a done entry for exactly the marked ids and
      leaves every other saved entry as it was. */
  lemma {:induction false} BulkSavedSpec(saved: map<string, SavedEntry>, items: seq<ListItem>, sel: set<string>, now: int)
    ensures var r := BulkSaved(saved, items, sel, now);
      forall k :: (k in r <==> k in saved || k in MarkedIds(items, sel))
        && (k in MarkedIds(items, sel) ==> r[k] == EntryFor(Done, now))
        && (k !in MarkedIds(items, sel) && k in saved ==> r[k] == saved[k])
  {
    if items != [] {
      var prefix := items[..|items| - 1];
      var last := items[|items| - 1];
      BulkSavedSpec(saved, prefix, sel, now);
      assert MarkedIds(items, sel) == MarkedIds(prefix, sel) + (if BulkMarks(last, sel) then {last.problem.id} else {}) by {
        forall k | k in MarkedIds(items, sel)
          ensures k in MarkedIds(prefix, sel) + (if BulkMarks(last, sel) then {last.problem.id} else {})
        {
          var i :| 0 <= i < |items| && BulkMarks(items[i], sel) && items[i].problem.id == k;
          if i < |prefix| {
            assert prefix[i] == items[i];
          }
        }
        forall k | k in MarkedIds(prefix, sel) ensures k in MarkedIds(items, sel) {
          var i :| 0 <= i < |prefix| && BulkMarks(prefix[i], sel) && prefix[i].problem.id == k;
          assert items[i] == prefix[i];
        }
      }
    }
  }

  class EnhancedProblemsList {
    var items: seq<ListItem>
    var saved: map<string, SavedEntry>
    var selected: set<string>
    var progressFilter: ProgressFilter
    var difficultyFilter: DifficultyFilter
    var searchTerm: string

    /** A new list over the browser's saved progress: no data, no
        selection, every filter open. */
    constructor (storage: map<string, SavedEntry>)
      ensures items == [] && saved == storage && selected == {}
      ensures progressFilter == AnyProgress && difficultyFilter == AnyDifficulty && searchTerm == ""
    {
      items := [];
      saved := storage;
      selected := {};
      progressFilter := AnyProgress;
      difficultyFilter := AnyDifficulty;
      searchTerm := "";
    }

    /** The shown list. */
    function Visible(): (r: seq<ListItem>)
      reads this
      ensures r == FilterItems(items, progressFilter, difficultyFilter, searchTerm)
      ensures IsSubsequence(r, items)
      ensures forall i :: 0 <= i < |r| ==> Shown(r[i], progressFilter, difficultyFilter, searchTerm)
      ensures forall i :: 0 <= i < |items| && Shown(items[i], progressFilter, difficultyFilter, searchTerm) ==> items[i] in r
    {
      FilterItems(items, progressFilter, difficultyFilter, searchTerm)
    }

    /** The completion percentage: 0 without data, otherwise the rounded
        share of done items. */
    function Percentage(): (p: int)
      reads this
      ensures items == [] ==> p == 0
      ensures 0 <= p <= 100
      ensures items != [] ==> 2 * p * |items| - |items| <= 200 * CompletedCount(items) < 2 * p * |items| + |items|
    {
      CompletionPercent(CompletedCount(items), |items|)
    }

    /** The problems still to do. */
    function Remaining(): (n: int)
      reads this
      ensures n >= 0 && n + CompletedCount(items) == |items|
    {
      |items| - CompletedCount(items)
    }

    /** The problems arrived (`Some`) or the request failed (`None`, the
        list is left as it was). */
    method Load(result: Option<seq<ApiProblem>>)
      modifies this`items
      ensures result.Some? ==> items == WithSaved(result.value, saved)
      ensures result.None? ==> items == old(items)
    {
      if result.Some? {
        items := WithSaved(result.value, saved);
      }
    }

    method SetFilters(pf: ProgressFilter, df: DifficultyFilter, term: string)
      modifies this`progressFilter, this`difficultyFilter, this`searchTerm
      ensures progressFilter == pf && difficultyFilter == df && searchTerm == term
    {
      progressFilter, difficultyFilter, searchTerm := pf, df, term;
    }

    /** Flip the problem `id` shown at progress `current`, and save the new
        progress, with a completion instant iff it is done. */
    method ToggleProblemStatus(id: string, current: Status, now: int)
      modifies this`items, this`saved
      ensures items == SetStatus(old(items), id, Flip(current))
      ensures saved == old(saved)[id := EntryFor(Flip(current), now)]
    {
      var next := Flip(current);
      items := SetStatus(items, id, next);
      saved := saved[id := EntryFor(next, now)];
    }

    method ToggleRowSelection(id: string)
      modifies this`selected
      ensures selected == Toggled(old(selected), id)
    {
      selected := Toggled(selected, id);
    }

    /** Every selected todo item becomes done and gets a saved entry; the
        selection is cleared. */
    method BulkMarkComplete(now: int)
      modifies this`items, this`saved, this`selected
      ensures items == BulkDone(old(items), old(selected))
      ensures saved == BulkSaved(old(saved), old(items), old(selected), now)
      ensures selected == {}
    {
      var i := 0;
      var next: seq<ListItem> := [];
      while i < |items|
        invariant 0 <= i <= |items|
        invariant items == old(items) && selected == old(selected)
        invariant next == BulkDone(items[..i], selected)
        invariant saved == BulkSaved(old(saved), items[..i], selected, now)
      {
        var item := items[i];
        assert items[..i + 1][..i] == items[..i];
        if BulkMarks(item, selected) {
          saved := saved[item.problem.id := EntryFor(Done, now)];
          next := next + [item.(progress := Done)];
        } else {
          next := next + [item];
        }
        i := i + 1;
      }
      assert items[..i] == items;
      items := next;
      selected := {};
    }
  }
}
