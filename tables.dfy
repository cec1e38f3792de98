/** The tables of the progress store as sequences of rows, with the keyed
    upserts that write them and the recounts derived from them. */
module Tables {
  import opened Domain
  import opened Collections
  import Gamification

  /** Rows created by a toggle take these column defaults. */
  const DefaultTimeSpent: int := 0
  const DefaultAttempts: int := 0

  // ---------------------------------------------------------------- catalog

  function ProblemId(p: Problem): string { p.id }

  /** Problem ids are unique in the catalog. */
  ghost predicate UniqueIds(problems: seq<Problem>)
  {
    DistinctBy(problems, ProblemId)
  }

  /** The catalog entry with id `id`, if any. */
  function FindProblem(problems: seq<Problem>, id: string): (r: Option<Problem>)
    ensures r.Some? ==> r.value in problems && r.value.id == id
    ensures r.None? ==> forall i :: 0 <= i < |problems| ==> problems[i].id != id
  {
    var i := FindKey(problems, ProblemId, id);
    if i >= 0 then Some(problems[i]) else None
  }

  predicate InCatalog(problems: seq<Problem>, id: string)
  {
    FindProblem(problems, id).Some?
  }

  // --------------------------------------------------------------- progress

  function ProgressKey(r: ProgressRow): (string, string) { (r.userId, r.problemId) }

  /** At most one progress row per (user, problem). */
  ghost predicate UniqueProgress(rows: seq<ProgressRow>)
  {
    DistinctBy(rows, ProgressKey)
  }

  /** What a toggle writes into an existing row: the solved flag, the solve
      instant (set iff solved) and the update instant; nothing else. */
  function Retoggle(r: ProgressRow, solved: bool, now: int): ProgressRow
  {
    r.(solved := solved, solvedAt := if solved then Some(now) else None, updatedAt := now)
  }

  /** The upsert of `toggleProblemProgress` on the progress table. */
  function UpsertProgress(rows: seq<ProgressRow>, u: string, p: string, solved: bool, now: int): (r: seq<ProgressRow>)
    requires UniqueProgress(rows)
    ensures UniqueProgress(r)
    ensures FindKey(r, ProgressKey, (u, p)) >= 0
    ensures forall j :: 0 <= j < |r| && j != FindKey(r, ProgressKey, (u, p)) ==> ProgressKey(r[j]) != (u, p)
    ensures var row := r[FindKey(r, ProgressKey, (u, p))];
      row.solved == solved && row.solvedAt == (if solved then Some(now) else None) && row.updatedAt == now
    ensures var i := FindKey(rows, ProgressKey, (u, p));
      i >= 0 ==> (|r| == |rows| && FindKey(r, ProgressKey, (u, p)) == i
        && r[i].attempts == rows[i].attempts && r[i].timeSpent == rows[i].timeSpent
        && forall j :: 0 <= j < |rows| && j != i ==> r[j] == rows[j])
    ensures FindKey(rows, ProgressKey, (u, p)) < 0 ==>
      r == rows + [ProgressRow(u, p, solved, if solved then Some(now) else None, DefaultTimeSpent, DefaultAttempts, now)]
  {
    var created := ProgressRow(u, p, solved, if solved then Some(now) else None, DefaultTimeSpent, DefaultAttempts, now);
    var update := (x: ProgressRow) => Retoggle(x, solved, now);
    UpsertSpec(rows, ProgressKey, (u, p), update, created);
    Upsert(rows, ProgressKey, (u, p), update, created)
  }

  /** The progress row of (u, p), if any. */
  function ProgressOf(rows: seq<ProgressRow>, u: string, p: string): (r: Option<ProgressRow>)
    ensures r.Some? ==> r.value in rows && ProgressKey(r.value) == (u, p)
    ensures r.None? ==> forall i :: 0 <= i < |rows| ==> ProgressKey(rows[i]) != (u, p)
  {
    var i := FindKey(rows, ProgressKey, (u, p));
    if i >= 0 then Some(rows[i]) else None
  }

  /** A solved row of `u` that carries a solve instant. */
  predicate DatedSolve(r: ProgressRow, u: string)
  {
    r.userId == u && r.solved && r.solvedAt.Some?
  }

  /** The most recent solve instant of `u` (`findFirst` ordered by
      `solvedAt` descending). */
  function LatestSolvedAt(rows: seq<ProgressRow>, u: string): (r: Option<int>)
    ensures r.None? <==> forall i :: 0 <= i < |rows| ==> !DatedSolve(rows[i], u)
    ensures r.Some? ==> exists i :: 0 <= i < |rows| && DatedSolve(rows[i], u) && rows[i].solvedAt.value == r.value
    ensures r.Some? ==> forall i :: 0 <= i < |rows| && DatedSolve(rows[i], u) ==> rows[i].solvedAt.value <= r.value
  {
    if rows == [] then None
    else
      var last := rows[|rows| - 1];
      var init := rows[..|rows| - 1];
      var rest := LatestSolvedAt(init, u);
      assert forall i :: 0 <= i < |init| ==> init[i] == rows[i];
      if !DatedSolve(last, u) then rest
      else if rest.Some? && rest.value >= last.solvedAt.value then rest
      else Some(last.solvedAt.value)
  }

  /** Every recorded solve instant is at most `t`. */
  ghost predicate SolvesNotAfter(rows: seq<ProgressRow>, t: int)
  {
    forall i :: 0 <= i < |rows| && rows[i].solvedAt.Some? ==> rows[i].solvedAt.value <= t
  }

  /** As written, the streak update runs after the toggle stored
      `solvedAt = now`, so the latest solve it reads is `now` itself and it
      always takes the "already solved today" exit: the streak never moves. */
  lemma {:induction false} StreakUpdateAfterToggleIsNoop(rows: seq<ProgressRow>, u: string, p: string, now: int, s: Gamification.Streak)
    requires UniqueProgress(rows)
    requires SolvesNotAfter(rows, now)
    ensures LatestSolvedAt(UpsertProgress(rows, u, p, true, now), u) == Some(now)
    ensures Gamification.NextStreak(s, DayOf(now), DayOf(now)).None?
  {
    var r := UpsertProgress(rows, u, p, true, now);
    var k := FindKey(r, ProgressKey, (u, p));
    assert DatedSolve(r[k], u) && r[k].solvedAt.value == now;
    var latest := LatestSolvedAt(r, u);
    assert latest.Some? && latest.value >= now;
    forall i | 0 <= i < |r| && DatedSolve(r[i], u) && i != k ensures r[i].solvedAt.value <= now {
      assert r[i] == rows[i];
    }
  }

  // ---------------------------------------------------------------- mastery

  function MasteryKey(m: MasteryRow): (string, string) { (m.userId, m.pattern) }

  ghost predicate UniqueMastery(rows: seq<MasteryRow>)
  {
    DistinctBy(rows, MasteryKey)
  }

  /** The pattern of a catalog problem, as the relation filter sees it. */
  function PatternOfProblem(problems: seq<Problem>, id: string): Option<string>
  {
    var p := FindProblem(problems, id);
    if p.Some? then p.value.pattern else None
  }

  /** Solved rows of `u` whose problem belongs to `pattern`. */
  function SolvedInPattern(rows: seq<ProgressRow>, problems: seq<Problem>, u: string, pattern: string): (n: nat)
    ensures n <= |rows|
    ensures n == 0 <==> forall i :: 0 <= i < |rows| ==>
      !(rows[i].userId == u && rows[i].solved && PatternOfProblem(problems, rows[i].problemId) == Some(pattern))
  {
    CountZero((r: ProgressRow) => r.userId == u && r.solved && PatternOfProblem(problems, r.problemId) == Some(pattern), rows);
    Count((r: ProgressRow) => r.userId == u && r.solved && PatternOfProblem(problems, r.problemId) == Some(pattern), rows)
  }

  /** Catalog problems of `pattern`. */
  function TotalInPattern(problems: seq<Problem>, pattern: string): (n: nat)
    ensures n <= |problems|
    ensures n == 0 <==> forall i :: 0 <= i < |problems| ==> problems[i].pattern != Some(pattern)
  {
    CountZero((p: Problem) => p.pattern == Some(pattern), problems);
    Count((p: Problem) => p.pattern == Some(pattern), problems)
  }

  /** No row joins to a pattern the catalog has no problem of. */
  lemma EmptyPatternUnsolved(rows: seq<ProgressRow>, problems: seq<Problem>, u: string, pattern: string)
    ensures TotalInPattern(problems, pattern) == 0 ==> SolvedInPattern(rows, problems, u, pattern) == 0
  {
    if TotalInPattern(problems, pattern) == 0 {
      forall i | 0 <= i < |rows|
        ensures PatternOfProblem(problems, rows[i].problemId) != Some(pattern)
      {
        var q := FindProblem(problems, rows[i].problemId);
        if q.Some? {
          var j :| 0 <= j < |problems| && problems[j] == q.value;
        }
      }
    }
  }

  /** `solved / total * 100`, or 0 for an empty pattern. */
  function MasteryPercentage(solved: nat, total: nat): (pct: real)
    ensures total == 0 ==> pct == 0.0
    ensures total > 0 ==> pct * total as real == 100.0 * solved as real
    ensures solved <= total ==> 0.0 <= pct <= 100.0
  {
    if total > 0 then solved as real / total as real * 100.0 else 0.0
  }

  /** The mastery row recomputed from a full recount. */
  function Recount(rows: seq<ProgressRow>, problems: seq<Problem>, u: string, pattern: string): (m: MasteryRow)
    ensures MasteryKey(m) == (u, pattern)
    ensures m.totalProblems == 0 ==> m.problemsSolved == 0 && m.masteryPercentage == 0.0
  {
    EmptyPatternUnsolved(rows, problems, u, pattern);
    var solved := SolvedInPattern(rows, problems, u, pattern);
    var total := TotalInPattern(problems, pattern);
    MasteryRow(u, pattern, solved, total, MasteryPercentage(solved, total))
  }

  /** The upsert of the mastery row of (u, pattern) with a fresh recount. */
  function UpsertMastery(mastery: seq<MasteryRow>, m: MasteryRow): (r: seq<MasteryRow>)
    requires UniqueMastery(mastery)
    ensures UniqueMastery(r)
    ensures FindKey(r, MasteryKey, MasteryKey(m)) >= 0 && r[FindKey(r, MasteryKey, MasteryKey(m))] == m
    ensures forall j :: 0 <= j < |r| && j != FindKey(r, MasteryKey, MasteryKey(m)) ==> r[j] in mastery && MasteryKey(r[j]) != MasteryKey(m)
    ensures forall j :: 0 <= j < |mastery| && MasteryKey(mastery[j]) != MasteryKey(m) ==> mastery[j] in r
  {
    var update := (x: MasteryRow) => m;
    UpsertSpec(mastery, MasteryKey, MasteryKey(m), update, m);
    var r := Upsert(mastery, MasteryKey, MasteryKey(m), update, m);
    var i := FindKey(mastery, MasteryKey, MasteryKey(m));
    assert forall j :: 0 <= j < |mastery| && MasteryKey(mastery[j]) != MasteryKey(m) ==> r[j] == mastery[j];
    r
  }

  /** Every progress row points at a catalog problem (the foreign key). */
  ghost predicate ProgressInCatalog(rows: seq<ProgressRow>, problems: seq<Problem>)
  {
    forall i :: 0 <= i < |rows| ==> InCatalog(problems, rows[i].problemId)
  }

  /** Rows of one user that each point at a distinct catalog problem
      satisfying `inCat` are no more numerous than those problems. */
  lemma {:induction false} RowsFitCatalog(rows: seq<ProgressRow>, problems: seq<Problem>, u: string,
                                          sel: ProgressRow -> bool, inCat: Problem -> bool)
    requires UniqueProgress(rows) && UniqueIds(problems)
    requires forall i :: 0 <= i < |rows| && sel(rows[i]) ==> rows[i].userId == u
    requires forall i :: 0 <= i < |rows| && sel(rows[i]) ==>
      FindProblem(problems, rows[i].problemId).Some? && inCat(FindProblem(problems, rows[i].problemId).value)
    ensures Count(sel, rows) <= Count(inCat, problems)
  {
    var fr := Filter(sel, rows);
    var fp := Filter(inCat, problems);
    SelectedRowsDistinct(rows, u, sel, fr);
    FilterPreservesDistinct(inCat, problems, ProblemId);
    DistinctKeySetSize(fr, RowProblemId);
    DistinctKeySetSize(fp, ProblemId);
    SelectedKeysInCatalog(rows, problems, sel, inCat, fr, fp);
    SubsetSize(KeySet(fr, RowProblemId), KeySet(fp, ProblemId));
  }

  function RowProblemId(r: ProgressRow): string { r.problemId }

  /** The selected rows, all of one user, name distinct problems. */
  lemma SelectedRowsDistinct(rows: seq<ProgressRow>, u: string, sel: ProgressRow -> bool, fr: seq<ProgressRow>)
    requires UniqueProgress(rows)
    requires forall i :: 0 <= i < |rows| && sel(rows[i]) ==> rows[i].userId == u
    requires fr == Filter(sel, rows)
    ensures DistinctBy(fr, RowProblemId)
  {
    FilterPreservesDistinct(sel, rows, ProgressKey);
    forall i, j | 0 <= i < j < |fr| ensures RowProblemId(fr[i]) != RowProblemId(fr[j]) {
      assert ProgressKey(fr[i]) != ProgressKey(fr[j]);
      var a :| 0 <= a < |rows| && rows[a] == fr[i];
      var b :| 0 <= b < |rows| && rows[b] == fr[j];
    }
  }

  /** The problems the selected rows name are catalog problems passing `inCat`. */
  lemma SelectedKeysInCatalog(rows: seq<ProgressRow>, problems: seq<Problem>, sel: ProgressRow -> bool,
                              inCat: Problem -> bool, fr: seq<ProgressRow>, fp: seq<Problem>)
    requires forall i :: 0 <= i < |rows| && sel(rows[i]) ==>
      FindProblem(problems, rows[i].problemId).Some? && inCat(FindProblem(problems, rows[i].problemId).value)
    requires fr == Filter(sel, rows) && fp == Filter(inCat, problems)
    ensures KeySet(fr, RowProblemId) <= KeySet(fp, ProblemId)
  {
    forall k | k in KeySet(fr, RowProblemId) ensures k in KeySet(fp, ProblemId) {
      var i :| 0 <= i < |fr| && RowProblemId(fr[i]) == k;
      var a :| 0 <= a < |rows| && rows[a] == fr[i];
      assert sel(rows[a]) && rows[a].problemId == k;
      var prob := FindProblem(problems, k).value;
      var b :| 0 <= b < |problems| && problems[b] == prob;
      assert inCat(problems[b]);
      var j :| 0 <= j < |fp| && fp[j] == prob;
      assert ProblemId(fp[j]) == k;
    }
  }

  /** A user cannot have solved more problems of a pattern than the pattern
      holds, so the stored percentage stays within [0, 100]. */
  lemma MasteryBounded(rows: seq<ProgressRow>, problems: seq<Problem>, u: string, pattern: string)
    requires UniqueProgress(rows) && UniqueIds(problems) && ProgressInCatalog(rows, problems)
    ensures SolvedInPattern(rows, problems, u, pattern) <= TotalInPattern(problems, pattern)
    ensures var m := Recount(rows, problems, u, pattern);
      0.0 <= m.masteryPercentage <= 100.0
  {
    var sel := (r: ProgressRow) => r.userId == u && r.solved && PatternOfProblem(problems, r.problemId) == Some(pattern);
    RowsFitCatalog(rows, problems, u, sel, (p: Problem) => p.pattern == Some(pattern));
  }

  // ------------------------------------------------------------------ notes

  function NoteKey(n: NoteRow): (string, string, NoteType) { (n.userId, n.problemId, n.noteType) }

  ghost predicate UniqueNotes(rows: seq<NoteRow>)
  {
    DistinctBy(rows, NoteKey)
  }

  /** The upsert of `saveNote`: the note of (u, p, type) holds `content`
      afterwards; every other note is kept. */
  function UpsertNote(rows: seq<NoteRow>, u: string, p: string, t: NoteType, content: string, now: int): (r: seq<NoteRow>)
    requires UniqueNotes(rows)
    ensures UniqueNotes(r)
    ensures FindKey(r, NoteKey, (u, p, t)) >= 0
    ensures r[FindKey(r, NoteKey, (u, p, t))].content == content
    ensures r[FindKey(r, NoteKey, (u, p, t))].updatedAt == now
    ensures forall j :: 0 <= j < |r| && j != FindKey(r, NoteKey, (u, p, t)) ==> r[j] in rows && NoteKey(r[j]) != (u, p, t)
    ensures forall j :: 0 <= j < |rows| && NoteKey(rows[j]) != (u, p, t) ==> rows[j] in r
  {
    var created := NoteRow(u, p, t, content, now);
    var update := (x: NoteRow) => x.(content := content, updatedAt := now);
    UpsertSpec(rows, NoteKey, (u, p, t), update, created);
    var r := Upsert(rows, NoteKey, (u, p, t), update, created);
    assert forall j :: 0 <= j < |rows| && NoteKey(rows[j]) != (u, p, t) ==> r[j] == rows[j];
    r
  }

  /** The three note texts of a problem as `getNotes` returns them. */
  datatype NotesView = NotesView(general: string, mistakes: string, insights: string)

  /** Content of the note of (u, p, t): the last matching row wins, and a
      missing note reads as the empty string. */
  function NoteContent(rows: seq<NoteRow>, u: string, p: string, t: NoteType): (c: string)
    ensures (forall i :: 0 <= i < |rows| ==> NoteKey(rows[i]) != (u, p, t)) ==> c == ""
    ensures (exists i :: 0 <= i < |rows| && NoteKey(rows[i]) == (u, p, t)) ==>
      exists i :: 0 <= i < |rows| && NoteKey(rows[i]) == (u, p, t) && rows[i].content == c
  {
    if rows == [] then ""
    else
      var last := rows[|rows| - 1];
      var init := rows[..|rows| - 1];
      assert forall i :: 0 <= i < |init| ==> init[i] == rows[i];
      if NoteKey(last) == (u, p, t) then last.content else NoteContent(init, u, p, t)
  }

  function NotesFor(rows: seq<NoteRow>, u: string, p: string): NotesView
  {
    NotesView(NoteContent(rows, u, p, General), NoteContent(rows, u, p, Mistakes), NoteContent(rows, u, p, Insights))
  }

  /** Reading back a saved note gives the saved text. */
  lemma SavedNoteReadsBack(rows: seq<NoteRow>, u: string, p: string, t: NoteType, content: string, now: int)
    requires UniqueNotes(rows)
    ensures NoteContent(UpsertNote(rows, u, p, t, content, now), u, p, t) == content
  {
    var r := UpsertNote(rows, u, p, t, content, now);
    var k := FindKey(r, NoteKey, (u, p, t));
    assert NoteKey(r[k]) == (u, p, t);
  }

  // ------------------------------------------------------------------ goals

  function GoalCreatedAt(g: Goal): real { -(g.createdAt as real) }

  /** The `where` of `getUserGoals`: the user's active goal rows. */
  function ActiveGoalSel(u: string): GoalRow -> bool
  {
    (g: GoalRow) => g.userId == u && g.goal.active
  }

  function GoalsOf(rows: seq<GoalRow>): (r: seq<Goal>)
    ensures |r| == |rows| && forall i :: 0 <= i < |rows| ==> r[i] == rows[i].goal
  {
    if rows == [] then [] else [rows[0].goal] + GoalsOf(rows[1..])
  }

  /** Active goals of `u`, newest first (`orderBy createdAt desc`). */
  function ActiveGoalsOf(rows: seq<GoalRow>, u: string): (r: seq<Goal>)
    ensures forall i :: 0 <= i < |r| ==> r[i].active && GoalRow(u, r[i]) in rows
    ensures forall i :: 0 <= i < |rows| && rows[i].userId == u && rows[i].goal.active ==> rows[i].goal in r
    ensures forall i, j :: 0 <= i < j < |r| ==> r[i].createdAt >= r[j].createdAt
    ensures multiset(r) == multiset(GoalsOf(Filter(ActiveGoalSel(u), rows)))
  {
    var mine := Filter(ActiveGoalSel(u), rows);
    var r := SortBy(GoalsOf(mine), GoalCreatedAt);
    ActiveGoalsMembership(rows, u, mine, r);
    r
  }

  lemma ActiveGoalsMembership(rows: seq<GoalRow>, u: string, mine: seq<GoalRow>, r: seq<Goal>)
    requires mine == Filter(ActiveGoalSel(u), rows)
    requires multiset(r) == multiset(GoalsOf(mine))
    ensures forall i :: 0 <= i < |r| ==> r[i].active && GoalRow(u, r[i]) in rows
    ensures forall i :: 0 <= i < |rows| && rows[i].userId == u && rows[i].goal.active ==> rows[i].goal in r
  {
    ListedGoalsAreActive(rows, u, mine, r);
    ActiveGoalsAreListed(rows, u, mine, r);
  }

  /** Every goal on the list is an active goal row of `u`. */
  lemma ListedGoalsAreActive(rows: seq<GoalRow>, u: string, mine: seq<GoalRow>, r: seq<Goal>)
    requires mine == Filter(ActiveGoalSel(u), rows)
    requires multiset(r) == multiset(GoalsOf(mine))
    ensures forall i :: 0 <= i < |r| ==> r[i].active && GoalRow(u, r[i]) in rows
  {
    var goals := GoalsOf(mine);
    forall i | 0 <= i < |r| ensures r[i].active && GoalRow(u, r[i]) in rows {
      assert r[i] in multiset(goals);
      var k :| 0 <= k < |goals| && goals[k] == r[i];
      assert mine[k] in rows && mine[k] == GoalRow(u, r[i]);
    }
  }

  /** Every active goal row of `u` has its goal on the list. */
  lemma ActiveGoalsAreListed(rows: seq<GoalRow>, u: string, mine: seq<GoalRow>, r: seq<Goal>)
    requires mine == Filter(ActiveGoalSel(u), rows)
    requires multiset(r) == multiset(GoalsOf(mine))
    ensures forall i :: 0 <= i < |rows| && rows[i].userId == u && rows[i].goal.active ==> rows[i].goal in r
  {
    var goals := GoalsOf(mine);
    forall i | 0 <= i < |rows| && rows[i].userId == u && rows[i].goal.active ensures rows[i].goal in r {
      assert rows[i] in mine;
      var k :| 0 <= k < |mine| && mine[k] == rows[i];
      assert goals[k] in multiset(goals);
    }
  }

  // -------------------------------------------------------- pattern mastery

  function MasteryDescending(m: MasteryRow): real { -m.masteryPercentage }

  /** Mastery rows of `u`, highest percentage first. */
  function MasteryOf(rows: seq<MasteryRow>, u: string): (r: seq<MasteryRow>)
    ensures multiset(r) == multiset(Filter((m: MasteryRow) => m.userId == u, rows))
    ensures forall i :: 0 <= i < |r| ==> r[i].userId == u && r[i] in rows
    ensures forall i, j :: 0 <= i < j < |r| ==> r[i].masteryPercentage >= r[j].masteryPercentage
  {
    var mine := Filter((m: MasteryRow) => m.userId == u, rows);
    var r := SortBy(mine, MasteryDescending);
    MasteryRowsAreMine(rows, u, mine, r);
    r
  }

  /** Every row of the sorted list is a row of `u` from the table. */
  lemma MasteryRowsAreMine(rows: seq<MasteryRow>, u: string, mine: seq<MasteryRow>, r: seq<MasteryRow>)
    requires mine == Filter((m: MasteryRow) => m.userId == u, rows)
    requires multiset(r) == multiset(mine)
    ensures forall i :: 0 <= i < |r| ==> r[i].userId == u && r[i] in rows
  {
    forall i | 0 <= i < |r| ensures r[i].userId == u && r[i] in rows {
      assert r[i] in multiset(mine);
      var k :| 0 <= k < |mine| && mine[k] == r[i];
    }
  }
}
