/** The read-side definitions of the progress store: the counters behind the
    user statistics, the filtered problem listing, the weekly histogram and
    the monthly difficulty trends. */
module Queries {
  import opened Domain
  import opened Collections
  import opened Tables
  import Text

  // ------------------------------------------------------------ statistics

  predicate SolvedBy(r: ProgressRow, u: string)
  {
    r.userId == u && r.solved
  }

  function SolvedSel(u: string): ProgressRow -> bool
  {
    (r: ProgressRow) => SolvedBy(r, u)
  }

  /** The number of solved rows of `u`: zero exactly when `u` has solved
      nothing. */
  function SolvedCount(rows: seq<ProgressRow>, u: string): (n: nat)
    ensures n <= |rows|
    ensures n == 0 <==> forall i :: 0 <= i < |rows| ==> !SolvedBy(rows[i], u)
  {
    CountZero(SolvedSel(u), rows);
    Count(SolvedSel(u), rows)
  }

  /** The difficulty a progress row joins to, if its problem is in the catalog. */
  function DifficultyOf(problems: seq<Problem>, id: string): Option<Difficulty>
  {
    var p := FindProblem(problems, id);
    if p.Some? then Some(p.value.difficulty) else None
  }

  function DifficultySel(problems: seq<Problem>, u: string, d: Difficulty): ProgressRow -> bool
  {
    (r: ProgressRow) => SolvedBy(r, u) && DifficultyOf(problems, r.problemId) == Some(d)
  }

  /** Solved rows of `u` joined to a problem of difficulty `d`. */
  function SolvedWithDifficulty(rows: seq<ProgressRow>, problems: seq<Problem>, u: string, d: Difficulty): nat
  {
    Count(DifficultySel(problems, u, d), rows)
  }

  /** Solved rows of `u` whose solve instant is at or after `from`. */
  function SinceSel(u: string, from: int): ProgressRow -> bool
  {
    (r: ProgressRow) => SolvedBy(r, u) && r.solvedAt.Some? && r.solvedAt.value >= from
  }

  /** Never more than the solved rows of `u` overall. */
  function SolvedSince(rows: seq<ProgressRow>, u: string, from: int): (n: nat)
    ensures n <= SolvedCount(rows, u)
  {
    CountMonotone(SinceSel(u, from), SolvedSel(u), rows);
    Count(SinceSel(u, from), rows)
  }

  /** Total duration of the sessions of `u` dated at or after `from`. */
  function StudyTimeSince(sessions: seq<StudySession>, u: string, from: int): (t: int)
    ensures (forall i :: 0 <= i < |sessions| ==> sessions[i].duration >= 0) ==> t >= 0
    ensures (forall i :: 0 <= i < |sessions| ==> sessions[i].userId != u || sessions[i].sessionDate < from) ==> t == 0
    decreases |sessions|
  {
    if sessions == [] then 0
    else
      var last := sessions[|sessions| - 1];
      StudyTimeSince(sessions[..|sessions| - 1], u, from)
        + (if last.userId == u && last.sessionDate >= from then last.duration else 0)
  }

  /** Local midnight of the Sunday that starts the week of `now`. */
  function WeekStart(now: int): (w: int)
    ensures w % MsPerDay == 0
    ensures w <= now < w + 7 * MsPerDay
    ensures WeekdayOf(w) == 0
  {
    Midnight(now) - WeekdayOf(now) * MsPerDay
  }

  /** The solved flag per problem of `u`'s rows; a later row for the same
      problem overwrites an earlier one. */
  function ProgressMap(rows: seq<ProgressRow>, u: string): (m: map<string, bool>)
    ensures forall i :: 0 <= i < |rows| && rows[i].userId == u ==> rows[i].problemId in m
    ensures forall p :: p in m ==> exists i :: 0 <= i < |rows| && rows[i].userId == u && rows[i].problemId == p
                                             && rows[i].solved == m[p]
    decreases |rows|
  {
    if rows == [] then map[]
    else
      var last := rows[|rows| - 1];
      var m := ProgressMap(rows[..|rows| - 1], u);
      if last.userId == u then m[last.problemId := last.solved] else m
  }

  /** With one row per (user, problem), the map holds exactly the problems
      `u` has a row for, each with that row's solved flag. */
  lemma {:induction false} ProgressMapAgrees(rows: seq<ProgressRow>, u: string)
    requires UniqueProgress(rows)
    ensures forall p :: p in ProgressMap(rows, u) <==> ProgressOf(rows, u, p).Some?
    ensures forall p :: p in ProgressMap(rows, u) ==> ProgressMap(rows, u)[p] == ProgressOf(rows, u, p).value.solved
    decreases |rows|
  {
    if rows != [] {
      var init := rows[..|rows| - 1];
      var last := rows[|rows| - 1];
      assert UniqueProgress(init) by {
        forall i, j | 0 <= i < j < |init| ensures ProgressKey(init[i]) != ProgressKey(init[j]) {
          assert init[i] == rows[i] && init[j] == rows[j];
        }
      }
      ProgressMapAgrees(init, u);
      forall p ensures ProgressOf(rows, u, p) == (if last.userId == u && last.problemId == p then Some(last) else ProgressOf(init, u, p)) {
        ProgressOfLast(rows, u, p);
      }
    }
  }

  /** The lookup in a table with one row per key, split at its last row. */
  lemma ProgressOfLast(rows: seq<ProgressRow>, u: string, p: string)
    requires UniqueProgress(rows) && rows != []
    ensures var init, last := rows[..|rows| - 1], rows[|rows| - 1];
      ProgressOf(rows, u, p) == (if last.userId == u && last.problemId == p then Some(last) else ProgressOf(init, u, p))
  {
    var init, last := rows[..|rows| - 1], rows[|rows| - 1];
    var i := FindKey(rows, ProgressKey, (u, p));
    var j := FindKey(init, ProgressKey, (u, p));
    if last.userId == u && last.problemId == p {
      assert ProgressKey(last) == (u, p);
      assert forall k :: 0 <= k < |init| ==> init[k] == rows[k] && ProgressKey(rows[k]) != ProgressKey(last);
    } else {
      assert forall k :: 0 <= k < |init| ==> init[k] == rows[k];
      if j >= 0 { assert i == j; } else { assert i < 0; }
    }
  }

  /** The number of problems `u` has solved after a toggle: the old row's
      contribution is replaced by the new flag's. */
  lemma ToggleSolvedCount(rows: seq<ProgressRow>, u: string, p: string, solved: bool, now: int)
    requires UniqueProgress(rows)
    ensures var before := ProgressOf(rows, u, p);
      SolvedCount(UpsertProgress(rows, u, p, solved, now), u) + (if before.Some? && before.value.solved then 1 else 0)
        == SolvedCount(rows, u) + (if solved then 1 else 0)
  {
    var i := FindKey(rows, ProgressKey, (u, p));
    var r := UpsertProgress(rows, u, p, solved, now);
    if i >= 0 {
      assert r == rows[i := Retoggle(rows[i], solved, now)];
      CountUpdate(SolvedSel(u), rows, i, Retoggle(rows[i], solved, now));
    } else {
      CountSnoc(SolvedSel(u), rows, r[|rows|]);
    }
  }

  /** Under the foreign key every solved row joins to exactly one difficulty,
      so the three difficulty counters add up to the solved counter. */
  lemma DifficultyBreakdown(rows: seq<ProgressRow>, problems: seq<Problem>, u: string)
    requires ProgressInCatalog(rows, problems)
    ensures SolvedWithDifficulty(rows, problems, u, Easy) + SolvedWithDifficulty(rows, problems, u, Medium)
            + SolvedWithDifficulty(rows, problems, u, Hard) == SolvedCount(rows, u)
  {
    var p := SolvedSel(u);
    var f := (r: ProgressRow) => DifficultyOf(problems, r.problemId);
    forall i | 0 <= i < |rows|
      ensures f(rows[i]) == Some(Easy) || f(rows[i]) == Some(Medium) || f(rows[i]) == Some(Hard)
    {
      assert InCatalog(problems, rows[i].problemId);
      var d := FindProblem(problems, rows[i].problemId).value.difficulty;
      assert f(rows[i]) == Some(d);
      assert d == Easy || d == Medium || d == Hard;
    }
    CountPartition3(p, f, Some(Easy), Some(Medium), Some(Hard),
                    DifficultySel(problems, u, Easy), DifficultySel(problems, u, Medium),
                    DifficultySel(problems, u, Hard), rows);
  }

  /** A user has solved at most as many problems as the catalog holds. */
  lemma SolvedWithinCatalog(rows: seq<ProgressRow>, problems: seq<Problem>, u: string)
    requires UniqueProgress(rows) && UniqueIds(problems) && ProgressInCatalog(rows, problems)
    ensures SolvedCount(rows, u) <= |problems|
  {
    var all := (p: Problem) => true;
    RowsFitCatalog(rows, problems, u, SolvedSel(u), all);
  }

  // ------------------------------------------------------- problem listing

  /** The optional filters of the listing; the empty string means "not given". */
  datatype ProblemFilters = ProblemFilters(search: string, difficulty: string, pattern: string, status: string)

  /** A catalog problem with the caller's progress row, if any. */
  datatype ProblemView = ProblemView(problem: Problem, progress: Option<ProgressRow>)

  /** What the difficulty filter asks of the query. A value outside the
      enum makes the query fail, and the listing falls back to []. */
  datatype DifficultyCriterion = AnyDifficulty | OnlyDifficulty(d: Difficulty) | UnknownDifficulty

  function DifficultyCriterionOf(s: string): (c: DifficultyCriterion)
    ensures c == AnyDifficulty <==> s == "" || s == "All"
    ensures c == OnlyDifficulty(Easy) <==> s == "Easy"
    ensures c == OnlyDifficulty(Medium) <==> s == "Medium"
    ensures c == OnlyDifficulty(Hard) <==> s == "Hard"
  {
    if s == "" || s == "All" then AnyDifficulty
    else if s == "Easy" then OnlyDifficulty(Easy)
    else if s == "Medium" then OnlyDifficulty(Medium)
    else if s == "Hard" then OnlyDifficulty(Hard)
    else UnknownDifficulty
  }

  /** The `where` clause of the listing: difficulty, pattern and a search term
      matched case-insensitively in the title or exactly among the topics. */
  predicate WhereMatches(p: Problem, f: ProblemFilters)
    ensures (f.search == "" && (f.pattern == "" || f.pattern == "All")
             && !DifficultyCriterionOf(f.difficulty).OnlyDifficulty?) ==> WhereMatches(p, f)
    ensures WhereMatches(p, f) && DifficultyCriterionOf(f.difficulty).OnlyDifficulty? ==>
            p.difficulty == DifficultyCriterionOf(f.difficulty).d
    ensures WhereMatches(p, f) && f.pattern != "" && f.pattern != "All" ==> p.pattern == Some(f.pattern)
  {
    var c := DifficultyCriterionOf(f.difficulty);
    (c.OnlyDifficulty? ==> p.difficulty == c.d)
    && (f.pattern == "" || f.pattern == "All" || p.pattern == Some(f.pattern))
    && (f.search == "" || Text.Contains(Text.ToLower(p.title), Text.ToLower(f.search)) || f.search in p.topics)
  }

  /** The status filter: "Solved" keeps solved rows; any other given value
      keeps problems without a row or with an unsolved one. */
  predicate StatusKeeps(v: ProblemView, status: string)
    ensures status == "Solved" ==> (StatusKeeps(v, status) <==> v.progress.Some? && v.progress.value.solved)
    ensures status != "" && status != "All" && status != "Solved" ==>
            (StatusKeeps(v, status) <==> !(v.progress.Some? && v.progress.value.solved))
  {
    if status == "" || status == "All" then true
    else if v.progress.Some? then v.progress.value.solved == (status == "Solved")
    else status != "Solved"
  }

  const MaxListed: nat := 1000

  function QuestionNo(p: Problem): real { p.questionNo as real }

  function ViewQuestionNo(v: ProblemView): real { v.problem.questionNo as real }

  function WhereSel(f: ProblemFilters): Problem -> bool
  {
    (p: Problem) => WhereMatches(p, f)
  }

  function StatusSel(status: string): ProblemView -> bool
  {
    (v: ProblemView) => StatusKeeps(v, status)
  }

  function AtMostSel(n: int): Problem -> bool
  {
    (p: Problem) => p.questionNo <= n
  }

  /** The problems matching the `where` clause whose question number is at
      most `n`: those the ordered query ranks no later than question `n`. */
  function MatchingUpTo(f: ProblemFilters, n: int): Problem -> bool
  {
    (p: Problem) => WhereMatches(p, f) && p.questionNo <= n
  }

  function Views(ps: seq<Problem>, rows: seq<ProgressRow>, u: string): (r: seq<ProblemView>)
    ensures |r| == |ps|
    ensures forall i :: 0 <= i < |ps| ==> r[i] == ProblemView(ps[i], ProgressOf(rows, u, ps[i].id))
  {
    if ps == [] then [] else [ProblemView(ps[0], ProgressOf(rows, u, ps[0].id))] + Views(ps[1..], rows, u)
  }

  /** `getProblemsWithProgress`: an empty catalog or an unknown difficulty
      yields []; otherwise the problems matching the `where` clause ordered by
      question number, at most 1000 of them, each with the caller's progress,
      then narrowed by the status filter. */
  function ListProblems(problems: seq<Problem>, rows: seq<ProgressRow>, u: string, f: ProblemFilters): (r: seq<ProblemView>)
    ensures |problems| == 0 || DifficultyCriterionOf(f.difficulty).UnknownDifficulty? ==> r == []
    ensures |r| <= MaxListed
    ensures forall i :: 0 <= i < |r| ==>
      r[i].problem in problems && WhereMatches(r[i].problem, f) && StatusKeeps(r[i], f.status)
      && r[i].progress == ProgressOf(rows, u, r[i].problem.id)
    ensures forall i, j :: 0 <= i < j < |r| ==> r[i].problem.questionNo <= r[j].problem.questionNo
    ensures |problems| > 0 && !DifficultyCriterionOf(f.difficulty).UnknownDifficulty?
            && Count(WhereSel(f), problems) <= MaxListed ==>
      forall i :: (0 <= i < |problems| && WhereMatches(problems[i], f)
                   && StatusKeeps(ProblemView(problems[i], ProgressOf(rows, u, problems[i].id)), f.status)) ==>
        ProblemView(problems[i], ProgressOf(rows, u, problems[i].id)) in r
    ensures !DifficultyCriterionOf(f.difficulty).UnknownDifficulty? ==>
      forall i :: (0 <= i < |problems| && WhereMatches(problems[i], f)
                   && StatusKeeps(ProblemView(problems[i], ProgressOf(rows, u, problems[i].id)), f.status)
                   && ProblemView(problems[i], ProgressOf(rows, u, problems[i].id)) !in r) ==>
        Count(MatchingUpTo(f, problems[i].questionNo), problems) > MaxListed
    ensures forall v :: multiset(r)[v] <= multiset(problems)[v.problem]
    ensures |problems| > 0 && !DifficultyCriterionOf(f.difficulty).UnknownDifficulty?
            && Count(WhereSel(f), problems) <= MaxListed ==>
      multiset(r) == multiset(Filter(StatusSel(f.status), Views(Filter(WhereSel(f), problems), rows, u)))
  {
    if |problems| == 0 || DifficultyCriterionOf(f.difficulty).UnknownDifficulty? then []
    else
      var matching := Filter(WhereSel(f), problems);
      var sorted := SortBy(matching, QuestionNo);
      var taken := if |sorted| <= MaxListed then sorted else sorted[..MaxListed];
      var views := Views(taken, rows, u);
      var r := Filter(StatusSel(f.status), views);
      ListProblemsFacts(problems, rows, u, f, matching, sorted, taken, views, r);
      ListedAtMostOnce(problems, rows, u, f, matching, sorted, taken, views, r);
      if |matching| <= MaxListed then
        ListedPermutes(matching, sorted, rows, u, f, views, r);
        r
      else r
  }

  lemma ListProblemsFacts(problems: seq<Problem>, rows: seq<ProgressRow>, u: string, f: ProblemFilters,
                          matching: seq<Problem>, sorted: seq<Problem>, taken: seq<Problem>,
                          views: seq<ProblemView>, r: seq<ProblemView>)
    requires matching == Filter(WhereSel(f), problems)
    requires multiset(sorted) == multiset(matching) && SortedBy(sorted, QuestionNo)
    requires taken == if |sorted| <= MaxListed then sorted else sorted[..MaxListed]
    requires views == Views(taken, rows, u)
    requires r == Filter(StatusSel(f.status), views)
    ensures |r| <= MaxListed
    ensures forall i :: 0 <= i < |r| ==>
      r[i].problem in problems && WhereMatches(r[i].problem, f) && StatusKeeps(r[i], f.status)
      && r[i].progress == ProgressOf(rows, u, r[i].problem.id)
    ensures forall i, j :: 0 <= i < j < |r| ==> r[i].problem.questionNo <= r[j].problem.questionNo
    ensures |matching| <= MaxListed ==>
      forall i :: (0 <= i < |problems| && WhereMatches(problems[i], f)
                   && StatusKeeps(ProblemView(problems[i], ProgressOf(rows, u, problems[i].id)), f.status)) ==>
        ProblemView(problems[i], ProgressOf(rows, u, problems[i].id)) in r
    ensures forall i :: (0 <= i < |problems| && WhereMatches(problems[i], f)
                         && StatusKeeps(ProblemView(problems[i], ProgressOf(rows, u, problems[i].id)), f.status)
                         && ProblemView(problems[i], ProgressOf(rows, u, problems[i].id)) !in r) ==>
        Count(MatchingUpTo(f, problems[i].questionNo), problems) > MaxListed
  {
    ListedMembers(problems, rows, u, f, matching, sorted, taken, views, r);
    ListedSorted(sorted, taken, views, rows, u, f, r);
    if |matching| <= MaxListed {
      ListedComplete(problems, rows, u, f, matching, sorted, taken, views, r);
    }
    forall i | 0 <= i < |problems| && WhereMatches(problems[i], f)
               && StatusKeeps(ProblemView(problems[i], ProgressOf(rows, u, problems[i].id)), f.status)
               && ProblemView(problems[i], ProgressOf(rows, u, problems[i].id)) !in r
      ensures Count(MatchingUpTo(f, problems[i].questionNo), problems) > MaxListed
    {
      ListedBeyondCap(problems, rows, u, f, matching, sorted, taken, views, r, problems[i]);
    }
  }

  /** Above the cap the query keeps the lowest question numbers: a matching
      problem that passes the status filter yet is not listed has more than
      1000 matching problems at or below its question number. */
  lemma ListedBeyondCap(problems: seq<Problem>, rows: seq<ProgressRow>, u: string, f: ProblemFilters,
                        matching: seq<Problem>, sorted: seq<Problem>, taken: seq<Problem>,
                        views: seq<ProblemView>, r: seq<ProblemView>, q: Problem)
    requires matching == Filter(WhereSel(f), problems)
    requires multiset(sorted) == multiset(matching) && SortedBy(sorted, QuestionNo)
    requires taken == if |sorted| <= MaxListed then sorted else sorted[..MaxListed]
    requires views == Views(taken, rows, u)
    requires r == Filter(StatusSel(f.status), views)
    requires q in problems && WhereMatches(q, f)
    requires StatusKeeps(ProblemView(q, ProgressOf(rows, u, q.id)), f.status)
    requires ProblemView(q, ProgressOf(rows, u, q.id)) !in r
    ensures Count(MatchingUpTo(f, q.questionNo), problems) > MaxListed
  {
    NotTaken(taken, views, rows, u, f, r, q);
    assert q in matching by {
      var i :| 0 <= i < |problems| && problems[i] == q;
    }
    assert q in multiset(sorted);
    var k :| 0 <= k < |sorted| && sorted[k] == q;
    assert k >= MaxListed;
    RankedCount(problems, f, matching, sorted, k);
  }

  /** Each problem is listed at most as often as it is in the catalog. */
  lemma ListedAtMostOnce(problems: seq<Problem>, rows: seq<ProgressRow>, u: string, f: ProblemFilters,
                         matching: seq<Problem>, sorted: seq<Problem>, taken: seq<Problem>,
                         views: seq<ProblemView>, r: seq<ProblemView>)
    requires matching == Filter(WhereSel(f), problems)
    requires multiset(sorted) == multiset(matching)
    requires taken == if |sorted| <= MaxListed then sorted else sorted[..MaxListed]
    requires views == Views(taken, rows, u)
    requires r == Filter(StatusSel(f.status), views)
    ensures forall v :: multiset(r)[v] <= multiset(problems)[v.problem]
  {
    TakenWithin(sorted, taken);
    forall v ensures multiset(r)[v] <= multiset(problems)[v.problem] {
      ListedAtMostOnceAt(problems, rows, u, f, matching, taken, views, r, v);
    }
  }

  /** The first 1000 of the ordered matches are among them. */
  lemma TakenWithin(sorted: seq<Problem>, taken: seq<Problem>)
    requires taken == if |sorted| <= MaxListed then sorted else sorted[..MaxListed]
    ensures multiset(taken) <= multiset(sorted)
  {
    if |sorted| > MaxListed {
      assert sorted == taken + sorted[MaxListed..];
    }
  }

  lemma ListedAtMostOnceAt(problems: seq<Problem>, rows: seq<ProgressRow>, u: string, f: ProblemFilters,
                           matching: seq<Problem>, taken: seq<Problem>,
                           views: seq<ProblemView>, r: seq<ProblemView>, v: ProblemView)
    requires matching == Filter(WhereSel(f), problems)
    requires multiset(taken) <= multiset(matching)
    requires views == Views(taken, rows, u)
    requires r == Filter(StatusSel(f.status), views)
    ensures multiset(r)[v] <= multiset(problems)[v.problem]
  {
    FilterOccurrences(StatusSel(f.status), views, v);
    ViewsOccurrences(taken, rows, u, v);
    FilterOccurrences(WhereSel(f), problems, v.problem);
  }

  /** Under the cap the listing is a permutation of the matches that pass
      the status filter, paired with their progress. */
  lemma ListedPermutes(matching: seq<Problem>, sorted: seq<Problem>, rows: seq<ProgressRow>, u: string,
                       f: ProblemFilters, views: seq<ProblemView>, r: seq<ProblemView>)
    requires multiset(sorted) == multiset(matching)
    requires views == Views(sorted, rows, u)
    requires r == Filter(StatusSel(f.status), views)
    ensures multiset(r) == multiset(Filter(StatusSel(f.status), Views(matching, rows, u)))
  {
    forall v ensures multiset(views)[v] == multiset(Views(matching, rows, u))[v] {
      ViewsOccurrences(sorted, rows, u, v);
      ViewsOccurrences(matching, rows, u, v);
    }
    assert multiset(views) == multiset(Views(matching, rows, u));
    FilterPermutes(StatusSel(f.status), views, Views(matching, rows, u));
  }

  /** Pairing with progress keeps each problem's multiplicity, under the
      progress the caller has for it. */
  lemma {:induction false} ViewsOccurrences(ps: seq<Problem>, rows: seq<ProgressRow>, u: string, v: ProblemView)
    ensures multiset(Views(ps, rows, u))[v] ==
      if v.progress == ProgressOf(rows, u, v.problem.id) then multiset(ps)[v.problem] else 0
  {
    if ps != [] {
      var head := ProblemView(ps[0], ProgressOf(rows, u, ps[0].id));
      var tail := Views(ps[1..], rows, u);
      ViewsOccurrences(ps[1..], rows, u, v);
      assert ps == [ps[0]] + ps[1..];
      MultiplicityCons(ps[0], ps[1..], v.problem);
      MultiplicityCons(head, tail, v);
      assert Views(ps, rows, u) == [head] + tail;
    }
  }

  lemma ListedMembers(problems: seq<Problem>, rows: seq<ProgressRow>, u: string, f: ProblemFilters,
                      matching: seq<Problem>, sorted: seq<Problem>, taken: seq<Problem>,
                      views: seq<ProblemView>, r: seq<ProblemView>)
    requires matching == Filter(WhereSel(f), problems)
    requires multiset(sorted) == multiset(matching)
    requires taken == if |sorted| <= MaxListed then sorted else sorted[..MaxListed]
    requires views == Views(taken, rows, u)
    requires r == Filter(StatusSel(f.status), views)
    ensures |r| <= MaxListed
    ensures forall i :: 0 <= i < |r| ==>
      r[i].problem in problems && WhereMatches(r[i].problem, f) && StatusKeeps(r[i], f.status)
      && r[i].progress == ProgressOf(rows, u, r[i].problem.id)
  {
    forall i | 0 <= i < |r|
      ensures r[i].problem in problems && WhereMatches(r[i].problem, f) && r[i].progress == ProgressOf(rows, u, r[i].problem.id)
    {
      var k :| 0 <= k < |views| && views[k] == r[i];
      assert taken[k] in sorted;
      assert taken[k] in multiset(matching);
      assert WhereSel(f)(taken[k]);
    }
    forall i | 0 <= i < |r| ensures StatusKeeps(r[i], f.status) {
      assert StatusSel(f.status)(r[i]);
    }
  }

  lemma ListedSorted(sorted: seq<Problem>, taken: seq<Problem>, views: seq<ProblemView>,
                     rows: seq<ProgressRow>, u: string, f: ProblemFilters, r: seq<ProblemView>)
    requires SortedBy(sorted, QuestionNo)
    requires taken == if |sorted| <= MaxListed then sorted else sorted[..MaxListed]
    requires views == Views(taken, rows, u)
    requires r == Filter(StatusSel(f.status), views)
    ensures forall i, j :: 0 <= i < j < |r| ==> r[i].problem.questionNo <= r[j].problem.questionNo
  {
    assert SortedBy(views, ViewQuestionNo) by {
      forall i, j | 0 <= i < j < |views| ensures ViewQuestionNo(views[i]) <= ViewQuestionNo(views[j]) {
        assert views[i].problem == taken[i] && views[j].problem == taken[j];
        assert taken[i] == sorted[i] && taken[j] == sorted[j];
      }
    }
    FilterPreservesSorted(StatusSel(f.status), views, ViewQuestionNo);
    forall i, j | 0 <= i < j < |r| ensures r[i].problem.questionNo <= r[j].problem.questionNo {
      assert ViewQuestionNo(r[i]) <= ViewQuestionNo(r[j]);
    }
  }

  lemma ListedComplete(problems: seq<Problem>, rows: seq<ProgressRow>, u: string, f: ProblemFilters,
                       matching: seq<Problem>, sorted: seq<Problem>, taken: seq<Problem>,
                       views: seq<ProblemView>, r: seq<ProblemView>)
    requires matching == Filter(WhereSel(f), problems)
    requires multiset(sorted) == multiset(matching)
    requires |matching| <= MaxListed
    requires taken == if |sorted| <= MaxListed then sorted else sorted[..MaxListed]
    requires views == Views(taken, rows, u)
    requires r == Filter(StatusSel(f.status), views)
    ensures forall i :: (0 <= i < |problems| && WhereMatches(problems[i], f)
                  && StatusKeeps(ProblemView(problems[i], ProgressOf(rows, u, problems[i].id)), f.status)) ==>
        ProblemView(problems[i], ProgressOf(rows, u, problems[i].id)) in r
  {
    assert |sorted| == |matching|;
    assert taken == sorted;
    forall i | 0 <= i < |problems| && WhereMatches(problems[i], f)
               && StatusKeeps(ProblemView(problems[i], ProgressOf(rows, u, problems[i].id)), f.status)
      ensures ProblemView(problems[i], ProgressOf(rows, u, problems[i].id)) in r
    {
      assert problems[i] in matching;
      assert problems[i] in multiset(sorted);
      var k :| 0 <= k < |taken| && taken[k] == problems[i];
      assert views[k] == ProblemView(problems[i], ProgressOf(rows, u, problems[i].id));
    }
  }

  /** A problem whose view passes the status filter but is not listed was
      not among the problems taken. */
  lemma NotTaken(taken: seq<Problem>, views: seq<ProblemView>, rows: seq<ProgressRow>, u: string,
                 f: ProblemFilters, r: seq<ProblemView>, q: Problem)
    requires views == Views(taken, rows, u)
    requires r == Filter(StatusSel(f.status), views)
    requires StatusKeeps(ProblemView(q, ProgressOf(rows, u, q.id)), f.status)
    requires ProblemView(q, ProgressOf(rows, u, q.id)) !in r
    ensures q !in taken
  {
  }

  /** The problem at position `k` of the ordered matches has at least
      `k + 1` matching problems at or below its question number. */
  lemma RankedCount(problems: seq<Problem>, f: ProblemFilters, matching: seq<Problem>, sorted: seq<Problem>, k: nat)
    requires matching == Filter(WhereSel(f), problems)
    requires multiset(sorted) == multiset(matching) && SortedBy(sorted, QuestionNo)
    requires k < |sorted|
    ensures Count(MatchingUpTo(f, sorted[k].questionNo), problems) >= k + 1
  {
    var n := sorted[k].questionNo;
    SortedPrefixCount(sorted, k);
    CountPermutation(AtMostSel(n), sorted, matching);
    MatchingUpToCount(problems, f, n);
  }

  /** In a sequence sorted by question number, the first `k + 1` entries are
      at or below the number at position `k`. */
  lemma SortedPrefixCount(sorted: seq<Problem>, k: nat)
    requires SortedBy(sorted, QuestionNo) && k < |sorted|
    ensures Count(AtMostSel(sorted[k].questionNo), sorted) >= k + 1
  {
    var n := sorted[k].questionNo;
    forall j | 0 <= j < k + 1 ensures AtMostSel(n)(sorted[j]) {
      assert QuestionNo(sorted[j]) <= QuestionNo(sorted[k]);
    }
    CountPrefix(AtMostSel(n), sorted, k + 1);
  }

  /** Counting the matches at or below `n` is counting, among the matches,
      those at or below `n`. */
  lemma MatchingUpToCount(problems: seq<Problem>, f: ProblemFilters, n: int)
    ensures Count(MatchingUpTo(f, n), problems) == Count(AtMostSel(n), Filter(WhereSel(f), problems))
  {
    forall x ensures MatchingUpTo(f, n)(x) == (WhereSel(f)(x) && AtMostSel(n)(x)) { }
    FilterFilter(WhereSel(f), AtMostSel(n), MatchingUpTo(f, n), problems);
  }

  // ----------------------------------------------------- weekly histogram

  const DayNames: seq<string> := ["Sun", "Mon", "Tue", "Wed", "Thu", "Fri", "Sat"]

  /** A solve without an instant is dated at the time of the query. */
  function EffectiveDate(r: ProgressRow, now: int): (d: int)
    ensures r.solvedAt.Some? ==> d == r.solvedAt.value
    ensures r.solvedAt.None? ==> d == now
  {
    if r.solvedAt.Some? then r.solvedAt.value else now
  }

  /** Local midnight seven days before `now`. */
  function WeekWindowStart(now: int): (w: int)
    ensures w % MsPerDay == 0
    ensures now - 8 * MsPerDay < w <= now - 7 * MsPerDay
  {
    Midnight(now) - 7 * MsPerDay
  }

  /** A solved row of `u` dated in the window; an undated solve is always in
      a window that has already started. */
  predicate InWindow(r: ProgressRow, u: string, from: int, now: int)
    ensures InWindow(r, u, from, now) ==> SolvedBy(r, u)
    ensures SolvedBy(r, u) && r.solvedAt.None? ==> (InWindow(r, u, from, now) <==> from <= now)
  {
    SolvedBy(r, u) && EffectiveDate(r, now) >= from
  }

  function WindowSel(u: string, from: int, now: int): ProgressRow -> bool
  {
    (r: ProgressRow) => InWindow(r, u, from, now)
  }

  function ActivitySel(u: string, from: int, now: int, d: int): ProgressRow -> bool
  {
    (r: ProgressRow) => InWindow(r, u, from, now) && WeekdayOf(EffectiveDate(r, now)) == d
  }

  /** Solves of `u` in the window falling on weekday `d`. */
  function ActivityOn(rows: seq<ProgressRow>, u: string, from: int, now: int, d: int): nat
  {
    Count(ActivitySel(u, from, now, d), rows)
  }

  function WindowCount(rows: seq<ProgressRow>, u: string, from: int, now: int): nat
  {
    Count(WindowSel(u, from, now), rows)
  }

  function TotalProblems(a: seq<DayActivity>): nat
  {
    if a == [] then 0 else TotalProblems(a[..|a| - 1]) + a[|a| - 1].problems
  }

  lemma {:induction false} ZeroTotal(a: seq<DayActivity>)
    requires forall i :: 0 <= i < |a| ==> a[i].problems == 0
    ensures TotalProblems(a) == 0
    decreases |a|
  {
    if a != [] {
      ZeroTotal(a[..|a| - 1]);
    }
  }

  /** One more problem on one day adds one to the total. */
  lemma {:induction false} TotalProblemsIncrement(a: seq<DayActivity>, d: int)
    requires 0 <= d < |a|
    ensures TotalProblems(a[d := a[d].(problems := a[d].problems + 1)]) == TotalProblems(a) + 1
    decreases |a|
  {
    var b := a[d := a[d].(problems := a[d].problems + 1)];
    assert b[..|b| - 1] == if d == |a| - 1 then a[..|a| - 1]
                           else a[..|a| - 1][d := a[d].(problems := a[d].problems + 1)];
    if d < |a| - 1 {
      TotalProblemsIncrement(a[..|a| - 1], d);
    }
  }

  /** Every solve of `u` in the window falls on exactly one weekday, so the
      histogram buckets add up to the window count. */
  lemma {:induction false} WeekdayBucketsCover(rows: seq<ProgressRow>, u: string, from: int, now: int, r: ProgressRow)
    ensures forall d :: 0 <= d < 7 ==>
      ActivityOn(rows + [r], u, from, now, d)
        == ActivityOn(rows, u, from, now, d) + (if InWindow(r, u, from, now) && WeekdayOf(EffectiveDate(r, now)) == d then 1 else 0)
    ensures WindowCount(rows + [r], u, from, now) == WindowCount(rows, u, from, now) + (if InWindow(r, u, from, now) then 1 else 0)
  {
    forall d | 0 <= d < 7
      ensures ActivityOn(rows + [r], u, from, now, d)
        == ActivityOn(rows, u, from, now, d) + (if InWindow(r, u, from, now) && WeekdayOf(EffectiveDate(r, now)) == d then 1 else 0)
    {
      CountSnoc(ActivitySel(u, from, now, d), rows, r);
    }
    CountSnoc(WindowSel(u, from, now), rows, r);
  }

  // ------------------------------------------------------ difficulty trends

  /** The difficulty a trend counts a solve under: the problem's, or Easy
      when the problem cannot be found. */
  function TrendDifficulty(problems: seq<Problem>, id: string): (d: Difficulty)
    ensures FindProblem(problems, id).Some? ==> d == FindProblem(problems, id).value.difficulty
    ensures (forall i :: 0 <= i < |problems| ==> problems[i].id != id) ==> d == Easy
  {
    var d := DifficultyOf(problems, id);
    if d.Some? then d.value else Easy
  }

  predicate SolvedInMonth(r: ProgressRow, u: string, now: int, m: MonthKey)
  {
    SolvedBy(r, u) && MonthOf(EffectiveDate(r, now)) == m
  }

  function TrendSel(problems: seq<Problem>, u: string, now: int, m: MonthKey, d: Difficulty): ProgressRow -> bool
  {
    (r: ProgressRow) => SolvedInMonth(r, u, now, m) && TrendDifficulty(problems, r.problemId) == d
  }

  function MonthSel(u: string, now: int, m: MonthKey): ProgressRow -> bool
  {
    (r: ProgressRow) => SolvedInMonth(r, u, now, m)
  }

  /** Solves of `u` in month `m` counted under difficulty `d`. */
  function TrendCount(rows: seq<ProgressRow>, problems: seq<Problem>, u: string, now: int, m: MonthKey, d: Difficulty): nat
  {
    Count(TrendSel(problems, u, now, m, d), rows)
  }

  /** Solves of `u` in month `m`. */
  function MonthCount(rows: seq<ProgressRow>, u: string, now: int, m: MonthKey): nat
  {
    Count(MonthSel(u, now, m), rows)
  }

  /** A month counts a solve under exactly one difficulty. */
  lemma {:induction false} TrendCountsCover(rows: seq<ProgressRow>, problems: seq<Problem>, u: string, now: int, m: MonthKey)
    ensures TrendCount(rows, problems, u, now, m, Easy) + TrendCount(rows, problems, u, now, m, Medium)
            + TrendCount(rows, problems, u, now, m, Hard) == MonthCount(rows, u, now, m)
  {
    var f := (r: ProgressRow) => TrendDifficulty(problems, r.problemId);
    forall i | 0 <= i < |rows| ensures f(rows[i]) == Easy || f(rows[i]) == Medium || f(rows[i]) == Hard {
      var d := f(rows[i]);
      assert d == Easy || d == Medium || d == Hard;
    }
    CountPartition3(MonthSel(u, now, m), f, Easy, Medium, Hard,
                    TrendSel(problems, u, now, m, Easy), TrendSel(problems, u, now, m, Medium),
                    TrendSel(problems, u, now, m, Hard), rows);
  }

  /** Extending the scanned rows by one solve moves exactly one counter of
      exactly one month. */
  lemma TrendSnoc(rows: seq<ProgressRow>, problems: seq<Problem>, u: string, now: int, r: ProgressRow, m: MonthKey, d: Difficulty)
    ensures TrendCount(rows + [r], problems, u, now, m, d)
      == TrendCount(rows, problems, u, now, m, d)
         + (if SolvedInMonth(r, u, now, m) && TrendDifficulty(problems, r.problemId) == d then 1 else 0)
    ensures MonthCount(rows + [r], u, now, m) == MonthCount(rows, u, now, m) + (if SolvedInMonth(r, u, now, m) then 1 else 0)
  {
    CountSnoc(TrendSel(problems, u, now, m, d), rows, r);
    CountSnoc(MonthSel(u, now, m), rows, r);
  }

  function MonthOrder(k: MonthKey): real { MonthIndex(k) as real }

  /** The months of the trend report. */
  const TrendMonths: nat := 6
}
