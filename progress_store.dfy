/** The progress store behind the dashboard: user profiles, the progress,
    mastery, notes and goals tables, and the operations that write them. A
    failing foreign key (unknown user or problem) is an error result; the
    instant `now` of each call is a parameter. */
module ProgressStore {
  import opened Domain
  import opened Collections
  import opened Tables
  import opened Queries
  import opened Gamification

  /** The foreign-key violations a write can hit. */
  datatype StoreError = UnknownUser | UnknownProblem

  datatype Result<T> = Ok(value: T) | Err(error: StoreError)

  /** The e-mail address given to a user created on first access. */
  function DefaultEmail(u: string): string
  {
    "user-" + u + "@example.com"
  }

  /** A profile as created: Bronze, no experience, no streak. */
  function NewUser(email: string, now: int): (r: User)
    ensures r.email == email && r.updatedAt == now
    ensures r.xp == 0 && r.level == Bronze && NextLevelXp(r.level) == 1000
    ensures r.currentStreak == 0 && r.currentStreak <= r.longestStreak
  {
    User(email, 0, 0, Bronze, 0, now)
  }

  /** `updateUserXP` on one profile: experience grows by `gain` and the level
      is promoted against the new total; the streak is not touched. */
  function AddXp(user: User, gain: int): (r: User)
    ensures r.xp == user.xp + gain
    ensures Rank(user.level) <= Rank(r.level) <= Rank(user.level) + 1
    ensures r.currentStreak == user.currentStreak && r.longestStreak == user.longestStreak
    ensures r.email == user.email && r.updatedAt == user.updatedAt
  {
    user.(xp := user.xp + gain, level := Promote(user.level, user.xp + gain))
  }

  /** The streak fields of a profile as a `Streak`. */
  function StreakOf(user: User): Streak
  {
    Streak(user.currentStreak, user.longestStreak)
  }

  function WithStreak(user: User, s: Streak): User
  {
    user.(currentStreak := s.current, longestStreak := s.longest)
  }

  /** A streak update against a solve of the same day leaves the profile
      as it was. */
  lemma SameDayKeepsUser(user: User, day: int)
    ensures WithStreak(user, ApplyStreak(StreakOf(user), day, day)) == user
  {
  }

  // ------------------------------------------------ experience finding

  /** Experience granted by a toggle as written: 10 for every call with
      `solved = true`. */
  function ToggleXpGain(solved: bool): (g: int)
    ensures solved <==> g == SolveXp
    ensures !solved ==> g == 0
  {
    if solved then SolveXp else 0
  }

  /** As written, re-marking an already solved problem as solved grants
      another 10 points although the number of solved problems stays the
      same. */
  lemma ResolveGrantsXpWithoutNewSolve(rows: seq<ProgressRow>, u: string, p: string, now: int)
    requires UniqueProgress(rows)
    requires ProgressOf(rows, u, p).Some? && ProgressOf(rows, u, p).value.solved
    ensures SolvedCount(UpsertProgress(rows, u, p, true, now), u) == SolvedCount(rows, u)
    ensures ToggleXpGain(true) == SolveXp > 0
  {
    ToggleSolvedCount(rows, u, p, true, now);
  }

  /** The experience a toggle evidently should grant: 10 only when the
      problem was not solved before. */
  function IntendedXpGain(rows: seq<ProgressRow>, u: string, p: string, solved: bool): (g: int)
    ensures g == 0 || g == SolveXp
  {
    var before := ProgressOf(rows, u, p);
    if solved && !(before.Some? && before.value.solved) then SolveXp else 0
  }

  /** With the intended rule, experience is granted exactly when the number of
      solved problems grows, and then it grows by one. */
  lemma IntendedXpTracksSolves(rows: seq<ProgressRow>, u: string, p: string, solved: bool, now: int)
    requires UniqueProgress(rows)
    ensures var after := SolvedCount(UpsertProgress(rows, u, p, solved, now), u);
      (IntendedXpGain(rows, u, p, solved) == SolveXp <==> after == SolvedCount(rows, u) + 1)
      && after <= SolvedCount(rows, u) + 1
  {
    ToggleSolvedCount(rows, u, p, solved, now);
  }

  // ----------------------------------------------------- streak finding

  /** The streak update evidently intended for a solve at `now`: measured
      against the latest solve before this one (a first solve starts a
      streak of 1). */
  function IntendedStreak(rows: seq<ProgressRow>, u: string, s: Streak, now: int): (r: Streak)
    ensures s.current <= s.longest ==> r.current <= r.longest
    ensures r.longest >= s.longest
  {
    var last := LatestSolvedAt(rows, u);
    if last.None? then Streak(1, if s.longest >= 1 then s.longest else 1)
    else ApplyStreak(s, DayOf(last.value), DayOf(now))
  }

  /** Solving today after a solve yesterday moves the intended streak up by
      one, where the update as written leaves it unchanged. */
  lemma {:induction false} StreakDiscrepancy(rows: seq<ProgressRow>, u: string, p: string, s: Streak, now: int)
    requires UniqueProgress(rows) && SolvesNotAfter(rows, now)
    requires LatestSolvedAt(rows, u).Some? && DayOf(LatestSolvedAt(rows, u).value) == DayOf(now) - 1
    ensures IntendedStreak(rows, u, s, now).current == s.current + 1
    ensures ApplyStreak(s, DayOf(LatestSolvedAt(UpsertProgress(rows, u, p, true, now), u).value), DayOf(now)) == s
  {
    StreakUpdateAfterToggleIsNoop(rows, u, p, now, s);
  }

  /** The intended update follows the calendar: unchanged after a solve
      earlier the same day, one more after a solve the day before, and 1
      after a longer gap. */
  lemma IntendedStreakFollowsCalendar(rows: seq<ProgressRow>, u: string, s: Streak, now: int)
    requires LatestSolvedAt(rows, u).Some?
    ensures var last := DayOf(LatestSolvedAt(rows, u).value);
      (last == DayOf(now) ==> IntendedStreak(rows, u, s, now) == s)
      && (last == DayOf(now) - 1 ==> IntendedStreak(rows, u, s, now).current == s.current + 1)
      && (last != DayOf(now) && last != DayOf(now) - 1 ==> IntendedStreak(rows, u, s, now).current == 1)
  {
  }

  /** The mastery table after a toggle of `p`: the recount of the problem's
      pattern is upserted when the problem has a non-empty pattern. */
  function MasteryAfterToggle(mastery: seq<MasteryRow>, progress: seq<ProgressRow>, problems: seq<Problem>,
                              u: string, p: string): (r: seq<MasteryRow>)
    requires UniqueMastery(mastery)
    ensures UniqueMastery(r)
  {
    var pat := PatternOfProblem(problems, p);
    if pat.Some? && pat.value != "" then UpsertMastery(mastery, Recount(progress, problems, u, pat.value))
    else mastery
  }

  /** For a problem with a non-empty pattern the table holds the recount of
      that pattern once and keeps every other row; otherwise it is unchanged. */
  lemma MasteryAfterToggleSpec(mastery: seq<MasteryRow>, progress: seq<ProgressRow>, problems: seq<Problem>,
                               u: string, p: string)
    requires UniqueMastery(mastery)
    ensures var r, pat := MasteryAfterToggle(mastery, progress, problems, u, p), PatternOfProblem(problems, p);
      pat.Some? && pat.value != "" ==>
        var k := FindKey(r, MasteryKey, (u, pat.value));
        k >= 0 && r[k] == Recount(progress, problems, u, pat.value)
        && forall j :: 0 <= j < |r| && j != k ==> r[j] in mastery
    ensures var r, pat := MasteryAfterToggle(mastery, progress, problems, u, p), PatternOfProblem(problems, p);
      !(pat.Some? && pat.value != "") ==> r == mastery
  {
  }

  /** Unique keys, foreign keys, no solve instant after `clock`, and no
      current streak above the longest one. */
  ghost predicate Consistent(users: map<string, User>, problems: seq<Problem>, progress: seq<ProgressRow>,
                             mastery: seq<MasteryRow>, notes: seq<NoteRow>, clock: int)
  {
    UniqueIds(problems) && UniqueProgress(progress) && UniqueMastery(mastery) && UniqueNotes(notes)
    && ProgressInCatalog(progress, problems)
    && (forall i :: 0 <= i < |progress| ==> progress[i].userId in users)
    && (forall i :: 0 <= i < |notes| ==> notes[i].userId in users && InCatalog(problems, notes[i].problemId))
    && SolvesNotAfter(progress, clock)
    && (forall u :: u in users ==> users[u].currentStreak <= users[u].longestStreak)
  }

  /** In consistent tables every progress row is the one the lookup by its
      own (user, problem) key returns. */
  lemma ConsistentRowsFound(users: map<string, User>, problems: seq<Problem>, progress: seq<ProgressRow>,
                            mastery: seq<MasteryRow>, notes: seq<NoteRow>, clock: int)
    requires Consistent(users, problems, progress, mastery, notes, clock)
    ensures forall i :: 0 <= i < |progress| ==>
      ProgressOf(progress, progress[i].userId, progress[i].problemId) == Some(progress[i])
  {
  }

  /** Replacing or adding a profile whose streak is ordered keeps the tables
      consistent. */
  lemma UserWriteKeepsConsistent(users: map<string, User>, problems: seq<Problem>, progress: seq<ProgressRow>,
                                 mastery: seq<MasteryRow>, notes: seq<NoteRow>, clock: int, u: string, user: User)
    requires Consistent(users, problems, progress, mastery, notes, clock)
    requires user.currentStreak <= user.longestStreak
    ensures Consistent(users[u := user], problems, progress, mastery, notes, clock)
  {
  }

  /** The writes of a toggle keep the tables consistent, with the clock
      moved to `now`. */
  lemma ToggleKeepsConsistent(users: map<string, User>, problems: seq<Problem>, progress: seq<ProgressRow>,
                              mastery: seq<MasteryRow>, notes: seq<NoteRow>, clock: int,
                              u: string, p: string, solved: bool, now: int)
    requires Consistent(users, problems, progress, mastery, notes, clock)
    requires clock <= now && u in users && InCatalog(problems, p)
    ensures var r := UpsertProgress(progress, u, p, solved, now);
      Consistent(users, problems, r, MasteryAfterToggle(mastery, r, problems, u, p), notes, now)
  {
    var r := UpsertProgress(progress, u, p, solved, now);
    var k := FindKey(r, ProgressKey, (u, p));
    forall i | 0 <= i < |r|
      ensures InCatalog(problems, r[i].problemId) && r[i].userId in users
      ensures r[i].solvedAt.Some? ==> r[i].solvedAt.value <= now
    {
      if i != k {
        assert r[i] == progress[i];
      } else {
        assert ProgressKey(r[i]) == (u, p);
      }
    }
  }

  /** A saved note keeps the tables consistent. */
  lemma NoteWriteKeepsConsistent(users: map<string, User>, problems: seq<Problem>, progress: seq<ProgressRow>,
                                 mastery: seq<MasteryRow>, notes: seq<NoteRow>, clock: int,
                                 u: string, p: string, t: NoteType, content: string, now: int)
    requires Consistent(users, problems, progress, mastery, notes, clock)
    requires u in users && InCatalog(problems, p)
    ensures Consistent(users, problems, progress, mastery, UpsertNote(notes, u, p, t, content, now), clock)
  {
    var r := UpsertNote(notes, u, p, t, content, now);
    var k := FindKey(r, NoteKey, (u, p, t));
    forall i | 0 <= i < |r| ensures r[i].userId in users && InCatalog(problems, r[i].problemId) {
      if i != k {
        assert r[i] == notes[i];
      } else {
        assert NoteKey(r[i]) == (u, p, t);
      }
    }
  }

  /** Distinct months sorted chronologically are strictly increasing. */
  lemma StrictlyIncreasingMonths(s: seq<MonthKey>)
    requires Distinct(s) && SortedBy(s, MonthOrder)
    requires forall j :: 0 <= j < |s| ==> 1 <= s[j].month <= 12
    ensures forall i, j :: 0 <= i < j < |s| ==> MonthIndex(s[i]) < MonthIndex(s[j])
  {
    forall i, j | 0 <= i < j < |s| ensures MonthIndex(s[i]) < MonthIndex(s[j]) {
      assert MonthOrder(s[i]) <= MonthOrder(s[j]);
    }
  }

  /** The last `n` elements of a sequence (all of it when shorter). */
  function Window<T>(s: seq<T>, n: nat): (w: seq<T>)
    ensures |w| <= n && |w| <= |s|
    ensures forall i :: 0 <= i < |w| ==> w[i] == s[|s| - |w| + i]
  {
    if |s| <= n then s else s[|s| - n..]
  }

  /** The window of a sequence strictly increasing under `f` is strictly
      increasing, and anything left out lies before the first one kept. */
  lemma {:induction false} WindowFacts<T>(s: seq<T>, n: nat, f: T -> int)
    requires n > 0
    requires forall i, j :: 0 <= i < j < |s| ==> f(s[i]) < f(s[j])
    ensures var w := Window(s, n);
      (forall i, j :: 0 <= i < j < |w| ==> f(w[i]) < f(w[j]))
      && (forall m :: m in s && m !in w ==> |w| == n && f(m) < f(w[0]))
  {
    var w := Window(s, n);
    assert |s| <= n ==> w == s;
    assert forall t :: |s| - |w| <= t < |s| ==> s[t] == w[t - (|s| - |w|)];
    forall m | m in s && m !in w ensures |w| == n && f(m) < f(w[0]) {
      var k :| 0 <= k < |s| && s[k] == m;
    }
  }

  /** One more solve of difficulty `d` in a month's bucket. */
  function Bump(t: MonthTrend, d: Difficulty): MonthTrend
  {
    match d
    case Easy => t.(easy := t.easy + 1)
    case Medium => t.(medium := t.medium + 1)
    case Hard => t.(hard := t.hard + 1)
  }

  /** The bucket of month `k` after scanning `rows`. */
  function TrendOf(rows: seq<ProgressRow>, problems: seq<Problem>, u: string, now: int, k: MonthKey): MonthTrend
  {
    MonthTrend(k, TrendCount(rows, problems, u, now, k, Easy), TrendCount(rows, problems, u, now, k, Medium),
               TrendCount(rows, problems, u, now, k, Hard))
  }

  /** A scanned row moves the bucket of its own month only. */
  lemma TrendOfSnoc(rows: seq<ProgressRow>, problems: seq<Problem>, u: string, now: int, row: ProgressRow, k: MonthKey)
    ensures TrendOf(rows + [row], problems, u, now, k)
      == if SolvedInMonth(row, u, now, k) then Bump(TrendOf(rows, problems, u, now, k), TrendDifficulty(problems, row.problemId))
         else TrendOf(rows, problems, u, now, k)
    ensures MonthCount(rows + [row], u, now, k) == MonthCount(rows, u, now, k) + (if SolvedInMonth(row, u, now, k) then 1 else 0)
  {
    TrendSnoc(rows, problems, u, now, row, k, Easy);
    TrendSnoc(rows, problems, u, now, row, k, Medium);
    TrendSnoc(rows, problems, u, now, row, k, Hard);
  }

  /** The months with a solve of `u` in `rows`, once each, in first-seen order. */
  ghost predicate MonthsSeen(keys: seq<MonthKey>, rows: seq<ProgressRow>, u: string, now: int)
  {
    Distinct(keys)
    && (forall j :: 0 <= j < |keys| ==> 1 <= keys[j].month <= 12)
    && (forall k :: k in keys <==> MonthCount(rows, u, now, k) > 0)
  }

  /** One bucket per seen month, holding that month's counts. */
  ghost predicate BucketsMatch(keys: seq<MonthKey>, buckets: map<MonthKey, MonthTrend>, rows: seq<ProgressRow>,
                               problems: seq<Problem>, u: string, now: int)
  {
    (forall k :: k in buckets <==> k in keys)
    && (forall k :: k in buckets ==> buckets[k] == TrendOf(rows, problems, u, now, k))
  }

  /** The month of a scanned solve is the only one whose count moves. */
  lemma MonthCountSnoc(rows: seq<ProgressRow>, u: string, now: int, row: ProgressRow)
    ensures forall k :: (MonthCount(rows + [row], u, now, k)
      == MonthCount(rows, u, now, k) + (if SolvedInMonth(row, u, now, k) then 1 else 0))
    ensures forall k :: SolvedInMonth(row, u, now, k) <==> SolvedBy(row, u) && k == MonthOf(EffectiveDate(row, now))
  {
    forall k ensures MonthCount(rows + [row], u, now, k)
      == MonthCount(rows, u, now, k) + (if SolvedInMonth(row, u, now, k) then 1 else 0)
    {
      TrendOfSnoc(rows, problems := [], u := u, now := now, row := row, k := k);
    }
  }

  /** Scanning one more row keeps the seen months in step with the counts. */
  lemma SeenStep(keys: seq<MonthKey>, rows: seq<ProgressRow>, u: string, now: int, row: ProgressRow,
                 keys2: seq<MonthKey>)
    requires MonthsSeen(keys, rows, u, now)
    requires !SolvedBy(row, u) ==> keys2 == keys
    requires SolvedBy(row, u) ==>
      var m := MonthOf(EffectiveDate(row, now));
      keys2 == (if m in keys then keys else keys + [m])
    ensures MonthsSeen(keys2, rows + [row], u, now)
  {
    MonthCountSnoc(rows, u, now, row);
    if SolvedBy(row, u) {
      var m := MonthOf(EffectiveDate(row, now));
      if m !in keys {
        DistinctSnoc(keys, m);
        assert forall j :: 0 <= j < |keys2| ==> keys2[j] == m || keys2[j] == keys[j];
      }
      assert forall k :: k in keys2 <==> k in keys || k == m;
    }
  }

  /** Scanning one more row keeps the buckets in step with the counts. */
  lemma MatchStep(keys: seq<MonthKey>, buckets: map<MonthKey, MonthTrend>, rows: seq<ProgressRow>,
                  problems: seq<Problem>, u: string, now: int, row: ProgressRow,
                  keys2: seq<MonthKey>, buckets2: map<MonthKey, MonthTrend>)
    requires forall k :: k in keys <==> MonthCount(rows, u, now, k) > 0
    requires BucketsMatch(keys, buckets, rows, problems, u, now)
    requires forall k :: k in keys2 <==> MonthCount(rows + [row], u, now, k) > 0
    requires !SolvedBy(row, u) ==> buckets2 == buckets
    requires SolvedBy(row, u) ==>
      var m := MonthOf(EffectiveDate(row, now));
      buckets2 == buckets[m := Bump(if m in buckets then buckets[m] else MonthTrend(m, 0, 0, 0),
                                    TrendDifficulty(problems, row.problemId))]
    ensures BucketsMatch(keys2, buckets2, rows + [row], problems, u, now)
  {
    MonthCountSnoc(rows, u, now, row);
    forall k | k in buckets2 ensures buckets2[k] == TrendOf(rows + [row], problems, u, now, k) {
      TrendOfSnoc(rows, problems, u, now, row, k);
      if k !in buckets {
        TrendCountsCover(rows, problems, u, now, k);
      }
    }
  }

  /** Scanning one more row keeps the keys and the buckets in step with the
      counts. */
  lemma BucketsStep(keys: seq<MonthKey>, buckets: map<MonthKey, MonthTrend>, rows: seq<ProgressRow>,
                    problems: seq<Problem>, u: string, now: int, row: ProgressRow,
                    keys2: seq<MonthKey>, buckets2: map<MonthKey, MonthTrend>)
    requires MonthsSeen(keys, rows, u, now) && BucketsMatch(keys, buckets, rows, problems, u, now)
    requires !SolvedBy(row, u) ==> keys2 == keys && buckets2 == buckets
    requires SolvedBy(row, u) ==>
      var m := MonthOf(EffectiveDate(row, now));
      keys2 == (if m in buckets then keys else keys + [m])
      && buckets2 == buckets[m := Bump(if m in buckets then buckets[m] else MonthTrend(m, 0, 0, 0),
                                       TrendDifficulty(problems, row.problemId))]
    ensures MonthsSeen(keys2, rows + [row], u, now) && BucketsMatch(keys2, buckets2, rows + [row], problems, u, now)
  {
    SeenStep(keys, rows, u, now, row, keys2);
    MatchStep(keys, buckets, rows, problems, u, now, row, keys2, buckets2);
  }

  /** The seven weekday buckets agree with the rows scanned so far. */
  ghost predicate WeekMatches(r: seq<DayActivity>, rows: seq<ProgressRow>, u: string, from: int, now: int)
  {
    |r| == 7
    && (forall d :: 0 <= d < 7 ==> r[d].day == DayNames[d] && r[d].problems == ActivityOn(rows, u, from, now, d))
    && TotalProblems(r) == WindowCount(rows, u, from, now)
  }

  /** One row of the weekly scan: a solve of `u` in the window counts on
      its weekday. */
  method AddToWeekday(r: seq<DayActivity>, rows: seq<ProgressRow>, u: string, from: int, now: int, row: ProgressRow)
    returns (r2: seq<DayActivity>)
    requires WeekMatches(r, rows, u, from, now)
    ensures WeekMatches(r2, rows + [row], u, from, now)
  {
    WeekdayBucketsCover(rows, u, from, now, row);
    r2 := r;
    if InWindow(row, u, from, now) {
      var d := WeekdayOf(EffectiveDate(row, now));
      TotalProblemsIncrement(r, d);
      r2 := r[d := r[d].(problems := r[d].problems + 1)];
    }
  }

  /** One row of the trend scan: a solve of `u` opens its month's bucket
      when it is the first one seen and counts in it. */
  method AddToMonth(keys: seq<MonthKey>, buckets: map<MonthKey, MonthTrend>, rows: seq<ProgressRow>,
                    problems: seq<Problem>, u: string, now: int, row: ProgressRow)
    returns (keys2: seq<MonthKey>, buckets2: map<MonthKey, MonthTrend>)
    requires MonthsSeen(keys, rows, u, now) && BucketsMatch(keys, buckets, rows, problems, u, now)
    ensures MonthsSeen(keys2, rows + [row], u, now) && BucketsMatch(keys2, buckets2, rows + [row], problems, u, now)
  {
    keys2, buckets2 := keys, buckets;
    if SolvedBy(row, u) {
      var m := MonthOf(EffectiveDate(row, now));
      var bucket := if m in buckets then buckets[m] else MonthTrend(m, 0, 0, 0);
      keys2 := if m in buckets then keys else keys + [m];
      buckets2 := buckets[m := Bump(bucket, TrendDifficulty(problems, row.problemId))];
    }
    BucketsStep(keys, buckets, rows, problems, u, now, row, keys2, buckets2);
  }

  /** The chronologically last six keys, oldest first. */
  function KeptKeys(keys: seq<MonthKey>): (r: seq<MonthKey>)
    ensures |r| <= TrendMonths
    ensures forall j :: 0 <= j < |r| ==> r[j] in keys
  {
    var sorted := SortBy(keys, MonthOrder);
    assert forall j :: 0 <= j < |sorted| ==> sorted[j] in multiset(keys);
    Window(sorted, TrendMonths)
  }

  /** The buckets of the kept keys. */
  function LastMonths(keys: seq<MonthKey>, buckets: map<MonthKey, MonthTrend>): (r: seq<MonthTrend>)
    requires forall k :: k in keys ==> k in buckets
    ensures |r| == |KeptKeys(keys)| && forall i :: 0 <= i < |r| ==> r[i] == buckets[KeptKeys(keys)[i]]
  {
    var last := KeptKeys(keys);
    seq(|last|, j requires 0 <= j < |last| => buckets[last[j]])
  }

  /** The months of a trend report. */
  function Months(r: seq<MonthTrend>): (ks: seq<MonthKey>)
    ensures |ks| == |r| && forall i :: 0 <= i < |r| ==> ks[i] == r[i].month
  {
    if r == [] then [] else [r[0].month] + Months(r[1..])
  }

  /** The keys in chronological order are strictly increasing, and hold
      every key. */
  lemma SortedKeys(keys: seq<MonthKey>, sorted: seq<MonthKey>)
    requires Distinct(keys) && forall j :: 0 <= j < |keys| ==> 1 <= keys[j].month <= 12
    requires sorted == SortBy(keys, MonthOrder)
    ensures forall i, j :: 0 <= i < j < |sorted| ==> MonthIndex(sorted[i]) < MonthIndex(sorted[j])
    ensures forall k :: k in keys ==> k in sorted
  {
    PermutationPreservesDistinct(keys, sorted);
    forall j | 0 <= j < |sorted| ensures 1 <= sorted[j].month <= 12 {
      assert sorted[j] in multiset(keys);
    }
    StrictlyIncreasingMonths(sorted);
    forall k | k in keys ensures k in sorted {
      assert k in multiset(sorted);
    }
  }

  /** The kept keys are strictly increasing, and a key left out lies before
      all of them. */
  lemma KeptKeysOrder(keys: seq<MonthKey>)
    requires Distinct(keys) && forall j :: 0 <= j < |keys| ==> 1 <= keys[j].month <= 12
    ensures var last := KeptKeys(keys);
      (forall i, j :: 0 <= i < j < |last| ==> MonthIndex(last[i]) < MonthIndex(last[j]))
      && (forall m :: m in keys && m !in last ==> |last| == TrendMonths && MonthIndex(m) < MonthIndex(last[0]))
  {
    var sorted := SortBy(keys, MonthOrder);
    SortedKeys(keys, sorted);
    WindowFacts(sorted, TrendMonths, MonthIndex);
  }

  /** The six chronologically last months of the buckets answer the report. */
  lemma TrendWindow(keys: seq<MonthKey>, buckets: map<MonthKey, MonthTrend>, rows: seq<ProgressRow>,
                    problems: seq<Problem>, u: string, now: int, r: seq<MonthTrend>)
    requires MonthsSeen(keys, rows, u, now) && BucketsMatch(keys, buckets, rows, problems, u, now)
    requires r == LastMonths(keys, buckets)
    ensures |r| <= TrendMonths
    ensures forall i :: 0 <= i < |r| ==>
      MonthCount(rows, u, now, r[i].month) > 0
      && r[i].easy == TrendCount(rows, problems, u, now, r[i].month, Easy)
      && r[i].medium == TrendCount(rows, problems, u, now, r[i].month, Medium)
      && r[i].hard == TrendCount(rows, problems, u, now, r[i].month, Hard)
    ensures forall i, j :: 0 <= i < j < |r| ==> MonthIndex(r[i].month) < MonthIndex(r[j].month)
    ensures forall m :: MonthCount(rows, u, now, m) > 0 && m !in Months(r) ==>
      |r| == TrendMonths && MonthIndex(m) < MonthIndex(r[0].month)
  {
    TrendWindowCounts(keys, buckets, rows, problems, u, now, r);
    TrendWindowOrder(keys, buckets, rows, problems, u, now, r);
  }

  /** The report's months are the kept keys. */
  lemma TrendMonthsAreKept(keys: seq<MonthKey>, buckets: map<MonthKey, MonthTrend>, rows: seq<ProgressRow>,
                           problems: seq<Problem>, u: string, now: int, r: seq<MonthTrend>)
    requires BucketsMatch(keys, buckets, rows, problems, u, now)
    requires r == LastMonths(keys, buckets)
    ensures Months(r) == KeptKeys(keys)
  {
    var last := KeptKeys(keys);
    forall i | 0 <= i < |r| ensures Months(r)[i] == last[i] {
      assert r[i] == buckets[last[i]];
    }
  }

  /** Each reported month has solves, and its counts are that month's. */
  lemma TrendWindowCounts(keys: seq<MonthKey>, buckets: map<MonthKey, MonthTrend>, rows: seq<ProgressRow>,
                          problems: seq<Problem>, u: string, now: int, r: seq<MonthTrend>)
    requires MonthsSeen(keys, rows, u, now) && BucketsMatch(keys, buckets, rows, problems, u, now)
    requires r == LastMonths(keys, buckets)
    ensures |r| <= TrendMonths
    ensures forall i :: 0 <= i < |r| ==>
      MonthCount(rows, u, now, r[i].month) > 0
      && r[i].easy == TrendCount(rows, problems, u, now, r[i].month, Easy)
      && r[i].medium == TrendCount(rows, problems, u, now, r[i].month, Medium)
      && r[i].hard == TrendCount(rows, problems, u, now, r[i].month, Hard)
  {
    var last := KeptKeys(keys);
    forall i | 0 <= i < |r| ensures MonthCount(rows, u, now, r[i].month) > 0 && r[i] == TrendOf(rows, problems, u, now, r[i].month) {
      assert last[i] in keys;
      assert r[i] == buckets[last[i]];
    }
  }

  /** The reported months are in chronological order, and a month with
      solves that is left out comes before all of them, in a full report. */
  lemma TrendWindowOrder(keys: seq<MonthKey>, buckets: map<MonthKey, MonthTrend>, rows: seq<ProgressRow>,
                         problems: seq<Problem>, u: string, now: int, r: seq<MonthTrend>)
    requires MonthsSeen(keys, rows, u, now) && BucketsMatch(keys, buckets, rows, problems, u, now)
    requires r == LastMonths(keys, buckets)
    ensures forall i, j :: 0 <= i < j < |r| ==> MonthIndex(r[i].month) < MonthIndex(r[j].month)
    ensures forall m :: MonthCount(rows, u, now, m) > 0 && m !in Months(r) ==>
      |r| == TrendMonths && MonthIndex(m) < MonthIndex(r[0].month)
  {
    TrendMonthsAreKept(keys, buckets, rows, problems, u, now, r);
    KeptKeysOrder(keys);
  }

  class Store {
    var users: map<string, User>
    var problems: seq<Problem>
    var progress: seq<ProgressRow>
    var mastery: seq<MasteryRow>
    var notes: seq<NoteRow>
    var goals: seq<GoalRow>
    var sessions: seq<StudySession>
    /** The latest instant any call has written at. */
    ghost var clock: int

    ghost predicate Valid()
      reads this
    {
      Consistent(users, problems, progress, mastery, notes, clock)
    }

    /** A store over a seeded catalog, with no users and no rows. */
    constructor (catalog: seq<Problem>, start: int)
      requires UniqueIds(catalog)
      ensures Valid()
      ensures problems == catalog && users == map[] && progress == [] && mastery == []
      ensures notes == [] && goals == [] && sessions == [] && clock == start
    {
      users, problems, progress, mastery := map[], catalog, [], [];
      notes, goals, sessions := [], [], [];
      clock := start;
    }

    /** `createOrUpdateUser`: an existing profile gets the new e-mail and
        update instant; a missing one is created with the defaults. */
    method CreateOrUpdateUser(u: string, email: string, now: int)
      requires Valid()
      modifies this
      ensures Valid()
      ensures users == old(users)[u := if u in old(users) then old(users)[u].(email := email, updatedAt := now)
                                       else NewUser(email, now)]
      ensures problems == old(problems) && progress == old(progress) && mastery == old(mastery)
      ensures notes == old(notes) && goals == old(goals) && sessions == old(sessions) && clock == old(clock)
    {
      if u in users {
        UserWriteKeepsConsistent(users, problems, progress, mastery, notes, clock, u, users[u].(email := email, updatedAt := now));
        users := users[u := users[u].(email := email, updatedAt := now)];
      } else {
        UserWriteKeepsConsistent(users, problems, progress, mastery, notes, clock, u, NewUser(email, now));
        users := users[u := NewUser(email, now)];
      }
    }

    /** The "look the profile up, create it if missing" prologue of the read
        operations. */
    method EnsureUser(u: string, now: int)
      requires Valid()
      modifies this
      ensures Valid() && u in users
      ensures users == if u in old(users) then old(users) else old(users)[u := NewUser(DefaultEmail(u), now)]
      ensures problems == old(problems) && progress == old(progress) && mastery == old(mastery)
      ensures notes == old(notes) && goals == old(goals) && sessions == old(sessions) && clock == old(clock)
    {
      if u !in users {
        CreateOrUpdateUser(u, DefaultEmail(u), now);
      }
    }

    /** `updateUserXP`: a missing profile is left alone. */
    method UpdateUserXp(u: string, gain: int)
      requires Valid()
      modifies this
      ensures Valid()
      ensures users == if u in old(users) then old(users)[u := AddXp(old(users)[u], gain)] else old(users)
      ensures problems == old(problems) && progress == old(progress) && mastery == old(mastery)
      ensures notes == old(notes) && goals == old(goals) && sessions == old(sessions) && clock == old(clock)
    {
      if u in users {
        UserWriteKeepsConsistent(users, problems, progress, mastery, notes, clock, u, AddXp(users[u], gain));
        users := users[u := AddXp(users[u], gain)];
      }
    }

    /** `updateUserStreak`: compares the calendar day of the user's latest
        dated solve with today; nothing happens without a profile or a dated
        solve. */
    method UpdateUserStreak(u: string, now: int)
      requires Valid()
      modifies this
      ensures Valid()
      ensures users == if u in old(users) && LatestSolvedAt(progress, u).Some?
                       then old(users)[u := WithStreak(old(users)[u],
                              ApplyStreak(StreakOf(old(users)[u]), DayOf(LatestSolvedAt(progress, u).value), DayOf(now)))]
                       else old(users)
      ensures problems == old(problems) && progress == old(progress) && mastery == old(mastery)
      ensures notes == old(notes) && goals == old(goals) && sessions == old(sessions) && clock == old(clock)
    {
      if u !in users {
        return;
      }
      var last := LatestSolvedAt(progress, u);
      if last.None? {
        return;
      }
      var next := NextStreak(StreakOf(users[u]), DayOf(last.value), DayOf(now));
      if next.None? {
        assert WithStreak(users[u], StreakOf(users[u])) == users[u];
        return;
      }
      assert ApplyStreak(StreakOf(users[u]), DayOf(last.value), DayOf(now)) == next.value;
      UserWriteKeepsConsistent(users, problems, progress, mastery, notes, clock, u, WithStreak(users[u], next.value));
      users := users[u := WithStreak(users[u], next.value)];
    }

    /** `toggleProblemProgress` as written: upsert the progress row, recount
        the mastery row of the problem's pattern, and on a solve grant 10
        points and run the streak update, which then finds the row it has
        just written. */
    method ToggleProblemProgress(u: string, p: string, solved: bool, now: int) returns (res: Result<ProgressRow>)
      requires Valid() && clock <= now
      modifies this
      ensures Valid()
      ensures u !in old(users) ==> res == Err(UnknownUser)
      ensures u in old(users) && !InCatalog(problems, p) ==> res == Err(UnknownProblem)
      ensures res.Err? ==> users == old(users) && progress == old(progress) && mastery == old(mastery) && clock == old(clock)
      ensures res.Ok? ==>
        progress == UpsertProgress(old(progress), u, p, solved, now)
        && res.value == progress[FindKey(progress, ProgressKey, (u, p))]
        && mastery == MasteryAfterToggle(old(mastery), progress, problems, u, p)
        && users == (if solved then old(users)[u := AddXp(old(users)[u], ToggleXpGain(solved))] else old(users))
        && clock == now
      ensures problems == old(problems) && notes == old(notes) && goals == old(goals) && sessions == old(sessions)
    {
      if u !in users {
        return Err(UnknownUser);
      }
      if !InCatalog(problems, p) {
        return Err(UnknownProblem);
      }
      ghost var before := progress;
      var row := WriteProgress(u, p, solved, now);
      res := Ok(row);
      if solved {
        GrantSolve(u, p, now, before);
      }
    }

    /** The rewards of a solve as the toggle grants them: 10 points, then
        the streak update, which finds the solve just written and so leaves
        the streak as it was. */
    method GrantSolve(u: string, p: string, now: int, ghost before: seq<ProgressRow>)
      requires Valid() && u in users
      requires UniqueProgress(before) && SolvesNotAfter(before, now)
      requires progress == UpsertProgress(before, u, p, true, now)
      modifies this
      ensures Valid()
      ensures users == old(users)[u := AddXp(old(users)[u], SolveXp)]
      ensures problems == old(problems) && progress == old(progress) && mastery == old(mastery)
      ensures notes == old(notes) && goals == old(goals) && sessions == old(sessions) && clock == old(clock)
    {
      UpdateUserXp(u, SolveXp);
      ghost var afterXp := users;
      StreakUpdateAfterToggleIsNoop(before, u, p, now, StreakOf(users[u]));
      SameDayKeepsUser(users[u], DayOf(now));
      UpdateUserStreak(u, now);
      assert users == afterXp;
    }

    /** The toggle with both findings corrected: experience only for a
        problem not solved before, and the streak measured against the
        latest solve before this call. */
    method ToggleProblemProgressIntended(u: string, p: string, solved: bool, now: int) returns (res: Result<ProgressRow>)
      requires Valid() && clock <= now
      modifies this
      ensures Valid()
      ensures u !in old(users) ==> res == Err(UnknownUser)
      ensures u in old(users) && !InCatalog(problems, p) ==> res == Err(UnknownProblem)
      ensures res.Err? ==> users == old(users) && progress == old(progress) && mastery == old(mastery) && clock == old(clock)
      ensures res.Ok? ==>
        progress == UpsertProgress(old(progress), u, p, solved, now)
        && res.value == progress[FindKey(progress, ProgressKey, (u, p))]
        && mastery == MasteryAfterToggle(old(mastery), progress, problems, u, p)
        && users == (if solved
                     then old(users)[u := WithStreak(AddXp(old(users)[u], IntendedXpGain(old(progress), u, p, solved)),
                                                     IntendedStreak(old(progress), u, StreakOf(old(users)[u]), now))]
                     else old(users))
        && clock == now
      ensures problems == old(problems) && notes == old(notes) && goals == old(goals) && sessions == old(sessions)
    {
      if u !in users {
        return Err(UnknownUser);
      }
      if !InCatalog(problems, p) {
        return Err(UnknownProblem);
      }
      var gain := IntendedXpGain(progress, u, p, solved);
      var streak := IntendedStreak(progress, u, StreakOf(users[u]), now);
      ghost var before := progress;
      var row := WriteProgress(u, p, solved, now);
      res := Ok(row);
      if solved {
        UserWriteKeepsConsistent(users, problems, progress, mastery, notes, clock, u, WithStreak(AddXp(users[u], gain), streak));
        users := users[u := WithStreak(AddXp(users[u], gain), streak)];
      }
    }

    /** The writes shared by both toggles: the progress upsert and the
        mastery recount of the problem's pattern, if it has a non-empty one. */
    method WriteProgress(u: string, p: string, solved: bool, now: int) returns (row: ProgressRow)
      requires Valid() && clock <= now && u in users && InCatalog(problems, p)
      modifies this
      ensures Valid()
      ensures progress == UpsertProgress(old(progress), u, p, solved, now)
      ensures row == progress[FindKey(progress, ProgressKey, (u, p))]
      ensures mastery == MasteryAfterToggle(old(mastery), progress, problems, u, p)
      ensures clock == now
      ensures users == old(users) && problems == old(problems) && notes == old(notes) && goals == old(goals)
      ensures sessions == old(sessions)
    {
      ToggleKeepsConsistent(users, problems, progress, mastery, notes, clock, u, p, solved, now);
      var r := UpsertProgress(progress, u, p, solved, now);
      var m := MasteryAfterToggle(mastery, r, problems, u, p);
      var k := FindKey(r, ProgressKey, (u, p));
      progress, mastery, clock := r, m, now;
      row := r[k];
    }

    /** `saveNote`: the (user, problem, type) note is created or its content
        replaced. */
    method SaveNote(u: string, p: string, content: string, t: NoteType, now: int) returns (res: Result<NoteRow>)
      requires Valid()
      modifies this
      ensures Valid()
      ensures u !in users ==> res == Err(UnknownUser)
      ensures u in users && !InCatalog(problems, p) ==> res == Err(UnknownProblem)
      ensures res.Err? ==> notes == old(notes)
      ensures res.Ok? ==> notes == UpsertNote(old(notes), u, p, t, content, now) && res.value.content == content
      ensures res.Ok? ==> NoteContent(notes, u, p, t) == content
      ensures users == old(users) && problems == old(problems) && progress == old(progress) && mastery == old(mastery)
      ensures goals == old(goals) && sessions == old(sessions) && clock == old(clock)
    {
      if u !in users {
        return Err(UnknownUser);
      }
      if !InCatalog(problems, p) {
        return Err(UnknownProblem);
      }
      NoteWriteKeepsConsistent(users, problems, progress, mastery, notes, clock, u, p, t, content, now);
      SavedNoteReadsBack(notes, u, p, t, content, now);
      notes := UpsertNote(notes, u, p, t, content, now);
      res := Ok(notes[FindKey(notes, NoteKey, (u, p, t))]);
    }

    /** `getNotes`: the three texts of (u, p), starting empty and overwritten
        by each matching note row in table order. */
    method GetNotes(u: string, p: string) returns (v: NotesView)
      ensures v.general == NoteContent(notes, u, p, General)
      ensures v.mistakes == NoteContent(notes, u, p, Mistakes)
      ensures v.insights == NoteContent(notes, u, p, Insights)
    {
      v := NotesView("", "", "");
      var i := 0;
      while i < |notes|
        invariant 0 <= i <= |notes|
        invariant v == NotesFor(notes[..i], u, p)
      {
        var n := notes[i];
        if n.userId == u && n.problemId == p {
          match n.noteType
          case General => v := v.(general := n.content);
          case Mistakes => v := v.(mistakes := n.content);
          case Insights => v := v.(insights := n.content);
        }
        assert notes[..i + 1][..i] == notes[..i];
        i := i + 1;
      }
      assert notes[..|notes|] == notes;
    }

    /** `getUserProgress`: after making sure the profile exists, the solved
        flag of every problem the user has a row for. */
    method GetUserProgress(u: string, now: int) returns (m: map<string, bool>)
      requires Valid()
      modifies this
      ensures Valid() && u in users
      ensures users == if u in old(users) then old(users) else old(users)[u := NewUser(DefaultEmail(u), now)]
      ensures forall p :: p in m <==> ProgressOf(progress, u, p).Some?
      ensures forall p :: p in m ==> m[p] == ProgressOf(progress, u, p).value.solved
      ensures problems == old(problems) && progress == old(progress) && mastery == old(mastery)
      ensures notes == old(notes) && goals == old(goals) && sessions == old(sessions) && clock == old(clock)
    {
      EnsureUser(u, now);
      m := ProgressMap(progress, u);
      ProgressMapAgrees(progress, u);
    }

    /** `getUserGoals`: after making sure the profile exists, the user's
        active goals, newest first. */
    method GetUserGoals(u: string, now: int) returns (r: seq<Goal>)
      requires Valid()
      modifies this
      ensures Valid() && u in users
      ensures users == if u in old(users) then old(users) else old(users)[u := NewUser(DefaultEmail(u), now)]
      ensures forall i :: 0 <= i < |r| ==> r[i].active && GoalRow(u, r[i]) in goals
      ensures forall i :: 0 <= i < |goals| && goals[i].userId == u && goals[i].goal.active ==> goals[i].goal in r
      ensures forall i, j :: 0 <= i < j < |r| ==> r[i].createdAt >= r[j].createdAt
      ensures multiset(r) == multiset(GoalsOf(Filter(ActiveGoalSel(u), goals)))
      ensures problems == old(problems) && progress == old(progress) && mastery == old(mastery)
      ensures notes == old(notes) && goals == old(goals) && sessions == old(sessions) && clock == old(clock)
    {
      EnsureUser(u, now);
      r := ActiveGoalsOf(goals, u);
    }

    /** `getProblemsWithProgress`: an empty catalog answers [] before the
        profile is looked at; otherwise the profile is ensured and the
        filtered listing returned. */
    method GetProblemsWithProgress(u: string, f: ProblemFilters, now: int) returns (r: seq<ProblemView>)
      requires Valid()
      modifies this
      ensures Valid()
      ensures |problems| == 0 ==> r == [] && users == old(users)
      ensures |problems| > 0 ==>
        (u in users && users == (if u in old(users) then old(users) else old(users)[u := NewUser(DefaultEmail(u), now)]))
      ensures r == ListProblems(problems, progress, u, f)
      ensures problems == old(problems) && progress == old(progress) && mastery == old(mastery)
      ensures notes == old(notes) && goals == old(goals) && sessions == old(sessions) && clock == old(clock)
    {
      if |problems| == 0 {
        return [];
      }
      EnsureUser(u, now);
      r := ListProblems(problems, progress, u, f);
    }

    /** The statistics of `getUserStats` for an existing profile, counted in
        one pass over the progress table. */
    method ComputeStats(u: string, now: int) returns (s: Stats)
      requires Valid() && u in users
      ensures |problems| == 0 ==>
        s == Stats(0, 0, 0, 0, 0, users[u].currentStreak, users[u].longestStreak, 0, 0,
                   users[u].level, users[u].xp, NextLevelXp(users[u].level))
      ensures |problems| > 0 ==>
        s.totalSolved == SolvedCount(progress, u) && s.totalProblems == |problems|
        && s.easyCompleted == SolvedWithDifficulty(progress, problems, u, Easy)
        && s.mediumCompleted == SolvedWithDifficulty(progress, problems, u, Medium)
        && s.hardCompleted == SolvedWithDifficulty(progress, problems, u, Hard)
        && s.studyTimeToday == StudyTimeSince(sessions, u, Midnight(now))
        && s.weeklySolved == SolvedSince(progress, u, WeekStart(now))
        && s.currentStreak == users[u].currentStreak && s.longestStreak == users[u].longestStreak
        && s.level == users[u].level && s.xp == users[u].xp && s.nextLevelXp == NextLevelXp(users[u].level)
      ensures s.easyCompleted + s.mediumCompleted + s.hardCompleted == s.totalSolved <= s.totalProblems
      ensures s.currentStreak <= s.longestStreak
    {
      var user := users[u];
      if |problems| == 0 {
        return Stats(0, 0, 0, 0, 0, user.currentStreak, user.longestStreak, 0, 0,
                     user.level, user.xp, NextLevelXp(user.level));
      }
      var total, easy, medium, hard, weekly := 0, 0, 0, 0, 0;
      var from := WeekStart(now);
      var i := 0;
      while i < |progress|
        invariant 0 <= i <= |progress|
        invariant total == SolvedCount(progress[..i], u)
        invariant easy == SolvedWithDifficulty(progress[..i], problems, u, Easy)
        invariant medium == SolvedWithDifficulty(progress[..i], problems, u, Medium)
        invariant hard == SolvedWithDifficulty(progress[..i], problems, u, Hard)
        invariant weekly == SolvedSince(progress[..i], u, from)
      {
        var row := progress[i];
        PrefixSnoc(progress, i);
        CountSnoc(SolvedSel(u), progress[..i], row);
        CountSnoc(DifficultySel(problems, u, Easy), progress[..i], row);
        CountSnoc(DifficultySel(problems, u, Medium), progress[..i], row);
        CountSnoc(DifficultySel(problems, u, Hard), progress[..i], row);
        CountSnoc(SinceSel(u, from), progress[..i], row);
        if SolvedBy(row, u) {
          total := total + 1;
          var d := DifficultyOf(problems, row.problemId);
          if d == Some(Easy) {
            easy := easy + 1;
          } else if d == Some(Medium) {
            medium := medium + 1;
          } else if d == Some(Hard) {
            hard := hard + 1;
          }
          if row.solvedAt.Some? && row.solvedAt.value >= from {
            weekly := weekly + 1;
          }
        }
        i := i + 1;
      }
      assert progress[..i] == progress;
      DifficultyBreakdown(progress, problems, u);
      SolvedWithinCatalog(progress, problems, u);
      s := Stats(total, |problems|, easy, medium, hard, user.currentStreak, user.longestStreak,
                 StudyTimeSince(sessions, u, Midnight(now)), weekly, user.level, user.xp, NextLevelXp(user.level));
    }

    /** `getUserStats`: ensure the profile, then compute its statistics. */
    method GetUserStats(u: string, now: int) returns (s: Stats)
      requires Valid()
      modifies this
      ensures Valid() && u in users
      ensures users == if u in old(users) then old(users) else old(users)[u := NewUser(DefaultEmail(u), now)]
      ensures |problems| == 0 ==>
        s == Stats(0, 0, 0, 0, 0, users[u].currentStreak, users[u].longestStreak, 0, 0,
                   users[u].level, users[u].xp, NextLevelXp(users[u].level))
      ensures |problems| > 0 ==>
        s.totalSolved == SolvedCount(progress, u) && s.totalProblems == |problems|
        && s.easyCompleted == SolvedWithDifficulty(progress, problems, u, Easy)
        && s.mediumCompleted == SolvedWithDifficulty(progress, problems, u, Medium)
        && s.hardCompleted == SolvedWithDifficulty(progress, problems, u, Hard)
        && s.studyTimeToday == StudyTimeSince(sessions, u, Midnight(now))
        && s.weeklySolved == SolvedSince(progress, u, WeekStart(now))
        && s.currentStreak == users[u].currentStreak && s.longestStreak == users[u].longestStreak
        && s.level == users[u].level && s.xp == users[u].xp && s.nextLevelXp == NextLevelXp(users[u].level)
      ensures s.easyCompleted + s.mediumCompleted + s.hardCompleted == s.totalSolved <= s.totalProblems
      ensures s.currentStreak <= s.longestStreak
      ensures problems == old(problems) && progress == old(progress) && mastery == old(mastery)
      ensures notes == old(notes) && goals == old(goals) && sessions == old(sessions) && clock == old(clock)
    {
      EnsureUser(u, now);
      s := ComputeStats(u, now);
    }

    /** `getWeeklyActivity`: solves of `u` from local midnight seven days ago
        on, bucketed by weekday, Sunday first. */
    method GetWeeklyActivity(u: string, now: int) returns (r: seq<DayActivity>)
      ensures |r| == 7
      ensures forall d :: 0 <= d < 7 ==>
        r[d].day == DayNames[d] && r[d].problems == ActivityOn(progress, u, WeekWindowStart(now), now, d)
      ensures TotalProblems(r) == WindowCount(progress, u, WeekWindowStart(now), now)
    {
      var from := WeekWindowStart(now);
      r := [DayActivity("Sun", 0), DayActivity("Mon", 0), DayActivity("Tue", 0), DayActivity("Wed", 0),
            DayActivity("Thu", 0), DayActivity("Fri", 0), DayActivity("Sat", 0)];
      ZeroTotal(r);
      var i := 0;
      while i < |progress|
        invariant 0 <= i <= |progress|
        invariant WeekMatches(r, progress[..i], u, from, now)
      {
        PrefixSnoc(progress, i);
        r := AddToWeekday(r, progress[..i], u, from, now, progress[i]);
        i := i + 1;
      }
      assert progress[..i] == progress;
    }

    /** `getUserDifficultyTrends`: solves of `u` bucketed by calendar month
        (a solve without an instant falls in the current month), counted by
        difficulty, months in chronological order, the last six kept. */
    method GetUserDifficultyTrends(u: string, now: int) returns (r: seq<MonthTrend>)
      ensures |r| <= TrendMonths
      ensures forall i :: 0 <= i < |r| ==>
        MonthCount(progress, u, now, r[i].month) > 0
        && r[i].easy == TrendCount(progress, problems, u, now, r[i].month, Easy)
        && r[i].medium == TrendCount(progress, problems, u, now, r[i].month, Medium)
        && r[i].hard == TrendCount(progress, problems, u, now, r[i].month, Hard)
      ensures forall i, j :: 0 <= i < j < |r| ==> MonthIndex(r[i].month) < MonthIndex(r[j].month)
      ensures forall m :: MonthCount(progress, u, now, m) > 0 && m !in Months(r) ==>
        |r| == TrendMonths && MonthIndex(m) < MonthIndex(r[0].month)
    {
      var keys: seq<MonthKey> := [];
      var buckets: map<MonthKey, MonthTrend> := map[];
      var i := 0;
      while i < |progress|
        invariant 0 <= i <= |progress|
        invariant MonthsSeen(keys, progress[..i], u, now)
        invariant BucketsMatch(keys, buckets, progress[..i], problems, u, now)
      {
        PrefixSnoc(progress, i);
        keys, buckets := AddToMonth(keys, buckets, progress[..i], problems, u, now, progress[i]);
        i := i + 1;
      }
      assert progress[..i] == progress;
      r := LastMonths(keys, buckets);
      TrendWindow(keys, buckets, progress, problems, u, now, r);
    }
  }
}
