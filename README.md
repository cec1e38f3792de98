# DSA-Pattern progress engine in Dafny

This project models the logic core of DSA-Pattern, a dashboard for practising
data-structure and algorithm problems grouped by pattern. It covers:

- **The progress store** (`src/lib/database.ts`), module `ProgressStore`,
  class `Store`. It holds users, (user, problem) progress rows, (user,
  pattern) mastery rows, notes, goals and study sessions. It provides the
  toggle with its cascade (upsert, mastery recount, +10 XP, streak update),
  XP and level promotion, the streak state machine, the statistics, the
  problem listing, the weekly activity histogram, the monthly difficulty
  trends, notes and goals.
  - The tables are sequences of rows with a unique-key invariant (module `Tables`).
  - The read-side counters are in module `Queries`.
  - The pure rules (next-level XP, promotion, streak step) are in module `Gamification`.
- **The client cache** (`src/lib/hooks/use-user-data.ts`), module `Cache`,
  class `UserDataCache`. It caches four kinds of user data, each with its
  own last-fetch instant, a five-minute time to live and a loading flag.
  The clock and each request's outcome are parameters.
- **The client list state.**
  - The dashboard page (`DashboardPage`, `PatternGroups`): grouping by pattern, the solved set, the fixed pattern order and the counters.
  - The enhanced problems list (`EnhancedList`).
  - The paginated table, grid and compact lists, one class `PagedList.PagedProblemsList` with 10, 12 or 15 items per page.
  - The shared filter chain, selection toggle and optimistic update (`ListState`).
- **The goals page and the statistics cards** (`GoalsManager`, `StatsOverview`).
- **The catalog seed script's splitter, row mapping and batching** (`CsvSeed`).

Supporting modules:

- `Domain`: the records, and calendar arithmetic on millisecond instants.
- `JsNumber`: JavaScript division, with infinities and NaN.
- `Text`: `trim`, `toLowerCase`, `includes` and `split`.
- `Collections`: filter, count, keyed upsert, chunking and insertion sort, with their lemmas.

## Model

| member | source | states |
|---|---|---|
| Domain.Midnight | src/lib/database.ts:146-147 | local midnight of an instant starts its calendar day: it is at or before the instant and less than a day before it |
| Domain.WeekdayOf | src/lib/database.ts:689-695 | the weekday index used to pick the day name is always one of the seven, 0 = Sunday |
| Domain.MonthOf | src/lib/database.ts:456-459 | the (year, month) bucket of an instant has a month between 1 and 12 |
| Domain.MonthIndex | src/lib/database.ts:467-473 | the chronological sort key of a month determines the year and month it came from |
| Gamification.NextLevelXp | src/lib/database.ts:478-489 | Gold shows 5000, Silver 2500, and every other level 1000, each in both directions |
| Gamification.Promote | src/lib/database.ts:500-507 | the level rises by at most one step; it rises exactly when Bronze reaches 1000 or Silver reaches 2500 |
| Gamification.PromotionAtMilestone | src/lib/database.ts:478-483 | for Bronze and Silver the milestone shown is exactly the promotion threshold |
| Gamification.NoPromotionFromGold | src/lib/database.ts:503-507 | Gold and higher levels never change, whatever the experience |
| Gamification.PromoteMonotone | src/lib/database.ts:503-507 | more experience never yields a lower level |
| Gamification.NextStreak | src/lib/database.ts:551-568 | no write when the latest solve is today; +1 after a solve yesterday; 1 after a gap; the longest streak is the maximum of the new and the old one |
| Gamification.ApplyStreak | src/lib/database.ts:551-568 | the stored streak is unchanged after a solve today, one more after yesterday, 1 after a gap; the longest never falls and stays at least the current |
| Gamification.Replay | src/lib/database.ts:551-568 | over any run of solve days the longest streak never falls and stays at least the current |
| Gamification.ConsecutiveDaysGrowStreak | src/lib/database.ts:555-561 | solving on n consecutive days grows the current streak by n and keeps it at most the longest |
| Gamification.GapResetsStreak | src/lib/database.ts:557-561 | a gap of two days or more resets the current streak to 1 and never lowers the longest |
| ProgressStore.AddXp | src/lib/database.ts:500-515 | experience grows by the gain and the level by at most one step; streak and e-mail are untouched |
| ProgressStore.SameDayKeepsUser | src/lib/database.ts:553-554 | a streak update against a solve made today leaves the profile as it was |
| ProgressStore.ResolveGrantsXpWithoutNewSolve | src/lib/database.ts:430-431 | re-marking a solved problem as solved leaves the solved count unchanged, yet the toggle grants a positive 10 XP |
| ProgressStore.IntendedXpGain | src/lib/database.ts:430-431 | the corrected gain is either 0 or 10 |
| ProgressStore.IntendedXpTracksSolves | src/lib/database.ts:430-431 | with the corrected rule, 10 XP is granted exactly when the toggle raises the user's solved count, by exactly one |
| ProgressStore.IntendedStreak | src/lib/database.ts:551-561 | the corrected streak keeps current ≤ longest and never lowers the longest |
| ProgressStore.StreakDiscrepancy | src/lib/database.ts:530-554 | after a solve yesterday, the intended streak is one more, but as written the update after the toggle sees today's solve and leaves the streak unchanged |
| ProgressStore.IntendedStreakFollowsCalendar | src/lib/database.ts:551-559 | measured against the latest solve before the toggle, the corrected update keeps, grows or resets the streak as the calendar says |
| ProgressStore.UserWriteKeepsConsistent | src/lib/database.ts:20-37 | writing a profile whose streak is ordered keeps the tables consistent |
| ProgressStore.ToggleKeepsConsistent | src/lib/database.ts:366-386 | the toggle's upsert by a known user on a catalog problem keeps keys unique, foreign keys valid and no solve after the clock |
| ProgressStore.NoteWriteKeepsConsistent | src/lib/database.ts:576-596 | a saved note keeps the tables consistent |
| ProgressStore.ConsistentRowsFound | src/lib/database.ts:368-386 | with one row per (user, problem), every progress row is the one the lookup by its own key finds |
| ProgressStore.NewUser | src/lib/database.ts:28-31 | a created profile has the given email, no experience, Bronze with a 1000 milestone, and an ordered streak starting at 0 |
| ProgressStore.ToggleXpGain | src/lib/database.ts:430-431 | a toggle grants 10 points exactly when it marks the problem solved, otherwise none |
| ProgressStore.MasteryAfterToggle | src/lib/database.ts:394-426 | the mastery table after the recount keeps one row per (user, pattern) |
| ProgressStore.MasteryAfterToggleSpec | src/lib/database.ts:389-427 | for a problem with a non-empty pattern, the table holds the recount of that pattern once and keeps the other rows; otherwise it is unchanged |
| ProgressStore.Window | src/lib/database.ts:474 | `slice(-6)`: at most n elements, and they are the last ones of the sequence |
| ProgressStore.WindowFacts | src/lib/database.ts:474 | the window of a strictly increasing sequence is strictly increasing, and anything left out precedes all of it |
| ProgressStore.StrictlyIncreasingMonths | src/lib/database.ts:467-473 | distinct months sorted chronologically are strictly increasing |
| ProgressStore.TrendOfSnoc | src/lib/database.ts:455-465 | a scanned row moves only its own month's bucket, under its own difficulty |
| ProgressStore.MonthCountSnoc | src/lib/database.ts:455-461 | a scanned solve raises the count of its own month only |
| ProgressStore.SeenStep | src/lib/database.ts:461 | scanning one row keeps the opened buckets exactly the months that have solves |
| ProgressStore.MatchStep | src/lib/database.ts:461-464 | scanning one row keeps every bucket equal to that month's counts |
| ProgressStore.BucketsStep | src/lib/database.ts:455-465 | one step of the trend scan keeps both invariants |
| ProgressStore.AddToWeekday | src/lib/database.ts:692-697 | one row of the weekly scan keeps the seven buckets equal to the per-weekday counts of the rows seen |
| ProgressStore.AddToMonth | src/lib/database.ts:455-465 | one row of the trend scan opens or bumps its month's bucket and keeps the months and counts in step |
| ProgressStore.KeptKeys | src/lib/database.ts:467-474 | at most six months are kept, all of them months with solves |
| ProgressStore.LastMonths | src/lib/database.ts:474 | the report holds the bucket of each kept month, in order |
| ProgressStore.Months | src/lib/database.ts:474 | loop-proof helper of `GetUserDifficultyTrends`: the months of a report, one per entry |
| ProgressStore.SortedKeys | src/lib/database.ts:467-473 | the sorted months are strictly increasing and none is lost |
| ProgressStore.KeptKeysOrder | src/lib/database.ts:467-474 | the kept months are strictly increasing, and every month left out precedes them |
| ProgressStore.TrendWindow | src/lib/database.ts:443-474 | at most six months, each with solves and its true easy/medium/hard counts, in chronological order; a month left out is older than every month reported |
| ProgressStore.TrendMonthsAreKept | src/lib/database.ts:474 | the reported months are exactly the kept months |
| ProgressStore.TrendWindowCounts | src/lib/database.ts:455-465 | each reported month has solves, and its counts are that month's |
| ProgressStore.TrendWindowOrder | src/lib/database.ts:467-474 | the reported months are increasing, and only older months are dropped |
| ProgressStore.Store.constructor | src/lib/database.ts:1-18 | a store over a catalog with unique ids starts with no users and no rows, and is consistent |
| ProgressStore.Store.CreateOrUpdateUser | src/lib/database.ts:20-37 | an existing profile gets the new e-mail and update instant; a missing one is created at Bronze with no XP; nothing else changes |
| ProgressStore.Store.EnsureUser | src/lib/database.ts:56-61 | after the lookup the profile exists: unchanged if present, otherwise created with the default e-mail |
| ProgressStore.Store.UpdateUserXp | src/lib/database.ts:491-519 | a missing profile is left alone; an existing one gains the experience and is promoted by `AddXp` |
| ProgressStore.Store.UpdateUserStreak | src/lib/database.ts:521-573 | without a profile or a dated solve nothing changes; otherwise the streak takes the step for the latest solve's day against today |
| ProgressStore.Store.ToggleProblemProgress | src/lib/database.ts:366-440 | unknown user or problem fails with nothing written; otherwise the row is upserted, the pattern's mastery recounted, and a solve adds 10 XP with no streak change |
| ProgressStore.Store.GrantSolve | src/lib/database.ts:430-433 | after the upsert of a solve, the XP grant happens and the streak update that follows changes nothing |
| ProgressStore.Store.ToggleProblemProgressIntended | src/lib/database.ts:366-440 | the toggle with both findings corrected: XP only for a new solve, streak measured against the previous latest solve |
| ProgressStore.Store.WriteProgress | src/lib/database.ts:368-427 | the upsert and the mastery recount of a toggle; the returned row is the stored row of (user, problem) |
| ProgressStore.Store.SaveNote | src/lib/database.ts:576-601 | unknown user or problem fails with no write; otherwise the (user, problem, type) note holds the new content and reads back as it |
| ProgressStore.Store.GetNotes | src/lib/database.ts:603-626 | each of the three texts is the content of the matching note, or "" when there is none |
| ProgressStore.Store.GetUserProgress | src/lib/database.ts:333-358 | the map holds exactly the problems the user has a row for, each with that row's solved flag |
| ProgressStore.Store.GetUserGoals | src/lib/database.ts:638-651 | after the profile is ensured, the user's active goals, each as often as it has a row (a permutation of them), newest first |
| ProgressStore.Store.GetProblemsWithProgress | src/lib/database.ts:229-331 | an empty catalog answers [] without touching users; otherwise the profile is ensured and the filtered listing returned |
| ProgressStore.Store.ComputeStats | src/lib/database.ts:63-203 | an empty catalog gives zero counts with the profile's fields; otherwise solved, per-difficulty, today's study time and this week's solves are the true counts, and the three difficulties add up to the solved total, which is at most the catalog size |
| ProgressStore.Store.GetUserStats | src/lib/database.ts:51-203 | the profile is created when missing; with an empty catalog every count is zero and the streaks, level and experience are the profile's; otherwise the solved total, the easy/medium/hard solved counts, the study time since local midnight, the solves since the week's Sunday midnight, the streaks, level, experience and next milestone are those of the store, the difficulties add up to the total, and the current streak is at most the longest |
| ProgressStore.Store.GetWeeklyActivity | src/lib/database.ts:672-703 | seven entries, Sun to Sat, each counting the solves on that weekday since midnight seven days ago (an undated solve counts as now); they sum to the window's solve count |
| ProgressStore.Store.GetUserDifficultyTrends | src/lib/database.ts:443-475 | the last six months with solves, in chronological order, each with its true easy/medium/hard counts (missing difficulty counted as Easy) |
| Tables.FindProblem | src/lib/database.ts:389-392 | finds the catalog problem with that id, or proves there is none |
| Tables.UpsertProgress | src/lib/database.ts:368-386 | exactly one row for (user, problem) afterwards, with the new solved flag and a solve instant iff solved; attempts and time spent kept, other rows unchanged |
| Tables.ProgressOf | src/lib/database.ts:396-398 | the row of (user, problem) when there is one, and none otherwise |
| Tables.LatestSolvedAt | src/lib/database.ts:530-540 | the greatest solve instant among the user's dated solves, or none when there is no dated solve |
| Tables.StreakUpdateAfterToggleIsNoop | src/lib/database.ts:530-554 | after the toggle wrote a solve at `now`, the latest solve is `now`, so the streak step takes the "already today" exit |
| Tables.MasteryPercentage | src/lib/database.ts:411 | 0 for an empty pattern, otherwise 100·solved/total, and within 0..100 when solved ≤ total |
| Tables.UpsertMastery | src/lib/database.ts:412-426 | exactly one mastery row for (user, pattern) holding the recount; the other rows are kept |
| Tables.RowsFitCatalog | src/lib/database.ts:400-410 | distinct catalog problems selected by a user's rows are no more than the catalog problems passing the same test |
| Tables.SelectedRowsDistinct | src/lib/database.ts:400-406 | one user's rows name distinct problems |
| Tables.SelectedKeysInCatalog | src/lib/database.ts:404-409 | the problems named by the counted rows are catalog problems of that pattern |
| Tables.MasteryBounded | src/lib/database.ts:400-411 | solved-in-pattern is at most total-in-pattern, so the stored percentage stays within 0..100 |
| Tables.SolvedInPattern | src/lib/database.ts:400-406 | the user's solved rows whose problem has the pattern: zero exactly when there is none |
| Tables.TotalInPattern | src/lib/database.ts:408-410 | the catalog problems of the pattern: zero exactly when there is none |
| Tables.EmptyPatternUnsolved | src/lib/database.ts:400-410 | a pattern with no catalog problem has no solved problem |
| Tables.Recount | src/lib/database.ts:400-426 | the mastery row keyed by (user, pattern); an empty pattern has no solves and a percentage of 0 |
| Tables.UpsertNote | src/lib/database.ts:578-596 | exactly one note for (user, problem, type), holding the new content and instant; the others kept |
| Tables.NoteContent | src/lib/database.ts:616-624 | "" without a matching note, otherwise the content of a matching note |
| Tables.SavedNoteReadsBack | src/lib/database.ts:576-624 | reading back a saved note gives the saved content |
| Tables.GoalsOf | src/lib/database.ts:645-651 | the goals of the rows, in order |
| Tables.ActiveGoalsOf | src/lib/database.ts:645-651 | a permutation of the user's active goal rows' goals, newest first; every listed goal is one of them and each of them is listed |
| Tables.ActiveGoalsMembership | src/lib/database.ts:645-649 | every listed goal is an active goal of the user, and every active goal of the user is listed |
| Tables.ListedGoalsAreActive | src/lib/database.ts:646-649 | every listed goal is an active goal row of the user |
| Tables.ActiveGoalsAreListed | src/lib/database.ts:646-649 | every active goal row of the user is listed |
| Tables.MasteryOf | src/lib/database.ts:659-669 | `getPatternMastery`: a permutation of the user's mastery rows, highest percentage first |
| Tables.MasteryRowsAreMine | src/lib/database.ts:661-663 | every returned mastery row is one of the user's rows |
| Queries.WeekStart | src/lib/database.ts:170-172 | the week starts at a midnight (a multiple of a day), on a Sunday, at most seven days before `now` |
| Queries.SolvedCount | src/lib/database.ts:99-104 | the user's solved rows: zero exactly when the user has no solved row |
| Queries.StudyTimeSince | src/lib/database.ts:144-161 | the summed duration of the user's sessions since `from`: non-negative for non-negative durations, zero without such sessions |
| Queries.SolvedSince | src/lib/database.ts:170-182 | the user's solves dated since `from` are never more than the user's solved rows |
| Queries.ProgressMap | src/lib/database.ts:352-355 | every problem the user has a row for is a key, and every key's flag is the solved flag of one of the user's rows for it |
| Queries.ProgressMapAgrees | src/lib/database.ts:352-355 | with one row per (user, problem), the map holds exactly the user's problems, each with its solved flag |
| Queries.ToggleSolvedCount | src/lib/database.ts:368-386 | after a toggle the solved count moves by at most one, as the old and new flags say |
| Queries.DifficultyBreakdown | src/lib/database.ts:109-133 | under the foreign key, easy + medium + hard solved equals the total solved |
| Queries.SolvedWithinCatalog | src/lib/database.ts:99-104 | a user has solved at most as many problems as the catalog holds |
| Queries.Views | src/lib/database.ts:310-313 | each listed problem carries the caller's progress row for it, if any |
| Queries.DifficultyCriterionOf | src/lib/database.ts:265-266 | "" and "All" impose no difficulty; "Easy", "Medium" and "Hard" select that difficulty, each in both directions |
| Queries.WhereMatches | src/lib/database.ts:265-278 | without a search, pattern or difficulty every problem matches; a match has the requested difficulty and pattern |
| Queries.StatusKeeps | src/lib/database.ts:317-322 | "Solved" keeps exactly the problems with a solved row; any other status but "All" keeps exactly the others |
| Queries.ListProblems | src/lib/database.ts:250-326 | [] for an empty catalog or unknown difficulty; otherwise at most 1000 problems matching the filters, by question number, each with its progress; all matches when they fit, and a matching problem that passes the status filter is missing only when more than 1000 matches have a question number at or below its own; no problem is listed more often than it is in the catalog, and when the matches fit the listing is a permutation of the passing matches |
| Queries.ListProblemsFacts | src/lib/database.ts:283-324 | the listing is capped, sorted, and holds only matching problems with their progress; when the matches fit none is missing, and beyond the cap only problems ranked after the first 1000 matches are missing |
| Queries.ListedMembers | src/lib/database.ts:265-322 | every listed problem is in the catalog, matches the where clause and the status filter |
| Queries.ListedAtMostOnce | src/lib/database.ts:283-322 | each problem appears in the listing at most as often as in the catalog |
| Queries.ListedPermutes | src/lib/database.ts:283-322 | under the cap, the listing is a permutation of the matching problems that pass the status filter, with their progress |
| Queries.ListedSorted | src/lib/database.ts:285 | the listing is in ascending question number |
| Queries.ListedComplete | src/lib/database.ts:283-322 | when at most 1000 problems match, every matching problem that passes the status filter is listed |
| Queries.ListedBeyondCap | src/lib/database.ts:283-322 | a matching problem that passes the status filter yet is not listed has more than 1000 matches at or below its question number, so the query took the 1000 lowest |
| Queries.RankedCount | src/lib/database.ts:283-287 | the k-th match in question-number order has at least k + 1 matches at or below its question number |
| Queries.WeekWindowStart | src/lib/database.ts:674-676 | the weekly window starts at a midnight, the last one that is at least seven days before `now`: within (now − 8 days, now − 7 days] |
| Queries.EffectiveDate | src/lib/database.ts:693 | a solve is dated by its instant, or by the time of the query when it has none |
| Queries.InWindow | src/lib/database.ts:692-694 | only the user's solved rows are in the window; an undated solve is in it whenever the window has started |
| Queries.ZeroTotal | src/lib/database.ts:700-703 | loop-proof helper of `GetWeeklyActivity`: seven empty buckets total zero |
| Queries.TotalProblemsIncrement | src/lib/database.ts:696 | loop-proof helper of `GetWeeklyActivity`: one more problem on one day adds one to the total |
| Queries.WeekdayBucketsCover | src/lib/database.ts:692-697 | each solve in the window lands in exactly one weekday bucket |
| Queries.TrendCountsCover | src/lib/database.ts:460-464 | a month's easy, medium and hard counts add up to its solves |
| Queries.TrendDifficulty | src/lib/database.ts:460 | the difficulty of the solved problem, or Easy when the catalog has no problem with that id |
| Queries.TrendSnoc | src/lib/database.ts:461-464 | one more solve moves exactly one counter of its own month |
| Cache.Stored | src/lib/hooks/use-user-data.ts:82-110 | an ok body is stored as a value of its kind; a goals body that is not an array is stored as [] |
| Cache.EmptyIsNeverFresh | src/lib/hooks/use-user-data.ts:100-126 | an empty goals list or progress map is never served from the cache |
| Cache.NonArrayGoalsRefetched | src/lib/hooks/use-user-data.ts:108-109 | a non-array goals body leaves [], which is never served from the cache |
| Cache.ZeroedStampIsStale | src/lib/hooks/use-user-data.ts:177-191 | after the stamp is zeroed, the TTL check passes only within the first five minutes of the clock |
| Cache.StoredServedUntilExpiry | src/lib/hooks/use-user-data.ts:71-94 | a present value stored at `fetched` is served exactly until five minutes later |
| Cache.SetKeepsOthers | src/lib/hooks/use-user-data.ts:80-92 | replacing one kind's entry leaves the other kinds' entries as they were |
| Cache.All | src/lib/hooks/use-user-data.ts:41-52 | every kind holds the same value |
| Cache.WellKindedGet | src/lib/hooks/use-user-data.ts:41-52 | each slot of the cache holds a value of its own kind |
| Cache.MaskedEntries | src/lib/hooks/use-user-data.ts:172-207 | kind by kind: a requested kind is refetched, restamped and settled; any other kind is unchanged |
| Cache.FilledValues | src/lib/hooks/use-user-data.ts:202-205 | the four initial steps together refetch exactly the kinds that were empty at the start |
| Cache.FilledStamps | src/lib/hooks/use-user-data.ts:202-205 | the four initial steps restamp exactly the kinds that were empty at the start |
| Cache.FilledLoading | src/lib/hooks/use-user-data.ts:202-205 | the four initial steps clear the loading flag of exactly the kinds that were empty at the start |
| Cache.UserDataCache.constructor | src/lib/hooks/use-user-data.ts:41-52 | the cache starts empty with zero stamps, and all four kinds are loading |
| Cache.UserDataCache.Mount | src/lib/hooks/use-user-data.ts:56-69 | a mount keeps the cached values and stamps, and a kind is loading iff its value is empty |
| Cache.UserDataCache.StartRequest | src/lib/hooks/use-user-data.ts:80 | only the requested kind's loading flag turns on |
| Cache.UserDataCache.Settle | src/lib/hooks/use-user-data.ts:82-93 | an ok response stores the value and stamps it at the instant read before the request; otherwise value and stamp are kept; the kind stops loading either way |
| Cache.UserDataCache.Fetch | src/lib/hooks/use-user-data.ts:71-170 | with no user nothing changes; a fresh value is returned with no request; otherwise the kind is requested and settled, and no other kind changes |
| Cache.UserDataCache.RefreshOne | src/lib/hooks/use-user-data.ts:174-188 | zeroes that kind's stamp, so an expired or empty value is requested anew |
| Cache.UserDataCache.RefreshAll | src/lib/hooks/use-user-data.ts:189-193 | zeroes all four stamps; after the first five minutes of the clock every kind is requested |
| Cache.UserDataCache.FetchStep | src/lib/hooks/use-user-data.ts:192 | one fetch of `refreshData()`, its result dropped, with the same effect on the cache as `Fetch` |
| Cache.UserDataCache.FetchIfEmpty | src/lib/hooks/use-user-data.ts:202-205 | one step of the initial effect: fetch the kind iff its cached value is empty |
| Cache.UserDataCache.InitialFetch | src/lib/hooks/use-user-data.ts:199-207 | when loaded and signed in, exactly the kinds empty at the start are requested; otherwise nothing changes |
| PatternGroups.PatternKey | src/app/dashboard/page.tsx:97 | a problem's group is "Uncategorized" iff it has no pattern (or that name); the key is never empty |
| PatternGroups.FlatUnlisted | src/app/dashboard/page.tsx:133 | changing a group that is not listed leaves the flattened catalog unchanged |
| PatternGroups.FlatPush | src/app/dashboard/page.tsx:94-102 | pushing a problem onto a listed group adds it once to the flattened catalog |
| PatternGroups.PushContents | src/app/dashboard/page.tsx:99 | pushing onto an existing group keeps every group equal to its filter over the problems seen |
| PatternGroups.OpenContents | src/app/dashboard/page.tsx:98 | opening a new group keeps every group equal to its filter over the problems seen |
| PatternGroups.StepCover | src/app/dashboard/page.tsx:96-100 | after a step every problem seen has its group |
| PatternGroups.GroupPush | src/app/dashboard/page.tsx:99 | pushing onto an existing group keeps the grouping invariant |
| PatternGroups.GroupOpen | src/app/dashboard/page.tsx:98-99 | a new pattern opens its group last in key order and keeps the grouping invariant |
| PatternGroups.AddToGroup | src/app/dashboard/page.tsx:97-99 | one iteration of the grouping loop keeps the grouping invariant |
| PatternGroups.FirstOf | src/app/dashboard/page.tsx:96-98 | the position of the first problem whose group key is `k`, or the length of the input when there is none |
| PatternGroups.FirstOfSnoc | src/app/dashboard/page.tsx:96-99 | appending a problem keeps a key's first position, and gives a key seen for the first time the old length |
| PatternGroups.OrderStep | src/app/dashboard/page.tsx:96-99 | one iteration keeps the keys listed in order of first appearance and covering every problem seen |
| PatternGroups.GroupByPattern | src/app/dashboard/page.tsx:95-100 | distinct keys ordered by the first position of their pattern in the input (`FirstOf`); each group is its pattern's problems in input order and non-empty; every problem is in exactly one group |
| DashboardPage.TotalSolvedAsWritten | src/app/dashboard/page.tsx:134 | the solved count shown is the size of the stored set |
| DashboardPage.StaleIdExceedsCatalog | src/app/dashboard/page.tsx:133-134 | a stored id outside the catalog makes the solved count exceed the catalog size |
| DashboardPage.CatalogSolved | src/app/dashboard/page.tsx:138-141 | the catalog problems whose id is solved, at most the catalog size |
| DashboardPage.SolvedIdsWithin | src/app/dashboard/page.tsx:133-141 | with unique catalog ids, the catalog solved count is at most the stored set's size |
| DashboardPage.CompletedOf | src/app/dashboard/page.tsx:139-141 | a difficulty's solved count is at most that difficulty's catalog total and at most the catalog solved count |
| DashboardPage.DifficultyBreakdown | src/app/dashboard/page.tsx:139-141 | easy + medium + hard completed equals the catalog problems solved |
| DashboardPage.CompletionRateAsWritten | src/app/dashboard/page.tsx:135 | 0 for an empty catalog, otherwise stored-set size over catalog size in percent |
| DashboardPage.StaleIdRateAbove100 | src/app/dashboard/page.tsx:135 | one stale id with a one-problem catalog shows 200% |
| DashboardPage.CompletionRate | src/app/dashboard/page.tsx:135 | the corrected rate is the catalog solved count over catalog size in percent, always within 0..100 |
| DashboardPage.PatternProgress | src/app/dashboard/page.tsx:388-390 | a group's solved count is at most its size |
| DashboardPage.RenderedGroupsAreNonEmpty | src/app/dashboard/page.tsx:386-390 | every rendered group has at least one problem, so the division is defined, and its solved count is at most its size |
| DashboardPage.OrderedPatterns | src/app/dashboard/page.tsx:380-385 | the ordering lists exactly the present patterns |
| DashboardPage.OrderedPatternsPermutes | src/app/dashboard/page.tsx:380-385 | with distinct present patterns, the ordering is a permutation of them without repeats |
| DashboardPage.OrderedPatternsLayout | src/app/dashboard/page.tsx:383-384 | the present listed patterns come first in the fixed order, then the others in their own order, none of them listed |
| DashboardPage.PatternOrderDistinct | src/app/dashboard/page.tsx:157-183 | the fixed order names each pattern once |
| DashboardPage.WeeklyStatus | src/app/dashboard/page.tsx:346-352 | "Goal completed" iff at least 15 solved, otherwise 15 − solved remain, between 1 and 15 |
| DashboardPage.WeeklyStatusMonotone | src/app/dashboard/page.tsx:352 | solving more never increases what remains and never undoes completion |
| DashboardPage.Dashboard.constructor | src/app/dashboard/page.tsx:69-71 | nothing solved and no groups on first render |
| DashboardPage.Dashboard.RestoreSolved | src/app/dashboard/page.tsx:75-80 | a stored list replaces the solved set with its ids; without one the set is kept |
| DashboardPage.Dashboard.LoadProblems | src/app/dashboard/page.tsx:87-111 | a delivered catalog is grouped as `GroupByPattern` says, with the keys in order of first appearance; a failed request keeps the groups |
| DashboardPage.Dashboard.ToggleProblemSolved | src/app/dashboard/page.tsx:113-130 | the id is removed if present and added otherwise, every other id is unchanged, and the set is written back to storage |
| DashboardPage.Dashboard.SolvedCount | src/app/dashboard/page.tsx:138-141 | the corrected solved count is at most the loaded catalog's size and equals easy + medium + hard |
| DashboardPage.Dashboard.Rate | src/app/dashboard/page.tsx:135 | the corrected completion rate lies within 0..100 |
| DashboardPage.Dashboard.Ordered | src/app/dashboard/page.tsx:380-385 | the accordion lists exactly the loaded patterns; with distinct keys, each of them once |
| DashboardPage.LayoutOf | src/app/dashboard/page.tsx:380-385 | under an order without repeats, the layout lists exactly the loaded patterns, and distinct keys each once |
| DashboardPage.OrderedKeysPermute | src/app/dashboard/page.tsx:380-385 | under an order without repeats, distinct loaded keys are laid out as a repetition-free permutation |
| ListState.Flip | src/components/dashboard/problems-list-table.tsx:121 | the new progress differs from the current one |
| ListState.FilterItems | src/components/dashboard/enhanced-problems-list.tsx:108-120 | the shown list is the subsequence of items passing all three filters |
| ListState.Toggled | src/components/dashboard/enhanced-problems-list.tsx:139-147 | the clicked id changes membership and every other id keeps it |
| ListState.ToggleTwice | src/components/dashboard/problems-list-table.tsx:159-167 | clicking the same id twice restores the selection |
| ListState.SetStatus | src/components/dashboard/problems-list-table.tsx:123-125 | every item with that id takes the new progress; all other items are unchanged |
| ListState.SetStatusUndone | src/components/dashboard/problems-list-table.tsx:145-149 | when the items already had progress s, setting t and then s back restores them |
| ListState.FlipsExactlyThatId | src/components/dashboard/enhanced-problems-list.tsx:122-126 | a toggle flips exactly the items with that id |
| ListState.AllTodo | src/components/dashboard/problems-list-table.tsx:53-57 | loaded problems all start at todo, in order |
| ListState.CompletedCount | src/components/dashboard/problems-list-table.tsx:190 | the done count is at most the item count |
| ListState.NothingCompletedAfterLoad | src/components/dashboard/problems-list-table.tsx:53-58 | right after loading, nothing is completed |
| ListState.TotalPages | src/components/dashboard/problems-list-table.tsx:89 | `ceil(n / perPage)`: the fewest pages holding n items |
| ListState.PageSlice | src/components/dashboard/problems-list-table.tsx:90-91 | a page slice holds at most `perPage` items |
| ListState.PagesAreChunks | src/components/dashboard/problems-list-table.tsx:89-91 | pages 1..totalPages are the consecutive chunks, which concatenate back to the filtered list; later pages are empty |
| ListState.PreviousPage | src/components/dashboard/problems-list-table.tsx:399 | "Previous" goes one page back, never below 1 |
| ListState.NextPage | src/components/dashboard/problems-list-table.tsx:424 | "Next" goes one page on, never past the last |
| ListState.NavigationStaysInRange | src/components/dashboard/problems-list-table.tsx:399-424 | from a page in range, Previous and Next stay in 1..totalPages |
| ListState.PageButtons | src/components/dashboard/problems-list-table.tsx:406-413 | the numbered buttons are 1..min(5, totalPages) |
| ListState.CompletionPercent | src/components/dashboard/enhanced-problems-list.tsx:208-210 | 0 with no data, otherwise 100·done/total rounded to nearest, within 0..100 |
| ListState.Round | src/components/dashboard/enhanced-problems-list.tsx:210 | `Math.round` is the floor of the value plus one half and keeps infinities and NaN |
| ListState.OrZero | src/components/dashboard/problems-list-table.tsx:231 | `|| 0` turns NaN into 0 and keeps every other value |
| ListState.HeaderPercentAgrees | src/components/dashboard/problems-list-table.tsx:231 | the paged lists' header percentage, including 0/0, equals the enhanced list's completion percentage |
| EnhancedList.SavedStatus | src/components/dashboard/enhanced-problems-list.tsx:89 | a loaded problem takes its saved progress, or todo when none is saved |
| EnhancedList.WithSaved | src/components/dashboard/enhanced-problems-list.tsx:85-91 | each problem keeps its fields and takes its saved progress |
| EnhancedList.EntryFor | src/components/dashboard/enhanced-problems-list.tsx:128-131 | the saved entry carries the new progress and a completion instant iff it is done |
| EnhancedList.BulkDone | src/components/dashboard/enhanced-problems-list.tsx:151-162 | selected todo items become done; unselected and done items are unchanged |
| EnhancedList.BulkSavedSpec | src/components/dashboard/enhanced-problems-list.tsx:150-163 | bulk completion writes a done entry with the instant for exactly the marked ids; all other entries kept |
| EnhancedList.EnhancedProblemsList.constructor | src/components/dashboard/enhanced-problems-list.tsx:44-51 | no data, no selection, filters at "all", empty search |
| EnhancedList.EnhancedProblemsList.Visible | src/components/dashboard/enhanced-problems-list.tsx:108-120 | an item is shown iff it passes the progress, difficulty and case-insensitive search filters; shown items keep their order |
| EnhancedList.EnhancedProblemsList.Percentage | src/components/dashboard/enhanced-problems-list.tsx:208-210 | 0 without data, otherwise the rounded completion percentage, within 0..100 |
| EnhancedList.EnhancedProblemsList.Remaining | src/components/dashboard/enhanced-problems-list.tsx:318 | remaining plus completed equals the total, and remaining is never negative |
| EnhancedList.EnhancedProblemsList.Load | src/components/dashboard/enhanced-problems-list.tsx:72-101 | delivered problems are merged with the saved progress; on failure the items are kept |
| EnhancedList.EnhancedProblemsList.SetFilters | src/components/dashboard/enhanced-problems-list.tsx:47-49 | the three filters take the chosen values |
| EnhancedList.EnhancedProblemsList.ToggleProblemStatus | src/components/dashboard/enhanced-problems-list.tsx:122-137 | exactly the items with that id flip; the saved entry of that id is replaced, with a completion instant iff done |
| EnhancedList.EnhancedProblemsList.ToggleRowSelection | src/components/dashboard/enhanced-problems-list.tsx:139-147 | the selection is toggled at that id |
| EnhancedList.EnhancedProblemsList.BulkMarkComplete | src/components/dashboard/enhanced-problems-list.tsx:149-169 | selected todo items become done and get saved entries; nothing else changes; the selection is emptied |
| PagedList.SelectAllToggled | src/components/dashboard/problems-list-table.tsx:169-175 | cleared when the selection's size equals the page length, otherwise exactly the ids of the page |
| PagedList.SelectAllClearsForeignSelection | src/components/dashboard/problems-list-table.tsx:170 | the size test is not a subset test: one id selected elsewhere, with a one-item page, makes "select all" clear instead of select |
| PagedList.PageRange | src/components/dashboard/problems-list-table.tsx:90-91 | a page within the count starts inside the list and holds its slice of the list |
| PagedList.PageOf | src/components/dashboard/problems-list-table.tsx:89-91 | a page within the count is the matching chunk of the list; a page beyond it is empty |
| PagedList.Footer | src/components/dashboard/problems-list-table.tsx:392 | "Showing first to last of n" names exactly the items on the page |
| PagedList.PagedProblemsList.constructor | src/components/dashboard/problems-list-table.tsx:31-36 | page 1, no data, no selection, progress filter "all", empty search; 10, 12 or 15 per page (also problems-list-grid.tsx:36 and problems-list-compact.tsx:36) |
| PagedList.PagedProblemsList.Filtered | src/components/dashboard/problems-list-table.tsx:78-86 | the progress-and-search subsequence of the items (same lines in the grid and compact lists) |
| PagedList.PagedProblemsList.PageCount | src/components/dashboard/problems-list-table.tsx:89 | `ceil` of the filtered length over the page size |
| PagedList.PagedProblemsList.PageItems | src/components/dashboard/problems-list-table.tsx:90-91 | the current page is the matching chunk of the filtered list, or empty past the last page |
| PagedList.PagedProblemsList.Percent | src/components/dashboard/problems-list-table.tsx:231 | the header percentage is the rounded completion percentage, within 0..100 |
| PagedList.PagedProblemsList.Load | src/components/dashboard/problems-list-table.tsx:38-71 | delivered problems all start at todo; on failure the items are kept |
| PagedList.PagedProblemsList.SetFilters | src/components/dashboard/problems-list-table.tsx:31-32 | the filters change and the current page is kept |
| PagedList.PagedProblemsList.Previous | src/components/dashboard/problems-list-table.tsx:399 | the page moves back one, not below 1, and stays in range if it was |
| PagedList.PagedProblemsList.Next | src/components/dashboard/problems-list-table.tsx:424 | the page moves on one, not past the last, and ends within 1..totalPages |
| PagedList.PagedProblemsList.GoToPage | src/components/dashboard/problems-list-table.tsx:413 | a numbered button sets a page within range |
| PagedList.PagedProblemsList.ToggleProblemStatus | src/components/dashboard/problems-list-table.tsx:120-157 | the item flips at once; on a failed request it is set back, so the items are exactly as before |
| PagedList.PagedProblemsList.ToggleRowSelection | src/components/dashboard/problems-list-table.tsx:159-167 | the selection is toggled at that id |
| PagedList.PagedProblemsList.ClearSelection | src/components/dashboard/problems-list-table.tsx:382 | the selection is emptied |
| PagedList.PagedProblemsList.ToggleAllSelection | src/components/dashboard/problems-list-table.tsx:169-175 | the selection becomes `SelectAllToggled` of the current page |
| GoalsManager.NewGoal | src/components/dashboard/goals-manager.tsx:55-62 | the new goal takes the form's fields, current 0, active, stamped now, with a decimal id |
| GoalsManager.CanCreate | src/components/dashboard/goals-manager.tsx:228 | "Create Goal" is enabled exactly when the title has at least one character |
| GoalsManager.CreateDisablesButton | src/components/dashboard/goals-manager.tsx:66 | the reset form disables "Create Goal" again, as does the initial form |
| GoalsManager.CreateGoal | src/components/dashboard/goals-manager.tsx:53-66 | called only with a titled form, as the button allows; exactly one goal appended, with a non-empty title, the others unchanged, and the form reset to daily with target 3 |
| GoalsManager.Merge | src/components/dashboard/goals-manager.tsx:83 | each of the nine fields is the patch's value when present and the goal's own otherwise; an empty patch changes nothing |
| GoalsManager.MergeIdempotent | src/components/dashboard/goals-manager.tsx:83 | merging the same updates twice is merging them once |
| GoalsManager.UpdateGoal | src/components/dashboard/goals-manager.tsx:81-83 | updates go into the goals with that id only; length and order are kept |
| GoalsManager.UpdateIdempotent | src/components/dashboard/goals-manager.tsx:83 | repeating an update that keeps the id changes nothing more |
| GoalsManager.DeleteGoal | src/components/dashboard/goals-manager.tsx:96-98 | every goal with that id is removed, and the others are kept in order |
| GoalsManager.DeleteUndoesCreate | src/components/dashboard/goals-manager.tsx:53-98 | deleting a goal just created under a fresh id gives back the list |
| GoalsManager.Progress | src/components/dashboard/goals-manager.tsx:241 | current/target·100 as a JavaScript number; NaN exactly for 0/0 |
| GoalsManager.MarkersExclusive | src/components/dashboard/goals-manager.tsx:242-243 | a goal is never both completed and at risk; with 0/0 it is neither |
| GoalsManager.CompletedMarkerMatchesSection | src/components/dashboard/goals-manager.tsx:238-311 | an active goal shows "Completed!" iff it is also in the completed section |
| GoalsManager.ActiveGoals | src/components/dashboard/goals-manager.tsx:238-239 | exactly the active goals, in list order |
| GoalsManager.CompletedGoals | src/components/dashboard/goals-manager.tsx:299-311 | exactly the inactive goals and those at or past their target, in list order |
| GoalsManager.EveryGoalShown | src/components/dashboard/goals-manager.tsx:238-311 | every goal is shown in at least one section |
| GoalsManager.ProgressColor | src/components/dashboard/goals-manager.tsx:137-142 | green from 100, yellow from 75, orange from 50, red below or for NaN |
| GoalsManager.ProgressColorMonotone | src/components/dashboard/goals-manager.tsx:137-142 | more progress never gives a lower colour |
| StatsOverview.StarRating | src/components/dashboard/enhanced-stats-overview.tsx:29-36 | between 1 and 5; 5 iff the percentage is at least 80, 4 iff in 60..80, 3 iff in 40..60, 2 iff in 20..40, 1 iff below 20 or NaN |
| StatsOverview.StarRatingMonotone | src/components/dashboard/enhanced-stats-overview.tsx:29-36 | for a fixed positive maximum, more never gives fewer stars |
| StatsOverview.LevelStars | src/components/dashboard/enhanced-stats-overview.tsx:47 | Bronze 2, Silver 3, Gold 4, any other level 5 |
| StatsOverview.Stars | src/components/dashboard/enhanced-stats-overview.tsx:39-40 | n slots, filled exactly before `count` |
| StatsOverview.RenderStars | src/components/dashboard/enhanced-stats-overview.tsx:38-42 | five stars, the i-th filled iff i < count |
| StatsOverview.StarsFilled | src/components/dashboard/enhanced-stats-overview.tsx:38-42 | the filled count is `count` clamped to 0..n |
| StatsOverview.RenderStarsFilled | src/components/dashboard/enhanced-stats-overview.tsx:38-42 | the filled count is `count` clamped to 0..5 |
| StatsOverview.DifficultyStars | src/components/dashboard/enhanced-stats-overview.tsx:155 | `ceil(solved / 50)` |
| StatsOverview.BadgesImplyStars | src/components/dashboard/enhanced-stats-overview.tsx:44-117 | "On Fire" implies at least 2 streak stars, and "Focused" at least 3 study stars |
| CsvSeed.SplitFields | src/scripts/seed-problems-updated.ts:29-44 | a line yields at least one field |
| CsvSeed.SplitCsvLine | src/scripts/seed-problems-updated.ts:29-44 | the character loop computes the fields of `SplitFields` |
| CsvSeed.StepCounts | src/scripts/seed-problems-updated.ts:35-42 | a quote flips the flag; only a comma outside quotes finishes a field |
| CsvSeed.ScanQuotes | src/scripts/seed-problems-updated.ts:35-36 | the scan is inside quotes exactly after an odd number of quotes |
| CsvSeed.ScanCount | src/scripts/seed-problems-updated.ts:37-39 | one finished field per comma outside quotes |
| CsvSeed.ScanClean | src/scripts/seed-problems-updated.ts:33-43 | quotes are never kept, and every finished field is trimmed and quote-free |
| CsvSeed.FieldCount | src/scripts/seed-problems-updated.ts:37-44 | a line has one field more than it has commas outside quotes |
| CsvSeed.FieldsAreClean | src/scripts/seed-problems-updated.ts:29-44 | every field is free of quotes and trimmed |
| CsvSeed.UnquotedLineIsSplit | src/scripts/seed-problems-updated.ts:33-44 | on a line without quotes the splitter is `split(",")` with every piece trimmed |
| CsvSeed.DoubledQuoteIsDropped | src/scripts/seed-problems-updated.ts:35-36 | `"a""b"` yields `ab` (RFC 4180, section 2, rule 7 would give `a"b`) |
| CsvSeed.ScanSnoc | src/scripts/seed-problems-updated.ts:33-43 | one more character is one more step of the scan |
| CsvSeed.DifficultyOf | src/scripts/seed-problems-updated.ts:53-68 | Easy iff the field is "Easy", Hard iff it is "Hard", Medium for anything else, including empty |
| CsvSeed.TopicsOf | src/scripts/seed-problems-updated.ts:55-60 | the trimmed ';' pieces that are non-empty, in order: a subsequence of the trimmed pieces, as long as the number of non-empty ones and holding each of them; each topic is non-empty, trimmed and free of ';' |
| CsvSeed.LeadingDigits | src/scripts/seed-problems-updated.ts:62 | the longest run of decimal digits at the start |
| CsvSeed.ParseInt | src/scripts/seed-problems-updated.ts:62 | no number exactly when no digit follows the optional sign |
| CsvSeed.DigitsValueOfNat | src/scripts/seed-problems-updated.ts:62 | reading a rendered natural number gives it back |
| CsvSeed.FallbackId | src/scripts/seed-problems-updated.ts:48 | the fallback id starts with `problem_` and has digits after it |
| CsvSeed.MapRow | src/scripts/seed-problems-updated.ts:47-68 | id, or the fallback id when the field is empty; premium iff "Yes"; difficulty as `DifficultyOf` the field (Easy and Hard as written, Medium otherwise); no pattern iff the field is empty; topics and question number from their fields |
| CsvSeed.TrimAll | src/scripts/seed-problems-updated.ts:38-44 | every piece trimmed, none lost |
| CsvSeed.DataLines | src/scripts/seed-problems-updated.ts:17-25 | the lines after the header that are not blank, in order: every kept line is non-blank, every non-blank line is kept, and there are as many as non-blank lines |
| CsvSeed.ParseProblems | src/scripts/seed-problems-updated.ts:23-77 | one problem per data line, each the mapping of its split fields at its index |
| CsvSeed.Batches | src/scripts/seed-problems-updated.ts:89-91 | consecutive non-empty slices of at most 100 that concatenate back to the problems, `ceil(n / 100)` of them |
| Text.LeadingSpace | src/scripts/seed-problems-updated.ts:38 | the white space at the start of a string, up to the first other character |
| Text.TrailingSpace | src/scripts/seed-problems-updated.ts:38 | the white space at the end of a string, back to the last other character |
| Text.Trim | src/scripts/seed-problems-updated.ts:38-44 | `trim` never lengthens a string (see `TrimShape`) |
| Text.TrimShape | src/scripts/seed-problems-updated.ts:38-44 | the trimmed string is a slice with only white space outside it, and it neither starts nor ends with white space |
| Text.TrimIdempotent | src/scripts/seed-problems-updated.ts:25 | trimming twice is trimming once |
| Text.LowerChar | src/components/dashboard/enhanced-problems-list.tsx:119 | an ASCII capital becomes its small letter; every other character is kept |
| Text.ToLower | src/components/dashboard/enhanced-problems-list.tsx:119 | the same length, each character folded |
| Text.Contains | src/components/dashboard/enhanced-problems-list.tsx:119 | `includes`: true iff the term occurs at some position |
| Text.Split | src/scripts/seed-problems-updated.ts:17-18 | at least one piece, none containing the separator |
| Text.SplitJoin | src/scripts/seed-problems-updated.ts:17-18 | joining the pieces back with the separator gives the input |
| Text.NatToString | src/components/dashboard/goals-manager.tsx:56 | the decimal rendering of a natural number, digits only |
| JsNumber.Div | src/components/dashboard/enhanced-stats-overview.tsx:30 | real division when the divisor is non-zero; otherwise +Infinity, −Infinity or NaN by the sign of the dividend |
| JsNumber.PercentOf | src/components/dashboard/enhanced-stats-overview.tsx:30 | `(a / b) * 100` with the same cases |
| JsNumber.AtLeastOrBelow | src/components/dashboard/goals-manager.tsx:138-141 | NaN is the only value that is neither at least nor below a threshold |
| JsNumber.RoundedPercent | src/components/dashboard/enhanced-problems-list.tsx:210 | the integer nearest to 100·part/whole, halves rounded up, within 0..100 when part ≤ whole |

## Left out

- Prisma, SQL, the network and the browser are not modelled. This covers every `await`, the connection probe, `localStorage` encoding, toasts and rendering. Their effects are parameters: `now`, the outcome of each request, and a stored list given as an option.
- Errors that the source swallows into a default are not modelled as failures. The default path is modelled where it is reachable without a database error: the empty catalog, a missing profile, and a non-ok response.
- `getUserProfile` (src/lib/database.ts:39-48) is a lookup in `Store.users`. Its "create if missing" callers are modelled by `Store.EnsureUser`.
- The raw SQL join of `getUserStats` (src/lib/database.ts:111-132) is modelled as a join of progress rows to catalog difficulties.
- The `weeklyGoal` field is not among the sources, so `weeklyGoalProgress` (src/lib/database.ts:184) is kept as its numerator `weeklySolved`. `Math.min` and the floating-point ratio are dropped.
- `masteryPercentage` is an exact rational, not a binary float.
- Completion-rate values elsewhere in the components are rationals. `toFixed` is not modelled.
- Time zones are not modelled. Days are UTC day numbers. `toLocaleString` month names are replaced by (year, month) keys, sorted by their chronological index.
- Problem fields that the model does not read are left out. These are `acceptanceRate`, `frequency`, `createdAt` and the schema's defaults. Their `parseFloat` calls (src/scripts/seed-problems-updated.ts:52, 54) are not modelled.
- `parseInt` is modelled for decimal text only. A leading `0x`, and the white space that `parseInt` itself skips, are not modelled. The fields are already trimmed.
- The seed script's `try`/`catch` per line (src/scripts/seed-problems-updated.ts:27, 71-75) never yields `null` for a string line. `filter(Boolean)` therefore keeps every mapped row, and the model maps every data line.
- The seed script's database part (src/scripts/seed-problems-updated.ts:84-170) is not modelled: `deleteMany`, `createMany`, the per-record fallback, the analysis queries and the pattern-mastery initialisation for existing users.
- `deleteProblem` in the paginated lists (src/components/dashboard/problems-list-table.tsx:93-118) is a network request followed by a reload, and is left out.
- `src/components/dashboard/problems-list.tsx` is not part of this model. It delegates pagination and selection to @tanstack/react-table.
- The grid and compact lists have no select-all; `PagedProblemsList.ToggleAllSelection` is used by the table only.
- When the filter changes, the source does not reset `currentPage`. `PagedProblemsList.SetFilters` keeps that behaviour, and `PageItems` is then empty.
- Text.LowerChar: folds ASCII letters only, because `toLowerCase` on other scripts needs Unicode case tables.
- Text.ToLower: the same restriction as Text.LowerChar.
- Text.Trim: its own ensures states only the length bound. The shape of the result is stated by `Text.TrimShape` and `Text.TrimIdempotent`, to keep the function cheap to unfold.
- The per-kind update of the cache record states only the updated entry; the frame is stated by `Cache.SetKeepsOthers`.
- The request functions `FetchedValues`, `FetchedStamps`, `Settled` and `EmptyKinds` carry no ensures. Their per-kind meaning is stated by `Cache.MaskedEntries`.
- `refreshData()` runs its four fetches in sequence, stats first. `Promise.all` concurrency and React's deferred state updates are not modelled.
- The cache's `data` state mirrors `globalCache` and is not kept separately.
- The cached values are type parameters: the shapes of stats, goals and analytics payloads are opaque to the cache.
- ProgressStore.Store.ToggleProblemProgress, ProgressStore.Store.ToggleProblemProgressIntended, ProgressStore.Store.WriteProgress and ProgressStore.ToggleKeepsConsistent require `clock <= now`. The model keeps a ghost `clock`, the latest instant written, and assumes the clock never runs backwards; the source reads `new Date()` and has no such guarantee.
- Foreign keys are assumed for the progress and notes tables: a write for an unknown user or problem fails. The schema file is not part of this model.

## Findings

| source | as written | input that shows it | evidently intended | confidence | as-written member | corrected member |
|---|---|---|---|---|---|---|
| src/lib/database.ts:430-431 | every toggle with `solved = true` grants 10 XP | a problem already solved is marked solved again: the solved count stays the same and XP still grows by 10 | XP only when the toggle turns an unsolved problem into a solved one; the streak step still runs on every solve, re-solves included, because a streak counts days with a solve action | not executed | ProgressStore.ResolveGrantsXpWithoutNewSolve | ProgressStore.IntendedXpTracksSolves |
| src/lib/database.ts:530-554 | the streak update runs after the upsert stored `solvedAt = now`; under a clock that does not run backwards, the latest solve is then always today and the update returns early | a user whose latest solve was yesterday solves today: the current streak stays the same | compare the solve just made with the latest solve before it, so the streak grows after a solve yesterday | not executed | ProgressStore.StreakDiscrepancy | ProgressStore.IntendedStreakFollowsCalendar |
| src/app/dashboard/page.tsx:134-135 | the solved count and the completion rate use the size of the stored set, including ids no longer in the catalog | catalog `[p]` with stored ids `{p.id, "gone"}`: the completion rate shows 200% | count only the catalog problems whose id is solved, which keeps the rate within 0..100 | not executed | DashboardPage.StaleIdRateAbove100 | DashboardPage.CompletionRate |
