/** The records shared by the store, the client cache and the dashboard
    components, with the calendar arithmetic they rely on. Instants are
    milliseconds since the Unix epoch. */
module Domain {

  datatype Option<T> = None | Some(value: T)

  datatype Difficulty = Easy | Medium | Hard

  /** Gamification levels; Platinum stands for every level above Gold. */
  datatype Level = Bronze | Silver | Gold | Platinum

  datatype GoalType = Daily | Weekly | Monthly

  datatype NoteType = General | Mistakes | Insights

  /** A catalog problem. `pattern` is `None` for a problem without one. */
  datatype Problem = Problem(
    id: string,
    title: string,
    url: string,
    isPremium: bool,
    difficulty: Difficulty,
    pattern: Option<string>,
    topics: seq<string>,
    questionNo: int)

  /** A user profile row. */
  datatype User = User(
    email: string,
    currentStreak: nat,
    longestStreak: nat,
    level: Level,
    xp: int,
    updatedAt: int)

  /** One row of the (user, problem) progress table. */
  datatype ProgressRow = ProgressRow(
    userId: string,
    problemId: string,
    solved: bool,
    solvedAt: Option<int>,
    timeSpent: int,
    attempts: int,
    updatedAt: int)

  /** One row of the (user, pattern) mastery table, a materialised recount. */
  datatype MasteryRow = MasteryRow(
    userId: string,
    pattern: string,
    problemsSolved: nat,
    totalProblems: nat,
    masteryPercentage: real)

  /** One row of the (user, problem, type) notes table. */
  datatype NoteRow = NoteRow(
    userId: string,
    problemId: string,
    noteType: NoteType,
    content: string,
    updatedAt: int)

  datatype Goal = Goal(
    id: string,
    title: string,
    description: Option<string>,
    goalType: GoalType,
    target: int,
    current: int,
    active: bool,
    createdAt: int,
    updatedAt: int)

  datatype GoalRow = GoalRow(userId: string, goal: Goal)

  /** One row of the study-session log. */
  datatype StudySession = StudySession(userId: string, sessionDate: int, duration: int)

  /** The statistics record served to the dashboard. The floating-point
      weekly ratio is replaced by its numerator `weeklySolved`. */
  datatype Stats = Stats(
    totalSolved: nat,
    totalProblems: nat,
    easyCompleted: nat,
    mediumCompleted: nat,
    hardCompleted: nat,
    currentStreak: nat,
    longestStreak: nat,
    studyTimeToday: int,
    weeklySolved: nat,
    level: Level,
    xp: int,
    nextLevelXp: nat)

  datatype DayActivity = DayActivity(day: string, problems: nat)

  datatype MonthKey = MonthKey(year: int, month: int)

  datatype MonthTrend = MonthTrend(month: MonthKey, easy: nat, medium: nat, hard: nat)

  datatype Analytics = Analytics(
    weeklyActivity: seq<DayActivity>,
    patternProgress: seq<MasteryRow>,
    difficultyTrends: seq<MonthTrend>)

  const MsPerDay: int := 86400000

  /** Calendar day number of an instant (days since 1970-01-01). */
  function DayOf(t: int): int
  {
    t / MsPerDay
  }

  /** Local midnight that starts the day of `t`. */
  function Midnight(t: int): (m: int)
    ensures m <= t < m + MsPerDay
    ensures DayOf(m) == DayOf(t)
  {
    DayOf(t) * MsPerDay
  }

  /** Weekday of an instant, 0 = Sunday ... 6 = Saturday (1970-01-01 was a Thursday). */
  function WeekdayOf(t: int): (d: int)
    ensures 0 <= d < 7
  {
    (DayOf(t) + 4) % 7
  }

  predicate IsLeapYear(y: int)
  {
    (y % 4 == 0 && y % 100 != 0) || y % 400 == 0
  }

  function YearLength(y: int): int
  {
    if IsLeapYear(y) then 366 else 365
  }

  function MonthLength(y: int, m: int): int
  {
    if m == 2 then (if IsLeapYear(y) then 29 else 28)
    else if m == 4 || m == 6 || m == 9 || m == 11 then 30
    else 31
  }

  /** The year holding day `d`, counted from January 1 of year `y`, and the
      offset of that day within its year. */
  function YearAndOffset(y: int, d: int): (r: (int, int))
    ensures 0 <= r.1 < YearLength(r.0)
    decreases if d < 0 then -d else 0, if d < 0 then 0 else d
  {
    if d < 0 then YearAndOffset(y - 1, d + YearLength(y - 1))
    else if d < YearLength(y) then (y, d)
    else YearAndOffset(y + 1, d - YearLength(y))
  }

  /** The month, from `m` on, holding day `d` of year `y` counted from the
      first day of month `m`. */
  function MonthFrom(y: int, m: int, d: int): (r: int)
    requires 1 <= m <= 12
    ensures m <= r <= 12
    decreases 12 - m
  {
    if m == 12 || d < MonthLength(y, m) then m
    else MonthFrom(y, m + 1, d - MonthLength(y, m))
  }

  /** Calendar (year, month) of an instant in the proleptic Gregorian calendar. */
  function MonthOf(t: int): (k: MonthKey)
    ensures 1 <= k.month <= 12
  {
    var (y, d) := YearAndOffset(1970, DayOf(t));
    MonthKey(y, MonthFrom(y, 1, d))
  }

  /** Months in chronological order as one number. */
  function MonthIndex(k: MonthKey): (n: int)
    ensures 1 <= k.month <= 12 ==> k.year == (n - 1) / 12 && k.month == (n - 1) % 12 + 1
  {
    k.year * 12 + k.month
  }
}
