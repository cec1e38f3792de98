/** The statistics cards: star ratings from thresholds on a percentage, the
    five-star row, the level's stars and the two achievement badges. */
module StatsOverview {
  import opened Domain
  import opened JsNumber
  import opened Gamification

  /** Star rating of `value` out of `max`: 5, 4, 3, 2 from 80, 60, 40, 20
      percent, else 1. The percentage is a JavaScript number, so `max = 0`
      gives infinity (5 stars) or NaN (1 star). */
  function StarRating(value: int, max: int): (r: int)
    ensures 1 <= r <= 5
    ensures r == 5 <==> AtLeast(PercentOf(value, max), 80.0)
    ensures r == 4 <==> AtLeast(PercentOf(value, max), 60.0) && !AtLeast(PercentOf(value, max), 80.0)
    ensures r == 3 <==> AtLeast(PercentOf(value, max), 40.0) && !AtLeast(PercentOf(value, max), 60.0)
    ensures r == 2 <==> AtLeast(PercentOf(value, max), 20.0) && !AtLeast(PercentOf(value, max), 40.0)
    ensures r == 1 <==> !AtLeast(PercentOf(value, max), 20.0)
  {
    var p := PercentOf(value, max);
    if AtLeast(p, 80.0) then 5
    else if AtLeast(p, 60.0) then 4
    else if AtLeast(p, 40.0) then 3
    else if AtLeast(p, 20.0) then 2
    else 1
  }

  /** For a fixed positive maximum, more never gives fewer stars. */
  lemma StarRatingMonotone(a: int, b: int, max: int)
    requires max > 0 && a <= b
    ensures StarRating(a, max) <= StarRating(b, max)
  {
    var m := max as real;
    assert a as real * 100.0 <= b as real * 100.0;
    assert a as real * 100.0 / m <= b as real * 100.0 / m;
  }

  /** Bronze 2, Silver 3, Gold 4 and any higher level 5 stars. */
  function LevelStars(l: Level): (n: int)
    ensures 2 <= n <= 5
    ensures n == Rank(l) + 2
  {
    match l
    case Bronze => 2
    case Silver => 3
    case Gold => 4
    case Platinum => 5
  }

  /** The row of `n` star slots of which those before `count` are filled. */
  function Stars(n: nat, count: int): (r: seq<bool>)
    ensures |r| == n
    ensures forall i :: 0 <= i < n ==> r[i] == (i < count)
  {
    seq(n, i => i < count)
  }

  /** The five-star row. */
  function RenderStars(count: int): (r: seq<bool>)
    ensures |r| == 5
    ensures forall i :: 0 <= i < 5 ==> (r[i] <==> i < count)
  {
    Stars(5, count)
  }

  /** Number of filled slots. */
  function Filled(s: seq<bool>): nat
  {
    if s == [] then 0 else Filled(s[..|s| - 1]) + (if s[|s| - 1] then 1 else 0)
  }

  function Clamp(x: int, lo: int, hi: int): int
  {
    if x < lo then lo else if x > hi then hi else x
  }

  lemma {:induction false} StarsFilled(n: nat, count: int)
    ensures Filled(Stars(n, count)) == Clamp(count, 0, n)
  {
    if n > 0 {
      StarsFilled(n - 1, count);
      assert Stars(n, count)[..n - 1] == Stars(n - 1, count);
    }
  }

  /** The row always has five stars, the first `count` of them (clamped to
      0 .. 5) filled. */
  lemma RenderStarsFilled(count: int)
    ensures Filled(RenderStars(count)) == Clamp(count, 0, 5)
  {
    StarsFilled(5, count);
  }

  /** The stars above the difficulty breakdown: one per 50 problems
      solved, rounded up. */
  function DifficultyStars(solved: nat): (n: nat)
    ensures (n - 1) * 50 < solved <= n * 50 || (n == 0 && solved == 0)
  {
    (solved + 49) / 50
  }

  /** The "On Fire" badge. */
  predicate OnFire(currentStreak: int)
  {
    currentStreak >= 7
  }

  /** The "Focused" badge. */
  predicate Focused(studyMinutesToday: int)
  {
    studyMinutesToday >= 120
  }

  /** A streak that earns "On Fire" is worth at least two streak stars (out
      of 30 days), and a day that earns "Focused" at least three study
      stars (out of 240 minutes). */
  lemma BadgesImplyStars(currentStreak: int, studyMinutesToday: int)
    ensures OnFire(currentStreak) ==> StarRating(currentStreak, 30) >= 2
    ensures Focused(studyMinutesToday) ==> StarRating(studyMinutesToday, 240) >= 3
  {
    if OnFire(currentStreak) {
      StarRatingMonotone(7, currentStreak, 30);
    }
    if Focused(studyMinutesToday) {
      StarRatingMonotone(120, studyMinutesToday, 240);
    }
  }
}
