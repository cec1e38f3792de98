/** The gamification rules of the progress store: experience points, level
    promotion and the daily solving streak. */
module Gamification {
  import opened Domain

  /** Experience granted by a toggle that marks a problem solved. */
  const SolveXp: int := 10

  /** Position of a level in the promotion order. */
  function Rank(l: Level): nat
  {
    match l
    case Bronze => 0
    case Silver => 1
    case Gold => 2
    case Platinum => 3
  }

  /** The experience total shown as the next milestone of a level. */
  function NextLevelXp(l: Level): (n: nat)
    ensures l == Gold <==> n == 5000
    ensures l == Silver <==> n == 2500
    ensures l != Gold && l != Silver <==> n == 1000
  {
    match l
    case Bronze => 1000
    case Silver => 2500
    case Gold => 5000
    case Platinum => 1000
  }

  /** The level after the experience total became `newXp`: Bronze moves up
      to Silver from 1000 and Silver to Gold from 2500, one step at most;
      every other level stays. */
  function Promote(l: Level, newXp: int): (r: Level)
    ensures Rank(r) == Rank(l) || Rank(r) == Rank(l) + 1
    ensures Rank(r) == Rank(l) + 1 <==> (l == Bronze && newXp >= 1000) || (l == Silver && newXp >= 2500)
  {
    if l == Bronze && newXp >= 1000 then Silver
    else if l == Silver && newXp >= 2500 then Gold
    else l
  }

  /** For the two levels that can be promoted, the milestone shown is exactly
      the threshold of promotion. */
  lemma PromotionAtMilestone(l: Level, newXp: int)
    requires l == Bronze || l == Silver
    ensures Promote(l, newXp) != l <==> newXp >= NextLevelXp(l)
  {
  }

  /** Gold and above are never promoted, whatever the experience total. */
  lemma NoPromotionFromGold(l: Level, newXp: int)
    requires Rank(l) >= 2
    ensures Promote(l, newXp) == l
  {
  }

  /** Promotion is monotone in the experience total. */
  lemma PromoteMonotone(l: Level, x: int, y: int)
    requires x <= y
    ensures Rank(Promote(l, x)) <= Rank(Promote(l, y))
  {
  }

  datatype Streak = Streak(current: nat, longest: nat)

  /** The streak update given the calendar day of the latest solve and today:
      `None` when the latest solve is today (no write), otherwise the streak
      grows by one after a solve yesterday and restarts at 1 after a gap; the
      longest streak is the maximum of the new and the old one. */
  function NextStreak(s: Streak, lastDay: int, today: int): (r: Option<Streak>)
    ensures r.None? <==> lastDay == today
    ensures r.Some? && lastDay == today - 1 ==> r.value.current == s.current + 1
    ensures r.Some? && lastDay != today - 1 ==> r.value.current == 1
    ensures r.Some? ==> r.value.longest >= r.value.current && r.value.longest >= s.longest
    ensures r.Some? ==> r.value.longest == r.value.current || r.value.longest == s.longest
  {
    if lastDay == today then None
    else
      var current := if lastDay == today - 1 then s.current + 1 else 1;
      Some(Streak(current, if current > s.longest then current else s.longest))
  }

  /** The stored streak after the update of `NextStreak`. */
  function ApplyStreak(s: Streak, lastDay: int, today: int): (r: Streak)
    ensures lastDay == today ==> r == s
    ensures lastDay == today - 1 ==> r.current == s.current + 1
    ensures lastDay != today && lastDay != today - 1 ==> r.current == 1
    ensures r.longest >= s.longest
    ensures s.current <= s.longest ==> r.current <= r.longest
  {
    var r := NextStreak(s, lastDay, today);
    if r.Some? then r.value else s
  }

  /** Solves on the days `days`, each following a solve on the day before it
      in the sequence (`prev` for the first). */
  function Replay(s: Streak, prev: int, days: seq<int>): (r: Streak)
    ensures r.longest >= s.longest
    ensures s.current <= s.longest ==> r.current <= r.longest
    ensures days == [] ==> r == s
    decreases |days|
  {
    if days == [] then s
    else Replay(ApplyStreak(s, prev, days[0]), days[0], days[1..])
  }

  /** Solving on consecutive calendar days grows the streak by one per day,
      and the longest streak never falls below the current one. */
  lemma {:induction false} ConsecutiveDaysGrowStreak(s: Streak, prev: int, days: seq<int>)
    requires s.current <= s.longest
    requires days != [] ==> days[0] == prev + 1
    requires forall i :: 0 < i < |days| ==> days[i] == days[i - 1] + 1
    ensures Replay(s, prev, days).current == s.current + |days|
    ensures Replay(s, prev, days).current <= Replay(s, prev, days).longest
    decreases |days|
  {
    if days != [] {
      var t := ApplyStreak(s, prev, days[0]);
      assert t.current == s.current + 1;
      ConsecutiveDaysGrowStreak(t, days[0], days[1..]);
    }
  }

  /** A gap of more than one day resets the streak to 1. */
  lemma GapResetsStreak(s: Streak, lastDay: int, today: int)
    requires lastDay < today - 1
    ensures ApplyStreak(s, lastDay, today).current == 1
    ensures ApplyStreak(s, lastDay, today).longest >= s.longest
  {
  }
}
