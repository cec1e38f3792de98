/** The goals page: creating, merging updates into and deleting goals in
    the page's list, the active and completed sections, the completed and
    behind-target markers and the progress colour. Each operation is the
    list updater the page hands to its state setter. */
module GoalsManager {
  import opened Domain
  import opened Collections
  import opened Text
  import opened JsNumber

  /** The new-goal form. */
  datatype GoalForm = GoalForm(title: string, description: string, goalType: GoalType, target: int)

  /** The form as first shown and after each creation: daily, target 3. */
  const BlankForm: GoalForm := GoalForm("", "", Daily, 3)

  /** "Create Goal" is enabled only once the title is non-empty. */
  predicate CanCreate(form: GoalForm)
    ensures CanCreate(form) <==> |form.title| > 0
  {
    form.title != ""
  }

  /** The goal created from the form at instant `now`; its id is the
      decimal form of `now`. */
  function NewGoal(form: GoalForm, now: nat): (g: Goal)
    ensures g.title == form.title && g.description == Some(form.description)
    ensures g.goalType == form.goalType && g.target == form.target
    ensures g.current == 0 && g.active
    ensures g.createdAt == now && g.updatedAt == now
    ensures |g.id| >= 1 && forall i :: 0 <= i < |g.id| ==> '0' <= g.id[i] <= '9'
  {
    Goal(NatToString(now), form.title, Some(form.description), form.goalType, form.target, 0, true, now, now)
  }

  /** Creation appends exactly one goal, leaves the others as they were
      and resets the form. */
  function CreateGoal(goals: seq<Goal>, form: GoalForm, now: nat): (r: (seq<Goal>, GoalForm))
    requires CanCreate(form)
    ensures |r.0| == |goals| + 1 && r.0[..|goals|] == goals
    ensures r.0[|goals|].title != ""
    ensures r.0[|goals|] == NewGoal(form, now)
    ensures r.1 == BlankForm
  {
    (goals + [NewGoal(form, now)], BlankForm)
  }

  /** The reset form disables "Create Goal" again, so each creation needs
      a title typed anew. */
  lemma CreateDisablesButton(goals: seq<Goal>, form: GoalForm, now: nat)
    requires CanCreate(form)
    ensures !CanCreate(CreateGoal(goals, form, now).1)
    ensures !CanCreate(BlankForm)
  {
  }

  /** A `Partial<Goal>`: each present field replaces the goal's own. */
  datatype GoalPatch = GoalPatch(
    id: Option<string>,
    title: Option<string>,
    description: Option<Option<string>>,
    goalType: Option<GoalType>,
    target: Option<int>,
    current: Option<int>,
    active: Option<bool>,
    createdAt: Option<int>,
    updatedAt: Option<int>)

  const EmptyPatch: GoalPatch := GoalPatch(None, None, None, None, None, None, None, None, None)

  function Pick<T>(o: Option<T>, d: T): (r: T)
    ensures o.Some? ==> r == o.value
    ensures o.None? ==> r == d
  {
    if o.Some? then o.value else d
  }

  /** `{ ...goal, ...updates }`. */
  function Merge(g: Goal, u: GoalPatch): (r: Goal)
    ensures u.id.Some? ==> r.id == u.id.value
    ensures u.id.None? ==> r.id == g.id
    ensures u.title.Some? ==> r.title == u.title.value
    ensures u.title.None? ==> r.title == g.title
    ensures u.description.Some? ==> r.description == u.description.value
    ensures u.description.None? ==> r.description == g.description
    ensures u.goalType.Some? ==> r.goalType == u.goalType.value
    ensures u.goalType.None? ==> r.goalType == g.goalType
    ensures u.target.Some? ==> r.target == u.target.value
    ensures u.target.None? ==> r.target == g.target
    ensures u.current.Some? ==> r.current == u.current.value
    ensures u.current.None? ==> r.current == g.current
    ensures u.active.Some? ==> r.active == u.active.value
    ensures u.active.None? ==> r.active == g.active
    ensures u.createdAt.Some? ==> r.createdAt == u.createdAt.value
    ensures u.createdAt.None? ==> r.createdAt == g.createdAt
    ensures u.updatedAt.Some? ==> r.updatedAt == u.updatedAt.value
    ensures u.updatedAt.None? ==> r.updatedAt == g.updatedAt
    ensures u == EmptyPatch ==> r == g
  {
    Goal(Pick(u.id, g.id), Pick(u.title, g.title), Pick(u.description, g.description),
      Pick(u.goalType, g.goalType), Pick(u.target, g.target), Pick(u.current, g.current),
      Pick(u.active, g.active), Pick(u.createdAt, g.createdAt), Pick(u.updatedAt, g.updatedAt))
  }

  /** Merging the same updates twice is merging them once. */
  lemma MergeIdempotent(g: Goal, u: GoalPatch)
    ensures Merge(Merge(g, u), u) == Merge(g, u)
  {
  }

  /** The updates are merged into every goal with that id; the list keeps
      its length and order. */
  function UpdateGoal(goals: seq<Goal>, id: string, u: GoalPatch): (r: seq<Goal>)
    ensures |r| == |goals|
    ensures forall i :: 0 <= i < |goals| ==> r[i] == (if goals[i].id == id then Merge(goals[i], u) else goals[i])
  {
    seq(|goals|, i requires 0 <= i < |goals| => if goals[i].id == id then Merge(goals[i], u) else goals[i])
  }

  /** Repeating an update that keeps the id changes nothing more. */
  lemma UpdateIdempotent(goals: seq<Goal>, id: string, u: GoalPatch)
    requires u.id.None? || u.id == Some(id)
    ensures UpdateGoal(UpdateGoal(goals, id, u), id, u) == UpdateGoal(goals, id, u)
  {
    var once := UpdateGoal(goals, id, u);
    forall i | 0 <= i < |goals|
      ensures UpdateGoal(once, id, u)[i] == once[i]
    {
      if goals[i].id == id {
        MergeIdempotent(goals[i], u);
      }
    }
  }

  function OtherIdSel(id: string): Goal -> bool
  {
    (g: Goal) => g.id != id
  }

  /** Deletion drops every goal with that id and keeps the rest in order. */
  function DeleteGoal(goals: seq<Goal>, id: string): (r: seq<Goal>)
    ensures IsSubsequence(r, goals)
    ensures forall i :: 0 <= i < |r| ==> r[i].id != id
    ensures forall i :: 0 <= i < |goals| && goals[i].id != id ==> goals[i] in r
  {
    FilterIsSubsequence(OtherIdSel(id), goals);
    Filter(OtherIdSel(id), goals)
  }

  /** Deleting a goal just created, under a fresh id, gives back the list
      as it was. */
  lemma {:induction false} DeleteUndoesCreate(goals: seq<Goal>, form: GoalForm, now: nat)
    requires CanCreate(form)
    requires forall i :: 0 <= i < |goals| ==> goals[i].id != NatToString(now)
    ensures DeleteGoal(CreateGoal(goals, form, now).0, NatToString(now)) == goals
  {
    var id := NatToString(now);
    FilterAppend(OtherIdSel(id), goals, [NewGoal(form, now)]);
    assert [NewGoal(form, now)][1..] == [];
    FilterAll(OtherIdSel(id), goals);
  }

  /** A filter every element passes keeps the whole sequence. */
  lemma {:induction false} FilterAll<T>(p: T -> bool, s: seq<T>)
    requires forall i :: 0 <= i < |s| ==> p(s[i])
    ensures Filter(p, s) == s
  {
    if s != [] {
      assert forall i :: 0 <= i < |s[1..]| ==> s[1..][i] == s[i + 1];
      FilterAll(p, s[1..]);
    }
  }

  /** `(current / target) * 100` as a JavaScript number. */
  function Progress(g: Goal): (p: Num)
    ensures g.target != 0 ==> p == Finite(g.current as real * 100.0 / g.target as real)
    ensures g.target == 0 ==> (p == NaN <==> g.current == 0)
  {
    PercentOf(g.current, g.target)
  }

  /** The "Completed!" marker of an active goal. */
  predicate IsCompleted(g: Goal)
  {
    AtLeast(Progress(g), 100.0)
  }

  /** The "Behind target" marker: under half way on a daily goal. */
  predicate IsAtRisk(g: Goal)
  {
    Below(Progress(g), 50.0) && g.goalType == Daily
  }

  /** A goal is never both completed and behind target; with no target and
      no progress (NaN) it is neither. */
  lemma MarkersExclusive(g: Goal)
    ensures !(IsCompleted(g) && IsAtRisk(g))
    ensures g.target == 0 && g.current == 0 ==> !IsCompleted(g) && !IsAtRisk(g)
  {
    AtLeastOrBelow(Progress(g), 100.0);
  }

  /** A goal belongs to the completed section when inactive or when
      `current / target >= 1`. */
  predicate InCompletedSection(g: Goal)
  {
    !g.active || AtLeast(Div(g.current, g.target), 1.0)
  }

  /** An active goal shows "Completed!" exactly when it is also listed in
      the completed section. */
  lemma CompletedMarkerMatchesSection(g: Goal)
    requires g.active
    ensures IsCompleted(g) <==> InCompletedSection(g)
  {
    if g.target != 0 {
      var q := g.current as real / g.target as real;
      assert g.current as real * 100.0 / g.target as real == q * 100.0;
    }
  }

  function ActiveSel(): Goal -> bool
  {
    (g: Goal) => g.active
  }

  function CompletedSel(): Goal -> bool
  {
    (g: Goal) => InCompletedSection(g)
  }

  /** The active section: exactly the active goals, in list order. */
  function ActiveGoals(goals: seq<Goal>): (r: seq<Goal>)
    ensures IsSubsequence(r, goals)
    ensures forall i :: 0 <= i < |r| ==> r[i].active
    ensures forall i :: 0 <= i < |goals| && goals[i].active ==> goals[i] in r
  {
    FilterIsSubsequence(ActiveSel(), goals);
    Filter(ActiveSel(), goals)
  }

  /** The completed section: the inactive goals and those at or past their
      target, in list order. */
  function CompletedGoals(goals: seq<Goal>): (r: seq<Goal>)
    ensures IsSubsequence(r, goals)
    ensures forall i :: 0 <= i < |r| ==> InCompletedSection(r[i])
    ensures forall i :: 0 <= i < |goals| && InCompletedSection(goals[i]) ==> goals[i] in r
  {
    FilterIsSubsequence(CompletedSel(), goals);
    Filter(CompletedSel(), goals)
  }

  /** Every goal is shown in at least one section. */
  lemma EveryGoalShown(goals: seq<Goal>, i: int)
    requires 0 <= i < |goals|
    ensures goals[i] in ActiveGoals(goals) || goals[i] in CompletedGoals(goals)
  {
  }

  /** The progress bar colours, lowest first. */
  datatype Color = Red | Orange | Yellow | Green

  function ColorRank(c: Color): (n: nat)
    ensures n <= 3
  {
    match c
    case Red => 0
    case Orange => 1
    case Yellow => 2
    case Green => 3
  }

  /** Green from 100, yellow from 75, orange from 50, red below (and for
      NaN). */
  function ProgressColor(p: Num): (c: Color)
    ensures c == Green <==> AtLeast(p, 100.0)
    ensures c == Red <==> !AtLeast(p, 50.0)
    ensures c == Yellow <==> AtLeast(p, 75.0) && !AtLeast(p, 100.0)
  {
    if AtLeast(p, 100.0) then Green
    else if AtLeast(p, 75.0) then Yellow
    else if AtLeast(p, 50.0) then Orange
    else Red
  }

  /** More progress never gives a lower colour. */
  lemma ProgressColorMonotone(a: real, b: real)
    requires a <= b
    ensures ColorRank(ProgressColor(Finite(a))) <= ColorRank(ProgressColor(Finite(b)))
  {
  }
}
