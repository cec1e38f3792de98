/** The dashboard page: the catalog grouped by pattern, the solved set kept
    in the browser, the solved and per-difficulty counts, the fixed pattern
    order of the accordion and the weekly goal card. */
module DashboardPage {
  import opened Domain
  import opened Collections
  import opened ListState
  import opened PatternGroups

  /** Problems of catalog `all` with difficulty `d`. */
  function DifficultySel(d: Difficulty): Problem -> bool
  {
    (p: Problem) => p.difficulty == d
  }

  function SolvedSel(solved: set<string>): Problem -> bool
  {
    (p: Problem) => p.id in solved
  }

  function SolvedWithSel(solved: set<string>, d: Difficulty): Problem -> bool
  {
    (p: Problem) => p.difficulty == d && p.id in solved
  }

  /** The solved count the page shows: the size of the stored set. */
  function TotalSolvedAsWritten(solved: set<string>): (n: nat)
    ensures n == |solved|
  {
    |solved|
  }

  /** A stored id of a problem no longer in the catalog is still counted,
      so the solved count exceeds the catalog size. */
  lemma StaleIdExceedsCatalog()
    ensures TotalSolvedAsWritten({"gone"}) > |Flat([], map[])|
  {
  }

  /** The solved count restricted to the catalog. */
  function CatalogSolved(all: seq<Problem>, solved: set<string>): (n: nat)
    ensures n <= |all|
    ensures n == |Filter(SolvedSel(solved), all)|
  {
    Count(SolvedSel(solved), all)
  }

  function IdOf(): Problem -> string
  {
    (p: Problem) => p.id
  }

  /** The solved problems of a catalog without repeated ids have distinct
      ids, all of them in the solved set, so there are at most |solved|. */
  lemma SolvedIdsWithin(all: seq<Problem>, solved: set<string>)
    requires DistinctBy(all, IdOf())
    ensures CatalogSolved(all, solved) <= |solved|
  {
    var f := Filter(SolvedSel(solved), all);
    FilterPreservesDistinct(SolvedSel(solved), all, IdOf());
    DistinctKeySetSize(f, IdOf());
    assert KeySet(f, IdOf()) <= solved;
    SubsetSize(KeySet(f, IdOf()), solved);
  }

  /** Solved problems of difficulty `d` in the catalog. */
  function CompletedOf(all: seq<Problem>, solved: set<string>, d: Difficulty): (n: nat)
    ensures n <= Count(DifficultySel(d), all)
    ensures n <= CatalogSolved(all, solved)
  {
    CountMonotone(SolvedWithSel(solved, d), DifficultySel(d), all);
    CountMonotone(SolvedWithSel(solved, d), SolvedSel(solved), all);
    Count(SolvedWithSel(solved, d), all)
  }

  /** The three difficulty counts add up to the catalog problems solved. */
  lemma {:induction false} DifficultyBreakdown(all: seq<Problem>, solved: set<string>)
    ensures CompletedOf(all, solved, Easy) + CompletedOf(all, solved, Medium) + CompletedOf(all, solved, Hard)
      == CatalogSolved(all, solved)
  {
    CountPartition3(SolvedSel(solved), (p: Problem) => p.difficulty, Easy, Medium, Hard,
      SolvedWithSel(solved, Easy), SolvedWithSel(solved, Medium), SolvedWithSel(solved, Hard), all);
  }

  /** The completion rate as shown: solved over catalog size, in percent. */
  function CompletionRateAsWritten(solved: set<string>, all: seq<Problem>): (r: real)
    ensures |all| == 0 ==> r == 0.0
    ensures |all| > 0 ==> r * (|all| as real) == (|solved| as real) * 100.0
  {
    if |all| > 0 then (|solved| as real / |all| as real) * 100.0 else 0.0
  }

  /** With one stale id over an empty-but-one catalog, the rate is 200%. */
  lemma StaleIdRateAbove100(p: Problem)
    requires p.id != "gone"
    ensures CompletionRateAsWritten({p.id, "gone"}, [p]) == 200.0
  {
  }

  /** The completion rate over the catalog's solved problems. */
  function CompletionRate(all: seq<Problem>, solved: set<string>): (r: real)
    ensures 0.0 <= r <= 100.0
    ensures |all| > 0 ==> r * (|all| as real) == (CatalogSolved(all, solved) as real) * 100.0
  {
    if |all| > 0 then Percent(CatalogSolved(all, solved), |all|) else 0.0
  }

  /** `a / b * 100` for `a <= b`. */
  function Percent(a: nat, b: nat): (r: real)
    requires 0 < b && a <= b
    ensures 0.0 <= r <= 100.0
    ensures r * (b as real) == (a as real) * 100.0
  {
    RatioPercent(a, b);
    (a as real / b as real) * 100.0
  }

  /** `a / b * 100` for `a <= b` lies in 0 .. 100 and undoes the division. */
  lemma RatioPercent(a: nat, b: nat)
    requires 0 < b && a <= b
    ensures 0.0 <= (a as real / b as real) * 100.0 <= 100.0
    ensures ((a as real / b as real) * 100.0) * (b as real) == (a as real) * 100.0
  {
    var q := a as real / b as real;
    assert q * (b as real) == a as real;
    assert q <= 1.0 by {
      if q > 1.0 {
        assert q * (b as real) > 1.0 * (b as real);
      }
    }
    assert (q * 100.0) * (b as real) == (q * (b as real)) * 100.0;
  }

  /** The progress of one accordion group: solved and total. */
  function PatternProgress(group: seq<Problem>, solved: set<string>): (r: (nat, nat))
    ensures r.1 == |group| && r.0 <= r.1
    ensures r.0 == CatalogSolved(group, solved)
  {
    (Count(SolvedSel(solved), group), |group|)
  }

  /** Every group the accordion renders has at least one problem, and its
      solved count never exceeds it. */
  lemma RenderedGroupsAreNonEmpty(problems: seq<Problem>, groups: map<string, seq<Problem>>, solved: set<string>, k: string)
    requires forall k :: k in groups ==> groups[k] == Filter(PatternSel(k), problems) && |groups[k]| >= 1
    requires k in groups
    ensures PatternProgress(groups[k], solved).1 >= 1
    ensures PatternProgress(groups[k], solved).0 <= PatternProgress(groups[k], solved).1
  {
  }

  /** The accordion's fixed pattern order. */
  const PatternOrder: seq<string> := [
    "Two Pointers",
    "Sliding Window",
    "Prefix Sums",
    "Merge Intervals",
    "Binary Search (and Variants)",
    "Sorting-Based Patterns",
    "Fast and Slow Pointers",
    "Backtracking & Recursive Search",
    "Divide and Conquer",
    "Linked List Techniques (Dummy Node, In-place Reversal)",
    "Stacks and Queues",
    "Monotonic Stack / Queue",
    "Expression Evaluation (Two Stacks)",
    "String Manipulation & Regular Expressions",
    "Hashmaps & Frequency Counting",
    "Binary Trees & BSTs (Traversal, Construction, Properties)",
    "Path Sum & Root-to-Leaf Techniques",
    "Kth Largest/Smallest Elements (Heaps / QuickSelect)",
    "Top K Frequent Elements",
    "Merge K Sorted Lists",
    "Dynamic Programming (Including Knapsack, Range DP, etc.)",
    "Greedy & Interval Partitioning",
    "Graph Traversals (BFS, DFS)",
    "Graph Algorithms (DAGs, MSTs, Shortest Paths, etc.)",
    "Design Problems (LRU Cache, Twitter, etc.)"
  ]

  function InSel(s: seq<string>): string -> bool
  {
    (x: string) => x in s
  }

  function NotInSel(s: seq<string>): string -> bool
  {
    (x: string) => x !in s
  }

  /** The listed patterns in the fixed order, then the others in their own
      order. */
  function OrderedPatterns(order: seq<string>, present: seq<string>): (r: seq<string>)
    ensures |r| <= |order| + |present|
    ensures forall x :: x in r <==> x in present
  {
    Filter(InSel(present), order) + Filter(NotInSel(order), present)
  }

  /** The ordering is a permutation of the present patterns: each appears
      exactly once. */
  lemma OrderedPatternsPermutes(order: seq<string>, present: seq<string>)
    requires Distinct(order) && Distinct(present)
    ensures multiset(OrderedPatterns(order, present)) == multiset(present)
    ensures Distinct(OrderedPatterns(order, present))
  {
    var r := OrderedPatterns(order, present);
    forall x ensures multiset(r)[x] == multiset(present)[x] {
      FilterMultiplicity(InSel(present), order, x);
      FilterMultiplicity(NotInSel(order), present, x);
      DistinctMultiplicity(present, x);
    }
    assert multiset(r) == multiset(present);
    PermutationPreservesDistinct(present, r);
  }

  /** The listed patterns come first, in the fixed order; the others
      follow in their own order and are not in the fixed order. */
  lemma OrderedPatternsLayout(order: seq<string>, present: seq<string>, listed: seq<string>, r: seq<string>)
    requires listed == Filter(InSel(present), order)
    requires r == OrderedPatterns(order, present)
    ensures |listed| <= |r| && r[..|listed|] == listed && IsSubsequence(listed, order)
    ensures IsSubsequence(r[|listed|..], present)
    ensures forall i :: |listed| <= i < |r| ==> r[i] !in order
  {
    var rest := Filter(NotInSel(order), present);
    assert r == listed + rest;
    PrefixOfAppend(listed, rest);
    assert r[|listed|..] == rest;
    FilterIsSubsequence(InSel(present), order);
    FilterIsSubsequence(NotInSel(order), present);
    forall i | |listed| <= i < |r| ensures r[i] !in order {
      assert r[i] == rest[i - |listed|];
    }
  }

  /** The fixed order names each pattern once. */
  lemma PatternOrderDistinct()
    ensures Distinct(PatternOrder)
  {
  }

  /** The accordion layout of the loaded keys under an order without
      repetitions: exactly the loaded patterns, each once when the keys have
      no repetitions. */
  function LayoutOf(order: seq<string>, keys: seq<string>): (r: seq<string>)
    requires Distinct(order)
    ensures forall x :: x in r <==> x in keys
    ensures Distinct(keys) ==> Distinct(r) && multiset(r) == multiset(keys)
  {
    OrderedKeysPermute(order, keys);
    OrderedPatterns(order, keys)
  }

  /** Under an order without repetitions, keys without repetitions are laid
      out once each. */
  lemma OrderedKeysPermute(order: seq<string>, keys: seq<string>)
    requires Distinct(order)
    ensures Distinct(keys) ==>
      Distinct(OrderedPatterns(order, keys)) && multiset(OrderedPatterns(order, keys)) == multiset(keys)
  {
    if Distinct(keys) {
      OrderedPatternsPermutes(order, keys);
    }
  }

  const WeeklyTarget: nat := 15

  /** The weekly card: how many remain to 15, or the goal is completed. */
  datatype WeeklyCard = Remaining(left: nat) | GoalCompleted

  function WeeklyStatus(totalSolved: nat): (c: WeeklyCard)
    ensures c.GoalCompleted? <==> totalSolved >= WeeklyTarget
    ensures c.Remaining? ==> 1 <= c.left <= WeeklyTarget && c.left + totalSolved == WeeklyTarget
  {
    if totalSolved >= WeeklyTarget then GoalCompleted else Remaining(WeeklyTarget - totalSolved)
  }

  /** Solving one more never increases what remains. */
  lemma WeeklyStatusMonotone(a: nat, b: nat)
    requires a <= b
    ensures WeeklyStatus(a).GoalCompleted? ==> WeeklyStatus(b).GoalCompleted?
    ensures WeeklyStatus(b).Remaining? ==> WeeklyStatus(b).left <= WeeklyStatus(a).left
  {
  }

  class Dashboard {
    var solved: set<string>
    var storage: set<string>
    var keys: seq<string>
    var groups: map<string, seq<Problem>>

    /** The page as first rendered: nothing solved, no groups. */
    constructor ()
      ensures solved == {} && storage == {} && keys == [] && groups == map[]
    {
      solved, storage, keys, groups := {}, {}, [], map[];
    }

    /** Restoring the solved ids kept in the browser, if any. */
    method RestoreSolved(stored: Option<seq<string>>)
      modifies this`solved
      ensures stored.Some? ==> solved == set i | 0 <= i < |stored.value| :: stored.value[i]
      ensures stored.None? ==> solved == old(solved)
    {
      if stored.Some? {
        solved := set i | 0 <= i < |stored.value| :: stored.value[i];
      }
    }

    /** The catalog arrived and is grouped by pattern; on a failed request
        the groups stay as they were. */
    method LoadProblems(result: Option<seq<Problem>>)
      modifies this`keys, this`groups
      ensures result.Some? ==> Distinct(keys)
      ensures result.Some? ==> forall k :: k in groups <==> k in keys
      ensures result.Some? ==> forall k :: k in groups ==> groups[k] == Filter(PatternSel(k), result.value) && |groups[k]| >= 1
      ensures result.Some? ==> multiset(Flat(keys, groups)) == multiset(result.value)
      ensures result.Some? ==>
        forall i, j :: 0 <= i < j < |keys| ==> FirstOf(result.value, keys[i]) < FirstOf(result.value, keys[j])
      ensures result.None? ==> keys == old(keys) && groups == old(groups)
    {
      if result.Some? {
        keys, groups := GroupByPattern(result.value);
      }
    }

    /** Toggle one id in the solved set and write the set back. */
    method ToggleProblemSolved(id: string)
      modifies this`solved, this`storage
      ensures solved == Toggled(old(solved), id) && storage == solved
      ensures id in solved <==> id !in old(solved)
      ensures forall x :: x != id ==> (x in solved <==> x in old(solved))
    {
      solved := Toggled(solved, id);
      storage := solved;
    }

    function AllProblems(): seq<Problem>
      reads this
    {
      Flat(keys, groups)
    }

    /** The solved count over the loaded catalog; never above its size. */
    function SolvedCount(): (n: nat)
      reads this
      ensures n <= |AllProblems()|
      ensures n == CompletedOf(AllProblems(), solved, Easy) + CompletedOf(AllProblems(), solved, Medium)
        + CompletedOf(AllProblems(), solved, Hard)
    {
      DifficultyBreakdown(AllProblems(), solved);
      CatalogSolved(AllProblems(), solved)
    }

    function Rate(): (r: real)
      reads this
      ensures 0.0 <= r <= 100.0
    {
      CompletionRate(AllProblems(), solved)
    }

    /** The accordion's groups in display order (see `OrderedPatterns`). */
    function Ordered(): (r: seq<string>)
      reads this
      ensures forall x :: x in r <==> x in keys
      ensures Distinct(keys) ==> Distinct(r) && multiset(r) == multiset(keys)
    {
      PatternOrderDistinct();
      LayoutOf(PatternOrder, keys)
    }
  }
}
