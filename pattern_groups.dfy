/** Grouping the catalog by pattern, as the dashboard does on load: one
    group per pattern in order of first appearance, each holding that
    pattern's problems in catalog order. */
module PatternGroups {
  import opened Domain
  import opened Collections

  const Uncategorized: string := "Uncategorized"

  /** The group of a problem: its pattern, "Uncategorized" when it has none
      or an empty one. */
  function PatternKey(p: Problem): (k: string)
    ensures k == Uncategorized <==> p.pattern.None? || p.pattern.value == "" || p.pattern.value == Uncategorized
    ensures k != ""
  {
    if p.pattern.None? || p.pattern.value == "" then Uncategorized else p.pattern.value
  }

  function PatternSel(k: string): Problem -> bool
  {
    (p: Problem) => PatternKey(p) == k
  }

  /** `Object.values(groups).flat()`: the groups concatenated in key order. */
  function Flat(keys: seq<string>, groups: map<string, seq<Problem>>): seq<Problem>
  {
    if keys == [] then []
    else
      var last := keys[|keys| - 1];
      Flat(keys[..|keys| - 1], groups) + (if last in groups then groups[last] else [])
  }

  /** Changing the group of a key that is not listed changes nothing. */
  lemma {:induction false} FlatUnlisted(keys: seq<string>, groups: map<string, seq<Problem>>, k: string, v: seq<Problem>)
    requires k !in keys
    ensures Flat(keys, groups[k := v]) == Flat(keys, groups)
  {
    if keys != [] {
      FlatUnlisted(keys[..|keys| - 1], groups, k, v);
    }
  }

  /** Appending `p` to the group of a listed key adds `p` once to the
      concatenation. */
  lemma {:induction false} FlatPush(keys: seq<string>, groups: map<string, seq<Problem>>, k: string, p: Problem)
    requires Distinct(keys) && k in keys && k in groups
    ensures multiset(Flat(keys, groups[k := groups[k] + [p]])) == multiset(Flat(keys, groups)) + multiset{p}
  {
    var init := keys[..|keys| - 1];
    var last := keys[|keys| - 1];
    var g2 := groups[k := groups[k] + [p]];
    if last == k {
      assert k !in init;
      FlatUnlisted(init, groups, k, groups[k] + [p]);
    } else {
      assert k in init by {
        var i :| 0 <= i < |keys| && keys[i] == k;
        assert i < |keys| - 1;
        assert init[i] == k;
      }
      assert Distinct(init) by {
        forall i, j | 0 <= i < j < |init| ensures init[i] != init[j] {
          assert init[i] == keys[i] && init[j] == keys[j];
        }
      }
      FlatPush(init, groups, k, p);
    }
  }

  /** `keys` and `groups` are the grouping of `prefix`: distinct keys, one
      group per key, each group the key's problems in order, every problem
      in its group and, all groups together, the problems of `prefix`. */
  ghost predicate Grouped(prefix: seq<Problem>, keys: seq<string>, groups: map<string, seq<Problem>>)
  {
    Distinct(keys)
    && KeysListed(keys, groups)
    && GroupsMatch(prefix, groups)
    && Covered(prefix, groups)
    && multiset(Flat(keys, groups)) == multiset(prefix)
  }

  ghost predicate KeysListed(keys: seq<string>, groups: map<string, seq<Problem>>)
  {
    forall k :: k in groups <==> k in keys
  }

  ghost predicate GroupsMatch(prefix: seq<Problem>, groups: map<string, seq<Problem>>)
  {
    forall k :: k in groups ==> groups[k] == Filter(PatternSel(k), prefix) && |groups[k]| >= 1
  }

  ghost predicate Covered(prefix: seq<Problem>, groups: map<string, seq<Problem>>)
  {
    forall j :: 0 <= j < |prefix| ==> PatternKey(prefix[j]) in groups
  }

  /** Appending a problem to its existing group keeps every group equal
      to its key's problems. */
  lemma PushContents(prefix: seq<Problem>, groups: map<string, seq<Problem>>, p: Problem)
    requires GroupsMatch(prefix, groups) && PatternKey(p) in groups
    ensures GroupsMatch(prefix + [p], groups[PatternKey(p) := groups[PatternKey(p)] + [p]])
  {
    var k := PatternKey(p);
    var g2 := groups[k := groups[k] + [p]];
    forall k' | k' in g2 ensures g2[k'] == Filter(PatternSel(k'), prefix + [p]) && |g2[k']| >= 1 {
      FilterSnoc(PatternSel(k'), prefix, p);
    }
  }

  /** Opening the group of a pattern not seen before keeps every group
      equal to its key's problems. */
  lemma OpenContents(prefix: seq<Problem>, groups: map<string, seq<Problem>>, p: Problem)
    requires GroupsMatch(prefix, groups) && Covered(prefix, groups) && PatternKey(p) !in groups
    ensures GroupsMatch(prefix + [p], groups[PatternKey(p) := [p]])
  {
    var k := PatternKey(p);
    var g2 := groups[k := [p]];
    forall k' | k' in g2 ensures g2[k'] == Filter(PatternSel(k'), prefix + [p]) && |g2[k']| >= 1 {
      FilterSnoc(PatternSel(k'), prefix, p);
      if k' == k {
        FilterNone(PatternSel(k), prefix);
      }
    }
  }

  /** After a step every problem seen so far has its group. */
  lemma StepCover(prefix: seq<Problem>, groups: map<string, seq<Problem>>, p: Problem, v: seq<Problem>)
    requires Covered(prefix, groups)
    ensures Covered(prefix + [p], groups[PatternKey(p) := v])
  {
    forall j | 0 <= j < |prefix + [p]| ensures PatternKey((prefix + [p])[j]) in groups[PatternKey(p) := v] {
      if j < |prefix| {
        assert (prefix + [p])[j] == prefix[j];
      }
    }
  }

  /** A problem whose group exists is appended to it. */
  lemma GroupPush(prefix: seq<Problem>, keys: seq<string>, groups: map<string, seq<Problem>>, p: Problem)
    requires Grouped(prefix, keys, groups) && PatternKey(p) in groups
    ensures Grouped(prefix + [p], keys, groups[PatternKey(p) := groups[PatternKey(p)] + [p]])
  {
    FlatPush(keys, groups, PatternKey(p), p);
    PushContents(prefix, groups, p);
    StepCover(prefix, groups, p, groups[PatternKey(p)] + [p]);
  }

  /** A problem of a new pattern opens a group of its own, last in key
      order. */
  lemma GroupOpen(prefix: seq<Problem>, keys: seq<string>, groups: map<string, seq<Problem>>, p: Problem)
    requires Grouped(prefix, keys, groups) && PatternKey(p) !in groups
    ensures Grouped(prefix + [p], keys + [PatternKey(p)], groups[PatternKey(p) := [p]])
  {
    var k := PatternKey(p);
    assert k !in keys;
    DistinctSnoc(keys, k);
    OpenContents(prefix, groups, p);
    StepCover(prefix, groups, p, [p]);
    FlatOpen(keys, groups, k, p);
    assert KeysListed(keys + [k], groups[k := [p]]) by {
      assert forall k' :: k' in keys + [k] <==> k' in keys || k' == k;
    }
    assert multiset(prefix + [p]) == multiset(prefix) + multiset{p};
  }

  /** A new key listed last with the group `[p]` adds `p` once to the
      concatenation. */
  lemma FlatOpen(keys: seq<string>, groups: map<string, seq<Problem>>, k: string, p: Problem)
    requires k !in keys
    ensures multiset(Flat(keys + [k], groups[k := [p]])) == multiset(Flat(keys, groups)) + multiset{p}
  {
    var keys2 := keys + [k];
    assert keys2[..|keys2| - 1] == keys;
    FlatUnlisted(keys, groups, k, [p]);
    assert Flat(keys2, groups[k := [p]]) == Flat(keys, groups) + [p];
  }

  /** The position of the first problem of group `k`, or `|ps|` when the
      group has none. */
  function FirstOf(ps: seq<Problem>, k: string): (n: nat)
    ensures n <= |ps|
    ensures n < |ps| ==> PatternKey(ps[n]) == k
    ensures forall j :: 0 <= j < n ==> PatternKey(ps[j]) != k
  {
    if ps == [] then 0
    else if PatternKey(ps[0]) == k then 0
    else 1 + FirstOf(ps[1..], k)
  }

  /** Appending a problem moves no first position that already exists. */
  lemma {:induction false} FirstOfSnoc(ps: seq<Problem>, p: Problem, k: string)
    ensures FirstOf(ps + [p], k)
      == if FirstOf(ps, k) < |ps| then FirstOf(ps, k) else if PatternKey(p) == k then |ps| else |ps| + 1
  {
    if ps != [] {
      assert (ps + [p])[1..] == ps[1..] + [p];
      FirstOfSnoc(ps[1..], p, k);
    }
  }

  /** The keys are exactly the groups of `prefix`, listed in the order in
      which their first problems appear. */
  ghost predicate KeysInOrder(prefix: seq<Problem>, keys: seq<string>)
  {
    (forall k :: k in keys ==> FirstOf(prefix, k) < |prefix|)
    && (forall j :: 0 <= j < |prefix| ==> PatternKey(prefix[j]) in keys)
    && (forall i, j :: 0 <= i < j < |keys| ==> FirstOf(prefix, keys[i]) < FirstOf(prefix, keys[j]))
  }

  /** A problem of a listed pattern keeps the key order; one of a new
      pattern puts its key last. */
  lemma OrderStep(prefix: seq<Problem>, keys: seq<string>, p: Problem, keys2: seq<string>)
    requires KeysInOrder(prefix, keys)
    requires PatternKey(p) in keys ==> keys2 == keys
    requires PatternKey(p) !in keys ==> keys2 == keys + [PatternKey(p)]
    ensures KeysInOrder(prefix + [p], keys2)
  {
    OrderKeysSeen(prefix, keys, p, keys2);
    OrderCovered(prefix, keys, p, keys2);
    OrderSorted(prefix, keys, p, keys2);
  }

  lemma OrderKeysSeen(prefix: seq<Problem>, keys: seq<string>, p: Problem, keys2: seq<string>)
    requires forall k :: k in keys ==> FirstOf(prefix, k) < |prefix|
    requires PatternKey(p) in keys ==> keys2 == keys
    requires PatternKey(p) !in keys ==> keys2 == keys + [PatternKey(p)]
    ensures forall k :: k in keys2 ==> FirstOf(prefix + [p], k) < |prefix + [p]|
  {
    forall k | k in keys2 ensures FirstOf(prefix + [p], k) < |prefix + [p]| {
      FirstOfSnoc(prefix, p, k);
    }
  }

  lemma OrderCovered(prefix: seq<Problem>, keys: seq<string>, p: Problem, keys2: seq<string>)
    requires forall j :: 0 <= j < |prefix| ==> PatternKey(prefix[j]) in keys
    requires PatternKey(p) in keys ==> keys2 == keys
    requires PatternKey(p) !in keys ==> keys2 == keys + [PatternKey(p)]
    ensures forall j :: 0 <= j < |prefix + [p]| ==> PatternKey((prefix + [p])[j]) in keys2
  {
    forall j | 0 <= j < |prefix + [p]| ensures PatternKey((prefix + [p])[j]) in keys2 {
      if j < |prefix| {
        assert (prefix + [p])[j] == prefix[j];
      }
    }
  }

  lemma OrderSorted(prefix: seq<Problem>, keys: seq<string>, p: Problem, keys2: seq<string>)
    requires KeysInOrder(prefix, keys)
    requires PatternKey(p) in keys ==> keys2 == keys
    requires PatternKey(p) !in keys ==> keys2 == keys + [PatternKey(p)]
    ensures forall i, j :: 0 <= i < j < |keys2| ==> FirstOf(prefix + [p], keys2[i]) < FirstOf(prefix + [p], keys2[j])
  {
    var k := PatternKey(p);
    forall i, j | 0 <= i < j < |keys2|
      ensures FirstOf(prefix + [p], keys2[i]) < FirstOf(prefix + [p], keys2[j])
    {
      assert keys2[i] == keys[i];
      FirstOfSnoc(prefix, p, keys[i]);
      if j < |keys| {
        assert keys2[j] == keys[j];
        FirstOfSnoc(prefix, p, keys[j]);
      } else {
        assert keys2[j] == k && k !in keys;
        assert FirstOf(prefix, k) == |prefix| by {
          if FirstOf(prefix, k) < |prefix| {
            assert PatternKey(prefix[FirstOf(prefix, k)]) in keys;
          }
        }
        FirstOfSnoc(prefix, p, k);
      }
    }
  }

  /** One problem of the grouping loop: pushed onto its pattern's group, or
      opening that group after the others. */
  method AddToGroup(prefix: seq<Problem>, keys: seq<string>, groups: map<string, seq<Problem>>, p: Problem)
    returns (keys2: seq<string>, groups2: map<string, seq<Problem>>)
    requires Grouped(prefix, keys, groups) && KeysInOrder(prefix, keys)
    ensures Grouped(prefix + [p], keys2, groups2) && KeysInOrder(prefix + [p], keys2)
  {
    var k := PatternKey(p);
    if k in groups {
      GroupPush(prefix, keys, groups, p);
      keys2, groups2 := keys, groups[k := groups[k] + [p]];
    } else {
      GroupOpen(prefix, keys, groups, p);
      keys2, groups2 := keys + [k], groups[k := [p]];
    }
    OrderStep(prefix, keys, p, keys2);
  }

  /** Grouping by pattern: the keys in order of first appearance and, for
      each key, its problems in catalog order. */
  method GroupByPattern(problems: seq<Problem>) returns (keys: seq<string>, groups: map<string, seq<Problem>>)
    ensures Distinct(keys)
    ensures forall k :: k in groups <==> k in keys
    ensures forall k :: k in groups ==> groups[k] == Filter(PatternSel(k), problems) && |groups[k]| >= 1
    ensures forall i :: 0 <= i < |problems| ==> PatternKey(problems[i]) in groups
    ensures multiset(Flat(keys, groups)) == multiset(problems)
    ensures forall i, j :: 0 <= i < j < |keys| ==> FirstOf(problems, keys[i]) < FirstOf(problems, keys[j])
  {
    keys, groups := [], map[];
    var i := 0;
    while i < |problems|
      invariant 0 <= i <= |problems|
      invariant Grouped(problems[..i], keys, groups) && KeysInOrder(problems[..i], keys)
    {
      PrefixSnoc(problems, i);
      keys, groups := AddToGroup(problems[..i], keys, groups, problems[i]);
      i := i + 1;
    }
    assert problems[..i] == problems;
  }
}
