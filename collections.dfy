/** Sequence utilities shared by the whole model: filtering, counting,
    chunking into fixed-size slices and sorting by a numeric key. */
module Collections {

  /** The elements of `s` that satisfy `p`, in their original order
      (JavaScript's `Array.prototype.filter`). */
  function Filter<T>(p: T -> bool, s: seq<T>): (r: seq<T>)
    ensures |r| <= |s|
    ensures forall i :: 0 <= i < |r| ==> r[i] in s && p(r[i])
    ensures forall i :: 0 <= i < |s| && p(s[i]) ==> s[i] in r
  {
    if s == [] then [] else (if p(s[0]) then [s[0]] else []) + Filter(p, s[1..])
  }

  /** `a` can be obtained from `b` by deleting elements. */
  predicate IsSubsequence<T(==)>(a: seq<T>, b: seq<T>)
  {
    if a == [] then true
    else if b == [] then false
    else if a[0] == b[0] then IsSubsequence(a[1..], b[1..])
    else IsSubsequence(a, b[1..])
  }

  lemma {:induction false} FilterIsSubsequence<T>(p: T -> bool, s: seq<T>)
    ensures IsSubsequence(Filter(p, s), s)
  {
    if s != [] {
      FilterIsSubsequence(p, s[1..]);
      var rest := Filter(p, s[1..]);
      if p(s[0]) {
        assert Filter(p, s) == [s[0]] + rest;
        assert ([s[0]] + rest)[1..] == rest;
      } else {
        assert Filter(p, s) == rest;
        if rest != [] {
          assert p(rest[0]);
          assert rest[0] != s[0];
        }
      }
    }
  }

  /** Filtering by `p` and then by `q` is filtering by their conjunction. */
  lemma {:induction false} FilterFilter<T>(p: T -> bool, q: T -> bool, pq: T -> bool, s: seq<T>)
    requires forall x :: pq(x) == (p(x) && q(x))
    ensures Filter(q, Filter(p, s)) == Filter(pq, s)
  {
    if s != [] {
      FilterFilter(p, q, pq, s[1..]);
      var t := Filter(p, s[1..]);
      if p(s[0]) {
        assert Filter(p, s) == [s[0]] + t;
        assert ([s[0]] + t)[1..] == t;
        assert Filter(q, [s[0]] + t) == (if q(s[0]) then [s[0]] else []) + Filter(q, t);
      } else {
        assert Filter(p, s) == t;
      }
    }
  }

  /** Nothing passes a filter that no element satisfies. */
  lemma {:induction false} FilterNone<T>(p: T -> bool, s: seq<T>)
    requires forall i :: 0 <= i < |s| ==> !p(s[i])
    ensures Filter(p, s) == []
  {
    if s != [] {
      assert forall i :: 0 <= i < |s[1..]| ==> s[1..][i] == s[i + 1];
      FilterNone(p, s[1..]);
    }
  }

  /** Number of elements of `s` satisfying `p`. */
  function Count<T>(p: T -> bool, s: seq<T>): (n: nat)
    ensures n <= |s|
  {
    |Filter(p, s)|
  }

  lemma {:induction false} FilterAppend<T>(p: T -> bool, a: seq<T>, b: seq<T>)
    ensures Filter(p, a + b) == Filter(p, a) + Filter(p, b)
  {
    if a == [] {
      assert a + b == b;
    } else {
      assert (a + b)[1..] == a[1..] + b;
      FilterAppend(p, a[1..], b);
    }
  }

  /** Filtering a sequence extended by one element. */
  /** A prefix one longer is the prefix and the next element. */
  lemma PrefixSnoc<T>(s: seq<T>, i: nat)
    requires i < |s|
    ensures s[..i + 1] == s[..i] + [s[i]]
  {
  }

  /** A non-empty sequence is its front and its last element. */
  lemma InitLast<T>(s: seq<T>)
    requires |s| > 0
    ensures s[..|s| - 1] + [s[|s| - 1]] == s
  {
  }

  /** A prefix of `a + b` as long as `a` is `a`. */
  lemma PrefixOfAppend<T>(a: seq<T>, b: seq<T>)
    ensures (a + b)[..|a|] == a
  {
  }

  lemma FilterSnoc<T>(p: T -> bool, a: seq<T>, x: T)
    ensures Filter(p, a + [x]) == Filter(p, a) + (if p(x) then [x] else [])
  {
    FilterAppend(p, a, [x]);
    assert [x][1..] == [];
  }

  lemma CountAppend<T>(p: T -> bool, a: seq<T>, b: seq<T>)
    ensures Count(p, a + b) == Count(p, a) + Count(p, b)
  {
    FilterAppend(p, a, b);
  }

  /** Counting over a sequence extended by one element. */
  lemma CountSnoc<T>(p: T -> bool, a: seq<T>, x: T)
    ensures Count(p, a + [x]) == Count(p, a) + (if p(x) then 1 else 0)
  {
    CountAppend(p, a, [x]);
    assert Filter(p, [x][1..]) == [];
  }

  /** Replacing one element changes the count by what the old and the new
      element contribute. */
  lemma CountUpdate<T>(p: T -> bool, s: seq<T>, i: int, x: T)
    requires 0 <= i < |s|
    ensures Count(p, s[i := x]) + (if p(s[i]) then 1 else 0) == Count(p, s) + (if p(x) then 1 else 0)
  {
    assert s == s[..i] + [s[i]] + s[i + 1..];
    assert s[i := x] == s[..i] + [x] + s[i + 1..];
    CountAppend(p, s[..i] + [s[i]], s[i + 1..]);
    CountAppend(p, s[..i] + [x], s[i + 1..]);
    CountSnoc(p, s[..i], s[i]);
    CountSnoc(p, s[..i], x);
  }

  /** Reordering a sequence does not change how many elements pass. */
  lemma {:induction false} CountPermutation<T>(p: T -> bool, a: seq<T>, b: seq<T>)
    requires multiset(a) == multiset(b)
    ensures Count(p, a) == Count(p, b)
    decreases |a|
  {
    if a == [] {
      assert |multiset(b)| == 0;
    } else {
      var x := a[0];
      assert x in multiset(b);
      var i :| 0 <= i < |b| && b[i] == x;
      var rest := b[..i] + b[i + 1..];
      assert b == b[..i] + [x] + b[i + 1..];
      assert a == [x] + a[1..];
      assert multiset(b) == multiset(b[..i]) + multiset{x} + multiset(b[i + 1..]);
      assert multiset(a) == multiset{x} + multiset(a[1..]);
      assert multiset(rest) == multiset(b[..i]) + multiset(b[i + 1..]);
      assert multiset(a[1..]) == multiset(a) - multiset{x};
      assert multiset(rest) == multiset(b) - multiset{x};
      CountPermutation(p, a[1..], rest);
      CountAppend(p, b[..i], b[i + 1..]);
      CountAppend(p, b[..i] + [x], b[i + 1..]);
      CountAppend(p, b[..i], [x]);
      CountAppend(p, [x], a[1..]);
    }
  }

  /** When every element passes, all of them are counted. */
  lemma {:induction false} CountAll<T>(p: T -> bool, s: seq<T>)
    requires forall i :: 0 <= i < |s| ==> p(s[i])
    ensures Count(p, s) == |s|
  {
    if s != [] {
      CountAll(p, s[1..]);
      FilterUnfold(p, s);
    }
  }

  /** When the first `k` elements pass, at least `k` are counted. */
  lemma CountPrefix<T>(p: T -> bool, s: seq<T>, k: nat)
    requires k <= |s| && forall j :: 0 <= j < k ==> p(s[j])
    ensures Count(p, s) >= k
  {
    var pre := s[..k];
    forall j | 0 <= j < |pre| ensures p(pre[j]) {
      assert pre[j] == s[j];
    }
    CountAll(p, pre);
    assert s == pre + s[k..];
    CountAppend(p, pre, s[k..]);
  }

  /** A count is zero exactly when no element satisfies the predicate. */
  lemma CountZero<T>(p: T -> bool, s: seq<T>)
    ensures Count(p, s) == 0 <==> forall i :: 0 <= i < |s| ==> !p(s[i])
  {
    if forall i :: 0 <= i < |s| ==> !p(s[i]) {
      FilterNone(p, s);
    }
  }

  /** Two predicates that agree on every element count the same. */
  lemma {:induction false} CountCongruent<T>(p: T -> bool, q: T -> bool, s: seq<T>)
    requires forall i :: 0 <= i < |s| ==> (p(s[i]) <==> q(s[i]))
    ensures Count(p, s) == Count(q, s)
    ensures Filter(p, s) == Filter(q, s)
  {
    if s != [] {
      CountCongruent(p, q, s[1..]);
    }
  }

  /** A predicate that implies another counts no more. */
  lemma {:induction false} CountMonotone<T>(p: T -> bool, q: T -> bool, s: seq<T>)
    requires forall i :: 0 <= i < |s| ==> (p(s[i]) ==> q(s[i]))
    ensures Count(p, s) <= Count(q, s)
  {
    if s != [] {
      CountMonotone(p, q, s[1..]);
    }
  }

  /** Splitting a count along a three-valued classification `f`. */
  lemma {:induction false} CountPartition3<T, K>(p: T -> bool, f: T -> K, k1: K, k2: K, k3: K,
                                                 q1: T -> bool, q2: T -> bool, q3: T -> bool, s: seq<T>)
    requires k1 != k2 && k2 != k3 && k1 != k3
    requires forall i :: 0 <= i < |s| && p(s[i]) ==> f(s[i]) == k1 || f(s[i]) == k2 || f(s[i]) == k3
    requires forall i :: 0 <= i < |s| ==> (q1(s[i]) <==> p(s[i]) && f(s[i]) == k1)
    requires forall i :: 0 <= i < |s| ==> (q2(s[i]) <==> p(s[i]) && f(s[i]) == k2)
    requires forall i :: 0 <= i < |s| ==> (q3(s[i]) <==> p(s[i]) && f(s[i]) == k3)
    ensures Count(p, s) == Count(q1, s) + Count(q2, s) + Count(q3, s)
  {
    if s != [] {
      CountPartition3(p, f, k1, k2, k3, q1, q2, q3, s[1..]);
    }
  }

  /** Keys of a sequence are pairwise distinct. */
  ghost predicate DistinctBy<T, K>(s: seq<T>, key: T -> K)
  {
    forall i, j :: 0 <= i < j < |s| ==> key(s[i]) != key(s[j])
  }

  function KeySet<T, K>(s: seq<T>, key: T -> K): set<K>
  {
    set i | 0 <= i < |s| :: key(s[i])
  }

  lemma {:induction false} DistinctKeySetSize<T, K>(s: seq<T>, key: T -> K)
    requires DistinctBy(s, key)
    ensures |KeySet(s, key)| == |s|
  {
    if s != [] {
      var n := |s| - 1;
      var init := s[..n];
      DistinctKeySetSize(init, key);
      assert KeySet(s, key) == KeySet(init, key) + {key(s[n])} by {
        forall k | k in KeySet(s, key) ensures k in KeySet(init, key) + {key(s[n])} {
          var i :| 0 <= i < |s| && key(s[i]) == k;
          if i < n { assert init[i] == s[i]; }
        }
        forall k | k in KeySet(init, key) ensures k in KeySet(s, key) {
          var i :| 0 <= i < |init| && key(init[i]) == k;
          assert s[i] == init[i];
        }
      }
      forall i | 0 <= i < |init| ensures key(init[i]) != key(s[n]) {
        assert init[i] == s[i];
      }
    }
  }

  lemma {:induction false} SubsetSize<K>(a: set<K>, b: set<K>)
    requires a <= b
    ensures |a| <= |b|
  {
    if a != {} {
      var x :| x in a;
      SubsetSize(a - {x}, b - {x});
    }
  }

  lemma {:induction false} FilterPreservesDistinct<T, K>(p: T -> bool, s: seq<T>, key: T -> K)
    requires DistinctBy(s, key)
    ensures DistinctBy(Filter(p, s), key)
  {
    if s != [] {
      var tail := s[1..];
      assert DistinctBy(tail, key) by {
        forall i, j | 0 <= i < j < |tail| ensures key(tail[i]) != key(tail[j]) {
          assert tail[i] == s[i + 1] && tail[j] == s[j + 1];
        }
      }
      FilterPreservesDistinct(p, tail, key);
      var rest := Filter(p, tail);
      if p(s[0]) {
        var r := Filter(p, s);
        assert r == [s[0]] + rest;
        forall j | 0 <= j < |rest| ensures key(s[0]) != key(rest[j]) {
          assert rest[j] in tail;
          var b :| 0 <= b < |tail| && tail[b] == rest[j];
          assert s[b + 1] == rest[j];
        }
        forall i, j | 0 <= i < j < |r| ensures key(r[i]) != key(r[j]) {
          assert r[j] == rest[j - 1];
          if i > 0 { assert r[i] == rest[i - 1]; }
        }
      }
    }
  }

  /** Index of the first element whose key is `k`, or -1 when there is none. */
  function FindKey<T, K(==)>(s: seq<T>, key: T -> K, k: K): (i: int)
    ensures -1 <= i < |s|
    ensures i >= 0 ==> key(s[i]) == k && forall j :: 0 <= j < i ==> key(s[j]) != k
    ensures i < 0 ==> forall j :: 0 <= j < |s| ==> key(s[j]) != k
  {
    if s == [] then -1
    else if key(s[0]) == k then 0
    else
      var i := FindKey(s[1..], key, k);
      if i < 0 then -1 else i + 1
  }

  /** The keyed upsert of a table: the row whose key is `k` is replaced by
      `update` of it, or `created` is appended when there is none. */
  function Upsert<T, K(==)>(s: seq<T>, key: T -> K, k: K, update: T -> T, created: T): seq<T>
  {
    var i := FindKey(s, key, k);
    if i >= 0 then s[i := update(s[i])] else s + [created]
  }

  /** An upsert on a table with a unique key keeps the key unique, leaves
      exactly one row with key `k`, updates the existing row in place and
      changes no other row. */
  lemma UpsertSpec<T, K>(s: seq<T>, key: T -> K, k: K, update: T -> T, created: T)
    requires DistinctBy(s, key)
    requires key(created) == k
    requires forall x :: key(x) == k ==> key(update(x)) == k
    ensures var r := Upsert(s, key, k, update, created);
      DistinctBy(r, key)
      && 0 <= FindKey(r, key, k)
      && (forall j :: 0 <= j < |r| && j != FindKey(r, key, k) ==> key(r[j]) != k)
      && (FindKey(s, key, k) >= 0 ==>
            |r| == |s| && FindKey(r, key, k) == FindKey(s, key, k)
            && r[FindKey(s, key, k)] == update(s[FindKey(s, key, k)])
            && forall j :: 0 <= j < |s| && j != FindKey(s, key, k) ==> r[j] == s[j])
      && (FindKey(s, key, k) < 0 ==> r == s + [created])
  {
    var r := Upsert(s, key, k, update, created);
    var i := FindKey(s, key, k);
    if i >= 0 {
      assert key(r[i]) == k;
      forall j | 0 <= j < |r| && j != i ensures key(r[j]) != k {
        assert r[j] == s[j];
      }
      assert FindKey(r, key, k) == i;
    } else {
      assert key(r[|s|]) == k;
      assert forall j :: 0 <= j < |s| ==> r[j] == s[j];
    }
  }

  /** Consecutive slices of at most `n` elements; the last one may be shorter. */
  function Chunks<T>(s: seq<T>, n: nat): (r: seq<seq<T>>)
    requires n > 0
    decreases |s|
  {
    if |s| == 0 then []
    else if |s| <= n then [s]
    else [s[..n]] + Chunks(s[n..], n)
  }

  function Flatten<T>(ss: seq<seq<T>>): seq<T>
  {
    if ss == [] then [] else ss[0] + Flatten(ss[1..])
  }

  /** Chunking loses nothing, adds nothing and keeps the order; every chunk is
      non-empty and holds at most `n` elements. */
  lemma ChunksPartition<T>(s: seq<T>, n: nat)
    requires n > 0
    ensures Flatten(Chunks(s, n)) == s
    ensures forall i :: 0 <= i < |Chunks(s, n)| ==> 0 < |Chunks(s, n)[i]| <= n
    ensures |Chunks(s, n)| == (|s| + n - 1) / n
  {
    ChunksFlatten(s, n);
    ChunksSizes(s, n);
    ChunksCount(s, n);
  }

  lemma {:induction false} ChunksFlatten<T>(s: seq<T>, n: nat)
    requires n > 0
    ensures Flatten(Chunks(s, n)) == s
    decreases |s|
  {
    if 0 < |s| <= n {
      assert Flatten(Chunks(s, n)) == s + Flatten([]);
    } else if |s| > n {
      var rest := s[n..];
      ChunksFlatten(rest, n);
      assert Chunks(s, n)[1..] == Chunks(rest, n);
      assert s[..n] + rest == s;
    }
  }

  lemma {:induction false} ChunksSizes<T>(s: seq<T>, n: nat)
    requires n > 0
    ensures forall i :: 0 <= i < |Chunks(s, n)| ==> 0 < |Chunks(s, n)[i]| <= n
    decreases |s|
  {
    if |s| > n {
      var rest := s[n..];
      ChunksSizes(rest, n);
      assert Chunks(s, n)[1..] == Chunks(rest, n);
    }
  }

  lemma {:induction false} ChunksCount<T>(s: seq<T>, n: nat)
    requires n > 0
    ensures |Chunks(s, n)| == (|s| + n - 1) / n
    decreases |s|
  {
    if 0 < |s| <= n {
      DivBetween(|s| + n - 1, n, 1);
    } else if |s| > n {
      var rest := s[n..];
      ChunksCount(rest, n);
      assert |s| + n - 1 == (|rest| + n - 1) + n;
      DivShift(|rest| + n - 1, n);
    }
  }

  /** The i-th chunk is the slice [i*n, min((i+1)*n, |s|)). */
  lemma {:induction false} ChunkAt<T>(s: seq<T>, n: nat, i: nat)
    requires n > 0
    requires i < |Chunks(s, n)|
    ensures i * n < |s|
    ensures Chunks(s, n)[i] == s[i * n .. if (i + 1) * n < |s| then (i + 1) * n else |s|]
    decreases |s|
  {
    if |s| <= n {
    } else if i > 0 {
      var rest := s[n..];
      assert Chunks(s, n)[i] == Chunks(rest, n)[i - 1];
      ChunkAt(rest, n, i - 1);
      assert (i - 1) * n + n == i * n;
      assert i * n + n == (i + 1) * n;
    }
  }

  lemma DivShift(a: nat, n: nat)
    requires n > 0
    ensures (a + n) / n == a / n + 1
  {
    var q := a / n;
    assert q * n <= a < q * n + n;
    assert (q + 1) * n == q * n + n;
    assert (q + 2) * n == q * n + n + n;
    DivBetween(a + n, n, q + 1);
  }

  /** Integer division is determined by the bracketing multiples. */
  lemma DivBetween(a: nat, n: nat, q: nat)
    requires n > 0
    requires q * n <= a < (q + 1) * n
    ensures a / n == q
  {
    var d := a / n;
    assert d * n <= a < d * n + n;
    assert (d + 1) * n == d * n + n;
    assert (q + 1) * n == q * n + n;
    if d < q {
      MulMono(d + 1, q, n);
      assert false;
    } else if d > q {
      MulMono(q + 1, d, n);
      assert false;
    }
  }

  lemma MulMono(x: nat, y: nat, n: nat)
    requires x <= y
    ensures x * n <= y * n
  {
    var k := y - x;
    assert y * n == x * n + k * n;
  }

  /** Sorted ascending by `key`. */
  ghost predicate SortedBy<T>(s: seq<T>, key: T -> real)
  {
    forall i, j :: 0 <= i < j < |s| ==> key(s[i]) <= key(s[j])
  }

  function InsertBy<T>(x: T, s: seq<T>, key: T -> real): (r: seq<T>)
    requires SortedBy(s, key)
    ensures multiset(r) == multiset(s) + multiset{x}
    ensures SortedBy(r, key)
  {
    if s == [] then [x]
    else if key(x) <= key(s[0]) then [x] + s
    else
      var tail := InsertBy(x, s[1..], key);
      InsertedTailBound(x, s, tail, key);
      SortedCons(s[0], tail, key);
      assert multiset([s[0]] + tail) == multiset{s[0]} + multiset(tail);
      assert s == [s[0]] + s[1..];
      [s[0]] + tail
  }

  /** Everything in `tail` (the rest of `s` with `x` inserted) keys at least `s[0]`. */
  lemma InsertedTailBound<T>(x: T, s: seq<T>, tail: seq<T>, key: T -> real)
    requires s != [] && SortedBy(s, key) && key(s[0]) < key(x)
    requires multiset(tail) == multiset(s[1..]) + multiset{x}
    ensures forall k :: 0 <= k < |tail| ==> key(s[0]) <= key(tail[k])
  {
    forall k | 0 <= k < |tail| ensures key(s[0]) <= key(tail[k]) {
      assert tail[k] in multiset(tail);
      if tail[k] != x {
        assert tail[k] in multiset(s[1..]);
        var m :| 0 <= m < |s[1..]| && s[1..][m] == tail[k];
        assert s[m + 1] == tail[k];
      }
    }
  }

  /** Insertion sort by a numeric key; ties keep no particular order, as with a
      database `ORDER BY` on a non-unique column. */
  function SortBy<T>(s: seq<T>, key: T -> real): (r: seq<T>)
    ensures multiset(r) == multiset(s)
    ensures |r| == |s|
    ensures SortedBy(r, key)
  {
    if s == [] then []
    else
      assert s == [s[0]] + s[1..];
      InsertBy(s[0], SortBy(s[1..], key), key)
  }
  /** Filtering keeps a sorted sequence sorted. */
  lemma {:induction false} FilterPreservesSorted<T>(p: T -> bool, s: seq<T>, key: T -> real)
    requires SortedBy(s, key)
    ensures SortedBy(Filter(p, s), key)
  {
    if s != [] {
      var rest := Filter(p, s[1..]);
      assert SortedBy(s[1..], key);
      FilterPreservesSorted(p, s[1..], key);
      if p(s[0]) {
        forall k | 0 <= k < |rest| ensures key(s[0]) <= key(rest[k]) {
          var m :| 0 <= m < |s[1..]| && s[1..][m] == rest[k];
          assert s[m + 1] == rest[k];
        }
        SortedCons(s[0], rest, key);
        assert Filter(p, s) == [s[0]] + rest;
      } else {
        assert Filter(p, s) == [] + rest;
      }
    }
  }

  /** Putting a lower-keyed element in front of a sorted sequence keeps it sorted. */
  lemma SortedCons<T>(x: T, t: seq<T>, key: T -> real)
    requires SortedBy(t, key)
    requires forall k :: 0 <= k < |t| ==> key(x) <= key(t[k])
    ensures SortedBy([x] + t, key)
  {
    var r := [x] + t;
    forall i, j | 0 <= i < j < |r| ensures key(r[i]) <= key(r[j]) {
      assert r[j] == t[j - 1];
      if i > 0 { assert r[i] == t[i - 1]; }
    }
  }

  /** Elements are pairwise distinct. */
  ghost predicate Distinct<T>(s: seq<T>)
  {
    forall i, j :: 0 <= i < j < |s| ==> s[i] != s[j]
  }

  /** An element not yet listed keeps the list free of repetitions. */
  lemma DistinctSnoc<T>(s: seq<T>, x: T)
    requires Distinct(s) && x !in s
    ensures Distinct(s + [x])
  {
    var s2 := s + [x];
    forall i, j | 0 <= i < j < |s2| ensures s2[i] != s2[j] {
      assert s2[i] == s[i];
      if j < |s| {
        assert s2[j] == s[j];
      }
    }
  }

  lemma DistinctTail<T>(s: seq<T>)
    requires Distinct(s) && s != []
    ensures Distinct(s[1..])
  {
    var tail := s[1..];
    forall i, j | 0 <= i < j < |tail| ensures tail[i] != tail[j] {
      assert tail[i] == s[i + 1] && tail[j] == s[j + 1];
    }
  }

  lemma {:induction false} DistinctMultiplicity<T>(s: seq<T>, x: T)
    requires Distinct(s)
    ensures multiset(s)[x] <= 1
  {
    if s != [] {
      assert s == [s[0]] + s[1..];
      DistinctTail(s);
      DistinctMultiplicity(s[1..], x);
      if x == s[0] {
        assert x !in s[1..];
      }
    }
  }

  /** In a filtered sequence without repetitions, an element occurs once
      exactly when it occurs in the sequence and passes the filter. */
  lemma {:induction false} FilterMultiplicity<T>(p: T -> bool, s: seq<T>, x: T)
    requires Distinct(s)
    ensures multiset(Filter(p, s))[x] == if x in s && p(x) then 1 else 0
  {
    if s != [] {
      var tail := s[1..];
      DistinctTail(s);
      HeadNotInTail(s);
      FilterMultiplicity(p, tail, x);
      FilterUnfold(p, s);
      if p(s[0]) {
        MultiplicityCons(s[0], Filter(p, tail), x);
      }
    }
  }

  /** Filtering keeps every occurrence of an element that passes and none
      of one that fails. */
  lemma {:induction false} FilterOccurrences<T>(p: T -> bool, s: seq<T>, x: T)
    ensures multiset(Filter(p, s))[x] == if p(x) then multiset(s)[x] else 0
  {
    if s != [] {
      FilterOccurrences(p, s[1..], x);
      FilterUnfold(p, s);
      assert s == [s[0]] + s[1..];
      MultiplicityCons(s[0], s[1..], x);
      if p(s[0]) {
        MultiplicityCons(s[0], Filter(p, s[1..]), x);
      }
    }
  }

  /** Filtering two permutations of each other gives permutations of each
      other. */
  lemma FilterPermutes<T>(p: T -> bool, a: seq<T>, b: seq<T>)
    requires multiset(a) == multiset(b)
    ensures multiset(Filter(p, a)) == multiset(Filter(p, b))
  {
    forall x ensures multiset(Filter(p, a))[x] == multiset(Filter(p, b))[x] {
      FilterOccurrences(p, a, x);
      FilterOccurrences(p, b, x);
    }
  }

  /** The first element of a sequence without repetitions does not recur,
      and membership splits into the head and the tail. */
  lemma HeadNotInTail<T>(s: seq<T>)
    requires Distinct(s) && s != []
    ensures s[0] !in s[1..]
    ensures forall x :: x in s <==> x == s[0] || x in s[1..]
  {
    forall j | 0 <= j < |s[1..]| ensures s[1..][j] != s[0] {
      assert s[1..][j] == s[j + 1];
    }
    assert s == [s[0]] + s[1..];
  }

  /** One step of `Filter`. */
  lemma FilterUnfold<T>(p: T -> bool, s: seq<T>)
    requires s != []
    ensures Filter(p, s) == (if p(s[0]) then [s[0]] + Filter(p, s[1..]) else Filter(p, s[1..]))
  {
  }

  /** Putting `a` in front adds one occurrence of `a` and none of anything else. */
  lemma MultiplicityCons<T>(a: T, r: seq<T>, x: T)
    ensures multiset([a] + r)[x] == (if x == a then 1 else 0) + multiset(r)[x]
  {
    assert multiset([a] + r) == multiset([a]) + multiset(r);
  }

  /** A permutation of a sequence without repetitions has none either. */
  lemma PermutationPreservesDistinct<T>(a: seq<T>, b: seq<T>)
    requires Distinct(a) && multiset(a) == multiset(b)
    ensures Distinct(b)
  {
    forall i, j | 0 <= i < j < |b| ensures b[i] != b[j] {
      if b[i] == b[j] {
        assert b == b[..j] + b[j..];
        assert b[i] in multiset(b[..j]);
        assert b[j] in multiset(b[j..]);
        assert multiset(b)[b[i]] == multiset(b[..j])[b[i]] + multiset(b[j..])[b[i]];
        DistinctMultiplicity(a, b[i]);
        assert false;
      }
    }
  }
}
