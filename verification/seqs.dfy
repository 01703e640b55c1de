/** Sequence helpers: sums, floor means, order-preserving filters, sorting and medians. */
module Seqs {

  function Sum(s: seq<nat>): nat {
    if |s| == 0 then 0 else s[0] + Sum(s[1..])
  }

  lemma {:induction false} SumAppend(a: seq<nat>, b: seq<nat>)
    ensures Sum(a + b) == Sum(a) + Sum(b)
  {
    if |a| > 0 {
      assert (a + b)[1..] == a[1..] + b;
      SumAppend(a[1..], b);
    } else {
      assert a + b == b;
    }
  }

  /** A sum of values that all lie in [lo, hi] lies in [lo * n, hi * n]. */
  lemma {:induction false} SumBounds(s: seq<nat>, lo: nat, hi: nat)
    requires forall i :: 0 <= i < |s| ==> lo <= s[i] <= hi
    ensures lo * |s| <= Sum(s) <= hi * |s|
  {
    if |s| > 0 {
      SumBounds(s[1..], lo, hi);
      assert lo * |s| == lo + lo * |s[1..]|;
      assert hi * |s| == hi + hi * |s[1..]|;
    }
  }

  /** A strict inequality between two multiples of a positive number holds between the factors. */
  lemma MulCancelStrict(x: int, y: int, n: int)
    requires n > 0 && x * n < y * n
    ensures x < y
  {
    assert (y - x) * n > 0;
  }

  /** Floor division by a positive divisor keeps a lower bound. */
  lemma DivLowerBound(a: nat, n: nat, lo: nat)
    requires n > 0 && lo * n <= a
    ensures lo <= a / n
  {
    var q := a / n;
    assert a == q * n + a % n;
    assert lo * n < (q + 1) * n;
    MulCancelStrict(lo, q + 1, n);
  }

  /** Floor division by a positive divisor keeps an upper bound. */
  lemma DivUpperBound(a: nat, n: nat, hi: nat)
    requires n > 0 && a <= hi * n
    ensures a / n <= hi
  {
    var q := a / n;
    assert a == q * n + a % n;
  }

  /** Floor division exceeds `k` exactly when the dividend reaches `(k + 1)` times the divisor. */
  lemma DivExceeds(a: nat, n: nat, k: nat)
    requires n > 0
    ensures a / n > k <==> a >= (k + 1) * n
  {
    if a >= (k + 1) * n {
      DivLowerBound(a, n, k + 1);
    } else {
      var q := a / n;
      assert a == q * n + a % n;
      MulCancelStrict(q, k + 1, n);
    }
  }

  /** The floor mean of a non-empty sequence (`sum / len` on unsigned integers). */
  function Mean(s: seq<nat>): nat
    requires |s| > 0
  {
    Sum(s) / |s|
  }

  /** The floor mean of values in [lo, hi] lies in [lo, hi]. */
  lemma MeanBounds(s: seq<nat>, lo: nat, hi: nat)
    requires |s| > 0
    requires forall i :: 0 <= i < |s| ==> lo <= s[i] <= hi
    ensures lo <= Mean(s) <= hi
  {
    SumBounds(s, lo, hi);
    DivLowerBound(Sum(s), |s|, lo);
    DivUpperBound(Sum(s), |s|, hi);
  }

  /** The floor mean of values that are all at least `lo` is at least `lo`. */
  lemma {:induction false} MeanAtLeast(s: seq<nat>, lo: nat)
    requires |s| > 0
    requires forall i :: 0 <= i < |s| ==> lo <= s[i]
    ensures lo <= Mean(s)
  {
    SumAtLeast(s, lo);
    DivLowerBound(Sum(s), |s|, lo);
  }

  lemma {:induction false} SumAtLeast(s: seq<nat>, lo: nat)
    requires forall i :: 0 <= i < |s| ==> lo <= s[i]
    ensures lo * |s| <= Sum(s)
  {
    if |s| > 0 {
      SumAtLeast(s[1..], lo);
      assert lo * |s| == lo + lo * |s[1..]|;
    }
  }

  /** `r` is obtained from `s` by deleting elements: it keeps the order of `s`. */
  ghost predicate SubsequenceOf<T>(r: seq<T>, s: seq<T>)
    decreases |s|
  {
    |r| == 0 || (|s| > 0 && ((r[0] == s[0] && SubsequenceOf(r[1..], s[1..])) || SubsequenceOf(r, s[1..])))
  }

  /** The order-preserving subsequence of the elements that satisfy `f`. */
  function Filter<T>(s: seq<T>, f: T -> bool): (r: seq<T>)
    ensures |r| <= |s|
    ensures forall i :: 0 <= i < |r| ==> f(r[i])
    ensures forall i :: 0 <= i < |r| ==> r[i] in s
    ensures forall i :: 0 <= i < |s| && f(s[i]) ==> s[i] in r
  {
    if |s| == 0 then [] else (if f(s[0]) then [s[0]] else []) + Filter(s[1..], f)
  }

  /** A filter keeps every passing element as often as it occurs and drops every other one. */
  lemma {:induction false} FilterMultiplicity<T>(s: seq<T>, f: T -> bool, x: T)
    ensures multiset(Filter(s, f))[x] == if f(x) then multiset(s)[x] else 0
  {
    if |s| > 0 {
      FilterMultiplicity(s[1..], f, x);
      assert s == [s[0]] + s[1..];
    }
  }

  /** A filter keeps the order of its input. */
  lemma {:induction false} FilterIsSubsequence<T>(s: seq<T>, f: T -> bool)
    ensures SubsequenceOf(Filter(s, f), s)
  {
    if |s| > 0 {
      FilterIsSubsequence(s[1..], f);
      var rest := Filter(s[1..], f);
      if f(s[0]) {
        assert Filter(s, f) == [s[0]] + rest;
        assert ([s[0]] + rest)[1..] == rest;
      } else {
        assert Filter(s, f) == rest;
      }
    }
  }

  /** The multiplicities of a filter's result, for every value at once. */
  lemma FilterMultiplicities<T>(s: seq<T>, f: T -> bool)
    ensures forall x :: multiset(Filter(s, f))[x] == if f(x) then multiset(s)[x] else 0
  {
    forall x {
      FilterMultiplicity(s, f, x);
    }
  }

  /** A subsequence of a subsequence of `c` is a subsequence of `c`. */
  lemma {:induction false} SubsequenceTransitive<T>(a: seq<T>, b: seq<T>, c: seq<T>)
    requires SubsequenceOf(a, b) && SubsequenceOf(b, c)
    ensures SubsequenceOf(a, c)
    decreases |c|
  {
    if |a| > 0 {
      if SubsequenceOf(b, c[1..]) {
        SubsequenceTransitive(a, b, c[1..]);
      } else if a[0] == b[0] && SubsequenceOf(a[1..], b[1..]) {
        SubsequenceTransitive(a[1..], b[1..], c[1..]);
      } else {
        SubsequenceTransitive(a, b[1..], c[1..]);
      }
    }
  }

  /** Filtering distributes over concatenation, so it keeps the input order. */
  lemma {:induction false} FilterAppend<T>(a: seq<T>, b: seq<T>, f: T -> bool)
    ensures Filter(a + b, f) == Filter(a, f) + Filter(b, f)
  {
    if |a| > 0 {
      assert (a + b)[0] == a[0];
      assert (a + b)[1..] == a[1..] + b;
      FilterAppend(a[1..], b, f);
      var head := if f(a[0]) then [a[0]] else [];
      calc {
        Filter(a + b, f);
        head + Filter(a[1..] + b, f);
        head + (Filter(a[1..], f) + Filter(b, f));
        (head + Filter(a[1..], f)) + Filter(b, f);
      }
    } else {
      assert a + b == b;
    }
  }

  /** A filter every element passes returns its input. */
  lemma {:induction false} FilterKeepsAll<T>(s: seq<T>, f: T -> bool)
    requires forall i :: 0 <= i < |s| ==> f(s[i])
    ensures Filter(s, f) == s
  {
    if |s| > 0 {
      FilterKeepsAll(s[1..], f);
    }
  }

  /** A filter no element passes returns nothing. */
  lemma {:induction false} FilterDropsAll<T>(s: seq<T>, f: T -> bool)
    requires forall i :: 0 <= i < |s| ==> !f(s[i])
    ensures Filter(s, f) == []
  {
    if |s| > 0 {
      FilterDropsAll(s[1..], f);
    }
  }

  /** Filters by predicates that agree on every element of the input give the same result. */
  lemma {:induction false} FilterCongruent<T>(s: seq<T>, f: T -> bool, g: T -> bool)
    requires forall i :: 0 <= i < |s| ==> f(s[i]) == g(s[i])
    ensures Filter(s, f) == Filter(s, g)
  {
    if |s| > 0 {
      FilterCongruent(s[1..], f, g);
    }
  }

  function Reverse<T>(s: seq<T>): (r: seq<T>)
    ensures |r| == |s|
    ensures forall i :: 0 <= i < |s| ==> r[i] == s[|s| - 1 - i]
  {
    if |s| == 0 then [] else [s[|s| - 1]] + Reverse(s[..|s| - 1])
  }

  /** Reversing a sequence extended by one element puts that element first. */
  lemma ReverseSnoc<T>(s: seq<T>, x: T)
    ensures Reverse(s + [x]) == [x] + Reverse(s)
  {
    assert (s + [x])[..|s|] == s;
  }

  /** A sequence with no repeated element holds each value at most once. */
  lemma {:induction false} DistinctMultiplicity(s: seq<nat>, x: nat)
    requires forall i, j :: 0 <= i < j < |s| ==> s[i] != s[j]
    ensures multiset(s)[x] <= 1
  {
    if |s| > 0 {
      assert s == [s[0]] + s[1..];
      DistinctMultiplicity(s[1..], x);
      if s[0] == x {
        assert x !in s[1..];
      }
    }
  }

  /** A value found at two positions occurs at least twice. */
  lemma RepeatedMultiplicity(s: seq<nat>, i: nat, j: nat)
    requires i < j < |s| && s[i] == s[j]
    ensures multiset(s)[s[i]] >= 2
  {
    assert s == s[..j] + [s[j]] + s[j + 1..];
    assert s[i] in s[..j];
  }

  predicate Sorted(s: seq<nat>) {
    forall i, j :: 0 <= i < j < |s| ==> s[i] <= s[j]
  }

  /** Inserts `x` into a sorted sequence, before the first larger-or-equal element. */
  function Insert(x: nat, s: seq<nat>): (r: seq<nat>)
    requires Sorted(s)
    ensures Sorted(r)
    ensures |r| == |s| + 1 && r[0] == (if |s| == 0 || x <= s[0] then x else s[0])
    ensures multiset(r) == multiset(s) + multiset{x}
  {
    if |s| == 0 then [x]
    else if x <= s[0] then [x] + s
    else
      var t := Insert(x, s[1..]);
      assert s == [s[0]] + s[1..];
      [s[0]] + t
  }

  /** Ascending sort (`sort()` on a vector of unsigned integers). */
  function Sort(s: seq<nat>): (r: seq<nat>)
    ensures Sorted(r)
    ensures multiset(r) == multiset(s)
  {
    if |s| == 0 then []
    else
      assert s == [s[0]] + s[1..];
      Insert(s[0], Sort(s[1..]))
  }

  /** Two sorted arrangements of the same multiset are the same sequence. */
  lemma {:induction false} SortedUnique(a: seq<nat>, b: seq<nat>)
    requires Sorted(a) && Sorted(b)
    requires multiset(a) == multiset(b)
    ensures a == b
  {
    assert |a| == |multiset(a)| == |multiset(b)| == |b|;
    if |a| > 0 {
      SortedHeadsEqual(a, b);
      TailMultiset(a);
      TailMultiset(b);
      SortedUnique(a[1..], b[1..]);
      assert a == [a[0]] + a[1..];
      assert b == [b[0]] + b[1..];
    }
  }

  /** Sorted arrangements of the same non-empty multiset start with its minimum. */
  lemma SortedHeadsEqual(a: seq<nat>, b: seq<nat>)
    requires Sorted(a) && Sorted(b) && |a| > 0 && |b| > 0
    requires multiset(a) == multiset(b)
    ensures a[0] == b[0]
  {
    assert a[0] in multiset(b);
    assert b[0] in multiset(a);
    var i :| 0 <= i < |b| && b[i] == a[0];
    var j :| 0 <= j < |a| && a[j] == b[0];
  }

  lemma TailMultiset(a: seq<nat>)
    requires |a| > 0
    ensures multiset(a[1..]) == multiset(a) - multiset{a[0]}
  {
    assert a == [a[0]] + a[1..];
  }

  /** The middle element, or the floor average of the two middle elements. */
  function Median(s: seq<nat>): nat
    requires |s| > 0
  {
    if |s| % 2 == 0 then (s[|s| / 2 - 1] + s[|s| / 2]) / 2 else s[|s| / 2]
  }

  /** The median of a sorted sequence lies between its first and last elements. */
  lemma MedianBounds(s: seq<nat>)
    requires |s| > 0 && Sorted(s)
    ensures s[0] <= Median(s) <= s[|s| - 1]
  {
  }

  /** How many elements are at most `m`. */
  function CountAtMost(s: seq<nat>, m: nat): (c: nat)
    ensures c <= |s|
  {
    if |s| == 0 then 0 else (if s[0] <= m then 1 else 0) + CountAtMost(s[1..], m)
  }

  /** How many elements are at least `m`. */
  function CountAtLeast(s: seq<nat>, m: nat): (c: nat)
    ensures c <= |s|
  {
    if |s| == 0 then 0 else (if s[0] >= m then 1 else 0) + CountAtLeast(s[1..], m)
  }

  lemma {:induction false} CountsAppend(a: seq<nat>, b: seq<nat>, m: nat)
    ensures CountAtMost(a + b, m) == CountAtMost(a, m) + CountAtMost(b, m)
    ensures CountAtLeast(a + b, m) == CountAtLeast(a, m) + CountAtLeast(b, m)
  {
    if |a| == 0 {
      assert a + b == b;
    } else {
      assert (a + b)[0] == a[0];
      assert (a + b)[1..] == a[1..] + b;
      CountsAppend(a[1..], b, m);
    }
  }

  /** Inserting `x` adds exactly its own contribution to both counts. */
  lemma {:induction false} CountsInsert(x: nat, t: seq<nat>, m: nat)
    requires Sorted(t)
    ensures CountAtMost(Insert(x, t), m) == CountAtMost(t, m) + (if x <= m then 1 else 0)
    ensures CountAtLeast(Insert(x, t), m) == CountAtLeast(t, m) + (if x >= m then 1 else 0)
  {
    if |t| > 0 && x > t[0] {
      var u := Insert(x, t[1..]);
      CountsInsert(x, t[1..], m);
      assert Insert(x, t) == [t[0]] + u;
      assert ([t[0]] + u)[1..] == u;
    } else if |t| > 0 {
      assert ([x] + t)[1..] == t;
    }
  }

  /** Sorting changes neither count. */
  lemma {:induction false} CountsSort(s: seq<nat>, m: nat)
    ensures CountAtMost(Sort(s), m) == CountAtMost(s, m)
    ensures CountAtLeast(Sort(s), m) == CountAtLeast(s, m)
  {
    if |s| > 0 {
      CountsSort(s[1..], m);
      CountsInsert(s[0], Sort(s[1..]), m);
    }
  }

  lemma {:induction false} PrefixAtMost(t: seq<nat>, m: nat, k: nat)
    requires k <= |t|
    requires forall i :: 0 <= i < k ==> t[i] <= m
    ensures CountAtMost(t, m) >= k
    decreases |t|
  {
    if k > 0 {
      PrefixAtMost(t[1..], m, k - 1);
    }
  }

  lemma {:induction false} SuffixAtLeast(t: seq<nat>, m: nat, k: nat)
    requires k <= |t|
    requires forall i :: k <= i < |t| ==> t[i] >= m
    ensures CountAtLeast(t, m) >= |t| - k
    decreases |t|
  {
    if |t| > 0 {
      SuffixAtLeast(t[1..], m, if k > 0 then k - 1 else 0);
    }
  }

  /** In a sorted sequence, at least half the elements are at most the median and at least half are at least it. */
  lemma MedianSplitsSorted(t: seq<nat>)
    requires |t| > 0 && Sorted(t)
    ensures 2 * CountAtMost(t, Median(t)) >= |t|
    ensures 2 * CountAtLeast(t, Median(t)) >= |t|
  {
    var n := |t|;
    var h := n / 2;
    var m := Median(t);
    if n % 2 == 0 {
      assert n == 2 * h && h > 0;
      assert m == (t[h - 1] + t[h]) / 2;
      assert t[h - 1] <= t[h];
      SortedPrefixAtMost(t, h, m);
      SortedSuffixAtLeast(t, h, m);
    } else {
      assert n == 2 * h + 1;
      assert m == t[h];
      SortedPrefixAtMost(t, h + 1, m);
      SortedSuffixAtLeast(t, h, m);
    }
  }

  /** The first `k` elements of a sorted sequence are at most its `k`-th. */
  lemma SortedPrefixAtMost(t: seq<nat>, k: nat, m: nat)
    requires Sorted(t) && 0 < k <= |t| && t[k - 1] <= m
    ensures CountAtMost(t, m) >= k
  {
    assert forall i :: 0 <= i < k ==> t[i] <= t[k - 1];
    PrefixAtMost(t, m, k);
  }

  /** The elements of a sorted sequence from index `k` on are at least its `k`-th. */
  lemma SortedSuffixAtLeast(t: seq<nat>, k: nat, m: nat)
    requires Sorted(t) && k < |t| && m <= t[k]
    ensures CountAtLeast(t, m) >= |t| - k
  {
    assert forall i :: k <= i < |t| ==> t[k] <= t[i];
    SuffixAtLeast(t, m, k);
  }

  /** The median of the sorted values splits the values in halves. */
  lemma MedianSplitsHalf(s: seq<nat>)
    requires |s| > 0
    ensures 2 * CountAtMost(s, Median(Sort(s))) >= |s|
    ensures 2 * CountAtLeast(s, Median(Sort(s))) >= |s|
  {
    var t := Sort(s);
    assert |t| == |multiset(t)| == |multiset(s)| == |s|;
    MedianSplitsSorted(t);
    CountsSort(s, Median(t));
  }

  /** `Replicate(x, k)` counts `k` on each side `x` lies on. */
  lemma {:induction false} ReplicateCounts(x: nat, k: nat, m: nat)
    ensures CountAtMost(Replicate(x, k), m) == if x <= m then k else 0
    ensures CountAtLeast(Replicate(x, k), m) == if x >= m then k else 0
  {
    if k > 0 {
      ReplicateCounts(x, k - 1, m);
      assert Replicate(x, k)[1..] == Replicate(x, k - 1);
    }
  }

  /** `k` copies of `x`. */
  function Replicate(x: nat, k: nat): (r: seq<nat>)
    ensures |r| == k
    ensures forall i :: 0 <= i < |r| ==> r[i] == x
  {
    seq(k, _ => x)
  }
}
