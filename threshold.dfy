/**
 * The threshold classifier of `detect_fraud`: per-row reconstruction error,
 * a batch-relative quantile threshold (numpy's default "linear" method,
 * Hyndman and Fan definition 7), and strict-inequality flagging. Errors are
 * real numbers rather than IEEE doubles.
 */
module ThresholdClassifier {
  import opened Frames

  /** Sum of squared differences between a row and its reconstruction. */
  function SumSquares(x: seq<real>, r: seq<real>): (s: real)
    requires |x| == |r|
    ensures s >= 0.0
  {
    if |x| == 0 then 0.0 else Square(x[0] - r[0]) + SumSquares(x[1..], r[1..])
  }

  /** `np.mean(np.power(x - r, 2))` over one row of F >= 1 features. */
  function RowError(x: seq<real>, r: seq<real>): (e: real)
    requires |x| == |r| > 0
    ensures e >= 0.0
  {
    var s, n := SumSquares(x, r), |x| as real;
    assert s / n >= 0.0;
    s / n
  }

  /** A row reconstructed exactly has no error. */
  lemma {:induction false} PerfectReconstruction(x: seq<real>)
    requires |x| > 0
    ensures RowError(x, x) == 0.0
  {
    SumSquaresSame(x);
  }

  lemma {:induction false} SumSquaresSame(x: seq<real>)
    ensures SumSquares(x, x) == 0.0
  {
    if |x| > 0 {
      assert Square(x[0] - x[0]) == 0.0;
      SumSquaresSame(x[1..]);
    }
  }

  /** Two matrices of the same shape. */
  predicate SameShape(a: Matrix, b: Matrix) {
    |a| == |b| && forall i :: 0 <= i < |a| ==> |a[i]| == |b[i]|
  }

  /** The per-row errors of a batch (`axis=1`): one non-negative error per row. */
  function RowErrors(x: Matrix, r: Matrix): (errors: seq<real>)
    requires SameShape(x, r) && forall i :: 0 <= i < |x| ==> |x[i]| > 0
    ensures |errors| == |x|
    ensures forall i :: 0 <= i < |x| ==> errors[i] >= 0.0
  {
    seq(|x|, i requires 0 <= i < |x| => RowError(x[i], r[i]))
  }

  predicate Sorted(s: seq<real>) {
    forall i, j :: 0 <= i < j < |s| ==> s[i] <= s[j]
  }

  /** No two rows share an error value: a batch without ties. */
  predicate Distinct(s: seq<real>) {
    forall i, j :: 0 <= i < j < |s| ==> s[i] != s[j]
  }

  function Insert(x: real, s: seq<real>): (r: seq<real>)
    requires Sorted(s)
    ensures |r| == |s| + 1 && (r[0] == x || (s != [] && r[0] == s[0]))
    ensures Sorted(r)
  {
    if s == [] || x <= s[0] then [x] + s
    else
      var rest := Insert(x, s[1..]);
      assert s == [s[0]] + s[1..];
      assert s[0] <= rest[0];
      [s[0]] + rest
  }

  /** Inserting adds exactly the one new element. */
  lemma {:induction false} InsertPermutes(x: real, s: seq<real>)
    requires Sorted(s)
    ensures multiset(Insert(x, s)) == multiset(s) + multiset{x}
  {
    if s == [] || x <= s[0] {
      assert Insert(x, s) == [x] + s;
    } else {
      var rest := Insert(x, s[1..]);
      InsertPermutes(x, s[1..]);
      assert Insert(x, s) == [s[0]] + rest;
      assert s == [s[0]] + s[1..];
      calc {
        multiset(Insert(x, s));
        multiset([s[0]]) + multiset(rest);
        multiset([s[0]]) + multiset(s[1..]) + multiset{x};
        multiset([s[0]] + s[1..]) + multiset{x};
      }
    }
  }

  lemma MultisetCons(xs: seq<real>)
    requires xs != []
    ensures multiset(xs) == multiset(xs[1..]) + multiset{xs[0]}
  {
    assert xs == [xs[0]] + xs[1..];
  }

  /** The ascending order numpy sorts the errors into before interpolating. */
  function Sort(xs: seq<real>): (s: seq<real>)
    ensures |s| == |xs| && Sorted(s)
  {
    if xs == [] then [] else Insert(xs[0], Sort(xs[1..]))
  }

  /** Sorting only reorders: the sorted errors are a permutation of the errors. */
  lemma {:induction false} SortPermutes(xs: seq<real>)
    ensures multiset(Sort(xs)) == multiset(xs)
  {
    if xs != [] {
      var rest := Sort(xs[1..]);
      SortPermutes(xs[1..]);
      InsertPermutes(xs[0], rest);
      assert Sort(xs) == Insert(xs[0], rest);
      MultisetCons(xs);
    }
  }

  function Min(xs: seq<real>): (m: real)
    requires |xs| > 0
    ensures m in xs && forall i :: 0 <= i < |xs| ==> m <= xs[i]
  {
    if |xs| == 1 then xs[0]
    else
      var rest := Min(xs[1..]);
      assert forall i :: 1 <= i < |xs| ==> xs[i] == xs[1..][i - 1];
      if xs[0] <= rest then xs[0] else rest
  }

  function Max(xs: seq<real>): (m: real)
    requires |xs| > 0
    ensures m in xs && forall i :: 0 <= i < |xs| ==> xs[i] <= m
  {
    if |xs| == 1 then xs[0]
    else
      var rest := Max(xs[1..]);
      assert forall i :: 1 <= i < |xs| ==> xs[i] == xs[1..][i - 1];
      if rest <= xs[0] then xs[0] else rest
  }

  /**
   * `k * q`, written as a sum of `k` copies of `q` so that its unfoldings
   * stay linear; `TimesIsProduct` shows it is the product.
   */
  function Times(k: nat, q: real): (r: real)
    ensures 0.0 <= q <= 1.0 ==> 0.0 <= r <= k as real
  {
    if k == 0 then 0.0 else Times(k - 1, q) + q
  }

  lemma {:induction false} TimesIsProduct(k: nat, q: real)
    ensures Times(k, q) == k as real * q
  {
    if k > 0 {
      TimesIsProduct(k - 1, q);
      assert (k - 1) as real * q + q == k as real * q;
    }
  }

  lemma {:induction false} TimesZero(k: nat)
    ensures Times(k, 0.0) == 0.0
  {
    if k > 0 {
      TimesZero(k - 1);
    }
  }

  lemma {:induction false} TimesOne(k: nat)
    ensures Times(k, 1.0) == k as real
  {
    if k > 0 {
      TimesOne(k - 1);
    }
  }

  /** A larger fraction of the same count is never smaller. */
  lemma {:induction false} TimesMonotone(k: nat, p: real, q: real)
    requires p <= q
    ensures Times(k, p) <= Times(k, q)
  {
    if k > 0 {
      TimesMonotone(k - 1, p, q);
    }
  }

  /** The virtual index `(n - 1) * q` of the quantile in the sorted errors. */
  function VirtualIndex(n: nat, q: real): (h: real)
    requires n > 0 && 0.0 <= q <= 1.0
    ensures 0.0 <= h <= (n - 1) as real
  {
    Times(n - 1, q)
  }

  /** The lower neighbouring index, `floor((n - 1) * q)`. */
  function Lower(n: nat, q: real): (lo: nat)
    requires n > 0 && 0.0 <= q <= 1.0
    ensures lo < n
    ensures lo as real <= VirtualIndex(n, q) < lo as real + 1.0
  {
    VirtualIndex(n, q).Floor
  }

  /** The upper neighbouring index, clipped to the last element as numpy does. */
  function Upper(n: nat, q: real): (hi: nat)
    requires n > 0 && 0.0 <= q <= 1.0
    ensures Lower(n, q) <= hi < n
    ensures hi == Lower(n, q) ==> VirtualIndex(n, q) == Lower(n, q) as real
  {
    if Lower(n, q) + 1 < n then Lower(n, q) + 1 else Lower(n, q)
  }

  /** `np.quantile(xs, q)`: the linear quantile of the sorted errors. */
  function LinearQuantile(xs: seq<real>, q: real): real
    requires |xs| > 0 && 0.0 <= q <= 1.0
  {
    SortedQuantile(Sort(xs), q)
  }

  /** Linear interpolation between the two sorted values nearest the virtual index. */
  function SortedQuantile(s: seq<real>, q: real): real
    requires |s| > 0 && 0.0 <= q <= 1.0
  {
    var lo, hi := Lower(|s|, q), Upper(|s|, q);
    Lerp(s[lo], s[hi], VirtualIndex(|s|, q) - lo as real)
  }

  /** Linear interpolation from `a` towards `b` by the fraction `g`. */
  function Lerp(a: real, b: real, g: real): real {
    a + (b - a) * g
  }

  function Square(d: real): (sq: real)
    ensures sq >= 0.0
  {
    d * d
  }

  /** Multiplying by a non-negative factor keeps the order. */
  lemma Scale(c: real, p: real, q: real)
    requires c >= 0.0 && p <= q
    ensures c * p <= c * q
    ensures c > 0.0 && p < q ==> c * p < c * q
  {
    assert c * q - c * p == c * (q - p);
  }

  /** A fraction of a non-negative quantity lies between zero and the quantity. */
  lemma ScaleUnit(c: real, g: real)
    requires c >= 0.0 && 0.0 <= g <= 1.0
    ensures 0.0 <= c * g <= c
    ensures c > 0.0 && g < 1.0 ==> c * g < c
  {
    Scale(c, 0.0, g);
    Scale(c, g, 1.0);
    assert c * 0.0 == 0.0 && c * 1.0 == c;
  }

  lemma LerpBetween(a: real, b: real, g: real)
    requires a <= b && 0.0 <= g <= 1.0
    ensures a <= Lerp(a, b, g) <= b
    ensures a < b && g < 1.0 ==> Lerp(a, b, g) < b
  {
    var c := b - a;
    ScaleUnit(c, g);
    var m := c * g;
    assert Lerp(a, b, g) == a + m;
  }

  lemma LerpStart(a: real, b: real)
    ensures Lerp(a, b, 0.0) == a
  {
    assert (b - a) * 0.0 == 0.0;
  }

  lemma LerpMonotone(a: real, b: real, g: real, g': real)
    requires a <= b && g <= g'
    ensures Lerp(a, b, g) <= Lerp(a, b, g')
  {
    var c := b - a;
    Scale(c, g, g');
    var m, m' := c * g, c * g';
    assert Lerp(a, b, g) == a + m && Lerp(a, b, g') == a + m';
  }

  /** `(errors > threshold).astype(int)`. */
  function Flags(errors: seq<real>, threshold: real): seq<int> {
    seq(|errors|, i requires 0 <= i < |errors| => if errors[i] > threshold then 1 else 0)
  }

  /** Number of errors strictly above the threshold. */
  function CountAbove(xs: seq<real>, t: real): nat {
    if xs == [] then 0 else (if xs[0] > t then 1 else 0) + CountAbove(xs[1..], t)
  }

  /** Number of flags equal to 1: `len(results[results["fraud_flag"] == 1])`. */
  function CountOnes(flags: seq<int>): nat {
    if flags == [] then 0 else (if flags[0] == 1 then 1 else 0) + CountOnes(flags[1..])
  }

  /** The quantile of sorted values sits between the two values it interpolates. */
  lemma SortedQuantileBetween(s: seq<real>, q: real)
    requires |s| > 0 && 0.0 <= q <= 1.0 && Sorted(s)
    ensures s[Lower(|s|, q)] <= SortedQuantile(s, q) <= s[Upper(|s|, q)]
  {
    var lo, hi := Lower(|s|, q), Upper(|s|, q);
    LerpBetween(s[lo], s[hi], VirtualIndex(|s|, q) - lo as real);
  }

  /** The quantile of sorted values lies between the first and the last. */
  lemma SortedQuantileBounds(s: seq<real>, q: real)
    requires |s| > 0 && 0.0 <= q <= 1.0 && Sorted(s)
    ensures s[0] <= SortedQuantile(s, q) <= s[|s| - 1]
  {
    SortedQuantileBetween(s, q);
    assert s[0] <= s[Lower(|s|, q)] && s[Upper(|s|, q)] <= s[|s| - 1];
  }

  /** When the virtual index is a whole rank, the quantile is the value at that rank. */
  lemma SortedQuantileAtRank(s: seq<real>, q: real)
    requires |s| > 0 && 0.0 <= q <= 1.0
    requires VirtualIndex(|s|, q) == Lower(|s|, q) as real
    ensures SortedQuantile(s, q) == s[Lower(|s|, q)]
  {
    LerpStart(s[Lower(|s|, q)], s[Upper(|s|, q)]);
  }

  lemma SortedQuantileZero(s: seq<real>)
    requires |s| > 0
    ensures SortedQuantile(s, 0.0) == s[0]
  {
    TimesZero(|s| - 1);
    assert Lower(|s|, 0.0) == 0;
    SortedQuantileAtRank(s, 0.0);
  }

  lemma SortedQuantileOne(s: seq<real>)
    requires |s| > 0
    ensures SortedQuantile(s, 1.0) == s[|s| - 1]
  {
    TimesOne(|s| - 1);
    assert Lower(|s|, 1.0) == |s| - 1;
    SortedQuantileAtRank(s, 1.0);
  }

  /** The smallest and largest errors are the first and last sorted ones. */
  lemma SortEnds(xs: seq<real>)
    requires |xs| > 0
    ensures |Sort(xs)| == |xs|
    ensures Sort(xs)[0] == Min(xs) && Sort(xs)[|xs| - 1] == Max(xs)
  {
    SortPermutes(xs);
    PermutationFirst(Sort(xs), xs);
    PermutationLast(Sort(xs), xs);
  }

  /** A sorted permutation starts with the minimum. */
  lemma PermutationFirst(s: seq<real>, xs: seq<real>)
    requires |xs| > 0 && Sorted(s) && multiset(s) == multiset(xs)
    ensures |s| == |xs| && s[0] == Min(xs)
  {
    assert |s| == |multiset(s)| == |multiset(xs)| == |xs|;
    assert s[0] in multiset(s);
    var i :| 0 <= i < |xs| && xs[i] == s[0];
    assert Min(xs) in multiset(s);
    var k :| 0 <= k < |s| && s[k] == Min(xs);
    assert Min(xs) <= xs[i] && s[0] <= s[k];
  }

  /** A sorted permutation ends with the maximum. */
  lemma PermutationLast(s: seq<real>, xs: seq<real>)
    requires |xs| > 0 && Sorted(s) && multiset(s) == multiset(xs)
    ensures |s| == |xs| && s[|s| - 1] == Max(xs)
  {
    assert |s| == |multiset(s)| == |multiset(xs)| == |xs|;
    var n := |s|;
    assert s[n - 1] in multiset(s);
    var i :| 0 <= i < n && xs[i] == s[n - 1];
    assert Max(xs) in multiset(s);
    var k :| 0 <= k < n && s[k] == Max(xs);
    assert xs[i] <= Max(xs) && s[k] <= s[n - 1];
  }

  /** For a non-empty batch the threshold lies between the smallest and the largest error. */
  lemma ThresholdBounds(xs: seq<real>, q: real)
    requires |xs| > 0 && 0.0 <= q <= 1.0
    ensures Min(xs) <= LinearQuantile(xs, q) <= Max(xs)
  {
    SortEnds(xs);
    SortedQuantileBounds(Sort(xs), q);
  }

  /** The 0-quantile is the smallest error and the 1-quantile the largest. */
  lemma QuantileEndpoints(xs: seq<real>)
    requires |xs| > 0
    ensures LinearQuantile(xs, 0.0) == Min(xs)
    ensures LinearQuantile(xs, 1.0) == Max(xs)
  {
    SortEnds(xs);
    SortedQuantileZero(Sort(xs));
    SortedQuantileOne(Sort(xs));
  }

  /** When every row has the same error, that error is the threshold. */
  lemma ConstantThreshold(xs: seq<real>, q: real, c: real)
    requires |xs| > 0 && 0.0 <= q <= 1.0
    requires forall i :: 0 <= i < |xs| ==> xs[i] == c
    ensures LinearQuantile(xs, q) == c
  {
    ThresholdBounds(xs, q);
  }

  lemma {:induction false} CountAboveAppend(a: seq<real>, b: seq<real>, t: real)
    ensures CountAbove(a + b, t) == CountAbove(a, t) + CountAbove(b, t)
  {
    if a == [] {
      assert a + b == b;
    } else {
      assert (a + b)[1..] == a[1..] + b;
      CountAboveAppend(a[1..], b, t);
    }
  }

  lemma {:induction false} CountAboveInsert(x: real, s: seq<real>, t: real)
    requires Sorted(s)
    ensures CountAbove(Insert(x, s), t) == CountAbove(s, t) + (if x > t then 1 else 0)
  {
    if s != [] && x > s[0] {
      CountAboveInsert(x, s[1..], t);
    }
  }

  /** Counting the errors above a threshold does not depend on their order. */
  lemma {:induction false} CountAboveSort(xs: seq<real>, t: real)
    ensures CountAbove(Sort(xs), t) == CountAbove(xs, t)
  {
    if xs != [] {
      CountAboveSort(xs[1..], t);
      CountAboveInsert(xs[0], Sort(xs[1..]), t);
    }
  }

  /** Only the rows at or below some value: none above it. */
  lemma {:induction false} CountAboveNone(xs: seq<real>, t: real)
    requires forall i :: 0 <= i < |xs| ==> xs[i] <= t
    ensures CountAbove(xs, t) == 0
  {
    if xs != [] {
      CountAboveNone(xs[1..], t);
    }
  }

  lemma {:induction false} CountAboveAll(xs: seq<real>, t: real)
    requires forall i :: 0 <= i < |xs| ==> xs[i] > t
    ensures CountAbove(xs, t) == |xs|
  {
    if xs != [] {
      CountAboveAll(xs[1..], t);
    }
  }

  lemma {:induction false} CountAboveAtMost(xs: seq<real>, t: real)
    ensures CountAbove(xs, t) <= |xs|
  {
    if xs != [] {
      CountAboveAtMost(xs[1..], t);
    }
  }

  /**
   * In the sorted errors nothing up to the lower neighbour exceeds the
   * threshold, so at most `n - 1 - floor((n - 1) * q)` rows are above it.
   */
  lemma FlaggedAtMost(xs: seq<real>, q: real)
    requires |xs| > 0 && 0.0 <= q <= 1.0
    ensures CountAbove(xs, LinearQuantile(xs, q)) <= |xs| - 1 - Lower(|xs|, q)
  {
    CountAboveSort(xs, LinearQuantile(xs, q));
    SortedQuantileCountAtMost(Sort(xs), q);
  }

  lemma SortedQuantileCountAtMost(s: seq<real>, q: real)
    requires |s| > 0 && 0.0 <= q <= 1.0 && Sorted(s)
    ensures CountAbove(s, SortedQuantile(s, q)) <= |s| - 1 - Lower(|s|, q)
  {
    SortedQuantileBetween(s, q);
    SortedCountAtMost(s, SortedQuantile(s, q), Lower(|s|, q));
  }

  /** In sorted errors, a threshold at or above the `lo`-th leaves at most the later ones above it. */
  lemma SortedCountAtMost(s: seq<real>, t: real, lo: nat)
    requires Sorted(s) && lo < |s| && s[lo] <= t
    ensures CountAbove(s, t) <= |s| - 1 - lo
  {
    assert s == s[..lo + 1] + s[lo + 1..];
    CountAboveAppend(s[..lo + 1], s[lo + 1..], t);
    CountAboveNone(s[..lo + 1], t);
    CountAboveAtMost(s[lo + 1..], t);
  }

  /** In sorted errors, a threshold in `[s[lo], s[lo + 1])` leaves exactly the later ones above it. */
  lemma SortedCountExact(s: seq<real>, t: real, lo: nat)
    requires Sorted(s)
    requires lo < |s| && s[lo] <= t && (lo + 1 < |s| ==> t < s[lo + 1])
    ensures CountAbove(s, t) == |s| - 1 - lo
  {
    assert s == s[..lo + 1] + s[lo + 1..];
    CountAboveAppend(s[..lo + 1], s[lo + 1..], t);
    CountAboveNone(s[..lo + 1], t);
    var later := s[lo + 1..];
    forall k | 0 <= k < |later| ensures later[k] > t {
      assert s[lo + 1] <= s[lo + 1 + k];
    }
    CountAboveAll(later, t);
  }

  /** Sorting a batch without ties gives a strictly increasing sequence. */
  lemma SortedStrictly(xs: seq<real>)
    requires Distinct(xs)
    ensures forall i, j :: 0 <= i < j < |Sort(xs)| ==> Sort(xs)[i] < Sort(xs)[j]
  {
    var s := Sort(xs);
    SortPermutes(xs);
    forall i, j | 0 <= i < j < |s| ensures s[i] < s[j] {
      if s[i] == s[j] {
        TwoCopies(s, i, j);
        DistinctOnce(xs, s[i]);
        assert false;
      }
    }
  }

  lemma TwoCopies(s: seq<real>, i: nat, j: nat)
    requires i < j < |s| && s[i] == s[j]
    ensures multiset(s)[s[i]] >= 2
  {
    var v := s[i];
    assert s == s[..i] + [v] + (s[i + 1..j] + [v] + s[j + 1..]);
    assert multiset(s) == multiset(s[..i]) + multiset{v} + (multiset(s[i + 1..j]) + multiset{v} + multiset(s[j + 1..]));
  }

  lemma {:induction false} DistinctOnce(xs: seq<real>, v: real)
    requires Distinct(xs)
    ensures multiset(xs)[v] <= 1
  {
    if xs != [] {
      assert xs == [xs[0]] + xs[1..];
      DistinctOnce(xs[1..], v);
      if xs[0] == v {
        assert v !in xs[1..];
      }
    }
  }

  /**
   * The sorted values are not tied at the cutoff: the value at the quantile's
   * lower rank is strictly below the next one, when there is a next one.
   */
  predicate UntiedAtCutoff(s: seq<real>, q: real)
    requires |s| > 0 && 0.0 <= q <= 1.0
  {
    Lower(|s|, q) + 1 < |s| ==> s[Lower(|s|, q)] < s[Lower(|s|, q) + 1]
  }

  /**
   * Unless the errors tie at the cutoff rank, the batch flags exactly
   * `n - 1 - floor((n - 1) * q)` rows: the flagged fraction tracks `1 - q`.
   */
  lemma FlaggedCountUntied(xs: seq<real>, q: real)
    requires |xs| > 0 && 0.0 <= q <= 1.0 && UntiedAtCutoff(Sort(xs), q)
    ensures CountAbove(xs, LinearQuantile(xs, q)) == |xs| - 1 - Lower(|xs|, q)
  {
    CountAboveSort(xs, LinearQuantile(xs, q));
    SortedQuantileCountExact(Sort(xs), q);
  }

  /** A batch with no tied errors at all is untied at every cutoff, so the exact count holds. */
  lemma FlaggedCountWithoutTies(xs: seq<real>, q: real)
    requires |xs| > 0 && 0.0 <= q <= 1.0 && Distinct(xs)
    ensures CountAbove(xs, LinearQuantile(xs, q)) == |xs| - 1 - Lower(|xs|, q)
  {
    SortedStrictly(xs);
    FlaggedCountUntied(xs, q);
  }

  /** In sorted values untied at the cutoff, the quantile leaves exactly the values after its lower rank above it. */
  lemma SortedQuantileCountExact(s: seq<real>, q: real)
    requires |s| > 0 && 0.0 <= q <= 1.0 && Sorted(s) && UntiedAtCutoff(s, q)
    ensures CountAbove(s, SortedQuantile(s, q)) == |s| - 1 - Lower(|s|, q)
  {
    var lo := Lower(|s|, q);
    SortedQuantileBetween(s, q);
    if lo + 1 < |s| {
      SortedQuantileBelowNext(s, q);
    }
    SortedCountExact(s, SortedQuantile(s, q), lo);
  }

  /** Untied at the cutoff, the quantile stays strictly below the next sorted value. */
  lemma SortedQuantileBelowNext(s: seq<real>, q: real)
    requires |s| > 0 && 0.0 <= q <= 1.0 && Lower(|s|, q) + 1 < |s|
    requires s[Lower(|s|, q)] < s[Lower(|s|, q) + 1]
    ensures SortedQuantile(s, q) < s[Lower(|s|, q) + 1]
  {
    var lo, hi := Lower(|s|, q), Upper(|s|, q);
    LerpBetween(s[lo], s[hi], VirtualIndex(|s|, q) - lo as real);
  }

  /** A batch of 100 rows without ties at the default quantile 0.95 flags exactly five. */
  lemma HundredRowsFlagFive(xs: seq<real>)
    requires |xs| == 100 && Distinct(xs)
    ensures CountAbove(xs, LinearQuantile(xs, 0.95)) == 5
  {
    FlaggedCountWithoutTies(xs, 0.95);
    HundredRowsLowerRank();
  }

  /** With 100 rows the 95th percentile sits at virtual index 99 * 0.95 = 94.05. */
  lemma HundredRowsLowerRank()
    ensures VirtualIndex(100, 0.95) == 94.05
    ensures Lower(100, 0.95) == 94
  {
    TimesIsProduct(99, 0.95);
  }

  lemma {:induction false} CountAboveBelowLength(xs: seq<real>, t: real, k: nat)
    requires k < |xs| && xs[k] <= t
    ensures CountAbove(xs, t) < |xs|
  {
    CountAboveAtMost(xs[1..], t);
    if k > 0 {
      CountAboveBelowLength(xs[1..], t, k - 1);
    }
  }

  /** The row with the smallest error is never flagged, so some row always stays unflagged. */
  lemma MinimumNeverFlagged(xs: seq<real>, q: real)
    requires |xs| > 0 && 0.0 <= q <= 1.0
    ensures forall i :: 0 <= i < |xs| && xs[i] == Min(xs) ==> !(xs[i] > LinearQuantile(xs, q))
    ensures CountAbove(xs, LinearQuantile(xs, q)) < |xs|
  {
    ThresholdBounds(xs, q);
    var k :| 0 <= k < |xs| && xs[k] == Min(xs);
    CountAboveBelowLength(xs, LinearQuantile(xs, q), k);
  }

  /** A batch whose rows all have one error (a single row in particular) flags nothing. */
  lemma ConstantBatchFlagsNothing(xs: seq<real>, q: real)
    requires |xs| > 0 && 0.0 <= q <= 1.0
    requires forall i :: 0 <= i < |xs| ==> xs[i] == xs[0]
    ensures CountAbove(xs, LinearQuantile(xs, q)) == 0
  {
    ConstantThreshold(xs, q, xs[0]);
    CountAboveNone(xs, LinearQuantile(xs, q));
  }

  /** The flags mark exactly the rows above the threshold, and count them. */
  lemma {:induction false} FlagsCountAbove(errors: seq<real>, t: real)
    ensures |Flags(errors, t)| == |errors|
    ensures forall i :: 0 <= i < |errors| ==> (Flags(errors, t)[i] == 1 <==> errors[i] > t)
    ensures forall i :: 0 <= i < |errors| ==> Flags(errors, t)[i] in {0, 1}
    ensures CountOnes(Flags(errors, t)) == CountAbove(errors, t)
  {
    if errors != [] {
      assert Flags(errors, t)[1..] == Flags(errors[1..], t);
      FlagsCountAbove(errors[1..], t);
    }
  }

  /** A higher quantile never gives a lower threshold. */
  lemma QuantileMonotone(xs: seq<real>, p: real, q: real)
    requires |xs| > 0 && 0.0 <= p <= q <= 1.0
    ensures LinearQuantile(xs, p) <= LinearQuantile(xs, q)
  {
    SortedQuantileMonotone(Sort(xs), p, q);
  }

  lemma SortedQuantileMonotone(s: seq<real>, p: real, q: real)
    requires |s| > 0 && 0.0 <= p <= q <= 1.0 && Sorted(s)
    ensures SortedQuantile(s, p) <= SortedQuantile(s, q)
  {
    VirtualIndexMonotone(|s|, p, q);
    if Lower(|s|, p) < Lower(|s|, q) {
      SortedQuantileBetween(s, p);
      SortedQuantileBetween(s, q);
      assert s[Upper(|s|, p)] <= s[Lower(|s|, q)];
    } else {
      var lo, hi := Lower(|s|, p), Upper(|s|, p);
      LerpMonotone(s[lo], s[hi], VirtualIndex(|s|, p) - lo as real, VirtualIndex(|s|, q) - lo as real);
    }
  }

  lemma VirtualIndexMonotone(n: nat, p: real, q: real)
    requires n > 0 && 0.0 <= p <= q <= 1.0
    ensures VirtualIndex(n, p) <= VirtualIndex(n, q)
    ensures Lower(n, p) <= Lower(n, q)
  {
    TimesMonotone(n - 1, p, q);
  }
}
