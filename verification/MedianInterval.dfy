/** The distribution-free confidence interval for the median, from the order statistics. */
module MedianInterval {
  import opened Numbers
  import opened RealArith
  import opened Sorting
  import Binomial

  datatype Interval = Interval(low: real, high: real, confidence: real)

  /** Samples up to this size are summed exactly; larger ones use the normal approximation. */
  const EXACT_LIMIT: nat := 1000

  /** What the normal approximation answers, for samples past the exact limit. */
  type Approximation = (nat, nat) -> real

  function CdfHalf(n: nat, k: int, approx: Approximation): real {
    if k < 0 then 0.0
    else if k >= n then 1.0
    else if n <= EXACT_LIMIT then Min(1.0, Binomial.Cdf(n, k))
    else approx(n, k)
  }

  method ComputeCdfHalf(n: nat, k: int, approx: Approximation) returns (p: real)
    ensures p == CdfHalf(n, k, approx)
    ensures n <= EXACT_LIMIT ==> p == Binomial.Cdf(n, k)
  {
    Binomial.CdfIsProbability(n, k);
    if k < 0 { return 0.0; }
    if k >= n { return 1.0; }
    if n <= EXACT_LIMIT {
      var cdf := Binomial.SumMasses(n, k);
      return Min(1.0, cdf);
    }
    return approx(n, k);
  }

  lemma ExactCdfHalf(n: nat, k: int, approx: Approximation)
    requires n <= EXACT_LIMIT
    ensures CdfHalf(n, k, approx) == Binomial.Cdf(n, k)
  {
    Binomial.CdfIsProbability(n, k);
  }

  /** Up to 1000 values are summed exactly; beyond that the approximation is asked, but never outside 0 to n - 1. */
  lemma ExactUpToAThousand(n: nat, k: int, approx: Approximation)
    ensures n <= 1000 ==> CdfHalf(n, k, approx) == Binomial.Cdf(n, k)
    ensures n > 1000 ==> CdfHalf(n, k, approx) == if k < 0 then 0.0 else if k < n then approx(n, k) else 1.0
  {
    if n <= 1000 { ExactCdfHalf(n, k, approx); }
  }

  /** The upward search for the order statistic, stopping at the first candidate too likely to miss. */
  function SearchFrom(n: nat, c: nat, alphaHalf: real, approx: Approximation): (k: nat)
    requires 1 <= c <= n / 2 + 1
    ensures c - 1 <= k <= n / 2
    decreases n / 2 + 1 - c
  {
    if c <= n / 2 && CdfHalf(n, c - 1, approx) <= alphaHalf then SearchFrom(n, c + 1, alphaHalf, approx) else c - 1
  }

  /** The order statistic used for a sample of `n`. */
  function Rank(n: nat, confidence: real, approx: Approximation): (k: nat)
    ensures k <= n / 2
  {
    SearchFrom(n, 1, (1.0 - confidence) / 2.0, approx)
  }

  function Identity(v: real): real { v }

  function IntervalOf(values: seq<real>, confidence: real, approx: Approximation): Option<Interval> {
    var n := |values|;
    if n < 2 || Rank(n, confidence, approx) < 1 then None
    else
      var sorted, k := SortBy(values, Identity), Rank(n, confidence, approx);
      Some(Interval(sorted[k - 1], sorted[n - k], confidence))
  }

  method ComputeInterval(values: seq<real>, confidence: real, approx: Approximation) returns (r: Option<Interval>)
    ensures r == IntervalOf(values, confidence, approx)
  {
    var n := |values|;
    if n < 2 { return None; }
    var alphaHalf := (1.0 - confidence) / 2.0;
    var sorted := SortBy(values, Identity);
    var k := 0;
    var candidate := 1;
    while candidate <= n / 2
      invariant 1 <= candidate <= n / 2 + 1 && k == candidate - 1
      invariant SearchFrom(n, candidate, alphaHalf, approx) == Rank(n, confidence, approx)
    {
      var p := ComputeCdfHalf(n, candidate - 1, approx);
      if p <= alphaHalf { k := candidate; } else { break; }
      candidate := candidate + 1;
    }
    if k < 1 { return None; }
    return Some(Interval(sorted[k - 1], sorted[n - k], confidence));
  }

  // ----- the rank is the largest allowed -----

  lemma {:induction false} SearchStops(n: nat, c: nat, alphaHalf: real, approx: Approximation)
    requires 1 <= c <= n / 2 + 1
    ensures var k := SearchFrom(n, c, alphaHalf, approx);
      && (forall d :: c - 1 <= d < k ==> CdfHalf(n, d, approx) <= alphaHalf)
      && (k < n / 2 ==> CdfHalf(n, k, approx) > alphaHalf)
    decreases n / 2 + 1 - c
  {
    hide CdfHalf;
    if c <= n / 2 && CdfHalf(n, c - 1, approx) <= alphaHalf { SearchStops(n, c + 1, alphaHalf, approx); }
  }

  /** Stopping early loses nothing: on an exact sample, the ranks allowed are exactly those up to the one found. */
  lemma RankIsLargestAllowed(n: nat, confidence: real, approx: Approximation, c: nat)
    requires n <= 1000 && 1 <= c <= n / 2
    ensures Binomial.Cdf(n, c - 1) <= (1.0 - confidence) / 2.0 <==> c <= Rank(n, confidence, approx)
  {
    hide CdfHalf, SearchFrom, Binomial.Cdf;
    var k := Rank(n, confidence, approx);
    SearchStops(n, 1, (1.0 - confidence) / 2.0, approx);
    ExactCdfHalf(n, c - 1, approx);
    if k < c {
      ExactCdfHalf(n, k, approx);
      Binomial.CdfIsMonotone(n, k, c - 1);
    }
  }

  // ----- what the interval covers -----

  /** Which observations lie strictly below a point. */
  function PatternBelow(values: seq<real>, m: real): (p: Binomial.Pattern)
    ensures |p| == |values|
  {
    if values == [] then [] else PatternBelow(values[..|values| - 1], m) + [values[|values| - 1] < m]
  }

  function IsBelow(m: real): real -> bool { (v: real) => v < m }
  function IsAbove(m: real): real -> bool { (v: real) => v > m }

  lemma {:induction false} TruesAreBelow(values: seq<real>, m: real)
    ensures Binomial.Trues(PatternBelow(values, m)) == Count(values, IsBelow(m))
  {
    if values != [] {
      TruesAreBelow(values[..|values| - 1], m);
      Binomial.TruesExtended(PatternBelow(values[..|values| - 1], m), values[|values| - 1] < m);
    }
  }

  lemma SortedPair(s: seq<real>, i: nat, j: nat)
    requires Sorted(s, Identity) && i <= j < |s|
    ensures s[i] <= s[j]
  {
    assert i < j ==> Identity(s[i]) <= Identity(s[j]);
  }

  /** The k-th smallest value is below `m` iff at least k values are. */
  lemma RankBelow(s: seq<real>, m: real, k: nat)
    requires Sorted(s, Identity) && 1 <= k <= |s|
    ensures s[k - 1] < m <==> k <= Count(s, IsBelow(m))
  {
    if s[k - 1] < m {
      forall i | 0 <= i < k ensures s[i] < m { SortedPair(s, i, k - 1); }
      CountPrefix(s, k, IsBelow(m));
    } else {
      var atLeast := (v: real) => v >= m;
      forall i | k - 1 <= i < |s| ensures s[i] >= m { SortedPair(s, k - 1, i); }
      CountSuffix(s, k - 1, atLeast);
      CountSplits(s, IsBelow(m), atLeast);
    }
  }

  lemma RankAbove(s: seq<real>, m: real, k: nat)
    requires Sorted(s, Identity) && 1 <= k <= |s|
    ensures m < s[|s| - k] <==> k <= Count(s, IsAbove(m))
  {
    var n := |s|;
    if m < s[n - k] {
      forall i | n - k <= i < n ensures s[i] > m { SortedPair(s, n - k, i); }
      CountSuffix(s, n - k, IsAbove(m));
    } else {
      var atMost := (v: real) => v <= m;
      forall i | 0 <= i <= n - k ensures s[i] <= m { SortedPair(s, i, n - k); }
      CountPrefix(s, n - k + 1, atMost);
      CountSplits(s, IsAbove(m), atMost);
    }
  }

  /** For a point no observation equals, being strictly inside the interval is a matter of the pattern alone. */
  lemma CoversIffPatternBetween(values: seq<real>, confidence: real, approx: Approximation, m: real)
    requires IntervalOf(values, confidence, approx).Some? && m !in values
    ensures var iv, k := IntervalOf(values, confidence, approx).value, Rank(|values|, confidence, approx);
      iv.low < m < iv.high <==> Binomial.Between(k, |values| - k)(PatternBelow(values, m))
  {
    hide Count, Rank, SortBy, Binomial.Trues;
    var n, k, s := |values|, Rank(|values|, confidence, approx), SortBy(values, Identity);
    SortByIsSorted(values, Identity);
    RankBelow(s, m, k);
    RankAbove(s, m, k);
    CountOfSort(values, Identity, IsBelow(m));
    CountOfSort(values, Identity, IsAbove(m));
    CountSplits(values, IsBelow(m), IsAbove(m));
    TruesAreBelow(values, m);
  }

  /**
   * Of the equally likely patterns of n observations about the true median, the share
   * for which the interval covers it is exactly 1 - 2 * cdf(k - 1), and at least the
   * confidence asked for.
   */
  lemma CoverageIsExact(n: nat, confidence: real, approx: Approximation)
    requires 2 <= n <= 1000 && 1 <= Rank(n, confidence, approx)
    ensures var k := Rank(n, confidence, approx);
      var covered := Count(Binomial.Patterns(n), Binomial.Between(k, n - k)) as real / Binomial.Pow2(n) as real;
      covered == 1.0 - 2.0 * Binomial.Cdf(n, k - 1) && covered >= confidence
  {
    hide Rank;
    var k := Rank(n, confidence, approx);
    RankIsLargestAllowed(n, confidence, approx, k);
    Binomial.PatternsBetween(n, k);
    CoverageArithmetic(n, k);
  }

  lemma CoverageArithmetic(n: nat, k: nat)
    requires 1 <= k && k <= n - k
    requires Count(Binomial.Patterns(n), Binomial.Between(k, n - k)) ==
            Binomial.Pow2(n) - 2 * Binomial.SumChoose(n, k - 1)
    ensures Count(Binomial.Patterns(n), Binomial.Between(k, n - k)) as real / Binomial.Pow2(n) as real
              == 1.0 - 2.0 * Binomial.Cdf(n, k - 1)
  {
    hide Count, Binomial.SumChoose, Binomial.Pow2, Binomial.Patterns;
    var p, x := Binomial.Pow2(n) as real, Binomial.SumChoose(n, k - 1) as real;
    assert Count(Binomial.Patterns(n), Binomial.Between(k, n - k)) as real == p - 2.0 * x;
    OneMinusTwice(p, x);
  }

  lemma OneMinusTwice(p: real, x: real)
    requires 0.0 < p
    ensures (p - 2.0 * x) / p == 1.0 - 2.0 * (x / p)
  {
    var q, r := x / p, (p - 2.0 * x) / p;
    DivMul(x, p);
    DivMul(p - 2.0 * x, p);
    MulDistrib(p, 1.0, 2.0 * q);
    MulAssoc(p, 2.0, q);
    MulAssoc(2.0, p, q);
    MulCancel(p, r, 1.0 - 2.0 * q);
    MulCancel(p, 1.0 - 2.0 * q, r);
  }

  // ----- the plain median, and which way most of the sample points -----

  function PlainMedian(values: seq<real>): real {
    var s := SortBy(values, Identity);
    if s == [] then 0.0
    else if |s| % 2 == 1 then s[|s| / 2]
    else (s[|s| / 2 - 1] + s[|s| / 2]) / 2.0
  }

  /**
   * The plain median is midway between the lower and the upper middle value: fewer than half of the values lie below
   * the one or above the other, and of an odd number of values both are the same one.
   */
  lemma PlainMedianIsMidway(values: seq<real>) returns (lo: real, hi: real)
    requires values != []
    ensures lo in values && hi in values && lo <= hi && PlainMedian(values) - lo == hi - PlainMedian(values)
    ensures 2 * Count(values, IsBelow(lo)) < |values| && 2 * Count(values, IsAbove(hi)) < |values|
    ensures if |values| % 2 == 1 then lo == hi
            else 2 * Count(values, IsBelow(hi)) <= |values| && 2 * Count(values, IsAbove(lo)) <= |values|
  {
    hide SortBy, Count;
    var s, n := SortBy(values, Identity), |values|;
    SortByIsSorted(values, Identity);
    lo, hi := s[(n - 1) / 2], s[n / 2];
    SortedPair(s, (n - 1) / 2, n / 2);
    assert s[(n - 1) / 2] in multiset(s) && s[n / 2] in multiset(s);
    MiddleCounts(values, lo, hi);
  }

  /** How many values lie beside the middle ones. */
  lemma MiddleCounts(values: seq<real>, lo: real, hi: real)
    requires var s, n := SortBy(values, Identity), |values|; n > 0 && lo == s[(n - 1) / 2] && hi == s[n / 2]
    ensures Count(values, IsBelow(lo)) <= (|values| - 1) / 2 && Count(values, IsAbove(hi)) <= (|values| - 1) / 2
    ensures Count(values, IsBelow(hi)) <= |values| / 2 && Count(values, IsAbove(lo)) <= |values| / 2
  {
    hide SortBy, Count;
    var s, n := SortBy(values, Identity), |values|;
    SortByIsSorted(values, Identity);
    CountOfSort(values, Identity, IsBelow(lo));
    CountOfSort(values, Identity, IsBelow(hi));
    CountOfSort(values, Identity, IsAbove(lo));
    CountOfSort(values, Identity, IsAbove(hi));
    RankBelow(s, lo, (n - 1) / 2 + 1);
    RankBelow(s, hi, n / 2 + 1);
    RankAbove(s, lo, n - (n - 1) / 2);
    RankAbove(s, hi, n - n / 2);
  }

  /** Without values the plain median is zero. */
  lemma NoPlainMedian()
    ensures PlainMedian([]) == 0.0
  {
  }

  lemma IntervalContainsPlainMedian(values: seq<real>, confidence: real, approx: Approximation)
    requires IntervalOf(values, confidence, approx).Some?
    ensures var iv := IntervalOf(values, confidence, approx).value;
      iv.low <= PlainMedian(values) <= iv.high
  {
    hide Rank, SortBy;
    var n, k, s := |values|, Rank(|values|, confidence, approx), SortBy(values, Identity);
    SortByIsSorted(values, Identity);
    SortedPair(s, k - 1, n / 2);
    SortedPair(s, n / 2, n - k);
    if n % 2 == 0 {
      SortedPair(s, k - 1, n / 2 - 1);
      SortedPair(s, n / 2 - 1, n - k);
    }
  }

  /** An interval on one side of zero means strictly more than half of the values are. */
  lemma IntervalShowsMajority(values: seq<real>, confidence: real, approx: Approximation)
    requires IntervalOf(values, confidence, approx).Some?
    ensures var iv := IntervalOf(values, confidence, approx).value;
      && iv.low <= iv.high
      && (iv.low > 0.0 ==> 2 * Count(values, IsAbove(0.0)) > |values|)
      && (iv.high < 0.0 ==> 2 * Count(values, IsBelow(0.0)) > |values|)
  {
    hide Rank, SortBy, Count;
    var n, k, s := |values|, Rank(|values|, confidence, approx), SortBy(values, Identity);
    SortByIsSorted(values, Identity);
    SortedPair(s, k - 1, n - k);
    if s[k - 1] > 0.0 {
      forall i | k - 1 <= i < n ensures s[i] > 0.0 { SortedPair(s, k - 1, i); }
      CountSuffix(s, k - 1, IsAbove(0.0));
      CountOfSort(values, Identity, IsAbove(0.0));
    }
    if s[n - k] < 0.0 {
      forall i | 0 <= i <= n - k ensures s[i] < 0.0 { SortedPair(s, i, n - k); }
      CountPrefix(s, n - k + 1, IsBelow(0.0));
      CountOfSort(values, Identity, IsBelow(0.0));
    }
  }
}
