/** The weighted median of the capped rows: the value with half the weight either side. */
module WeightedMedian {
  import opened Numbers
  import opened RealArith
  import opened Sorting
  import opened ReviewerWeights

  /** The tolerance on "exactly half the weight". */
  const HALF_SLACK: real := 0.000000000001

  function Value(r: Row): real { r.value }
  function Weight(r: Row): real { r.weight }

  function Usable(rows: seq<Row>): seq<Row> {
    Filter(rows, (r: Row) => r.weight > 0.0)
  }

  /** The walk over the sorted rows from index `i`, with `running` weight already passed. */
  function Scan(s: seq<Row>, i: nat, running: real, half: real): real
    requires i <= |s| && s != []
    decreases |s| - i
  {
    if i == |s| then s[|s| - 1].value
    else
      var next := running + s[i].weight;
      if next > half + HALF_SLACK then s[i].value
      else if Abs(next - half) <= HALF_SLACK && i + 1 < |s| then (s[i].value + s[i + 1].value) / 2.0
      else Scan(s, i + 1, next, half)
  }

  function MedianOf(rows: seq<Row>): Option<real> {
    var s := SortBy(Usable(rows), Value);
    if s == [] then None else Some(Scan(s, 0, 0.0, Sum(s, Weight) / 2.0))
  }

  method ComputeMedian(rows: seq<Row>) returns (m: Option<real>)
    ensures m == MedianOf(rows)
  {
    var usable := Usable(rows);
    if |usable| == 0 { return None; }
    var sorted := SortBy(usable, Value);
    var total := Sum(sorted, Weight);
    var half := total / 2.0;
    var running := 0.0;
    for i := 0 to |sorted|
      invariant Scan(sorted, i, running, half) == Scan(sorted, 0, 0.0, half)
    {
      running := running + sorted[i].weight;
      if running > half + HALF_SLACK { return Some(sorted[i].value); }
      if Abs(running - half) <= HALF_SLACK && i + 1 < |sorted| {
        return Some((sorted[i].value + sorted[i + 1].value) / 2.0);
      }
    }
    return Some(sorted[|sorted| - 1].value);
  }

  // ----- what the value returned means -----

  /** Weight strictly below, and strictly above, a value. */
  function Below(rows: seq<Row>, x: real): real {
    Sum(rows, (r: Row) => if r.value < x then r.weight else 0.0)
  }

  function Above(rows: seq<Row>, x: real): real {
    Sum(rows, (r: Row) => if r.value > x then r.weight else 0.0)
  }

  /** The total weighted distance of the rows from `x`. */
  function Deviation(rows: seq<Row>, x: real): real {
    Sum(rows, (r: Row) => r.weight * Abs(r.value - x))
  }

  ghost predicate Positive(s: seq<Row>) {
    forall i :: 0 <= i < |s| ==> s[i].weight > 0.0
  }

  /** If nothing from index `i` on lies below `x`, the weight below `x` is in the first `i` rows. */
  lemma {:induction false} BelowIsInPrefix(s: seq<Row>, x: real, i: nat)
    requires Positive(s) && i <= |s| && forall j :: i <= j < |s| ==> s[j].value >= x
    ensures Below(s, x) <= Sum(s[..i], Weight)
  {
    if s != [] {
      var n := |s| - 1;
      if i == |s| {
        BelowIsInPrefix(s[..n], x, n);
        assert s[..n][..n] == s[..n] && s[..i] == s;
      } else {
        BelowIsInPrefix(s[..n], x, i);
        assert s[..n][..i] == s[..i];
      }
    }
  }

  lemma {:induction false} AboveIsInSuffix(s: seq<Row>, x: real, i: nat)
    requires Positive(s) && i <= |s| && forall j :: 0 <= j < i ==> s[j].value <= x
    ensures Above(s, x) <= Sum(s, Weight) - Sum(s[..i], Weight)
  {
    if s != [] {
      var n := |s| - 1;
      if i == |s| {
        AboveIsInSuffix(s[..n], x, n);
        assert s[..n][..n] == s[..n] && s[..i] == s;
      } else {
        AboveIsInSuffix(s[..n], x, i);
        assert s[..n][..i] == s[..i];
      }
    }
  }

  lemma PrefixSum(s: seq<Row>, i: nat)
    requires i < |s|
    ensures Sum(s[..i + 1], Weight) == Sum(s[..i], Weight) + s[i].weight
  {
    assert s[..i + 1][..i] == s[..i];
  }

  lemma {:induction false} ScanSplits(s: seq<Row>, i: nat, running: real, half: real)
    requires Sorted(s, Value) && Positive(s) && s != [] && i <= |s|
    requires running == Sum(s[..i], Weight) <= half + HALF_SLACK
    requires half + half == Sum(s, Weight)
    ensures var m := Scan(s, i, running, half);
      && s[0].value <= m <= s[|s| - 1].value
      && Below(s, m) <= half + HALF_SLACK
      && Above(s, m) <= half + HALF_SLACK
    decreases |s| - i
  {
    hide Below, Above, Sum;
    forall j, k | 0 <= j <= k < |s| ensures s[j].value <= s[k].value {
      assert j < k ==> Value(s[j]) <= Value(s[k]);
    }
    if i == |s| {
      assert s[..i] == s;
      SumIsPositive(s);
      BelowIsInPrefix(s, s[|s| - 1].value, i);
      AboveIsInSuffix(s, s[|s| - 1].value, i);
    } else {
      PrefixSum(s, i);
      var next := running + s[i].weight;
      if next > half + HALF_SLACK {
        BelowIsInPrefix(s, s[i].value, i);
        AboveIsInSuffix(s, s[i].value, i + 1);
      } else if Abs(next - half) <= HALF_SLACK && i + 1 < |s| {
        var m := (s[i].value + s[i + 1].value) / 2.0;
        BelowIsInPrefix(s, m, i + 1);
        AboveIsInSuffix(s, m, i + 1);
      } else {
        ScanSplits(s, i + 1, next, half);
      }
    }
  }

  /** The weight of the rows up to and including row k. */
  function WeightUpTo(s: seq<Row>, k: nat): real
    requires k < |s|
  {
    Sum(s[..k + 1], Weight)
  }

  /** The scan stops at the first row at which half the weight is passed, up to the slack. */
  lemma {:induction false} ScanStops(s: seq<Row>, i: nat, running: real, half: real) returns (k: nat)
    requires Positive(s) && i < |s| && running == Sum(s[..i], Weight) && half + half == Sum(s, Weight)
    requires forall j: nat :: j < i ==> WeightUpTo(s, j) < half - HALF_SLACK
    ensures k < |s| && (forall j: nat :: j < k ==> WeightUpTo(s, j) < half - HALF_SLACK)
    ensures WeightUpTo(s, k) >= half - HALF_SLACK
    ensures Scan(s, i, running, half) == if WeightUpTo(s, k) <= half + HALF_SLACK && k + 1 < |s| then
              (s[k].value + s[k + 1].value) / 2.0
            else s[k].value
    decreases |s| - i
  {
    hide Sum;
    PrefixSum(s, i);
    assert WeightUpTo(s, i) == Sum(s[..i + 1], Weight);
    var next := running + s[i].weight;
    if next >= half - HALF_SLACK {
      k := i;
      if i + 1 == |s| { assert Scan(s, i + 1, next, half) == s[i].value; }
    } else {
      if i + 1 == |s| {
        assert s[..i + 1] == s;
        SumIsPositive(s);
        assert false;
      } else {
        k := ScanStops(s, i + 1, next, half);
      }
    }
  }

  /** Row k is the first, in order of value, at which the weight so far is half of all, up to 1e-12. */
  ghost predicate PassesHalf(s: seq<Row>, k: nat) {
    && k < |s| && WeightUpTo(s, k) >= Sum(s, Weight) / 2.0 - 0.000000000001
    && forall j: nat :: j < k ==> WeightUpTo(s, j) < Sum(s, Weight) / 2.0 - 0.000000000001
  }

  /**
   * The median is the value of the row at which half the weight is passed, or, where that row makes up exactly half,
   * midway between its value and the next.
   */
  lemma MedianIsAtHalf(rows: seq<Row>) returns (s: seq<Row>, k: nat)
    requires Usable(rows) != []
    ensures multiset(s) == multiset(Usable(rows)) && Sorted(s, Value) && PassesHalf(s, k)
    ensures Abs(WeightUpTo(s, k) - Sum(s, Weight) / 2.0) > 0.000000000001 || k + 1 == |s| ==>
              MedianOf(rows) == Some(s[k].value)
    ensures Abs(WeightUpTo(s, k) - Sum(s, Weight) / 2.0) <= 0.000000000001 && k + 1 < |s| ==>
              MedianOf(rows).Some? && MedianOf(rows).value - s[k].value == s[k + 1].value - MedianOf(rows).value
  {
    hide Scan, SortBy, Sum, Usable;
    s := SortBy(Usable(rows), Value);
    SortByIsSorted(Usable(rows), Value);
    SortedUsable(rows);
    assert s[..0] == [];
    assert Sum<Row>([], Weight) == 0.0 by { EmptySum(); }
    k := ScanStops(s, 0, 0.0, Sum(s, Weight) / 2.0);
  }

  /**
   * The value returned is some iff a row is usable; it lies between the smallest and
   * the largest usable value and leaves at most half the weight strictly on each side.
   */
  lemma MedianSplitsTheWeight(rows: seq<Row>)
    ensures MedianOf(rows).None? <==> Usable(rows) == []
    ensures MedianOf(rows).Some? ==>
      var m, half := MedianOf(rows).value, Sum(Usable(rows), Weight) / 2.0;
      && (exists r :: r in Usable(rows) && r.value <= m)
      && (exists r :: r in Usable(rows) && m <= r.value)
      && Below(Usable(rows), m) <= half + 0.000000000001
      && Above(Usable(rows), m) <= half + 0.000000000001
  {
    hide Below, Above, Sum, Scan, SortBy, Usable;
    var usable := Usable(rows);
    var s := SortBy(usable, Value);
    if s != [] {
      SortByIsSorted(usable, Value);
      SortedUsable(rows);
      SumOfSort(usable, Value, Weight);
      SumIsPositive(s);
      assert s[..0] == [];
      assert Sum<Row>([], Weight) == 0.0 by { EmptySum(); }
      ScanSplits(s, 0, 0.0, Sum(s, Weight) / 2.0);
      BelowOfSort(usable, MedianOf(rows).value);
    }
  }

  lemma EmptySum()
    ensures Sum<Row>([], Weight) == 0.0
  {
  }

  lemma SortedUsable(rows: seq<Row>)
    ensures var s := SortBy(Usable(rows), Value);
      Positive(s) && Positive(Usable(rows)) && forall i :: 0 <= i < |s| ==> s[i] in Usable(rows)
  {
    var s := SortBy(Usable(rows), Value);
    forall i | 0 <= i < |s| ensures s[i] in Usable(rows) {
      assert s[i] in multiset(s);
    }
    forall i | 0 <= i < |Usable(rows)| ensures Usable(rows)[i].weight > 0.0 {
      assert Usable(rows)[i] in Usable(rows);
    }
  }

  lemma {:induction false} SumIsPositive(s: seq<Row>)
    requires Positive(s)
    ensures 0.0 <= Sum(s, Weight)
  {
    if s != [] { SumIsPositive(s[..|s| - 1]); }
  }

  lemma BelowOfSort(rows: seq<Row>, x: real)
    ensures Below(SortBy(rows, Value), x) == Below(rows, x)
    ensures Above(SortBy(rows, Value), x) == Above(rows, x)
  {
    SumOfSort(rows, Value, (r: Row) => if r.value < x then r.weight else 0.0);
    SumOfSort(rows, Value, (r: Row) => if r.value > x then r.weight else 0.0);
  }

  /** How much the deviation grows, per unit, on moving right of `m`: weight left behind minus weight approached. */
  function RightSlope(rows: seq<Row>, m: real): real {
    Sum(rows, Weight) - 2.0 * Above(rows, m)
  }

  function LeftSlope(rows: seq<Row>, m: real): real {
    Sum(rows, Weight) - 2.0 * Below(rows, m)
  }

  function Product(k: real, slope: real): real { k * slope }

  lemma {:induction false} DeviationRises(rows: seq<Row>, m: real, x: real)
    requires Positive(rows)
    ensures m <= x ==> Deviation(rows, x) - Deviation(rows, m) >= Product(x - m, RightSlope(rows, m))
    ensures x <= m ==> Deviation(rows, x) - Deviation(rows, m) >= Product(m - x, LeftSlope(rows, m))
  {
    if rows != [] {
      var front, r := rows[..|rows| - 1], rows[|rows| - 1];
      DeviationRises(front, m, x);
      Unfold(rows, m);
      Unfold(rows, x);
      hide *;
      RowDeviationRises(r.weight, r.value, m, x);
      if m <= x {
        ProductAdds(x - m, RightSlope(front, m), if r.value > m then -r.weight else r.weight);
      }
      if x <= m {
        ProductAdds(m - x, LeftSlope(front, m), if r.value < m then -r.weight else r.weight);
      }
    }
  }

  lemma RowDeviationRises(w: real, v: real, m: real, x: real)
    requires w > 0.0
    ensures m <= x ==> Product(w, Abs(v - x)) - Product(w, Abs(v - m)) >= Product(x - m, if v > m then -w else w)
    ensures x <= m ==> Product(w, Abs(v - x)) - Product(w, Abs(v - m)) >= Product(m - x, if v < m then -w else w)
  {
    MulDistrib(w, Abs(v - x), Abs(v - m));
    if m <= x {
      MulMonotone(w, if v > m then m - x else x - m, Abs(v - x) - Abs(v - m));
    }
    if x <= m {
      MulMonotone(w, if v < m then x - m else m - x, Abs(v - x) - Abs(v - m));
    }
  }

  lemma ProductAdds(k: real, a: real, b: real)
    ensures Product(k, a + b) == Product(k, a) + Product(k, b)
  {
  }

  lemma Unfold(rows: seq<Row>, x: real)
    requires rows != []
    ensures var front, r := rows[..|rows| - 1], rows[|rows| - 1];
      && Deviation(rows, x) == Deviation(front, x) + Product(r.weight, Abs(r.value - x))
      && RightSlope(rows, x) == RightSlope(front, x) + (if r.value > x then -r.weight else r.weight)
      && LeftSlope(rows, x) == LeftSlope(front, x) + (if r.value < x then -r.weight else r.weight)
  {
  }

  /** No other value has a smaller weighted absolute deviation (beyond what the tolerance can hide). */
  lemma MedianMinimisesDeviation(rows: seq<Row>, x: real)
    requires MedianOf(rows).Some?
    ensures var m := MedianOf(rows).value;
      Deviation(Usable(rows), m) <= Deviation(Usable(rows), x) + 0.000000000002 * Abs(x - m)
  {
    hide Below, Above, Deviation, MedianOf, Sum, Usable, SortBy;
    MedianSplitsTheWeight(rows);
    var usable, m := Usable(rows), MedianOf(rows).value;
    SortedUsable(rows);
    DeviationRises(usable, m, x);
    var total := Sum(usable, Weight);
    if m <= x {
      MulMonotone(x - m, -2.0 * HALF_SLACK, total - 2.0 * Above(usable, m));
    } else {
      MulMonotone(m - x, -2.0 * HALF_SLACK, total - 2.0 * Below(usable, m));
    }
  }
}
