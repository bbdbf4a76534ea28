/** When the gate activates and why it holds, exactly; and what the numbers it reads mean. */
module GateLaws {
  import opened Numbers
  import opened RealArith
  import opened Sorting
  import opened Thresholds
  import opened Activation
  import A = Aggregate
  import RW = ReviewerWeights
  import WM = WeightedMedian
  import MI = MedianInterval

  // ----- the adjustment -----

  function Steps(count: real, step: real): real { count * step }

  /** The nearest whole number of steps: within half a step of the gap, and the one above at exactly half. */
  lemma SnappedIsNearest(m: real, step: real) returns (n: int)
    requires step > 0.0
    ensures Snapped(m, step) == Steps(n as real, step)
    ensures -(step / 2.0) < Snapped(m, step) - m <= step / 2.0
  {
    n := Round(m / step);
    DivMul(m, step);
    assert Snapped(m, step) == Steps(n as real, step) && m == Steps(m / step, step);
    var off := n as real - m / step;
    assert -0.5 < off <= 0.5;
    hide Steps, Snapped, Round;
    StepsApart(n as real, m / step, step);
    HalfAStep(off, step);
  }

  lemma StepsApart(x: real, y: real, step: real)
    ensures Steps(x - y, step) == Steps(x, step) - Steps(y, step)
  {
  }

  lemma HalfAStep(off: real, step: real)
    requires step > 0.0 && -0.5 < off <= 0.5
    ensures -(step / 2.0) < Steps(off, step) <= step / 2.0
  {
    MulStrict(step, -0.5, off);
    MulMonotone(step, off, 0.5);
    MulComm(step, off);
  }

  /** The snapped gap, held within the bound. */
  function Snap(m: real, t: Thresholds): real
    requires t.deltaStep > 0.0
  {
    var s := Snapped(m, t.deltaStep);
    if s > t.maxAbsDelta then t.maxAbsDelta else if s < -t.maxAbsDelta then -t.maxAbsDelta else s
  }

  /** What applies is the snapped gap held within the bound, to the nearest hundredth, unless it is too small. */
  lemma AdjustmentIs(median: Option<real>, t: Thresholds)
    requires Sane(t)
    ensures BoundDelta(median, t) != 0.0 <==> median.Some? && Abs(Snap(median.value, t)) >= t.minAbsDelta - 0.000000001
    ensures BoundDelta(median, t) != 0.0 ==> Abs(BoundDelta(median, t) - Snap(median.value, t)) <= 0.005
  {
    hide Snapped;
    if median.Some? {
      RoundedHundredth(Bounded(median.value, t));
      HundredthIsNear(Bounded(median.value, t));
    }
  }

  lemma HundredthIsNear(x: real)
    ensures Abs(RoundToHundredth(x) - x) <= 0.005
  {
  }

  // ----- the gate -----

  /** Calibration is on, and enough people filed enough. */
  predicate Counted(agg: A.Aggregate, t: Thresholds, enabled: bool) {
    enabled && agg.observations >= 1 && agg.observations >= t.minObservations && agg.reviewers >= t.minReviewers
  }

  /** The interval lies wholly on one side of zero. */
  predicate OneSided(agg: A.Aggregate) {
    agg.interval.Some? && (agg.interval.value.low > 0.0 || agg.interval.value.high < 0.0)
  }

  /** The estimate is absent, zero, or on the interval's side. */
  predicate EstimateAgrees(agg: A.Aggregate)
    requires agg.interval.Some?
  {
    agg.median.Some? ==>
      (agg.interval.value.low > 0.0 ==> agg.median.value >= 0.0)
      && (agg.interval.value.high < 0.0 ==> agg.median.value <= 0.0)
  }

  ghost predicate Ordered(agg: A.Aggregate) {
    agg.interval.Some? ==> agg.interval.value.low <= agg.interval.value.high
  }

  /** Everything but the size of the adjustment and the fairness check. */
  predicate Settled(agg: A.Aggregate, t: Thresholds, enabled: bool) {
    && Counted(agg, t, enabled) && OneSided(agg) && EstimateAgrees(agg)
    && agg.reviewerAgreement >= t.minReviewerAgreement
  }

  /** The gate activates exactly when everything is in place, and then applies the bounded median. */
  lemma ActivatesIff(agg: A.Aggregate, t: Thresholds, fairness: Fairness, enabled: bool)
    requires t.deltaStep > 0.0 && Ordered(agg)
    ensures Decide(agg, t, fairness, enabled) == Decision(Activate, BoundDelta(agg.median, t), None) <==>
              Settled(agg, t, enabled) && BoundDelta(agg.median, t) != 0.0 && !fairness.flagged
    ensures Decide(agg, t, fairness, enabled).outcome.Activate? ==>
              Decide(agg, t, fairness, enabled).delta == BoundDelta(agg.median, t)
  {
    hide BoundDelta;
  }

  /** Each reason is given exactly when its own question is the first to fail, in the order a person would ask. */
  lemma HoldsBecause(agg: A.Aggregate, t: Thresholds, fairness: Fairness, enabled: bool)
    requires t.deltaStep > 0.0 && Ordered(agg)
    ensures var reason := Decide(agg, t, fairness, enabled).reason;
      && (reason == Some(SwitchedOff) <==> !enabled)
      && (reason == Some(TooFewReviewers) <==> enabled && agg.observations >= 1 && agg.reviewers < t.minReviewers)
      && (reason == Some(TooFewObservations) <==>
            enabled && (agg.observations == 0
              || (agg.reviewers >= t.minReviewers && agg.observations < t.minObservations)))
      && (reason == Some(NoInterval) <==> Counted(agg, t, enabled) && agg.interval.None?)
      && (reason == Some(IntervalIncludesZero) <==>
            Counted(agg, t, enabled) && agg.interval.Some? && agg.interval.value.low <= 0.0 <= agg.interval.value.high)
      && (reason == Some(EstimateOutsideInterval) <==>
            Counted(agg, t, enabled) && OneSided(agg) && !EstimateAgrees(agg))
      && (reason == Some(ReviewersDisagree) <==>
            && Counted(agg, t, enabled) && OneSided(agg) && EstimateAgrees(agg)
            && agg.reviewerAgreement < t.minReviewerAgreement)
      && (reason == Some(BelowSmallestStep) <==> Settled(agg, t, enabled) && BoundDelta(agg.median, t) == 0.0)
      && (reason == Some(FairnessFlagged) <==>
            Settled(agg, t, enabled) && BoundDelta(agg.median, t) != 0.0 && fairness.flagged)
  {
    hide BoundDelta;
  }

  /** Below the smallest step is the one reason that is no hold: there is nothing to apply. */
  lemma OnlyHoldsHaveReasons(agg: A.Aggregate, t: Thresholds, fairness: Fairness, enabled: bool)
    requires t.deltaStep > 0.0
    ensures var d := Decide(agg, t, fairness, enabled);
      && (d.outcome.NothingToApply? <==> d.reason == Some(BelowSmallestStep))
      && (d.outcome.Hold? <==> d.reason.Some? && d.reason.value != BelowSmallestStep)
      && (!d.outcome.Activate? ==> d.delta == 0.0)
  {
    hide BoundDelta;
  }

  /** The interval the aggregation reads off is ordered. */
  lemma AggregateIsOrdered(input: A.Input)
    ensures Ordered(A.AggregateOf(input))
  {
    hide A.Sample, A.Contributions, WM.MedianOf, MI.Rank, A.Deltas, SortBy;
    IntervalIsOrdered(A.Deltas(A.Sample(input)), input.thresholds.confidence, input.approx);
  }

  lemma IntervalIsOrdered(values: seq<real>, confidence: real, approx: MI.Approximation)
    ensures var r := MI.IntervalOf(values, confidence, approx); r.Some? ==> r.value.low <= r.value.high
  {
    hide MI.Rank, SortBy;
    SortByIsSorted(values, MI.Identity);
    var sorted, n, k := SortBy(values, MI.Identity), |values|, MI.Rank(|values|, confidence, approx);
    if n >= 2 && k >= 1 && k - 1 < n - k { assert MI.Identity(sorted[k - 1]) <= MI.Identity(sorted[n - k]); }
  }

  /** A group's decision over observations, exactly. */
  lemma GroupActivatesIff(input: A.Input, snapshots: seq<Snapshot>, id: CompetencyId, stats: Statistics)
    requires Sane(input.thresholds)
    ensures var agg, t := A.AggregateOf(input), input.thresholds;
      var delta := BoundDelta(agg.median, t);
      RunGroup(input, snapshots, id, stats).outcome.Activate? <==>
        && Settled(agg, t, true) && delta != 0.0
        && (stats.required ==> stats.available && stats.readable)
        && var shift := Project(snapshots, id, delta).shift; shift.Some? ==> Abs(shift.value) <= t.maxPassRateShift
  {
    hide A.AggregateOf, BoundDelta, Project, Settled, Ordered;
    var agg, t := A.AggregateOf(input), input.thresholds;
    var fairness := FairnessFor(agg, t, snapshots, id, stats);
    AggregateIsOrdered(input);
    ActivatesIff(agg, t, fairness, true);
    OnlyActivationsCarryADelta(agg, t, fairness, true);
    FairnessFailsClosed(Project(snapshots, id, BoundDelta(agg.median, t)), stats.available, stats.readable, t,
      stats.required);
    hide Decide, EvaluateFairness;
  }

  // ----- a group that speaks with one voice -----

  /** Every counted observation measures the same gap, and each still carries weight. */
  ghost predicate Unanimous(input: A.Input, gap: real) {
    && A.Sample(input) != []
    && (forall o :: o in A.Sample(input) ==> o.delta == Some(gap) && input.recency(o.at) > 0.0)
  }

  lemma {:induction false} SameDeltas(rows: seq<A.Observation>, gap: real)
    requires forall o :: o in rows ==> o.delta == Some(gap)
    ensures forall i :: 0 <= i < |rows| ==> A.Deltas(rows)[i] == gap
  {
    if rows != [] {
      assert rows[|rows| - 1] in rows;
      SameDeltas(rows[..|rows| - 1], gap);
    }
  }

  lemma SortOfSame<T(!new)>(s: seq<T>, key: T -> real, v: real)
    requires forall x :: x in s ==> key(x) == v
    ensures forall i :: 0 <= i < |SortBy(s, key)| ==> SortBy(s, key)[i] in s
  {
    hide SortBy;
    forall i | 0 <= i < |SortBy(s, key)| ensures SortBy(s, key)[i] in s {
      assert SortBy(s, key)[i] in multiset(SortBy(s, key));
    }
  }

  lemma UnanimousInterval(values: seq<real>, gap: real, confidence: real, approx: MI.Approximation)
    requires forall i :: 0 <= i < |values| ==> values[i] == gap
    requires |values| >= 2 && MI.Rank(|values|, confidence, approx) >= 1
    ensures MI.IntervalOf(values, confidence, approx) == Some(MI.Interval(gap, gap, confidence))
  {
    hide MI.Rank, SortBy;
    forall v | v in values ensures v == gap {}
    SortOfSame(values, MI.Identity, gap);
  }

  lemma UnanimousPlainMedian(values: seq<real>, gap: real)
    requires values != [] && forall i :: 0 <= i < |values| ==> values[i] == gap
    ensures MI.PlainMedian(values) == gap
  {
    hide SortBy;
    forall v | v in values ensures v == gap {}
    SortOfSame(values, MI.Identity, gap);
  }

  lemma UnanimousMedian(rows: seq<RW.Row>, gap: real)
    requires forall i :: 0 <= i < |rows| ==> rows[i].value == gap
    requires exists i :: 0 <= i < |rows| && rows[i].weight > 0.0
    ensures WM.MedianOf(rows) == Some(gap)
  {
    hide WM.MedianOf, WM.Below, WM.Above, Sum;
    WM.MedianSplitsTheWeight(rows);
    var i :| 0 <= i < |rows| && rows[i].weight > 0.0;
    assert rows[i] in WM.Usable(rows);
    forall r | r in WM.Usable(rows) ensures r.value == gap {}
  }

  /** The least of the weights is a floor for what anyone carries. */
  lemma {:induction false} LeastWeight(rows: seq<RW.Row>) returns (least: real)
    requires forall i :: 0 <= i < |rows| ==> rows[i].weight > 0.0
    ensures 0.0 < least && forall i :: 0 <= i < |rows| ==> least <= rows[i].weight
  {
    least := 1.0;
    if rows != [] {
      var front := LeastWeight(rows[..|rows| - 1]);
      least := Min(front, rows[|rows| - 1].weight);
    }
  }

  lemma {:induction false} CarriesTheFloor(rows: seq<RW.Row>, floor: real, r: RW.ReviewerId)
    requires 0.0 < floor && forall i :: 0 <= i < |rows| ==> floor <= rows[i].weight
    ensures 0.0 <= RW.Of(rows, r) && (r in RW.Reviewers(rows) ==> floor <= RW.Of(rows, r))
  {
    if rows != [] {
      var n := |rows| - 1;
      CarriesTheFloor(rows[..n], floor, r);
      if r in RW.Reviewers(rows) && rows[n].reviewer != r {
        var i :| 0 <= i < |rows| && rows[i].reviewer == r;
        assert rows[..n][i].reviewer == r;
      }
    }
  }

  lemma {:induction false} SomeRowCarries(rows: seq<RW.Row>, r: RW.ReviewerId)
    requires RW.Of(rows, r) > 0.0
    ensures exists i :: 0 <= i < |rows| && rows[i].weight > 0.0
  {
    if rows != [] && !(rows[|rows| - 1].weight > 0.0) {
      SomeRowCarries(rows[..|rows| - 1], r);
      var i :| 0 <= i < |rows| - 1 && rows[..|rows| - 1][i].weight > 0.0;
      assert rows[i].weight > 0.0;
    }
  }

  /** With enough reviewers, capping leaves someone with weight. */
  lemma CappingLeavesWeight(rows: seq<RW.Row>, share: real)
    requires rows != [] && forall i :: 0 <= i < |rows| ==> rows[i].weight > 0.0
    requires 0.0 <= share && 1.0 <= share * |RW.Reviewers(rows)| as real
    ensures exists i :: 0 <= i < |rows| && RW.Capped(rows, share)[i].weight > 0.0
  {
    hide RW.CapPasses, RW.Of;
    if share >= 1.0 {
      assert RW.Capped(rows, share)[0].weight > 0.0;
    } else {
      var least := LeastWeight(rows);
      var r := rows[0].reviewer;
      assert r in RW.Reviewers(rows);
      forall q | q in RW.Reviewers(rows) ensures least <= RW.Of(rows, q) { CarriesTheFloor(rows, least, q); }
      RW.LightestIsAFloor(rows, share, RW.MAX_PASSES, least, r);
      SomeRowCarries(RW.Capped(rows, share), r);
    }
  }

  lemma ReviewersOfSample(rows: seq<A.Observation>, recency: int -> real)
    ensures |RW.Reviewers(A.Weighted(rows, recency))| == |A.Order(rows)|
  {
    hide A.Order;
    var w := A.Weighted(rows, recency);
    A.DistinctToSet(A.Order(rows));
    forall r ensures r in RW.Reviewers(w) <==> r in A.Members(A.Order(rows)) {
      if r in RW.Reviewers(w) {
        var i :| 0 <= i < |w| && w[i].reviewer == r;
        assert rows[i].reviewer == r;
      }
      if r in A.Order(rows) {
        var i :| 0 <= i < |rows| && rows[i].reviewer == r;
        assert w[i].reviewer == r;
      }
    }
    assert RW.Reviewers(w) == A.Members(A.Order(rows));
  }

  lemma UnanimousSampleMedian(input: A.Input, gap: real)
    requires Sane(input.thresholds) && Unanimous(input, gap)
    requires |A.Order(A.Sample(input))| >= input.thresholds.minReviewers
    ensures WM.MedianOf(A.CappedRows(input)) == Some(gap)
  {
    hide A.Sample, A.Order, RW.Capped, WM.MedianOf;
    var rows, share := A.Sample(input), input.thresholds.maxReviewerWeightShare;
    var w := A.Weighted(rows, input.recency);
    forall i | 0 <= i < |rows| ensures w[i].value == gap && w[i].weight > 0.0 { assert rows[i] in rows; }
    ReviewersOfSample(rows, input.recency);
    ShareOfMore(share, input.thresholds.minReviewers, |A.Order(rows)|);
    CappingLeavesWeight(w, share);
    UnanimousMedian(RW.Capped(w, share), gap);
  }

  lemma ShareOfMore(share: real, few: int, many: int)
    requires 0.0 <= share && few <= many && 1.0 <= share * few as real
    ensures 1.0 <= share * many as real
  {
    MulMonotone(share, few as real, many as real);
  }

  // ----- whose way a reviewer points -----

  function PointsUp(): A.Contribution -> bool { (c: A.Contribution) => c.median > 0.0 }
  function PointsDown(): A.Contribution -> bool { (c: A.Contribution) => c.median < 0.0 }

  lemma {:induction false} VotesAre(cs: seq<A.Contribution>)
    ensures var voting := Filter(cs, A.HasDirection());
      && |voting| == Count(cs, PointsUp()) + Count(cs, PointsDown())
      && Count(voting, A.Points(1)) == Count(cs, PointsUp()) && Count(voting, A.Points(-1)) == Count(cs, PointsDown())
      && Count(voting, A.Points(0)) == 0
  {
    hide Count;
    if cs == [] {
      NoVotes();
    } else {
      var n := |cs| - 1;
      VotesAre(cs[..n]);
      CountStep(cs, PointsUp());
      CountStep(cs, PointsDown());
      var before, voting := Filter(cs[..n], A.HasDirection()), Filter(cs, A.HasDirection());
      if A.HasDirection()(cs[n]) {
        assert voting == before + [cs[n]] && voting[..|before|] == before;
        CountStep(voting, A.Points(1));
        CountStep(voting, A.Points(-1));
        CountStep(voting, A.Points(0));
      }
    }
  }

  lemma NoVotes()
    ensures Count([], PointsUp()) == Count([], PointsDown()) == 0
    ensures Count([], A.Points(1)) == Count([], A.Points(-1)) == Count([], A.Points(0)) == 0
  {
  }

  /**
   * One vote a reviewer: those whose own median is above zero against those below. Agreement is the part of them that
   * points the aggregate's way, and none when the aggregate points no way or nobody does.
   */
  lemma AgreementIsTheShareOfVotes(cs: seq<A.Contribution>, median: Option<real>)
    ensures var up, down := Count(cs, PointsUp()), Count(cs, PointsDown());
      A.Agreement(cs, median) ==
        if up + down == 0 || median.None? || median.value == 0.0 then 0.0
        else (if median.value > 0.0 then up else down) as real / (up + down) as real
  {
    VotesAre(cs);
    hide Filter, A.HasDirection, PointsUp, PointsDown, A.Points;
    var voting := Filter(cs, A.HasDirection());
    if voting != [] && (median.None? || median.value == 0.0) {
      assert Count(voting, A.Points(0)) == 0;
      assert 0.0 / |voting| as real == 0.0;
    }
  }

  /** A reviewer of the sample: the rows filed, the median of their own gaps, their part of the weight. */
  ghost predicate IsContribution(input: A.Input, c: A.Contribution) {
    var sample := A.Sample(input);
    && c.reviewer in A.Order(sample) && c.observations == Count(sample, A.ByReviewer(c.reviewer))
    && c.median == MI.PlainMedian(A.Deltas(A.RowsOf(sample, c.reviewer)))
    && (RW.Total(A.CappedRows(input)) != 0.0 ==>
          c.weightShare * RW.Total(A.CappedRows(input)) == RW.Of(A.CappedRows(input), c.reviewer))
  }

  lemma {:induction false} ContributionsAreOf(input: A.Input, keys: seq<A.ReviewerId>)
    requires forall k :: k in keys ==> k in A.Order(A.Sample(input))
    ensures var cs := A.ContributionsOf(A.Sample(input), A.CappedRows(input), keys);
      && |cs| == |keys| && forall i :: 0 <= i < |cs| ==> cs[i].reviewer == keys[i] && IsContribution(input, cs[i])
  {
    hide A.Sample, A.CappedRows, A.Order, A.ContributionOf, IsContribution;
    if keys != [] {
      var n := |keys| - 1;
      assert keys[n] in keys;
      ContributionsAreOf(input, keys[..n]);
      OneContribution(input, keys[n]);
    }
  }

  lemma OneContribution(input: A.Input, r: A.ReviewerId)
    requires r in A.Order(A.Sample(input))
    ensures var c := A.ContributionOf(A.Sample(input), A.CappedRows(input), r);
      c.reviewer == r && IsContribution(input, c)
  {
    hide A.Sample, A.CappedRows, A.Order, RW.Total, RW.Of, MI.PlainMedian, A.Deltas, A.RowsOf, A.OrOne, Count;
    A.CountIsRows(A.Sample(input), r);
    ShareTimesTotal(RW.Of(A.CappedRows(input), r), RW.Total(A.CappedRows(input)));
  }

  lemma ShareTimesTotal(part: real, total: real)
    ensures total != 0.0 ==> part / A.OrOne(total) * total == part
  {
    if total != 0.0 { DivMul(part, total); }
  }

  /** The contributions are those of the reviewers, one each, the busiest first. */
  lemma ContributionsAre(input: A.Input)
    ensures forall i, j :: 0 <= i < j < |A.Contributions(input)| ==>
              A.Contributions(input)[i].observations >= A.Contributions(input)[j].observations
    ensures |A.Contributions(input)| == |A.Order(A.Sample(input))|
    ensures forall c :: c in A.Contributions(input) ==> IsContribution(input, c)
  {
    hide A.Sample, A.CappedRows, A.Order, IsContribution, SortBy;
    var cs := A.ContributionsOf(A.Sample(input), A.CappedRows(input), A.Order(A.Sample(input)));
    ContributionsAreOf(input, A.Order(A.Sample(input)));
    forall c | c in A.Contributions(input) ensures IsContribution(input, c) {
      assert c in multiset(SortBy(cs, A.Fewest));
      assert c in cs;
    }
    SortByIsSorted(cs, A.Fewest);
    var sorted := A.Contributions(input);
    forall i, j | 0 <= i < j < |sorted| ensures sorted[i].observations >= sorted[j].observations {
      assert A.Fewest(sorted[i]) <= A.Fewest(sorted[j]);
    }
  }

  lemma UnanimousAgreement(input: A.Input, gap: real)
    requires Unanimous(input, gap) && gap != 0.0
    ensures A.Agreement(A.Contributions(input), Some(gap)) == 1.0
  {
    hide A.Sample, A.Agreement, A.Contributions;
    var cs := A.Contributions(input);
    ContributionsAre(input);
    forall c | c in cs ensures c.median == gap { OwnMedianIs(input, gap, c); }
    OrderHasOne(A.Sample(input));
    hide Unanimous, IsContribution;
    AgreementIsTheShareOfVotes(cs, Some(gap));
    AllPoint(cs, gap);
    WholeShare(|cs|);
  }

  lemma WholeShare(n: nat)
    ensures n > 0 ==> n as real / n as real == 1.0
  {
    if n > 0 { MulDiv(1.0, n as real); }
  }

  lemma OrderHasOne(rows: seq<A.Observation>)
    requires rows != []
    ensures A.Order(rows) != []
  {
    assert rows[0].reviewer in A.Order(rows);
  }

  lemma OwnMedianIs(input: A.Input, gap: real, c: A.Contribution)
    requires Unanimous(input, gap) && IsContribution(input, c)
    ensures c.median == gap
  {
    hide A.Sample, A.Order, MI.PlainMedian, A.CappedRows, RW.Of, RW.Total;
    var sample := A.Sample(input);
    var own := A.RowsOf(sample, c.reviewer);
    forall o | o in own ensures o.delta == Some(gap) {}
    var i :| 0 <= i < |sample| && sample[i].reviewer == c.reviewer;
    assert sample[i] in own;
    SameDeltas(own, gap);
    UnanimousPlainMedian(A.Deltas(own), gap);
  }

  lemma {:induction false} AllPoint(cs: seq<A.Contribution>, gap: real)
    requires gap != 0.0 && forall c :: c in cs ==> c.median == gap
    ensures Count(cs, PointsUp()) == if gap > 0.0 then |cs| else 0
    ensures Count(cs, PointsDown()) == if gap < 0.0 then |cs| else 0
  {
    hide Count;
    if cs == [] {
      NoVotes();
    } else {
      var n := |cs| - 1;
      assert cs[n] in cs;
      AllPoint(cs[..n], gap);
      CountStep(cs, PointsUp());
      CountStep(cs, PointsDown());
    }
  }

  /**
   * A group that measures one and the same gap is adjusted by it, to the nearest step and at most the bound: whichever
   * side of zero it lies on, as soon as enough people filed enough and nothing in the replay or the statistics objects.
   */
  lemma UnanimousGroupIsAdjusted(input: A.Input, gap: real, snapshots: seq<Snapshot>, id: CompetencyId,
                                 stats: Statistics)
    requires Sane(input.thresholds) && Unanimous(input, gap) && BoundDelta(Some(gap), input.thresholds) != 0.0
    requires var t, n := input.thresholds, |A.Sample(input)|;
      && n >= t.minObservations && |A.Order(A.Sample(input))| >= t.minReviewers
      && MI.Rank(n, t.confidence, input.approx) >= 1
    requires stats.required ==> stats.available && stats.readable
    requires var shift := Project(snapshots, id, BoundDelta(Some(gap), input.thresholds)).shift;
      shift.Some? ==> Abs(shift.value) <= input.thresholds.maxPassRateShift
    ensures RunGroup(input, snapshots, id, stats) ==
            Decision(Activate, BoundDelta(Some(gap), input.thresholds), None)
  {
    hide A.Sample, A.Order, A.CappedRows, A.Contributions, A.Agreement, BoundDelta, Project, WM.MedianOf, MI.Rank,
      MI.IntervalOf, A.Deltas;
    var t, sample := input.thresholds, A.Sample(input);
    assert gap != 0.0 by { ZeroIsNoGap(t); }
    UnanimousSampleMedian(input, gap);
    UnanimousAgreement(input, gap);
    SameDeltas(sample, gap);
    A.DeltaCount(sample);
    UnanimousInterval(A.Deltas(sample), gap, t.confidence, input.approx);
    AggregateIsOrdered(input);
    GroupActivatesIff(input, snapshots, id, stats);
    var agg := A.AggregateOf(input);
    assert Settled(agg, t, true);
    OnlyActivationsCarryADelta(agg, t, FairnessFor(agg, t, snapshots, id, stats), true);
  }

  lemma ZeroIsNoGap(t: Thresholds)
    requires Sane(t)
    ensures BoundDelta(Some(0.0), t) == 0.0
  {
    BoundDeltaIsBounded(Some(0.0), t);
    hide BoundDelta;
  }

  /** With the settings the source ships, fifteen rows of three reviewers on either side of zero. */
  lemma BothSidesActivate(up: bool)
    ensures var gap, t := if up then 1.0 else -1.0,
              Resolve(Patch(Absent, Absent, Absent, Absent, Absent, Absent, Absent, Absent, Absent, Absent, Absent,
                Absent));
      var agg := A.Aggregate(15, 15, 15, 3, Some(gap), Some(MI.Interval(gap, gap, 0.95)), 1.0, []);
      t.deltaStep > 0.0 && Decide(agg, t, NO_MOVEMENT, true) == Decision(Activate, gap, None)
  {
    var gap := if up then 1.0 else -1.0;
    assert Round(gap / 0.5) == if up then 2 else -2;
    assert RoundToHundredth(gap) == gap;
  }

  // ----- the counts -----

  /** The counts the gate reads: rows of the balanced sample, rows in the window, rows seen, and people. */
  lemma CountsAre(input: A.Input)
    ensures var agg, sample := A.AggregateOf(input), A.Sample(input);
      && agg.observations == |sample| <= agg.observationsInWindow <= agg.observationsSeen == |input.observations|
      && agg.observationsInWindow == Count(input.observations, Counts(input))
      && agg.reviewers == |set o | o in sample :: o.reviewer|
      && agg.contributions == A.Contributions(input)
  {
    hide A.Order, A.Contributions, A.Agreement, WM.MedianOf, MI.IntervalOf, A.Balanced, Filter, A.Deltas;
    var sample := A.Sample(input);
    BalancedIsNoLonger(A.InWindow(input), input.thresholds.maxReviewerWeightShare);
    A.DistinctToSet(A.Order(sample));
    PeopleAre(sample);
    SameWindow(input);
  }

  function Counts(input: A.Input): A.Observation -> bool {
    (o: A.Observation) =>
      o.delta.Some? && o.reviewer !in input.excluded && input.now - o.at <= input.thresholds.windowDays * 86400000
  }

  lemma SameWindow(input: A.Input)
    ensures |A.InWindow(input)| == Count(input.observations, Counts(input))
  {
    SameFilter(input.observations, (o: A.Observation) => A.Eligible(input, o), Counts(input));
  }

  lemma {:induction false} SameFilter<T(!new)>(s: seq<T>, p: T -> bool, q: T -> bool)
    requires forall x :: p(x) == q(x)
    ensures Filter(s, p) == Filter(s, q)
  {
    if s != [] { SameFilter(s[..|s| - 1], p, q); }
  }

  lemma PeopleAre(rows: seq<A.Observation>)
    ensures A.Members(A.Order(rows)) == set o | o in rows :: o.reviewer
  {
    hide A.Order;
    forall r ensures r in A.Members(A.Order(rows)) <==> r in set o | o in rows :: o.reviewer {
      if r in A.Order(rows) {
        var i :| 0 <= i < |rows| && rows[i].reviewer == r;
        assert rows[i] in rows;
      }
    }
  }

  lemma BalancedIsNoLonger(rows: seq<A.Observation>, share: real)
    ensures |A.Balanced(rows, share)| <= |rows|
  {
    hide A.Order, A.CapFor, A.KeptOf, A.RowsOf;
    AllKeptIsNoLonger(rows, A.Order(rows), A.CapFor(rows, share));
  }

  lemma AllKeptIsNoLonger(rows: seq<A.Observation>, keys: seq<A.ReviewerId>, cap: nat)
    requires forall i, j :: 0 <= i < j < |keys| ==> keys[i] != keys[j]
    ensures |A.KeptOfAll(rows, keys, cap)| <= |rows|
  {
    KeptFitsIn(rows, keys, cap);
  }

  /** The rows of different reviewers are different rows. */
  lemma {:induction false} KeptFitsIn(rows: seq<A.Observation>, keys: seq<A.ReviewerId>, cap: nat)
    requires forall i, j :: 0 <= i < j < |keys| ==> keys[i] != keys[j]
    ensures |A.KeptOfAll(rows, keys, cap)| <= Count(rows, IsOneOf(keys))
  {
    hide A.KeptOf, Count, A.RowsOf;
    if keys != [] {
      var n := |keys| - 1;
      KeptFitsIn(rows, keys[..n], cap);
      A.KeptAreOwn(rows, keys[n], cap);
      OneOfMore(rows, keys);
      A.CountIsRows(rows, keys[n]);
    }
  }

  function IsOneOf(keys: seq<A.ReviewerId>): A.Observation -> bool { (o: A.Observation) => o.reviewer in keys }

  lemma {:induction false} OneOfMore(rows: seq<A.Observation>, keys: seq<A.ReviewerId>)
    requires keys != [] && forall i, j :: 0 <= i < j < |keys| ==> keys[i] != keys[j]
    ensures var n := |keys| - 1;
      Count(rows, IsOneOf(keys)) == Count(rows, IsOneOf(keys[..n])) + Count(rows, A.ByReviewer(keys[n]))
  {
    var n := |keys| - 1;
    if rows != [] {
      OneOfMore(rows[..|rows| - 1], keys);
      CountStep(rows, IsOneOf(keys));
      CountStep(rows, IsOneOf(keys[..n]));
      CountStep(rows, A.ByReviewer(keys[n]));
      assert keys == keys[..n] + [keys[n]];
    }
  }

  // ----- the replay -----

  /** A level with the adjustment: on the scale from 1 to 5, to the nearest hundredth. */
  lemma MovedLevelIs(level: real, delta: real)
    ensures 1.0 <= ApplyCalibration(level, delta) <= 5.0
    ensures 1.0 <= level + delta <= 5.0 ==> Abs(ApplyCalibration(level, delta) - (level + delta)) <= 0.005
    ensures level + delta <= 1.0 ==> ApplyCalibration(level, delta) == 1.0
    ensures level + delta >= 5.0 ==> ApplyCalibration(level, delta) == 5.0
  {
    ApplyCalibrationIsMonotone(level, delta, delta);
    HundredthIsNear(level + delta);
    assert RoundToHundredth(1.0) == 1.0 && RoundToHundredth(5.0) == 5.0;
  }

  predicate IsGraded(c: Competency) { c.level.Some? && !c.notEnoughEvidence }

  /** The weight of the graded competencies. */
  function GradedWeight(cs: seq<Competency>): real {
    if cs == [] then 0.0
    else GradedWeight(cs[..|cs| - 1]) + if IsGraded(cs[|cs| - 1]) then cs[|cs| - 1].weight else 0.0
  }

  /** The level a graded competency is replayed at: only the calibrated one moves. */
  function ReplayedLevel(c: Competency, id: CompetencyId, delta: real): real
    requires IsGraded(c)
  {
    if c.id == id then ApplyCalibration(c.level.value, delta) else c.level.value
  }

  function WeightedLevel(level: real, weight: real): real { level * weight }

  /** Their replayed levels, by weight. */
  function WeightedLevels(cs: seq<Competency>, id: CompetencyId, delta: real): real {
    if cs == [] then 0.0
    else
      var last := cs[|cs| - 1];
      WeightedLevels(cs[..|cs| - 1], id, delta)
        + if IsGraded(last) then WeightedLevel(ReplayedLevel(last, id, delta), last.weight) else 0.0
  }

  lemma PointsAre(c: Competency, id: CompetencyId, delta: real)
    requires IsGraded(c)
    ensures Points(c, id, delta) == 20.0 * WeightedLevel(ReplayedLevel(c, id, delta), c.weight)
  {
    hide ApplyCalibration;
  }

  lemma {:induction false} SumsAre(cs: seq<Competency>, id: CompetencyId, delta: real)
    ensures var scored := Filter(cs, IsScored());
      && Sum(scored, PointsFor(id, delta)) == 20.0 * WeightedLevels(cs, id, delta)
      && Sum(scored, WeightOf) == GradedWeight(cs)
  {
    if cs != [] {
      hide Points, WeightedLevel, ApplyCalibration;
      var n := |cs| - 1;
      SumsAre(cs[..n], id, delta);
      var before, scored := Filter(cs[..n], IsScored()), Filter(cs, IsScored());
      if IsGraded(cs[n]) {
        PointsAre(cs[n], id, delta);
        assert scored == before + [cs[n]] && scored[..|before|] == before;
      }
    }
  }

  /** The overall is the weighted mean of the graded levels, at twenty points a level; without a grade there is none. */
  lemma OverallIsTheMean(s: Snapshot, id: CompetencyId, delta: real)
    ensures OverallOf(s, id, delta).None? <==> forall c :: c in s.competencies ==> !IsGraded(c)
    ensures OverallOf(s, id, delta).Some? && GradedWeight(s.competencies) != 0.0 ==>
              OverallOf(s, id, delta).value * GradedWeight(s.competencies) ==
                20.0 * WeightedLevels(s.competencies, id, delta)
    ensures OverallOf(s, id, delta).Some? && GradedWeight(s.competencies) == 0.0 ==>
              OverallOf(s, id, delta).value == 20.0 * WeightedLevels(s.competencies, id, delta)
  {
    hide Sum, WeightedLevels, GradedWeight;
    var scored := Filter(s.competencies, IsScored());
    SumsAre(s.competencies, id, delta);
    if scored != [] { assert scored[0] in s.competencies && IsGraded(scored[0]); }
    if GradedWeight(s.competencies) != 0.0 {
      DivMul(20.0 * WeightedLevels(s.competencies, id, delta), GradedWeight(s.competencies));
    }
  }

  /** An assessment passes exactly if its overall reaches its threshold: reaching it is enough. */
  lemma PassesExactly(s: Snapshot, id: CompetencyId, delta: real)
    requires GradedWeight(s.competencies) > 0.0
    ensures Passes(s, id, delta) <==>
              && (exists c :: c in s.competencies && IsGraded(c))
              && s.passThreshold * GradedWeight(s.competencies) <= 20.0 * WeightedLevels(s.competencies, id, delta)
  {
    hide OverallOf, WeightedLevels, GradedWeight;
    OverallIsTheMean(s, id, delta);
    var overall := OverallOf(s, id, delta);
    if overall.Some? { ScaleOrder(GradedWeight(s.competencies), s.passThreshold, overall.value); }
  }

  predicate HasCompetency(s: Snapshot, id: CompetencyId) {
    exists i :: 0 <= i < |s.competencies| && s.competencies[i].id == id
  }

  lemma UsesIffHas(s: Snapshot, id: CompetencyId)
    ensures Uses(id)(s) <==> HasCompetency(s, id)
  {
    if HasCompetency(s, id) {
      var i :| 0 <= i < |s.competencies| && s.competencies[i].id == id;
      assert s.competencies[i] in s.competencies;
    }
  }

  /** The replay is over the assessments that used the competency, and reports rates to the fourth decimal. */
  lemma ProjectionCounts(snapshots: seq<Snapshot>, id: CompetencyId, delta: real)
    ensures forall s :: s in Filter(snapshots, Uses(id)) <==> s in snapshots && HasCompetency(s, id)
    ensures var p, usable := Project(snapshots, id, delta), Filter(snapshots, Uses(id));
      && p.n == |usable| && (p.n == 0 <==> p.before.None?) && (p.before.None? <==> p.after.None?)
      && (p.n > 0 ==>
            && Abs(p.before.value - Count(usable, PassesAt(id, 0.0)) as real / p.n as real) <= 0.00005
            && Abs(p.after.value - Count(usable, PassesAt(id, delta)) as real / p.n as real) <= 0.00005)
  {
    hide Passes, RoundToTenThousandth, Count, HasCompetency;
    var usable := Filter(snapshots, Uses(id));
    forall s ensures Uses(id)(s) <==> HasCompetency(s, id) { UsesIffHas(s, id); }
    if usable != [] {
      RoundedShift(PassRate(usable, id, 0.0));
      RoundedShift(PassRate(usable, id, delta));
    }
  }
}
