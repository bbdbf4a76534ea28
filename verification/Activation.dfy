/**
 * The adjustment a measured gap may become, its replay over past assessments, the
 * fairness check, and the one gate that decides whether it applies.
 */
module Activation {
  import opened Numbers
  import opened RealArith
  import opened Sorting
  import opened Thresholds
  import A = Aggregate
  import WM = WeightedMedian
  import RC = RowCap
  import MI = MedianInterval
  import Binomial

  /** The tolerance on the smallest applicable step. */
  const STEP_SLACK: real := 0.000000001

  // ----- the bound -----

  /** The nearest whole number of steps. */
  function Snapped(median: real, step: real): real
    requires step > 0.0
  {
    Round(median / step) as real * step
  }

  function Bounded(median: real, t: Thresholds): real
    requires t.deltaStep > 0.0
  {
    Max(-t.maxAbsDelta, Min(t.maxAbsDelta, Snapped(median, t.deltaStep)))
  }

  function BoundDelta(median: Option<real>, t: Thresholds): real
    requires t.deltaStep > 0.0
  {
    match median
    case None => 0.0
    case Some(m) =>
      var bounded := Bounded(m, t);
      if Abs(bounded) < t.minAbsDelta - STEP_SLACK then 0.0 else RoundToHundredth(bounded)
  }

  lemma SnappedIsMonotone(m: real, n: real, step: real)
    requires step > 0.0 && m <= n
    ensures Snapped(m, step) <= Snapped(n, step)
  {
    DivMonotone(m, n, step);
    var i, j := Round(m / step), Round(n / step);
    RoundIsMonotone(m / step, n / step);
    ScaleOrder(step, i as real, j as real);
  }

  lemma BoundedIsMonotone(m: real, n: real, t: Thresholds)
    requires t.deltaStep > 0.0 && m <= n
    ensures Bounded(m, t) <= Bounded(n, t)
  {
    hide Snapped;
    SnappedIsMonotone(m, n, t.deltaStep);
  }

  lemma BoundedSign(m: real, t: Thresholds)
    requires t.deltaStep > 0.0 && 0.0 <= t.maxAbsDelta
    ensures Abs(Bounded(m, t)) <= t.maxAbsDelta
    ensures m >= 0.0 ==> Bounded(m, t) >= 0.0
    ensures m <= 0.0 ==> Bounded(m, t) <= 0.0
  {
    hide Snapped;
    if m >= 0.0 { SnappedIsMonotone(0.0, m, t.deltaStep); }
    if m <= 0.0 { SnappedIsMonotone(m, 0.0, t.deltaStep); }
    SnappedZero(t.deltaStep);
  }

  lemma SnappedZero(step: real)
    requires step > 0.0
    ensures Snapped(0.0, step) == 0.0
  {
    DivAtMost(0.0, step, 0.0);
    assert 0.0 / step == 0.0;
  }

  lemma RoundedHundredth(x: real)
    ensures 0.0 <= x ==> 0.0 <= RoundToHundredth(x)
    ensures x <= 0.0 ==> RoundToHundredth(x) <= 0.0
    ensures 0.1 <= x ==> 0.0 < RoundToHundredth(x)
    ensures x <= -0.1 ==> RoundToHundredth(x) < 0.0
    ensures x <= 1.0 ==> RoundToHundredth(x) <= 1.0
    ensures -1.0 <= x ==> -1.0 <= RoundToHundredth(x)
  {
  }

  /** An applied adjustment is at most one level, and never points against the measured gap. */
  lemma BoundDeltaIsBounded(median: Option<real>, t: Thresholds)
    requires Sane(t)
    ensures Abs(BoundDelta(median, t)) <= 1.0
    ensures median.None? ==> BoundDelta(median, t) == 0.0
    ensures median.Some? && BoundDelta(median, t) != 0.0 ==> Sign(BoundDelta(median, t)) == Sign(median.value)
  {
    if median.Some? {
      hide Bounded, RoundToHundredth;
      BoundedSign(median.value, t);
      RoundedHundredth(Bounded(median.value, t));
    }
  }

  /** A larger measured gap never earns a smaller adjustment. */
  lemma BoundDeltaIsMonotone(m: real, n: real, t: Thresholds)
    requires Sane(t) && m <= n
    ensures BoundDelta(Some(m), t) <= BoundDelta(Some(n), t)
  {
    hide Bounded, RoundToHundredth;
    BoundedIsMonotone(m, n, t);
    RoundToHundredthIsMonotone(Bounded(m, t), Bounded(n, t));
    RoundedHundredth(Bounded(m, t));
    RoundedHundredth(Bounded(n, t));
  }

  /**
   * A tighter bound set by an organisation is not always respected: the final rounding
   * to hundredths can step over it. It is respected for every gap exactly when the
   * bound is under the smallest step, or survives that rounding.
   */
  lemma TighterBoundHoldsIff(t: Thresholds)
    requires Sane(t)
    ensures (forall m :: Abs(BoundDelta(Some(m), t)) <= t.maxAbsDelta) <==>
            (t.maxAbsDelta < t.minAbsDelta - STEP_SLACK || RoundToHundredth(t.maxAbsDelta) <= t.maxAbsDelta)
  {
    if t.maxAbsDelta < t.minAbsDelta - STEP_SLACK || RoundToHundredth(t.maxAbsDelta) <= t.maxAbsDelta {
      forall m ensures Abs(BoundDelta(Some(m), t)) <= t.maxAbsDelta {
        hide Bounded, RoundToHundredth;
        var b := Bounded(m, t);
        BoundedSign(m, t);
        RoundToHundredthIsMonotone(Abs(b), t.maxAbsDelta);
        RoundOfAbs(b);
      }
    } else {
      assert BoundDelta(Some(10.0), t) == RoundToHundredth(t.maxAbsDelta) by { LargeGapHitsTheBound(t); }
      assert Abs(BoundDelta(Some(10.0), t)) > t.maxAbsDelta;
    }
  }

  lemma RoundOfAbs(x: real)
    ensures Abs(RoundToHundredth(x)) <= RoundToHundredth(Abs(x))
  {
    RoundedHundredth(x);
    if x < 0.0 {
      RoundOfNegative(Abs(x) * 100.0);
      assert x * 100.0 == -(Abs(x) * 100.0);
    }
  }

  lemma RoundOfNegative(y: real)
    ensures -Round(y) <= Round(-y)
  {
  }

  lemma LargeGapHitsTheBound(t: Thresholds)
    requires Sane(t)
    ensures Bounded(10.0, t) == t.maxAbsDelta
  {
    LargeGapSnaps(t.deltaStep);
    hide Snapped;
    assert Snapped(10.0, t.deltaStep) >= t.maxAbsDelta;
  }

  lemma LargeGapSnaps(step: real)
    requires 0.5 <= step <= 1.0
    ensures Snapped(10.0, step) >= 5.0
  {
    DivAtMost(10.0, step, 10.0);
    assert Round(10.0 / step) >= 10;
    ScaleOrder(step, 10.0, Round(10.0 / step) as real);
  }

  /** A setting the source accepts for which one level is applied although less was allowed. */
  lemma TighterBoundCanBeExceeded()
    ensures var t := Resolve(Patch(Absent, Absent, Absent, Absent, Finite(0.996), Absent, Absent, Absent, Absent,
            Absent, Absent, Absent));
      t.maxAbsDelta == 0.996 && BoundDelta(Some(1.0), t) == 1.0
  {
    var t := Resolve(Patch(Absent, Absent, Absent, Absent, Finite(0.996), Absent, Absent, Absent, Absent, Absent,
        Absent, Absent));
    assert t.deltaStep == 0.5 && t.minAbsDelta == 0.5;
    assert Round(1.0 / 0.5) == 2;
    assert Round(99.6) == 100;
  }

  // ----- the replay -----

  type CompetencyId = nat

  datatype Competency = Competency(id: CompetencyId, level: Option<real>, weight: real, notEnoughEvidence: bool)
  datatype Snapshot = Snapshot(passThreshold: real, competencies: seq<Competency>)
  datatype Projection = Projection(n: nat, before: Option<real>, after: Option<real>, shift: Option<real>)

  function ApplyCalibration(level: real, delta: real): real {
    RoundToHundredth(Min(5.0, Max(1.0, level + delta)))
  }

  lemma ApplyCalibrationIsMonotone(level: real, d: real, e: real)
    requires d <= e
    ensures ApplyCalibration(level, d) <= ApplyCalibration(level, e)
    ensures 1.0 <= ApplyCalibration(level, d) <= 5.0
  {
    RoundToHundredthIsMonotone(Min(5.0, Max(1.0, level + d)), Min(5.0, Max(1.0, level + e)));
    RoundToHundredthIsMonotone(1.0, Min(5.0, Max(1.0, level + d)));
    RoundToHundredthIsMonotone(Min(5.0, Max(1.0, level + d)), 5.0);
    assert RoundToHundredth(1.0) == 1.0 && RoundToHundredth(5.0) == 5.0;
  }

  function IsScored(): Competency -> bool {
    (c: Competency) => !c.notEnoughEvidence && c.level.Some?
  }

  function WeightOf(c: Competency): real { c.weight }

  /** One competency's share of the overall, on the 0 to 100 scale; only the calibrated one moves. */
  function Points(c: Competency, id: CompetencyId, delta: real): real {
    var raw := OrZero(c.level);
    var level := if c.id == id then ApplyCalibration(raw, delta) else raw;
    level / 5.0 * 100.0 * c.weight
  }

  function PointsFor(id: CompetencyId, delta: real): Competency -> real {
    (c: Competency) => Points(c, id, delta)
  }

  function OrOne(total: real): real {
    if total == 0.0 then 1.0 else total
  }

  function OverallOf(s: Snapshot, id: CompetencyId, delta: real): Option<real> {
    var scored := Filter(s.competencies, IsScored());
    if scored == [] then None
    else Some(Sum(scored, PointsFor(id, delta)) / OrOne(Sum(scored, WeightOf)))
  }

  predicate Passes(s: Snapshot, id: CompetencyId, delta: real) {
    var overall := OverallOf(s, id, delta);
    overall.Some? && overall.value >= s.passThreshold
  }

  function Uses(id: CompetencyId): Snapshot -> bool {
    (s: Snapshot) => exists c :: c in s.competencies && c.id == id
  }

  function PassesAt(id: CompetencyId, delta: real): Snapshot -> bool {
    (s: Snapshot) => Passes(s, id, delta)
  }

  /** `round4`: four decimal places. */
  function RoundToTenThousandth(v: real): real {
    Round(v * 10000.0) as real / 10000.0
  }

  function PassRate(usable: seq<Snapshot>, id: CompetencyId, delta: real): real
    requires usable != []
  {
    Count(usable, PassesAt(id, delta)) as real / |usable| as real
  }

  function Project(snapshots: seq<Snapshot>, id: CompetencyId, delta: real): Projection {
    var usable := Filter(snapshots, Uses(id));
    if usable == [] then Projection(0, None, None, None)
    else
      var before, after := PassRate(usable, id, 0.0), PassRate(usable, id, delta);
      Projection(|usable|, Some(RoundToTenThousandth(before)), Some(RoundToTenThousandth(after)),
                 Some(RoundToTenThousandth(after - before)))
  }

  method ProjectPassRate(snapshots: seq<Snapshot>, id: CompetencyId, delta: real) returns (p: Projection)
    ensures p == Project(snapshots, id, delta)
  {
    hide Passes;
    var usable := Filter(snapshots, Uses(id));
    if |usable| == 0 { return Projection(0, None, None, None); }
    var before, after := 0, 0;
    for i := 0 to |usable|
      invariant before == Count(usable[..i], PassesAt(id, 0.0))
      invariant after == Count(usable[..i], PassesAt(id, delta))
    {
      assert usable[..i + 1][..i] == usable[..i];
      if Passes(usable[i], id, 0.0) { before := before + 1; }
      if Passes(usable[i], id, delta) { after := after + 1; }
    }
    assert usable[..|usable|] == usable;
    var beforeRate := before as real / |usable| as real;
    var afterRate := after as real / |usable| as real;
    p := Projection(|usable|, Some(RoundToTenThousandth(beforeRate)), Some(RoundToTenThousandth(afterRate)),
                    Some(RoundToTenThousandth(afterRate - beforeRate)));
  }

  // ----- what the replay can say about direction -----

  ghost predicate NonNegativeWeights(s: Snapshot) {
    forall c :: c in s.competencies ==> c.weight >= 0.0
  }

  lemma PointsAreMonotone(c: Competency, id: CompetencyId, d: real, e: real)
    requires d <= e && c.weight >= 0.0
    ensures Points(c, id, d) <= Points(c, id, e)
  {
    hide ApplyCalibration;
    var raw := OrZero(c.level);
    ApplyCalibrationIsMonotone(raw, d, e);
    var x := if c.id == id then ApplyCalibration(raw, d) else raw;
    var y := if c.id == id then ApplyCalibration(raw, e) else raw;
    MulMonotone(c.weight, x / 5.0 * 100.0, y / 5.0 * 100.0);
    MulComm(c.weight, x / 5.0 * 100.0);
    MulComm(c.weight, y / 5.0 * 100.0);
  }

  lemma {:induction false} SumIsMonotone(cs: seq<Competency>, id: CompetencyId, d: real, e: real)
    requires d <= e && forall c :: c in cs ==> c.weight >= 0.0
    ensures Sum(cs, PointsFor(id, d)) <= Sum(cs, PointsFor(id, e))
    ensures 0.0 <= Sum(cs, WeightOf)
  {
    if cs != [] {
      hide Points;
      var n := |cs| - 1;
      assert cs[n] in cs;
      assert forall c :: c in cs[..n] ==> c in cs;
      SumIsMonotone(cs[..n], id, d, e);
      PointsAreMonotone(cs[n], id, d, e);
    }
  }

  /** A higher adjustment never lowers an overall, so it never turns a pass into a fail. */
  lemma PassesIsMonotone(s: Snapshot, id: CompetencyId, d: real, e: real)
    requires d <= e && NonNegativeWeights(s) && Passes(s, id, d)
    ensures Passes(s, id, e)
  {
    hide Points, PointsFor, Sum;
    var scored := Filter(s.competencies, IsScored());
    SumIsMonotone(scored, id, d, e);
    DivMonotone(Sum(scored, PointsFor(id, d)), Sum(scored, PointsFor(id, e)), OrOne(Sum(scored, WeightOf)));
  }

  lemma {:induction false} CountIsMonotone(snapshots: seq<Snapshot>, id: CompetencyId, d: real, e: real)
    requires d <= e && forall s :: s in snapshots ==> NonNegativeWeights(s)
    ensures Count(snapshots, PassesAt(id, d)) <= Count(snapshots, PassesAt(id, e))
  {
    if snapshots == [] {
      NothingPasses(id, d);
      NothingPasses(id, e);
    } else {
      hide Passes, NonNegativeWeights, Count;
      var n := |snapshots| - 1;
      CountStep(snapshots, PassesAt(id, d));
      CountStep(snapshots, PassesAt(id, e));
      assert snapshots[n] in snapshots;
      assert forall s :: s in snapshots[..n] ==> s in snapshots;
      CountIsMonotone(snapshots[..n], id, d, e);
      if Passes(snapshots[n], id, d) { PassesIsMonotone(snapshots[n], id, d, e); }
    }
  }

  lemma NothingPasses(id: CompetencyId, d: real)
    ensures Count([], PassesAt(id, d)) == 0
  {
  }

  lemma RoundedShift(v: real)
    ensures 0.0 <= v ==> 0.0 <= RoundToTenThousandth(v)
    ensures v <= 0.0 ==> RoundToTenThousandth(v) <= 0.0
    ensures Abs(RoundToTenThousandth(v) - v) <= 0.00005
  {
  }

  /**
   * With non-negative weights the projected movement never opposes the adjustment,
   * and what is reported is the exact movement to within half of the fourth decimal.
   */
  lemma ProjectionFollowsDirection(snapshots: seq<Snapshot>, id: CompetencyId, delta: real)
    requires forall s :: s in snapshots ==> NonNegativeWeights(s)
    ensures var p := Project(snapshots, id, delta);
      && (p.shift.None? <==> Filter(snapshots, Uses(id)) == [])
      && (p.shift.Some? ==>
          var usable := Filter(snapshots, Uses(id));
          var exact := PassRate(usable, id, delta) - PassRate(usable, id, 0.0);
          && (delta >= 0.0 ==> exact >= 0.0 && p.shift.value >= 0.0)
          && (delta <= 0.0 ==> exact <= 0.0 && p.shift.value <= 0.0)
          && Abs(p.shift.value - exact) <= 0.00005)
  {
    hide Passes, RoundToTenThousandth, NonNegativeWeights, Count;
    var usable := Filter(snapshots, Uses(id));
    if usable != [] {
      var b, a, n := Count(usable, PassesAt(id, 0.0)) as real, Count(usable, PassesAt(id, delta)) as real,
          |usable| as real;
      if delta >= 0.0 { CountIsMonotone(usable, id, 0.0, delta); DivMonotone(b, a, n); }
      if delta <= 0.0 { CountIsMonotone(usable, id, delta, 0.0); DivMonotone(a, b, n); }
      RoundedShift(a / n - b / n);
    }
  }

  // ----- the fairness check -----

  datatype Source = Checked | Unavailable | InsufficientSample
  datatype Fairness = Fairness(source: Source, projection: Projection, flagged: bool)

  function EvaluateFairness(p: Projection, available: bool, readable: bool, t: Thresholds,
                            requireStatistics: bool): Fairness {
    var movesTooMuch := p.shift.Some? && Abs(p.shift.value) > t.maxPassRateShift;
    if movesTooMuch then
      Fairness(if available then if readable then Checked else InsufficientSample else Unavailable, p, true)
    else if !available then Fairness(Unavailable, p, requireStatistics)
    else if !readable then Fairness(InsufficientSample, p, requireStatistics)
    else Fairness(Checked, p, false)
  }

  /**
   * The check fails closed: it lets an adjustment through exactly when the projected
   * movement is within the limit and, where statistics are required, they were read.
   */
  lemma FairnessFailsClosed(p: Projection, available: bool, readable: bool, t: Thresholds, requireStatistics: bool)
    ensures !EvaluateFairness(p, available, readable, t, requireStatistics).flagged <==>
              && (p.shift.Some? ==> Abs(p.shift.value) <= t.maxPassRateShift)
              && (requireStatistics ==> available && readable)
    ensures EvaluateFairness(p, available, readable, t, requireStatistics).source.Checked? <==> available && readable
  {
  }

  /** The check recorded when no adjustment would be applied. */
  const NO_MOVEMENT: Fairness := Fairness(Checked, Projection(0, None, None, None), false)

  // ----- the gate -----

  datatype Outcome = Activate | Hold | NothingToApply

  datatype Reason =
    | TooFewObservations
    | TooFewReviewers
    | NoInterval
    | IntervalIncludesZero
    | EstimateOutsideInterval
    | ReviewersDisagree
    | BelowSmallestStep
    | FairnessFlagged
    | SwitchedOff

  datatype Decision = Decision(outcome: Outcome, delta: real, reason: Option<Reason>)

  function Held(r: Reason): Decision { Decision(Hold, 0.0, Some(r)) }

  function Decide(agg: A.Aggregate, t: Thresholds, fairness: Fairness, enabled: bool): Decision
    requires t.deltaStep > 0.0
  {
    if !enabled then Held(SwitchedOff)
    else if agg.observations == 0 then Held(TooFewObservations)
    else if agg.reviewers < t.minReviewers then Held(TooFewReviewers)
    else if agg.observations < t.minObservations then Held(TooFewObservations)
    else if agg.interval.None? then Held(NoInterval)
    else if agg.interval.value.low <= 0.0 && agg.interval.value.high >= 0.0 then Held(IntervalIncludesZero)
    else if agg.median.Some? && Sign(agg.median.value) != 0
        && Sign(agg.interval.value.low) != Sign(agg.median.value) then
      Held(EstimateOutsideInterval)
    else if agg.reviewerAgreement < t.minReviewerAgreement then Held(ReviewersDisagree)
    else
      var delta := BoundDelta(agg.median, t);
      if delta == 0.0 then Decision(NothingToApply, 0.0, Some(BelowSmallestStep))
      else if fairness.flagged then Held(FairnessFlagged)
      else Decision(Activate, delta, None)
  }

  /** What the outside world answers about the outcome statistics. */
  datatype Statistics = Statistics(available: bool, readable: bool, required: bool)

  /** The fairness check a group's run makes: against the adjustment that would apply. */
  function FairnessFor(agg: A.Aggregate, t: Thresholds, snapshots: seq<Snapshot>, id: CompetencyId,
                       stats: Statistics): Fairness
    requires t.deltaStep > 0.0
  {
    var candidate := BoundDelta(agg.median, t);
    if candidate == 0.0 then NO_MOVEMENT
    else EvaluateFairness(Project(snapshots, id, candidate), stats.available, stats.readable, t, stats.required)
  }

  function RunGroup(input: A.Input, snapshots: seq<Snapshot>, id: CompetencyId, stats: Statistics): Decision
    requires input.thresholds.deltaStep > 0.0
  {
    var agg := A.AggregateOf(input);
    Decide(agg, input.thresholds, FairnessFor(agg, input.thresholds, snapshots, id, stats), true)
  }

  // ----- what an activation guarantees -----

  /** Anything but an activation carries no adjustment and says why; an activation carries one and no reason. */
  lemma OnlyActivationsCarryADelta(agg: A.Aggregate, t: Thresholds, fairness: Fairness, enabled: bool)
    requires t.deltaStep > 0.0
    ensures var d := Decide(agg, t, fairness, enabled);
      && (d.outcome.Activate? <==> d.delta != 0.0)
      && (d.outcome.Activate? <==> d.reason.None?)
      && (d.outcome.Activate? ==> enabled && !fairness.flagged && d.delta == BoundDelta(agg.median, t))
  {
  }

  /** An interval, an estimate and an adjustment that activate all lie on the same side of zero. */
  lemma ActivationSides(agg: A.Aggregate, t: Thresholds, fairness: Fairness)
    requires Sane(t) && Decide(agg, t, fairness, true).outcome.Activate?
    requires agg.interval.Some? ==> agg.interval.value.low <= agg.interval.value.high
    ensures agg.interval.Some? && agg.median.Some?
    ensures var d := Decide(agg, t, fairness, true).delta;
      && Sign(d) == Sign(agg.median.value)
      && (d > 0.0 ==> agg.interval.value.low > 0.0)
      && (d < 0.0 ==> agg.interval.value.high < 0.0)
  {
    hide BoundDelta;
    BoundDeltaIsBounded(agg.median, t);
  }

  function OnSide(delta: real): real -> bool {
    if delta > 0.0 then MI.IsAbove(0.0) else MI.IsBelow(0.0)
  }

  /**
   * The end-to-end promise: however the observations came in, an activated adjustment
   * is one level at most, in the direction of strictly more than half of the counted
   * observations, over enough of them from enough people with nobody dominating, with
   * most reviewers agreeing, and a replayed pass-rate movement within the limit that
   * never opposes it. What the interval is worth is in ActivationIsConfident.
   */
  lemma ActivationIsBoundedEvidencedAndFair(
    p: Patch, input: A.Input, snapshots: seq<Snapshot>, id: CompetencyId, stats: Statistics)
    requires input.thresholds == Resolve(p)
    requires forall s :: s in snapshots ==> NonNegativeWeights(s)
    requires input.thresholds.deltaStep > 0.0 && RunGroup(input, snapshots, id, stats).outcome.Activate?
    ensures var t, d, sample := input.thresholds, RunGroup(input, snapshots, id, stats).delta, A.Sample(input);
      && d != 0.0 && Abs(d) <= 1.0
      && |sample| >= t.minObservations >= 5
      && |A.Order(sample)| >= t.minReviewers >= 3
      && 2 * Count(A.Deltas(sample), OnSide(d)) > |sample|
      && (forall r :: RC.WithinRowShare(Count(sample, A.ByReviewer(r)), |sample|, t.maxReviewerWeightShare))
      && A.AggregateOf(input).reviewerAgreement >= t.minReviewerAgreement >= 0.5
      && var shift := Project(snapshots, id, d).shift;
         shift.Some? ==>
           && Abs(shift.value) <= t.maxPassRateShift
           && (d > 0.0 ==> shift.value >= 0.0) && (d < 0.0 ==> shift.value <= 0.0)
  {
    hide BoundDelta, A.Order, A.Balanced, A.Deltas, A.Agreement, A.Contributions, MI.IntervalOf, WM.MedianOf, Count,
      Project, Resolve, RC.WithinRowShare, A.InWindow, A.CappedRows;
    var t, agg, sample := input.thresholds, A.AggregateOf(input), A.Sample(input);
    ResolveIsSane(p);
    var fairness := FairnessFor(agg, t, snapshots, id, stats);
    OnlyActivationsCarryADelta(agg, t, fairness, true);
    MI.IntervalShowsMajority(A.Deltas(sample), t.confidence, input.approx);
    A.DeltaCount(sample);
    ActivationSides(agg, t, fairness);
    BoundDeltaIsBounded(agg.median, t);
    ProjectionFollowsDirection(snapshots, id, BoundDelta(agg.median, t));
    forall r ensures RC.WithinRowShare(Count(sample, A.ByReviewer(r)), |sample|, t.maxReviewerWeightShare) {
      ActivatedSampleIsBalanced(input, r);
    }
  }

  lemma ActivatedSampleIsBalanced(input: A.Input, r: A.ReviewerId)
    requires Sane(input.thresholds) && |A.Order(A.Sample(input))| >= input.thresholds.minReviewers
    ensures RC.WithinRowShare(Count(A.Sample(input), A.ByReviewer(r)), |A.Sample(input)|,
            input.thresholds.maxReviewerWeightShare)
  {
    hide A.Order, A.Balanced, Count, RC.WithinRowShare, A.InWindow;
    var rows, share := A.InWindow(input), input.thresholds.maxReviewerWeightShare;
    A.BalancingKeepsEveryReviewer(rows, share);
    ScaleOrder(share, input.thresholds.minReviewers as real, |A.Order(rows)| as real);
    MulComm(share, input.thresholds.minReviewers as real);
    MulComm(share, |A.Order(rows)| as real);
    if rows == [] { A.NobodyFiled(); }
    A.NobodyDominatesTheSample(rows, share, r);
  }

  /** On samples summed exactly, the interval behind an activation covers with at least the stated confidence. */
  lemma ActivationIsConfident(input: A.Input, snapshots: seq<Snapshot>, id: CompetencyId, stats: Statistics)
    requires input.thresholds.deltaStep > 0.0 && RunGroup(input, snapshots, id, stats).outcome.Activate?
    requires |A.Sample(input)| <= MI.EXACT_LIMIT
    ensures var n, t := |A.Sample(input)|, input.thresholds;
      var k := MI.Rank(n, t.confidence, input.approx);
      && 1 <= k <= n / 2
      && Count(Binomial.Patterns(n), Binomial.Between(k, n - k)) as real / Binomial.Pow2(n) as real
           == 1.0 - 2.0 * Binomial.Cdf(n, k - 1) >= t.confidence
  {
    hide BoundDelta, A.Order, A.Balanced, A.Agreement, A.Contributions, WM.MedianOf, Count, Project, MI.Rank,
      MI.PlainMedian, A.CappedRows, A.InWindow, FairnessFor, Binomial.Cdf, Binomial.Patterns;
    A.DeltaCount(A.Sample(input));
    MI.CoverageIsExact(|A.Sample(input)|, input.thresholds.confidence, input.approx);
  }
}
