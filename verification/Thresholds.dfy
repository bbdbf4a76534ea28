/** The calibration thresholds and the ranges every override is held inside. */
module Thresholds {
  import opened Numbers
  import opened RealArith

  /** A number supplied by a caller: possibly absent, NaN or infinite. */
  datatype Override = Absent | NotFinite | Finite(value: real)

  datatype Thresholds = Thresholds(
    minObservations: int,
    minReviewers: int,
    minReviewerAgreement: real,
    maxReviewerWeightShare: real,
    maxAbsDelta: real,
    deltaStep: real,
    minAbsDelta: real,
    confidence: real,
    windowDays: int,
    halfLifeDays: int,
    maxPassRateShift: real,
    reviewerPatternMinReviews: int)

  datatype Patch = Patch(
    minObservations: Override,
    minReviewers: Override,
    minReviewerAgreement: Override,
    maxReviewerWeightShare: Override,
    maxAbsDelta: Override,
    deltaStep: Override,
    minAbsDelta: Override,
    confidence: Override,
    windowDays: Override,
    halfLifeDays: Override,
    maxPassRateShift: Override,
    reviewerPatternMinReviews: Override)

  /** An absent override takes the default, which then goes through the same clamp. */
  function Held(o: Override, lo: real, hi: real, standard: real): real {
    match o
    case Absent => Clamp(standard, lo, hi)
    case NotFinite => standard
    case Finite(v) => Clamp(v, lo, hi)
  }

  function Resolve(p: Patch): Thresholds {
    var minReviewers := Round(Held(p.minReviewers, 3.0, 100.0, 3.0));
    Thresholds(
      Round(Held(p.minObservations, 5.0, 10000.0, 15.0)),
      minReviewers,
      Held(p.minReviewerAgreement, 0.5, 1.0, 2.0 / 3.0),
      Held(p.maxReviewerWeightShare, 1.0 / minReviewers as real, 1.0, 0.4),
      Held(p.maxAbsDelta, 0.0, 1.0, 1.0),
      Held(p.deltaStep, 0.5, 1.0, 0.5),
      Held(p.minAbsDelta, 0.5, 1.0, 0.5),
      Held(p.confidence, 0.8, 0.999, 0.95),
      Round(Held(p.windowDays, 30.0, 3650.0, 365.0)),
      Round(Held(p.halfLifeDays, 7.0, 3650.0, 180.0)),
      Held(p.maxPassRateShift, 0.01, 1.0, 0.1),
      Round(Held(p.reviewerPatternMinReviews, 5.0, 1000.0, 10.0)))
  }

  /**
   * What every resolved setting promises the rest of the module. The share
   * clause is the one that matters: the required reviewers can always share
   * the weight and the rows without anyone exceeding the cap.
   */
  ghost predicate Sane(t: Thresholds) {
    && 5 <= t.minObservations <= 10000
    && 3 <= t.minReviewers <= 100
    && 0.5 <= t.minReviewerAgreement <= 1.0
    && 0.0 < t.maxReviewerWeightShare <= 1.0
    && 1.0 <= t.maxReviewerWeightShare * t.minReviewers as real
    && 0.0 <= t.maxAbsDelta <= 1.0
    && 0.5 <= t.deltaStep <= 1.0
    && 0.5 <= t.minAbsDelta <= 1.0
    && 0.8 <= t.confidence <= 0.999
    && 30 <= t.windowDays <= 3650
    && 7 <= t.halfLifeDays <= 3650
    && 0.01 <= t.maxPassRateShift <= 1.0
    && 5 <= t.reviewerPatternMinReviews <= 1000
  }

  lemma ResolveIsSane(p: Patch)
    ensures Sane(Resolve(p))
  {
    HeldIsInRange();
    hide Held, Round;
    var n, s := Resolve(p).minReviewers, Resolve(p).maxReviewerWeightShare;
    RoundIsInRange(Held(p.minObservations, 5.0, 10000.0, 15.0), 5, 10000);
    RoundIsInRange(Held(p.minReviewers, 3.0, 100.0, 3.0), 3, 100);
    RoundIsInRange(Held(p.windowDays, 30.0, 3650.0, 365.0), 30, 3650);
    RoundIsInRange(Held(p.halfLifeDays, 7.0, 3650.0, 180.0), 7, 3650);
    RoundIsInRange(Held(p.reviewerPatternMinReviews, 5.0, 1000.0, 10.0), 5, 1000);
    DivAntitone(n);
    ShareCoversReviewers(s, n);
  }

  lemma HeldIsInRange()
    ensures forall o, lo, hi, standard :: lo <= standard <= hi ==> lo <= Held(o, lo, hi, standard) <= hi
  {
  }

  lemma RoundIsInRange(x: real, lo: int, hi: int)
    requires lo as real <= x <= hi as real
    ensures lo <= Round(x) <= hi
  {
  }

  lemma DivAntitone(n: int)
    requires 3 <= n
    ensures 0.0 < 1.0 / n as real <= 0.4
  {
    var q := 1.0 / n as real;
    assert q * n as real == 1.0;
    if q > 0.4 {
      MulMonotone(q, 3.0, n as real);
      assert false;
    }
  }

  lemma ShareCoversReviewers(s: real, n: int)
    requires 3 <= n && 1.0 / n as real <= s
    ensures 1.0 <= s * n as real
  {
    MulMonotone(n as real, 1.0 / n as real, s);
  }

  /** A setting that is not given a finite value. */
  predicate IsUnset(o: Override) { !o.Finite? }

  /** What is not set, or not to a finite number, takes its default. */
  lemma DefaultsAre(p: Patch)
    requires IsUnset(p.minObservations) && IsUnset(p.minReviewers) && IsUnset(p.minReviewerAgreement)
    requires IsUnset(p.maxReviewerWeightShare) && IsUnset(p.maxAbsDelta) && IsUnset(p.deltaStep)
    requires IsUnset(p.minAbsDelta) && IsUnset(p.confidence) && IsUnset(p.windowDays) && IsUnset(p.halfLifeDays)
    requires IsUnset(p.maxPassRateShift) && IsUnset(p.reviewerPatternMinReviews)
    ensures Resolve(p) == Thresholds(15, 3, 2.0 / 3.0, 0.4, 1.0, 0.5, 0.5, 0.95, 365, 180, 0.1, 10)
  {
  }

  function AsPatch(t: Thresholds): Patch {
    Patch(Finite(t.minObservations as real), Finite(t.minReviewers as real), Finite(t.minReviewerAgreement),
          Finite(t.maxReviewerWeightShare), Finite(t.maxAbsDelta), Finite(t.deltaStep), Finite(t.minAbsDelta),
          Finite(t.confidence), Finite(t.windowDays as real), Finite(t.halfLifeDays as real),
          Finite(t.maxPassRateShift), Finite(t.reviewerPatternMinReviews as real))
  }

  /** Resolving is a projection: settings already in range come back untouched, and exactly those do. */
  lemma ResolveFixesExactlyTheSane(t: Thresholds)
    ensures Sane(t) <==> Resolve(AsPatch(t)) == t
  {
    if Sane(t) {
      SaneIsFixed(t);
    }
    if Resolve(AsPatch(t)) == t {
      ResolveIsSane(AsPatch(t));
    }
  }

  lemma SaneIsFixed(t: Thresholds)
    requires Sane(t)
    ensures Resolve(AsPatch(t)) == t
  {
    ShareAtLeastInverse(t.maxReviewerWeightShare, t.minReviewers);
    var r := Resolve(AsPatch(t));
    assert r.minReviewers == t.minReviewers;
    assert r.maxReviewerWeightShare == t.maxReviewerWeightShare;
  }

  lemma ShareAtLeastInverse(s: real, n: int)
    requires 3 <= n && 1.0 <= s * n as real
    ensures 1.0 / n as real <= s
  {
    DivMonotone(1.0, s * n as real, n as real);
    assert s * n as real / n as real == s;
  }
}
