/** Evening out phrases inside a clip: per-block corrections, smoothed both ways, interpolated per sample. */
module Shaping {
  import opened Numbers
  import opened RealArith
  import opened Loudness

  const LEVELLING_RATIO := 0.5
  const MAX_PHRASE_CORRECTION_DB := 6.0
  const PAUSE_BELOW_CLIP_DB := 20.0

  // ----- per-block corrections -----

  /** The correction after one more block: pauses hold the previous one. */
  function Hold(held: real, power: real, clipDb: real, sc: Scale): real {
    if power > 0.0 && sc.decibels(power) > clipDb - PAUSE_BELOW_CLIP_DB then
      Clamp((clipDb - sc.decibels(power)) * LEVELLING_RATIO, -MAX_PHRASE_CORRECTION_DB, MAX_PHRASE_CORRECTION_DB)
    else held
  }

  function HeldAfter(power: seq<real>, clipDb: real, sc: Scale): real {
    if power == [] then 0.0 else Hold(HeldAfter(power[..|power| - 1], clipDb, sc), power[|power| - 1], clipDb, sc)
  }

  function RawCorrections(power: seq<real>, clipDb: real, sc: Scale): (r: seq<real>)
    ensures |r| == |power|
  {
    seq(|power|, k requires 0 <= k < |power| => HeldAfter(power[..k + 1], clipDb, sc))
  }

  function Part(alpha: real, gap: real): real { alpha * gap }

  /** A step of `alpha` of the way from one value towards another. */
  function Towards(from: real, to: real, alpha: real): real {
    from + Part(alpha, to - from)
  }

  function Forward(x: seq<real>, alpha: real, k: nat): real
    requires k < |x|
  {
    if k == 0 then x[0] else Towards(Forward(x, alpha, k - 1), x[k], alpha)
  }

  function Backward(x: seq<real>, alpha: real, k: nat): real
    requires k < |x|
    decreases |x| - k
  {
    if k == |x| - 1 then x[k] else Towards(Backward(x, alpha, k + 1), x[k], alpha)
  }

  function ForwardAll(x: seq<real>, alpha: real): (y: seq<real>)
    ensures |y| == |x|
  {
    seq(|x|, k requires 0 <= k < |x| => Forward(x, alpha, k))
  }

  function BackwardAll(x: seq<real>, alpha: real): (y: seq<real>)
    ensures |y| == |x|
  {
    seq(|x|, k requires 0 <= k < |x| => Backward(x, alpha, k))
  }

  function Corrections(power: seq<real>, clipDb: real, alpha: real, sc: Scale): (c: seq<real>)
    ensures |c| == |power|
  {
    BackwardAll(ForwardAll(RawCorrections(power, clipDb, sc), alpha), alpha)
  }

  /** The two smoothing passes run in place over the same buffer. */
  method PhraseCorrections(power: array<real>, clipDb: real, alpha: real, sc: Scale) returns (out: array<real>)
    ensures fresh(out)
    ensures out[..] == Corrections(power[..], clipDb, alpha, sc)
  {
    hide Hold, Towards;
    ghost var p := power[..];
    out := new real[power.Length];
    var held := 0.0;
    for k := 0 to power.Length
      invariant held == HeldAfter(p[..k], clipDb, sc)
      invariant forall j :: 0 <= j < k ==> out[j] == HeldAfter(p[..j + 1], clipDb, sc)
      invariant power[..] == p
    {
      assert p[..k + 1][..k] == p[..k];
      held := Hold(held, power[k], clipDb, sc);
      out[k] := held;
    }
    ghost var raw := out[..];
    assert raw == RawCorrections(p, clipDb, sc);
    if out.Length > 0 {
      SmoothForward(out, alpha);
      SmoothBackward(out, alpha);
    }
    assert power[..] == p;
  }

  method SmoothForward(out: array<real>, alpha: real)
    requires out.Length > 0
    modifies out
    ensures out[..] == ForwardAll(old(out[..]), alpha)
  {
    hide Towards;
    ghost var raw := out[..];
    for k := 1 to out.Length
      invariant forall j :: 0 <= j < k ==> out[j] == Forward(raw, alpha, j)
      invariant forall j :: k <= j < out.Length ==> out[j] == raw[j]
    {
      out[k] := Towards(out[k - 1], out[k], alpha);
    }
  }

  method SmoothBackward(out: array<real>, alpha: real)
    requires out.Length > 0
    modifies out
    ensures out[..] == BackwardAll(old(out[..]), alpha)
  {
    hide Towards;
    ghost var raw := out[..];
    var k := out.Length - 2;
    while k >= 0
      invariant -1 <= k <= out.Length - 2
      invariant forall j :: k < j < out.Length ==> out[j] == Backward(raw, alpha, j)
      invariant forall j :: 0 <= j <= k ==> out[j] == raw[j]
    {
      out[k] := Towards(out[k + 1], out[k], alpha);
      k := k - 1;
    }
  }

  // ----- the bound survives smoothing -----

  ghost predicate Within(x: seq<real>, bound: real) {
    forall k :: 0 <= k < |x| ==> -bound <= x[k] <= bound
  }

  lemma TowardsStaysBetween(from: real, to: real, alpha: real, bound: real)
    requires 0.0 <= alpha <= 1.0 && -bound <= from <= bound && -bound <= to <= bound
    ensures -bound <= Towards(from, to, alpha) <= bound
  {
    hide Part;
    PartOfGap(alpha, to - from);
  }

  lemma PartOfGap(alpha: real, gap: real)
    requires 0.0 <= alpha <= 1.0
    ensures gap >= 0.0 ==> 0.0 <= Part(alpha, gap) <= gap
    ensures gap <= 0.0 ==> gap <= Part(alpha, gap) <= 0.0
  {
    hide Part;
    if gap >= 0.0 {
      PartOfRise(alpha, gap);
    } else {
      PartOfRise(alpha, -gap);
      PartOfNegation(alpha, gap);
    }
  }

  lemma PartOfRise(alpha: real, gap: real)
    requires 0.0 <= alpha <= 1.0 && 0.0 <= gap
    ensures 0.0 <= Part(alpha, gap) <= gap
  {
    MulSign(alpha, gap);
    ScaleUp(gap, alpha);
  }

  lemma PartOfNegation(alpha: real, gap: real)
    ensures Part(alpha, -gap) == -Part(alpha, gap)
  {
  }

  lemma ScaleUp(gap: real, alpha: real)
    requires 0.0 <= gap && alpha <= 1.0
    ensures alpha * gap <= gap
  {
  }

  lemma {:induction false} ForwardStaysWithin(x: seq<real>, alpha: real, k: nat, bound: real)
    requires 0.0 <= alpha <= 1.0 && Within(x, bound) && k < |x|
    ensures -bound <= Forward(x, alpha, k) <= bound
  {
    hide Towards;
    if k > 0 {
      ForwardStaysWithin(x, alpha, k - 1, bound);
      TowardsStaysBetween(Forward(x, alpha, k - 1), x[k], alpha, bound);
    }
  }

  lemma {:induction false} BackwardStaysWithin(x: seq<real>, alpha: real, k: nat, bound: real)
    requires 0.0 <= alpha <= 1.0 && Within(x, bound) && k < |x|
    ensures -bound <= Backward(x, alpha, k) <= bound
    decreases |x| - k
  {
    hide Towards;
    if k < |x| - 1 {
      BackwardStaysWithin(x, alpha, k + 1, bound);
      TowardsStaysBetween(Backward(x, alpha, k + 1), x[k], alpha, bound);
    }
  }

  lemma {:induction false} HeldIsBounded(power: seq<real>, clipDb: real, sc: Scale)
    ensures -MAX_PHRASE_CORRECTION_DB <= HeldAfter(power, clipDb, sc) <= MAX_PHRASE_CORRECTION_DB
  {
    if power != [] { HeldIsBounded(power[..|power| - 1], clipDb, sc); }
  }

  /** No phrase correction exceeds 6 dB either way, after both smoothing passes. */
  lemma CorrectionsAreBounded(power: seq<real>, clipDb: real, alpha: real, sc: Scale)
    requires 0.0 <= alpha <= 1.0
    ensures Within(Corrections(power, clipDb, alpha, sc), MAX_PHRASE_CORRECTION_DB)
  {
    hide Forward, Backward, HeldAfter;
    var raw := RawCorrections(power, clipDb, sc);
    forall k | 0 <= k < |raw| ensures -MAX_PHRASE_CORRECTION_DB <= raw[k] <= MAX_PHRASE_CORRECTION_DB {
      HeldIsBounded(power[..k + 1], clipDb, sc);
    }
    var smooth := ForwardAll(raw, alpha);
    forall k | 0 <= k < |smooth| ensures -MAX_PHRASE_CORRECTION_DB <= smooth[k] <= MAX_PHRASE_CORRECTION_DB {
      ForwardStaysWithin(raw, alpha, k, MAX_PHRASE_CORRECTION_DB);
    }
    var both := BackwardAll(smooth, alpha);
    forall k | 0 <= k < |both| ensures -MAX_PHRASE_CORRECTION_DB <= both[k] <= MAX_PHRASE_CORRECTION_DB {
      BackwardStaysWithin(smooth, alpha, k, MAX_PHRASE_CORRECTION_DB);
    }
  }

  /** A pause (a block far under the clip's level) changes nothing: the correction before it is held. */
  lemma PausesAreHeld(power: seq<real>, clipDb: real, sc: Scale, k: nat)
    requires 0 < k < |power|
    requires power[k] <= 0.0 || sc.decibels(power[k]) <= clipDb - PAUSE_BELOW_CLIP_DB
    ensures RawCorrections(power, clipDb, sc)[k] == RawCorrections(power, clipDb, sc)[k - 1]
  {
    assert power[..k + 1][..k] == power[..k];
  }

  // ----- interpolation between block centres -----

  ghost predicate Increasing(c: seq<real>) {
    forall i, j :: 0 <= i < j < |c| ==> c[i] < c[j]
  }

  /** The last knot at or before `x`, or the first one. */
  function KnotBefore(c: seq<real>, x: real): (k: nat)
    requires c != []
    ensures k < |c|
  {
    if |c| == 1 || c[|c| - 1] <= x then |c| - 1 else KnotBefore(c[..|c| - 1], x)
  }

  /** How far `x` is from `a` towards `b`. */
  function Fraction(a: real, b: real, x: real): real
    requires a < b
  {
    (x - a) / (b - a)
  }

  /** Piecewise-linear between the knots, flat outside them. */
  function Interpolate(c: seq<real>, v: seq<real>, x: real): real
    requires |c| == |v| > 0 && Increasing(c)
  {
    var k := KnotBefore(c, x);
    if k < |c| - 1 && x > c[k] then Towards(v[k], v[k + 1], Fraction(c[k], c[k + 1], x)) else v[k]
  }

  lemma {:induction false} KnotIsUnique(c: seq<real>, x: real, k: nat)
    requires Increasing(c) && k < |c|
    ensures KnotBefore(c, x) == k <==> (k == 0 || c[k] <= x) && (k == |c| - 1 || x < c[k + 1])
  {
    if |c| > 1 {
      var front := c[..|c| - 1];
      if c[|c| - 1] > x {
        if k < |c| - 1 {
          KnotIsUnique(front, x, k);
        }
      } else if k < |c| - 1 {
        assert c[k + 1] <= c[|c| - 1];
      }
    }
  }

  /** Between two knots the value lies between theirs; at a knot it is exactly the knot's. */
  lemma InterpolateStaysWithin(c: seq<real>, v: seq<real>, x: real, bound: real)
    requires |c| == |v| > 0 && Increasing(c) && Within(v, bound)
    ensures -bound <= Interpolate(c, v, x) <= bound
  {
    hide Towards;
    var k := KnotBefore(c, x);
    KnotIsUnique(c, x, k);
    if k < |c| - 1 && x > c[k] {
      var t := Fraction(c[k], c[k + 1], x);
      DivAtMost(x - c[k], c[k + 1] - c[k], 1.0);
      DivMonotone(0.0, x - c[k], c[k + 1] - c[k]);
      TowardsStaysBetween(v[k], v[k + 1], t, bound);
    }
  }

  lemma InterpolateHitsKnots(c: seq<real>, v: seq<real>, k: nat)
    requires |c| == |v| > 0 && Increasing(c) && k < |c|
    ensures Interpolate(c, v, c[k]) == v[k]
  {
    hide Towards, KnotBefore, Fraction;
    KnotIsUnique(c, c[k], k);
  }

  function Amplify(x: real, db: real, sc: Scale): real { x * sc.gain(db) }

  function Shaped(s: seq<real>, c: seq<real>, v: seq<real>, baseDb: real, sc: Scale): (t: seq<real>)
    requires |c| == |v| && (s != [] ==> c != []) && Increasing(c)
    ensures |t| == |s|
  {
    seq(|s|, i requires 0 <= i < |s| => Amplify(s[i], baseDb + Interpolate(c, v, i as real), sc))
  }

  /** The pointer only ever moves forward, yet always rests on the knot before the current sample. */
  method ApplyCorrections(samples: array<real>, centre: array<real>, correctionDb: array<real>, baseDb: real, sc: Scale)
    returns (out: array<real>)
    requires centre.Length == correctionDb.Length && (samples.Length > 0 ==> centre.Length > 0)
    requires Increasing(centre[..])
    ensures fresh(out)
    ensures out[..] == Shaped(samples[..], centre[..], correctionDb[..], baseDb, sc)
  {
    hide Amplify, Part, Towards, Fraction, KnotBefore, Interpolate;
    ghost var s, c, v := samples[..], centre[..], correctionDb[..];
    out := new real[samples.Length];
    var k := 0;
    for i := 0 to samples.Length
      invariant samples[..] == s && centre[..] == c && correctionDb[..] == v
      invariant 0 <= k && (samples.Length > 0 ==> k < |c|)
      invariant k == 0 || (k < |c| && c[k] <= i as real)
      invariant forall j :: 0 <= j < i ==> out[j] == Amplify(s[j], baseDb + Interpolate(c, v, j as real), sc)
    {
      while k < centre.Length - 1 && centre[k + 1] <= i as real
        invariant 0 <= k < |c| && (k == 0 || c[k] <= i as real)
      {
        k := k + 1;
      }
      var db := correctionDb[k];
      if k < centre.Length - 1 && i as real > centre[k] {
        var t := Fraction(centre[k], centre[k + 1], i as real);
        db := Towards(correctionDb[k], correctionDb[k + 1], t);
      }
      AtTheKnot(c, v, i as real, k);
      out[i] := Amplify(samples[i], baseDb + db, sc);
    }
  }

  /** The interpolated value, once the pointer is where the source's loop stops it. */
  lemma AtTheKnot(c: seq<real>, v: seq<real>, at: real, k: nat)
    requires |c| == |v| && k < |c| && Increasing(c)
    requires (k == 0 || c[k] <= at) && (k < |c| - 1 ==> at < c[k + 1])
    ensures Interpolate(c, v, at) ==
            if k < |c| - 1 && at > c[k] then Towards(v[k], v[k + 1], Fraction(c[k], c[k + 1], at)) else v[k]
  {
    KnotIsUnique(c, at, k);
  }

  /** Block centres are strictly increasing, so no interpolation step divides by zero. */
  lemma CentresIncrease(n: nat, rate: real)
    ensures Increasing(Centres(n, rate))
  {
    var c := Centres(n, rate);
    forall i, j | 0 <= i < j < |c| ensures c[i] < c[j] {
      assert i * Hop(rate) < j * Hop(rate);
    }
  }
}
