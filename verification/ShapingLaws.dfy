/** What smoothing and interpolation compute: means with falling shares, forward and then back, and straight lines. */
module ShapingLaws {
  import opened Numbers
  import opened RealArith
  import opened Loudness
  import opened Shaping

  // ----- smoothing -----

  function Power(beta: real, n: nat): real {
    if n == 0 then 1.0 else beta * Power(beta, n - 1)
  }

  /** The share of value j in the mean at block k: what is left of it after k - j more blocks. */
  function Share(alpha: real, k: nat, j: nat): real
    requires j <= k
  {
    (if j == 0 then 1.0 else alpha) * Power(1.0 - alpha, k - j)
  }

  /** The first n values, each by its share at block k. */
  function Mixed(x: seq<real>, alpha: real, k: nat, n: nat): real
    requires n <= |x| && n <= k + 1
  {
    if n == 0 then 0.0 else Mixed(x, alpha, k, n - 1) + Share(alpha, k, n - 1) * x[n - 1]
  }

  lemma ShareFades(alpha: real, k: nat, j: nat)
    requires j < k
    ensures Share(alpha, k, j) == (1.0 - alpha) * Share(alpha, k - 1, j)
  {
    var beta, first, p := 1.0 - alpha, if j == 0 then 1.0 else alpha, Power(1.0 - alpha, k - 1 - j);
    assert Power(beta, k - j) == beta * p;
    hide Power;
    MulAssoc(first, beta, p);
    MulComm(first, beta);
    MulAssoc(beta, first, p);
  }

  lemma {:induction false} MixedFades(x: seq<real>, alpha: real, k: nat, n: nat)
    requires n <= |x| && n <= k
    ensures k > 0 ==> Mixed(x, alpha, k, n) == (1.0 - alpha) * Mixed(x, alpha, k - 1, n)
  {
    hide Share;
    if n > 0 {
      MixedFades(x, alpha, k, n - 1);
      TermFades(x[n - 1], alpha, k, n - 1);
      MulDistrib(1.0 - alpha, Mixed(x, alpha, k - 1, n - 1), Share(alpha, k - 1, n - 1) * x[n - 1]);
    }
  }

  lemma TermFades(v: real, alpha: real, k: nat, j: nat)
    requires j < k
    ensures Share(alpha, k, j) * v == (1.0 - alpha) * (Share(alpha, k - 1, j) * v)
  {
    ShareFades(alpha, k, j);
    hide Share;
    MulAssoc(1.0 - alpha, Share(alpha, k - 1, j), v);
  }

  lemma NewestShare(alpha: real, k: nat)
    ensures Share(alpha, k, k) == if k == 0 then 1.0 else alpha
  {
  }

  /** The forward pass gives each block a mean of all values up to it, older ones by geometrically falling shares. */
  lemma {:induction false} ForwardIsMean(x: seq<real>, alpha: real, k: nat)
    requires k < |x|
    ensures Forward(x, alpha, k) == Mixed(x, alpha, k, k + 1)
  {
    NewestShare(alpha, k);
    hide Share;
    if k == 0 {
      assert Mixed(x, alpha, 0, 0) == 0.0;
    } else {
      var before := Mixed(x, alpha, k - 1, k);
      ForwardIsMean(x, alpha, k - 1);
      MixedFades(x, alpha, k, k);
      MulDistrib(alpha, x[k], before);
      MulDistribRight(1.0, -alpha, before);
      assert (1.0 - alpha) * before == before - alpha * before;
    }
  }

  /** The shares make up a whole: smoothing equal values changes nothing. */
  lemma {:induction false} SharesMakeAWhole(x: seq<real>, alpha: real, k: nat, v: real)
    requires k < |x| && forall j :: 0 <= j <= k ==> x[j] == v
    ensures Mixed(x, alpha, k, k + 1) == v
  {
    ForwardIsMean(x, alpha, k);
    hide Mixed;
    ForwardOfEqual(x, alpha, k, v);
  }

  lemma {:induction false} ForwardOfEqual(x: seq<real>, alpha: real, k: nat, v: real)
    requires k < |x| && forall j :: 0 <= j <= k ==> x[j] == v
    ensures Forward(x, alpha, k) == v
  {
    if k > 0 {
      ForwardOfEqual(x, alpha, k - 1, v);
      assert Part(alpha, 0.0) == 0.0;
    }
  }

  function Mirrored(x: seq<real>): (y: seq<real>)
    ensures |y| == |x|
    ensures forall k :: 0 <= k < |x| ==> y[k] == x[|x| - 1 - k]
  {
    seq(|x|, k requires 0 <= k < |x| => x[|x| - 1 - k])
  }

  lemma {:induction false} BackwardMirrors(x: seq<real>, alpha: real, k: nat)
    requires k < |x|
    ensures Backward(x, alpha, k) == Forward(Mirrored(x), alpha, |x| - 1 - k)
    decreases |x| - k
  {
    hide Towards;
    if k < |x| - 1 { BackwardMirrors(x, alpha, k + 1); }
  }

  /** The corrections: the raw ones, smoothed from the front, and that smoothed from the back, each as a mean. */
  lemma CorrectionsAreMeans(power: seq<real>, clipDb: real, alpha: real, sc: Scale, k: nat)
    requires k < |power|
    ensures var raw, n := RawCorrections(power, clipDb, sc), |power|;
      var there := seq(n, j requires 0 <= j < n => Mixed(raw, alpha, j, j + 1));
      Corrections(power, clipDb, alpha, sc)[k] == Mixed(Mirrored(there), alpha, n - 1 - k, n - k)
  {
    hide Mixed, RawCorrections;
    var raw, n := RawCorrections(power, clipDb, sc), |power|;
    var there := seq(n, j requires 0 <= j < n => Mixed(raw, alpha, j, j + 1));
    forall j | 0 <= j < n ensures Forward(raw, alpha, j) == there[j] { ForwardIsMean(raw, alpha, j); }
    assert ForwardAll(raw, alpha) == there;
    BackwardMirrors(there, alpha, k);
    ForwardIsMean(Mirrored(there), alpha, n - 1 - k);
  }

  // ----- interpolation -----

  /** Between two neighbouring knots the values lie on the straight line through them; outside all, on the nearest. */
  lemma BetweenKnotsIsStraight(c: seq<real>, v: seq<real>, x: real, k: nat)
    requires |c| == |v| && Increasing(c) && k < |c|
    ensures k + 1 < |c| && c[k] <= x <= c[k + 1] ==>
              (Interpolate(c, v, x) - v[k]) * (c[k + 1] - c[k]) == (v[k + 1] - v[k]) * (x - c[k])
    ensures x <= c[0] ==> Interpolate(c, v, x) == v[0]
    ensures x >= c[|c| - 1] ==> Interpolate(c, v, x) == v[|c| - 1]
  {
    hide KnotBefore, Interpolate;
    if x <= c[0] { BeforeTheFirst(c, v, x); }
    if x >= c[|c| - 1] { KnotReached(c, v, x, |c| - 1); }
    if k + 1 < |c| && c[k] <= x < c[k + 1] { OnTheLine(c, v, x, k); }
    if k + 1 < |c| && x == c[k + 1] { InterpolateHitsKnots(c, v, k + 1); }
  }

  lemma BeforeTheFirst(c: seq<real>, v: seq<real>, x: real)
    requires |c| == |v| > 0 && Increasing(c) && x <= c[0]
    ensures Interpolate(c, v, x) == v[0]
  {
    hide KnotBefore, Towards, Fraction;
    KnotIsUnique(c, x, 0);
  }

  lemma KnotReached(c: seq<real>, v: seq<real>, x: real, k: nat)
    requires |c| == |v| && Increasing(c) && k == |c| - 1 && c[k] <= x
    ensures Interpolate(c, v, x) == v[k]
  {
    hide KnotBefore, Towards, Fraction;
    KnotIsUnique(c, x, k);
  }

  lemma OnTheLine(c: seq<real>, v: seq<real>, x: real, k: nat)
    requires |c| == |v| && Increasing(c) && k + 1 < |c| && c[k] <= x < c[k + 1]
    ensures (Interpolate(c, v, x) - v[k]) * (c[k + 1] - c[k]) == (v[k + 1] - v[k]) * (x - c[k])
  {
    hide KnotBefore;
    KnotIsUnique(c, x, k);
    var width, rise := c[k + 1] - c[k], v[k + 1] - v[k];
    if x > c[k] {
      var t := Fraction(c[k], c[k + 1], x);
      assert Interpolate(c, v, x) - v[k] == t * rise;
      DivMul(x - c[k], width);
      hide Fraction, Interpolate;
      MulComm(t, rise);
      MulAssoc(rise, t, width);
    }
  }
}
