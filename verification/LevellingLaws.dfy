/** Which way levelling moves a clip, and where it lands. */
module LevellingLaws {
  import opened Numbers
  import opened RealArith
  import opened Loudness
  import opened Levelling
  import S = Shaping
  import Lim = Limiter

  // ----- phrases -----

  /** A block that is no pause is taken half the way to the clip's level, and at most 6 dB: quiet up, loud down. */
  lemma PhraseMovesHalfway(power: seq<real>, clipDb: real, sc: Scale, k: nat)
    requires k < |power| && power[k] > 0.0 && sc.decibels(power[k]) > clipDb - 20.0
    ensures var raw, gap := RawAt(power, clipDb, sc, k), clipDb - sc.decibels(power[k]);
      && (gap >= 0.0 ==> 0.0 <= raw <= 6.0) && (gap <= 0.0 ==> -6.0 <= raw <= 0.0)
      && (-12.0 <= gap <= 12.0 ==> raw + raw == gap)
      && (gap > 12.0 ==> raw == 6.0) && (gap < -12.0 ==> raw == -6.0)
  {
    assert power[..k + 1][..k] == power[..k];
  }

  function RawAt(power: seq<real>, clipDb: real, sc: Scale, k: nat): real
    requires k < |power|
  {
    S.RawCorrections(power, clipDb, sc)[k]
  }

  /** Pauses, and silence before the first phrase, are not raised: they keep the correction before them. */
  lemma PauseKeepsCorrection(power: seq<real>, clipDb: real, sc: Scale, k: nat)
    requires k < |power| && (power[k] <= 0.0 || sc.decibels(power[k]) <= clipDb - 20.0)
    ensures RawAt(power, clipDb, sc, k) == if k == 0 then 0.0 else RawAt(power, clipDb, sc, k - 1)
  {
    assert power[..k + 1][..k] == power[..k];
    if k == 0 { assert S.HeldAfter(power[..0], clipDb, sc) == 0.0; }
  }

  /** A phrase correction above 0 dB raises a sample, one below lowers it, and none leaves it. */
  lemma CorrectionRaises(x: real, db: real, sc: Scale)
    requires Sound(sc)
    ensures Sign(S.Amplify(x, db, sc)) == Sign(x)
    ensures db == 0.0 ==> S.Amplify(x, db, sc) == x
    ensures x != 0.0 && db > 0.0 ==> Abs(S.Amplify(x, db, sc)) > Abs(x)
    ensures x != 0.0 && db < 0.0 ==> Abs(S.Amplify(x, db, sc)) < Abs(x)
  {
    var g := sc.gain(db);
    assert sc.gain(0.0) == 1.0 && g > 0.0;
    GainsRise(sc, db, 0.0);
    AmplifyIsProduct(x, db, sc);
    hide Lim.Product, S.Amplify, Sound;
    Lim.ProductOfAbs(x, g);
    if x != 0.0 { ScaledUp(Abs(x), g); }
  }

  lemma ScaledUp(x: real, g: real)
    requires x > 0.0 && g > 0.0
    ensures Lim.Product(x, g) > 0.0 && (g > 1.0 ==> Lim.Product(x, g) > x) && (g < 1.0 ==> Lim.Product(x, g) < x)
    ensures Lim.Product(x, 1.0) == x
  {
    ScaledByOne(x);
    ScaledPositive(x, g);
    hide Lim.Product;
    if g > 1.0 { ScaledMore(x, 1.0, g); }
    if g < 1.0 { ScaledMore(x, g, 1.0); }
  }

  lemma ScaledByOne(x: real)
    ensures Lim.Product(x, 1.0) == x
  {
  }

  lemma ScaledPositive(x: real, g: real)
    requires x > 0.0 && g > 0.0
    ensures Lim.Product(x, g) > 0.0
  {
    MulPos(x, g);
  }

  lemma ScaledMore(x: real, g: real, h: real)
    requires x > 0.0 && g < h
    ensures Lim.Product(x, g) < Lim.Product(x, h)
  {
    MulStrict(x, g, h);
  }

  lemma AmplifyIsProduct(x: real, db: real, sc: Scale)
    ensures S.Amplify(x, db, sc) == Lim.Product(x, sc.gain(db))
  {
  }

  // ----- a steady clip -----

  /** Decibels as they are: gains multiply where decibels add, and a power reads as its amplitude's decibels. */
  ghost predicate Logarithmic(sc: Scale) {
    && Sound(sc)
    && (forall x, y :: sc.gain(x + y) == sc.gain(x) * sc.gain(y))
    && (forall x :: sc.decibels(sc.gain(x) * sc.gain(x)) == x)
  }

  lemma LogIsSound(sc: Scale)
    requires Logarithmic(sc)
    ensures Sound(sc)
  {
  }

  lemma GainAdds(sc: Scale, x: real, y: real)
    requires Logarithmic(sc)
    ensures sc.gain(x + y) == Lim.Product(sc.gain(x), sc.gain(y))
  {
  }

  /** Every sample has the amplitude of the level. */
  ghost predicate Steady(s: seq<real>, db: real, sc: Scale) {
    s != [] && forall i :: 0 <= i < |s| ==> Abs(s[i]) == sc.gain(db)
  }

  lemma SquareOfAbs(x: real)
    ensures Square(x) == Square(Abs(x))
  {
  }

  lemma {:induction false} SteadySum(s: seq<real>, lo: nat, hi: nat, db: real, sc: Scale)
    requires Steady(s, db, sc) && lo <= hi <= |s|
    ensures SumSquares(s, lo, hi) == Times(Square(sc.gain(db)), hi - lo)
  {
    hide Square, Times;
    if lo < hi {
      SteadySum(s, lo, hi - 1, db, sc);
      SquareOfAbs(s[hi - 1]);
      TimesOneMore(Square(sc.gain(db)), hi - 1 - lo);
    } else {
      NoTimes(Square(sc.gain(db)));
    }
  }

  lemma SteadyBlocks(s: seq<real>, rate: real, db: real, sc: Scale)
    requires Steady(s, db, sc)
    ensures Powers(s, rate) != []
    ensures forall k :: 0 <= k < |Powers(s, rate)| ==> Powers(s, rate)[k] == Square(sc.gain(db))
  {
    hide Square, Mean, SumSquares, BlockSize, Hop, Start, Times;
    forall k | 0 <= k < |Powers(s, rate)| ensures Powers(s, rate)[k] == Square(sc.gain(db)) {
      BlockFits(|s|, rate, k);
      var start, size := Start(k, rate), BlockSize(|s|, rate);
      SteadySum(s, start, start + size, db, sc);
      MeanOfEqual(Square(sc.gain(db)), size);
      assert Powers(s, rate)[k] == BlockPower(s, rate, k);
    }
  }

  lemma MeanOfEqual(level: real, count: nat)
    requires count > 0
    ensures Mean(Times(level, count), count) == level
  {
    MulDiv(level, count as real);
  }

  /** Blocks of one power that clears a gate have that power for their mean; under it there is none. */
  lemma {:induction false} EqualBlocks(power: seq<real>, level: real, gate: real)
    requires forall k :: 0 <= k < |power| ==> power[k] == level
    ensures CountAbove(power, gate) == if level > gate then |power| else 0
    ensures SumAbove(power, gate) == if level > gate then Times(level, |power|) else 0.0
  {
    hide Times;
    NoTimes(level);
    if power != [] {
      EqualBlocks(power[..|power| - 1], level, gate);
      TimesOneMore(level, |power| - 1);
    }
  }

  lemma EqualMean(power: seq<real>, level: real, gate: real)
    requires power != [] && level > gate && forall k :: 0 <= k < |power| ==> power[k] == level
    ensures CountAbove(power, gate) > 0 && MeanAbove(power, gate) == level
  {
    hide Mean, CountAbove, SumAbove, Times;
    EqualBlocks(power, level, gate);
    MeanOfEqual(level, |power|);
  }

  lemma SquaresRise(x: real, y: real)
    requires 0.0 < x && 0.0 < y
    ensures Square(x) > Square(y) <==> x > y
  {
    hide Square;
    if x > y { SquareRises(y, x); }
    if x < y { SquareRises(x, y); }
  }

  lemma SquareRises(x: real, y: real)
    requires 0.0 < x < y
    ensures Square(x) < Square(y)
  {
    assert Square(x) == Lim.Product(x, x) && Square(y) == Lim.Product(y, y);
    ProductCommutes(x, y);
    hide Square, Lim.Product;
    ScaledMore(x, x, y);
    ScaledMore(y, x, y);
  }

  lemma ProductCommutes(x: real, y: real)
    ensures Lim.Product(x, y) == Lim.Product(y, x)
  {
  }

  lemma GainsRise(sc: Scale, x: real, y: real)
    requires Sound(sc)
    ensures sc.gain(x) > sc.gain(y) <==> x > y
  {
    if x < y { assert sc.gain(x) < sc.gain(y); }
    if y < x { assert sc.gain(y) < sc.gain(x); }
  }

  /** A steady clip reads as its level, and as silent exactly from -50 dB down. */
  lemma SteadyClipReads(s: seq<real>, rate: real, db: real, p: Settings)
    requires Logarithmic(p.sc) && Steady(s, db, p.sc)
    ensures ClipLoudness(s, rate, p) == if db > -50.0 then Some(db) else None
  {
    LogIsSound(p.sc);
    hide Logarithmic, Square, Powers, MeanAbove, CountAbove, RelativeGate;
    var sc, power, level := p.sc, Powers(s, rate), Square(p.sc.gain(db));
    SteadyBlocks(s, rate, db, sc);
    EqualBlocks(power, level, AbsoluteGate(sc));
    SquaresRise(sc.gain(db), sc.gain(-50.0));
    GainsRise(sc, db, -50.0);
    if db > -50.0 {
      EqualMean(power, level, AbsoluteGate(sc));
      SquareIsPositive(sc.gain(db));
      RelativeGateIsUnder(level, sc);
      EqualMean(power, level, BothGates(power, sc));
      LevelReads(sc, db);
    }
  }

  lemma LevelReads(sc: Scale, db: real)
    requires Logarithmic(sc)
    ensures sc.decibels(Square(sc.gain(db))) == db
  {
    assert sc.decibels(sc.gain(db) * sc.gain(db)) == db;
  }

  lemma {:induction false} SteadyHold(power: seq<real>, clipDb: real, sc: Scale)
    requires forall k :: 0 <= k < |power| ==> power[k] > 0.0 && sc.decibels(power[k]) == clipDb
    ensures S.HeldAfter(power, clipDb, sc) == 0.0
  {
    if power != [] { SteadyHold(power[..|power| - 1], clipDb, sc); }
  }

  lemma TowardsItself(alpha: real)
    ensures S.Towards(0.0, 0.0, alpha) == 0.0
  {
  }

  lemma {:induction false} ForwardOfZero(x: seq<real>, alpha: real, k: nat)
    requires k < |x| && forall j :: 0 <= j < |x| ==> x[j] == 0.0
    ensures S.Forward(x, alpha, k) == 0.0
  {
    hide S.Towards;
    TowardsItself(alpha);
    if k > 0 { ForwardOfZero(x, alpha, k - 1); }
  }

  lemma {:induction false} BackwardOfZero(x: seq<real>, alpha: real, k: nat)
    requires k < |x| && forall j :: 0 <= j < |x| ==> x[j] == 0.0
    ensures S.Backward(x, alpha, k) == 0.0
    decreases |x| - k
  {
    hide S.Towards;
    TowardsItself(alpha);
    if k < |x| - 1 { BackwardOfZero(x, alpha, k + 1); }
  }

  /** Nothing is shaped in it. */
  lemma SteadyCorrections(power: seq<real>, clipDb: real, alpha: real, sc: Scale)
    requires forall k :: 0 <= k < |power| ==> power[k] > 0.0 && sc.decibels(power[k]) == clipDb
    ensures forall k :: 0 <= k < |power| ==> S.Corrections(power, clipDb, alpha, sc)[k] == 0.0
  {
    hide S.HeldAfter, S.Forward, S.Backward;
    var raw := S.RawCorrections(power, clipDb, sc);
    forall k | 0 <= k < |raw| ensures raw[k] == 0.0 { SteadyHold(power[..k + 1], clipDb, sc); }
    var smooth := S.ForwardAll(raw, alpha);
    forall k | 0 <= k < |smooth| ensures smooth[k] == 0.0 { ForwardOfZero(raw, alpha, k); }
    forall k | 0 <= k < |power| ensures S.BackwardAll(smooth, alpha)[k] == 0.0 { BackwardOfZero(smooth, alpha, k); }
  }

  lemma InterpolateZero(c: seq<real>, v: seq<real>, x: real)
    requires |c| == |v| > 0 && S.Increasing(c) && forall k :: 0 <= k < |v| ==> v[k] == 0.0
    ensures S.Interpolate(c, v, x) == 0.0
  {
    S.InterpolateStaysWithin(c, v, x, 0.0);
  }

  lemma SteadyCorrectionAt(s: seq<real>, rate: real, db: real, p: Settings, i: nat)
    requires Proper(p) && Logarithmic(p.sc) && Steady(s, db, p.sc) && i < |s|
    ensures CorrectionAt(s, rate, db, p, i) == 0.0
  {
    LogIsSound(p.sc);
    hide Logarithmic, Powers, Centres, S.Corrections, S.Interpolate, Square;
    S.CentresIncrease(|s|, rate);
    SteadyBlocks(s, rate, db, p.sc);
    SquareIsPositive(p.sc.gain(db));
    LevelReads(p.sc, db);
    SteadyCorrections(Powers(s, rate), db, p.alpha, p.sc);
    InterpolateZero(Centres(|s|, rate), ClipCorrections(s, rate, db, p), i as real);
  }

  lemma ScaledLevel(x: real, db: real, more: real, sc: Scale)
    requires Logarithmic(sc) && Abs(x) == sc.gain(db)
    ensures Abs(S.Amplify(x, more, sc)) == sc.gain(db + more)
  {
    GainAdds(sc, db, more);
    LogIsSound(sc);
    AmplifyIsProduct(x, more, sc);
    hide Logarithmic, Lim.Product, S.Amplify;
    Lim.ProductOfAbs(x, sc.gain(more));
  }

  /** Shaped, it is steady at its level plus the clip gain. */
  lemma SteadyIsShapedSteady(s: seq<real>, rate: real, db: real, p: Settings)
    requires Proper(p) && Logarithmic(p.sc) && Steady(s, db, p.sc)
    ensures Steady(ShapedClip(s, rate, db, p), db + ClipGain(db), p.sc)
    ensures forall i :: 0 <= i < |s| ==> ShapedClip(s, rate, db, p)[i] == S.Amplify(s[i], ClipGain(db), p.sc)
  {
    hide ShapedClip, CorrectionAt, ClipGain, S.Amplify, Logarithmic;
    var t := ShapedClip(s, rate, db, p);
    forall i | 0 <= i < |s|
      ensures t[i] == S.Amplify(s[i], ClipGain(db), p.sc) && Abs(t[i]) == p.sc.gain(db + ClipGain(db))
    {
      SteadyCorrectionAt(s, rate, db, p, i);
      ShapedAt(s, rate, db, p, i);
      ScaledLevel(s[i], db, ClipGain(db), p.sc);
    }
  }

  /**
   * A steady clip that is not silent comes out steady on -20 dB, or 12 dB nearer to it when it is further off: at every
   * rate, and sample by sample, unless it starts so loud that the limiter has to take it down as well.
   */
  lemma SteadyClipLandsOnTarget(s: seq<real>, rate: real, db: real, p: Settings, i: nat)
    requires Proper(p) && Logarithmic(p.sc) && Steady(s, db, p.sc) && -50.0 < db <= 11.0 && i < |s|
    ensures var landed := if db < -32.0 then db + 12.0 else if db > -8.0 then db - 12.0 else -20.0;
      && Abs(Levelled(s, rate, p)[i]) == p.sc.gain(landed)
      && Sign(Levelled(s, rate, p)[i]) == Sign(s[i])
  {
    hide ClipGain, Lim.Limited, Lim.Look, Lim.Needed, ShapedClip, ClipLoudness, Trim, S.Amplify, Prepared, Trimmed,
      Logarithmic, Levelled, Sign, TakesToTarget;
    var sc, gain := p.sc, ClipGain(db);
    LogIsSound(sc);
    ClipGainLands(db);
    SteadyClipReads(s, rate, db, p);
    SteadyIsShapedSteady(s, rate, db, p);
    var shaped := ShapedClip(s, rate, db, p);
    SteadyClipReads(shaped, rate, db + gain, p);
    NoTrimLeft(db);
    TrimmedByNothing(shaped, p);
    PreparedWithTrim(s, rate, db, p);
    assert Prepared(s, rate, db, p) == shaped;
    QuietNeedsNothing(shaped, db + gain, p);
    Lim.NoPeakNoChange(shaped, Lim.Look(rate), p.release, PeakCeiling(sc));
    CorrectionKeepsSign(s[i], gain, sc);
    LevelledIsLimited(s, rate, db, p);
    assert Levelled(s, rate, p)[i] == shaped[i];
  }

  lemma CorrectionKeepsSign(x: real, db: real, sc: Scale)
    requires Sound(sc)
    ensures Sign(S.Amplify(x, db, sc)) == Sign(x)
  {
    CorrectionRaises(x, db, sc);
    hide Sign, S.Amplify;
  }

  lemma NoTrimLeft(db: real)
    requires db > -50.0
    ensures Trim(ClipGain(db), db + ClipGain(db)) == 0.0
  {
  }

  lemma TrimmedByNothing(t: seq<real>, p: Settings)
    requires Proper(p)
    ensures Trimmed(t, p.sc.gain(0.0)) == t
  {
  }

  lemma QuietNeedsNothing(t: seq<real>, db: real, p: Settings)
    requires Proper(p) && Steady(t, db, p.sc) && db <= -1.0
    ensures forall i :: 0 <= i < |t| ==> Lim.Needed(t[i], PeakCeiling(p.sc)) == 1.0
  {
    GainsRise(p.sc, db, -1.0);
  }

  // ----- what counts towards a reading -----

  /** Blocks at -50 dB or under do not count at all. */
  lemma SilenceDoesNotCount(power: seq<real>, quiet: real, sc: Scale)
    requires Sound(sc) && quiet <= Lim.Product(sc.gain(-50.0), sc.gain(-50.0))
    ensures GatedLoudness(power + [quiet], sc) == GatedLoudness(power, sc)
  {
    hide Mean, RelativeGate;
    assert (power + [quiet])[..|power|] == power;
    assert quiet <= AbsoluteGate(sc) <= BothGates(power, sc);
  }

  /** Of blocks louder than that, those count that are less than 10 dB under the mean of all. */
  lemma ReadingIs(power: seq<real>, mean: real, sc: Scale)
    requires Sound(sc) && power != []
    requires forall k :: 0 <= k < |power| ==> power[k] > Lim.Product(sc.gain(-50.0), sc.gain(-50.0))
    requires Times(mean, |power|) == TotalPower(power)
    ensures var relative := Lim.Product(mean, Lim.Product(sc.gain(-10.0), sc.gain(-10.0)));
      GatedLoudness(power, sc) == Some(sc.decibels(MeanAbove(power, relative)))
  {
    hide Mean, MeanAbove, Times, RelativeGate;
    var gate := AbsoluteGate(sc);
    AllAbove(power, gate);
    MeanIs(power, mean, gate);
    RelativeIs(mean, sc);
    if RelativeGate(mean, sc) < gate { SameAbove(power, RelativeGate(mean, sc), gate); }
  }

  function TotalPower(power: seq<real>): real {
    if power == [] then 0.0 else TotalPower(power[..|power| - 1]) + power[|power| - 1]
  }

  lemma {:induction false} AllAbove(power: seq<real>, gate: real)
    requires forall k :: 0 <= k < |power| ==> power[k] > gate
    ensures CountAbove(power, gate) == |power| && SumAbove(power, gate) == TotalPower(power)
  {
    if power != [] { AllAbove(power[..|power| - 1], gate); }
  }

  lemma MeanIs(power: seq<real>, mean: real, gate: real)
    requires power != [] && CountAbove(power, gate) == |power| && SumAbove(power, gate) == Times(mean, |power|)
    ensures MeanAbove(power, gate) == mean
  {
    hide Mean, Times;
    MeanOfEqual(mean, |power|);
  }

  lemma RelativeIs(mean: real, sc: Scale)
    ensures RelativeGate(mean, sc) == Lim.Product(mean, Lim.Product(sc.gain(-10.0), sc.gain(-10.0)))
  {
  }

  lemma SameAbove(power: seq<real>, low: real, gate: real)
    requires low < gate && forall k :: 0 <= k < |power| ==> power[k] > gate
    ensures MeanAbove(power, low) == MeanAbove(power, gate)
  {
    hide Mean;
    AllAbove(power, low);
    AllAbove(power, gate);
  }

  // ----- seconds and samples -----

  /** At a rate of 200 samples times m a second: blocks of 0.4 s every 0.1 s, and a look-ahead of 5 ms. */
  lemma SecondsAre(m: nat, n: nat)
    requires m >= 1 && n >= 1
    ensures var rate := 200.0 * m as real;
      && Hop(rate) == 20 * m && Lim.Look(rate) == m && BlockSize(n, rate) == (if n <= 80 * m then n else 80 * m)
      && BlockCount(n, rate) == (if n <= 80 * m then 1 else (n - 80 * m) / (20 * m) + 1)
  {
    var rate := 200.0 * m as real;
    assert Round(0.4 * rate) == 80 * m && Round(0.1 * rate) == 20 * m && Round(0.005 * rate) == m;
    if n <= 80 * m { NoneOver(20 * m); }
  }

  lemma NoneOver(hop: nat)
    requires hop >= 1
    ensures 0 / hop == 0
  {
  }

  /** Block k starts k hops into the clip, and its correction is due at its middle. */
  lemma BlocksAreAt(n: nat, m: nat, k: nat)
    requires m >= 1 && k < BlockCount(n, 200.0 * m as real)
    ensures var rate := 200.0 * m as real;
      && Start(k, rate) == 20 * m * k
      && Centres(n, rate)[k] == (20 * m * k) as real + (if n <= 80 * m then n else 80 * m) as real / 2.0
  {
    hide BlockSize, Hop;
    SecondsAre(m, n);
    assert k * (20 * m) == 20 * m * k;
  }
}
