/** Levelling one clip: gain to the target, phrase shaping, a bounded trim, and the limiter. */
module Levelling {
  import opened Numbers
  import opened Loudness
  import S = Shaping
  import Lim = Limiter

  const TARGET_LOUDNESS_DB := -20.0
  const MAX_CLIP_BOOST_DB := 12.0
  const MAX_CLIP_CUT_DB := 12.0
  const MAX_TRIM_DB := 3.0

  /** The decibel scale and the two smoothing factors (one per hop, one per sample). */
  datatype Settings = Settings(sc: Scale, alpha: real, release: real)

  ghost predicate Proper(p: Settings) {
    Sound(p.sc) && 0.0 <= p.alpha <= 1.0 && 0.0 <= p.release <= 1.0
  }

  /** The sample ceiling, one decibel under full scale. */
  function PeakCeiling(sc: Scale): Lim.Ceiling
    requires Sound(sc)
  {
    sc.gain(-1.0)
  }

  function ClipGain(clipDb: real): real {
    Clamp(TARGET_LOUDNESS_DB - clipDb, -MAX_CLIP_CUT_DB, MAX_CLIP_BOOST_DB)
  }

  function TrimLow(clipGainDb: real): real { Max(-MAX_TRIM_DB, -MAX_CLIP_CUT_DB - clipGainDb) }
  function TrimHigh(clipGainDb: real): real { Min(MAX_TRIM_DB, MAX_CLIP_BOOST_DB - clipGainDb) }

  function Trim(clipGainDb: real, shapedDb: real): real {
    Clamp(TARGET_LOUDNESS_DB - shapedDb, TrimLow(clipGainDb), TrimHigh(clipGainDb))
  }

  function ClipLoudness(s: seq<real>, rate: real, p: Settings): Option<real> {
    GatedLoudness(Powers(s, rate), p.sc)
  }

  function ClipCorrections(s: seq<real>, rate: real, clipDb: real, p: Settings): (c: seq<real>)
    ensures |c| == BlockCount(|s|, rate)
  {
    S.Corrections(Powers(s, rate), clipDb, p.alpha, p.sc)
  }

  /** The phrase correction at one sample, in decibels. */
  function CorrectionAt(s: seq<real>, rate: real, clipDb: real, p: Settings, i: nat): real
    requires i < |s|
  {
    S.CentresIncrease(|s|, rate);
    S.Interpolate(Centres(|s|, rate), ClipCorrections(s, rate, clipDb, p), i as real)
  }

  function ShapedClip(s: seq<real>, rate: real, clipDb: real, p: Settings): (t: seq<real>)
    ensures |t| == |s|
  {
    S.CentresIncrease(|s|, rate);
    S.Shaped(s, Centres(|s|, rate), ClipCorrections(s, rate, clipDb, p), ClipGain(clipDb), p.sc)
  }

  function TrimOf(s: seq<real>, rate: real, clipDb: real, p: Settings): real {
    var shapedDb := match ClipLoudness(ShapedClip(s, rate, clipDb, p), rate, p)
                    case Some(db) => db
                    case None => TARGET_LOUDNESS_DB;
    Trim(ClipGain(clipDb), shapedDb)
  }

  function Trimmed(s: seq<real>, factor: real): (t: seq<real>)
    ensures |t| == |s|
  {
    seq(|s|, i requires 0 <= i < |s| => Lim.Product(s[i], factor))
  }

  /** What goes into the limiter. */
  function Prepared(s: seq<real>, rate: real, clipDb: real, p: Settings): (t: seq<real>)
    ensures |t| == |s|
  {
    Trimmed(ShapedClip(s, rate, clipDb, p), p.sc.gain(TrimOf(s, rate, clipDb, p)))
  }

  function Levelled(s: seq<real>, rate: real, p: Settings): (t: seq<real>)
    requires Proper(p)
    ensures |t| == |s|
  {
    match ClipLoudness(s, rate, p)
    case None => s
    case Some(clipDb) => Lim.Limited(Prepared(s, rate, clipDb, p), Lim.Look(rate), p.release, PeakCeiling(p.sc))
  }

  method MeasureLoudness(samples: array<real>, rate: real, p: Settings) returns (r: Option<real>)
    requires Proper(p)
    ensures r == ClipLoudness(samples[..], rate, p)
  {
    var power, centre := BlockPowers(samples, rate);
    r := ComputeGatedLoudness(power, p.sc);
  }

  method MapTrim(samples: array<real>, factor: real) returns (out: array<real>)
    ensures fresh(out) && out[..] == Trimmed(samples[..], factor)
  {
    hide Lim.Product;
    ghost var s := samples[..];
    out := new real[samples.Length];
    for i := 0 to samples.Length
      invariant samples[..] == s && forall j :: 0 <= j < i ==> out[j] == Lim.Product(s[j], factor)
    {
      out[i] := Lim.Product(samples[i], factor);
    }
  }

  method Copy(samples: array<real>) returns (out: array<real>)
    ensures fresh(out) && out[..] == samples[..]
  {
    ghost var s := samples[..];
    out := new real[samples.Length];
    for i := 0 to samples.Length
      invariant samples[..] == s && out[..i] == s[..i]
    {
      out[i] := samples[i];
    }
  }

  /** A new array comes back; the input is not modified. */
  method LevelSpeech(samples: array<real>, rate: real, p: Settings) returns (out: array<real>)
    requires Proper(p)
    ensures fresh(out)
    ensures out[..] == Levelled(samples[..], rate, p)
  {
    hide GatedLoudness, Powers, Centres, S.Corrections, S.Shaped, S.Interpolate, Lim.Limited, Lim.Look, Trim,
      ClipGain, Trimmed, S.Increasing;
    ghost var s := samples[..];
    var power, centre := BlockPowers(samples, rate);
    var loudness := ComputeGatedLoudness(power, p.sc);
    if loudness.None? {
      out := Copy(samples);
      return;
    }
    var clipDb := loudness.value;
    var clipGainDb := ClipGain(clipDb);
    var corrections := S.PhraseCorrections(power, clipDb, p.alpha, p.sc);
    S.CentresIncrease(|s|, rate);
    var shaped := S.ApplyCorrections(samples, centre, corrections, clipGainDb, p.sc);
    var measured := MeasureLoudness(shaped, rate, p);
    var shapedDb := match measured case Some(db) => db case None => TARGET_LOUDNESS_DB;
    var trimDb := Trim(clipGainDb, shapedDb);
    var trimmed := MapTrim(shaped, p.sc.gain(trimDb));
    out := Lim.LimitPeaks(trimmed, rate, p.release, PeakCeiling(p.sc));
  }

  // ----- what levelling promises -----

  /** The trim's bounds are never inverted, and clip gain plus trim keeps to the clip's caps. */
  lemma TrimKeepsTheCaps(clipDb: real, shapedDb: real)
    ensures var g := ClipGain(clipDb);
      && -MAX_CLIP_CUT_DB <= g <= MAX_CLIP_BOOST_DB
      && TrimLow(g) <= 0.0 <= TrimHigh(g)
      && -MAX_TRIM_DB <= Trim(g, shapedDb) <= MAX_TRIM_DB
      && -MAX_CLIP_CUT_DB <= g + Trim(g, shapedDb) <= MAX_CLIP_BOOST_DB
  {
  }

  /** Anywhere in the clip the phrase correction is within 6 dB either way. */
  lemma CorrectionIsBounded(s: seq<real>, rate: real, clipDb: real, p: Settings, i: nat)
    requires Proper(p) && i < |s|
    ensures -S.MAX_PHRASE_CORRECTION_DB <= CorrectionAt(s, rate, clipDb, p, i) <= S.MAX_PHRASE_CORRECTION_DB
  {
    hide Powers, Centres, S.Corrections, S.Interpolate;
    S.CentresIncrease(|s|, rate);
    S.CorrectionsAreBounded(Powers(s, rate), clipDb, p.alpha, p.sc);
    S.InterpolateStaysWithin(Centres(|s|, rate), ClipCorrections(s, rate, clipDb, p), i as real,
      S.MAX_PHRASE_CORRECTION_DB);
  }

  // ----- towards the target -----

  /**
   * The gain, held between lo and hi, that takes a level as close as it can be to -20 dB: onto it, or as far towards
   * it as the bounds allow.
   */
  predicate TakesToTarget(db: real, gain: real, lo: real, hi: real) {
    && lo <= gain <= hi
    && (db + gain < -20.0 ==> gain == hi) && (db + gain > -20.0 ==> gain == lo)
  }

  /** A clip within 12 dB of -20 dB is taken onto it; any other comes exactly 12 dB closer. */
  lemma ClipGainLands(clipDb: real)
    ensures TakesToTarget(clipDb, ClipGain(clipDb), -12.0, 12.0)
    ensures -32.0 <= clipDb <= -8.0 ==> clipDb + ClipGain(clipDb) == -20.0
    ensures clipDb < -32.0 ==> clipDb + 12.0 == clipDb + ClipGain(clipDb) < -20.0
    ensures clipDb > -8.0 ==> -20.0 < clipDb + ClipGain(clipDb) == clipDb - 12.0
  {
  }

  /** The trim takes back what the phrase corrections moved, within 3 dB, and within 12 dB with the clip gain. */
  lemma TrimLands(clipGainDb: real, shapedDb: real)
    requires -12.0 <= clipGainDb <= 12.0
    ensures var lo := if clipGainDb < -9.0 then -12.0 - clipGainDb else -3.0;
      var hi := if clipGainDb > 9.0 then 12.0 - clipGainDb else 3.0;
      TakesToTarget(shapedDb, Trim(clipGainDb, shapedDb), lo, hi)
  {
  }

  /** There is one such gain. */
  lemma OneGainTakesToTarget(db: real, g: real, h: real, lo: real, hi: real)
    requires TakesToTarget(db, g, lo, hi) && TakesToTarget(db, h, lo, hi)
    ensures g == h
  {
  }

  /** What the shaped clip is read as, a silent one as on target. */
  function ShapedLevel(s: seq<real>, rate: real, clipDb: real, p: Settings): real {
    match ClipLoudness(ShapedClip(s, rate, clipDb, p), rate, p)
    case Some(db) => db
    case None => -20.0
  }

  lemma ClipGainIsBounded(clipDb: real)
    ensures -12.0 <= ClipGain(clipDb) <= 12.0
  {
  }

  lemma ShapedAt(s: seq<real>, rate: real, clipDb: real, p: Settings, i: nat)
    requires i < |s|
    ensures ShapedClip(s, rate, clipDb, p)[i] ==
            S.Amplify(s[i], ClipGain(clipDb) + CorrectionAt(s, rate, clipDb, p, i), p.sc)
  {
    hide S.Amplify, Powers, Centres, S.Corrections, S.Interpolate, S.Increasing, ClipGain;
    S.CentresIncrease(|s|, rate);
  }

  lemma PreparedWithTrim(s: seq<real>, rate: real, clipDb: real, p: Settings)
    ensures Prepared(s, rate, clipDb, p) ==
            Trimmed(ShapedClip(s, rate, clipDb, p),
              p.sc.gain(Trim(ClipGain(clipDb), ShapedLevel(s, rate, clipDb, p))))
  {
    hide ClipLoudness, ShapedClip, Trim, ClipGain;
  }

  lemma LevelledIsLimited(s: seq<real>, rate: real, db: real, p: Settings)
    requires Proper(p) && ClipLoudness(s, rate, p) == Some(db)
    ensures Levelled(s, rate, p) ==
            Lim.Limited(Prepared(s, rate, db, p), Lim.Look(rate), p.release, PeakCeiling(p.sc))
  {
    hide ClipLoudness, Prepared, Lim.Limited, Lim.Look;
  }

  /**
   * Every sample of a clip that is not silent comes out as the input times three gains: the clip gain, which takes the
   * clip's own reading to -20 dB, with the phrase correction, within 6 dB; the trim, which takes the shaped clip's
   * reading there; and the limiter's, which never raises anything. No sample exceeds the ceiling.
   */
  lemma LevelledSample(s: seq<real>, rate: real, p: Settings, i: nat) returns (baseDb: real, trimDb: real, limit: real)
    requires Proper(p) && i < |s| && ClipLoudness(s, rate, p).Some?
    ensures var clipDb := ClipLoudness(s, rate, p).value;
      var correction, shaped := CorrectionAt(s, rate, clipDb, p, i), ShapedClip(s, rate, clipDb, p);
      && TakesToTarget(clipDb, baseDb, -12.0, 12.0)
      && TakesToTarget(ShapedLevel(s, rate, clipDb, p), trimDb,
           if baseDb < -9.0 then -12.0 - baseDb else -3.0, if baseDb > 9.0 then 12.0 - baseDb else 3.0)
      && -6.0 <= correction <= 6.0
      && shaped[i] == S.Amplify(s[i], baseDb + correction, p.sc)
      && Levelled(s, rate, p)[i] == Lim.Product(Lim.Product(shaped[i], p.sc.gain(trimDb)), limit)
      && 0.0 < limit <= 1.0
    ensures Abs(Levelled(s, rate, p)[i]) <= p.sc.gain(-1.0) == PeakCeiling(p.sc)
  {
    hide ShapedClip, CorrectionAt, ClipLoudness, Lim.LimiterGain, Lim.Limited, Lim.Look, Lim.Product, S.Amplify,
      Trim, ClipGain, TakesToTarget, Prepared, Levelled;
    var clipDb := ClipLoudness(s, rate, p).value;
    var shapedDb := ShapedLevel(s, rate, clipDb, p);
    baseDb := ClipGain(clipDb);
    trimDb := Trim(baseDb, shapedDb);
    ClipGainLands(clipDb);
    ClipGainIsBounded(clipDb);
    TrimLands(baseDb, shapedDb);
    CorrectionIsBounded(s, rate, clipDb, p, i);
    ShapedAt(s, rate, clipDb, p, i);
    var prepared := Prepared(s, rate, clipDb, p);
    PreparedWithTrim(s, rate, clipDb, p);
    limit := Lim.LimiterGain(prepared, Lim.Look(rate), p.release, PeakCeiling(p.sc), i);
    Lim.NothingClips(prepared, Lim.Look(rate), p.release, PeakCeiling(p.sc), i);
    Lim.LimitedAt(prepared, Lim.Look(rate), p.release, PeakCeiling(p.sc), i);
    LevelledIsLimited(s, rate, clipDb, p);
  }

  /**
   * The ceiling holds for a clip exactly when it is not read as silent or was already
   * under the ceiling: a clip read as silent comes back unchanged, peaks and all.
   */
  lemma CeilingHoldsIff(s: seq<real>, rate: real, p: Settings)
    requires Proper(p)
    ensures (forall i :: 0 <= i < |s| ==> Abs(Levelled(s, rate, p)[i]) <= PeakCeiling(p.sc)) <==>
            (ClipLoudness(s, rate, p).Some? || forall i :: 0 <= i < |s| ==> Abs(s[i]) <= PeakCeiling(p.sc))
  {
    hide GatedLoudness, Powers, Lim.Limited, Prepared;
    if ClipLoudness(s, rate, p).Some? {
      forall i | 0 <= i < |s| ensures Abs(Levelled(s, rate, p)[i]) <= PeakCeiling(p.sc) {
        var b, t, l := LevelledSample(s, rate, p, i);
      }
    } else {
      var out := Levelled(s, rate, p);
      assert out == s;
      if forall i :: 0 <= i < |s| ==> Abs(s[i]) <= PeakCeiling(p.sc) {
        forall i | 0 <= i < |s| ensures Abs(out[i]) <= PeakCeiling(p.sc) { assert out[i] == s[i]; }
      } else {
        var i :| 0 <= i < |s| && Abs(s[i]) > PeakCeiling(p.sc);
        assert Abs(out[i]) > PeakCeiling(p.sc);
      }
    }
  }

  lemma {:induction false} SilenceHasNoPower(s: seq<real>, lo: nat, hi: nat)
    requires lo <= hi <= |s| && forall i :: lo <= i < hi ==> s[i] == 0.0
    ensures SumSquares(s, lo, hi) == 0.0
  {
    if lo < hi { SilenceHasNoPower(s, lo, hi - 1); }
  }

  /** One block of silence and then a click. */
  function ClickAfterSilence(rate: real, click: real): seq<real> {
    seq(MaxInt(1, Round(0.4 * rate)), _ => 0.0) + [click]
  }

  /**
   * Such a clip exists at every rate with a hop of two samples or more: a click after the
   * last whole block belongs to no block, is never heard by the gate, and comes back as loud
   * as it went in.
   */
  lemma TrailingClickEscapes(p: Settings, rate: real, click: real)
    requires Proper(p) && Hop(rate) >= 2 && Abs(click) > PeakCeiling(p.sc)
    ensures var s := ClickAfterSilence(rate, click);
      ClipLoudness(s, rate, p).None? && Levelled(s, rate, p) == s && Abs(s[|s| - 1]) > PeakCeiling(p.sc)
  {
    hide GatedLoudness, Powers;
    var s := ClickAfterSilence(rate, click);
    SilentPowers(rate, click);
    AbsoluteGateIsPositive(p.sc);
    SilentIffNoBlockIsLoud(Powers(s, rate), AbsoluteGate(p.sc));
    SilentMeansNone(Powers(s, rate), p.sc);
  }

  lemma SilentMeansNone(power: seq<real>, sc: Scale)
    requires Loudness.Sound(sc) && CountAbove(power, AbsoluteGate(sc)) == 0
    ensures GatedLoudness(power, sc).None?
  {
  }

  /** The one block of such a clip is silent. */
  lemma SilentPowers(rate: real, click: real)
    requires Hop(rate) >= 2
    ensures Powers(ClickAfterSilence(rate, click), rate) == [0.0]
  {
    var s, size := ClickAfterSilence(rate, click), MaxInt(1, Round(0.4 * rate));
    assert |s| == size + 1 && BlockSize(|s|, rate) == size;
    OneHopShort(Hop(rate));
    assert BlockCount(|s|, rate) == 1 && Start(0, rate) == 0;
    SilenceHasNoPower(s, 0, size);
  }

  lemma OneHopShort(hop: nat)
    requires hop >= 2
    ensures 1 / hop == 0
  {
  }
}
