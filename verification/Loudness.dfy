/** Reading a clip's loudness: block powers by prefix sums, then the two gates. */
module Loudness {
  import opened Numbers
  import opened RealArith

  /** Decibels to amplitude gain, and power to decibels; only their order and scale matter here. */
  datatype Scale = Scale(gain: real -> real, decibels: real -> real)

  ghost predicate Sound(sc: Scale) {
    && sc.gain(0.0) == 1.0
    && (forall x :: 0.0 < sc.gain(x))
    && (forall x, y :: x < y ==> sc.gain(x) < sc.gain(y))
    && (forall p, q :: 0.0 < p <= q ==> sc.decibels(p) <= sc.decibels(q))
  }

  const ABSOLUTE_GATE_DB := -50.0
  const RELATIVE_GATE_DB := 10.0

  function MaxInt(x: int, y: int): int { if x <= y then y else x }
  function MinInt(x: int, y: int): int { if x <= y then x else y }

  function BlockSize(n: nat, rate: real): (s: nat)
    ensures 1 <= s && (n > 0 ==> s <= n)
  {
    MaxInt(1, MinInt(n, Round(0.4 * rate)))
  }

  function Hop(rate: real): (h: nat)
    ensures 1 <= h
  {
    MaxInt(1, Round(0.1 * rate))
  }

  function BlockCount(n: nat, rate: real): nat {
    if n == 0 then 0 else (n - BlockSize(n, rate)) / Hop(rate) + 1
  }

  function Square(x: real): real { x * x }

  /** The mean of `count` values that sum to `sum`. */
  function Mean(sum: real, count: int): real
    requires count != 0
  {
    sum / count as real
  }

  /** Where block k starts. */
  function Start(k: nat, rate: real): nat { k * Hop(rate) }

  /** Sum of squares over samples lo (inclusive) to hi (exclusive). */
  function SumSquares(s: seq<real>, lo: nat, hi: nat): real
    requires lo <= hi <= |s|
  {
    if lo == hi then 0.0 else SumSquares(s, lo, hi - 1) + Square(s[hi - 1])
  }

  lemma {:induction false} SumSquaresSplits(s: seq<real>, lo: nat, mid: nat, hi: nat)
    requires lo <= mid <= hi <= |s|
    ensures SumSquares(s, lo, hi) == SumSquares(s, lo, mid) + SumSquares(s, mid, hi)
  {
    if mid < hi { SumSquaresSplits(s, lo, mid, hi - 1); }
  }

  /** Every block lies inside the clip. */
  lemma BlockFits(n: nat, rate: real, k: nat)
    requires k < BlockCount(n, rate)
    ensures Start(k, rate) + BlockSize(n, rate) <= n
  {
    QuotientFits(n - BlockSize(n, rate), Hop(rate), k);
  }

  lemma QuotientFits(x: nat, d: nat, k: nat)
    requires 1 <= d && k <= x / d
    ensures k * d <= x
  {
    assert x / d * d <= x;
    assert k * d <= x / d * d;
  }

  /** The mean square of block k, taken directly over its samples. */
  function BlockPower(s: seq<real>, rate: real, k: nat): real
    requires k < BlockCount(|s|, rate)
  {
    BlockFits(|s|, rate, k);
    var start, size := Start(k, rate), BlockSize(|s|, rate);
    Mean(SumSquares(s, start, start + size), size)
  }

  function Powers(s: seq<real>, rate: real): (p: seq<real>)
    ensures |p| == BlockCount(|s|, rate)
  {
    seq(BlockCount(|s|, rate), k requires 0 <= k < BlockCount(|s|, rate) => BlockPower(s, rate, k))
  }

  function Centre(n: nat, rate: real, k: nat): real {
    Start(k, rate) as real + BlockSize(n, rate) as real / 2.0
  }

  function Centres(n: nat, rate: real): (c: seq<real>)
    ensures |c| == BlockCount(n, rate)
  {
    seq(BlockCount(n, rate), k requires 0 <= k < BlockCount(n, rate) => Centre(n, rate, k))
  }

  method PrefixSums(samples: array<real>) returns (prefix: array<real>)
    ensures fresh(prefix) && prefix.Length == samples.Length + 1
    ensures forall j :: 0 <= j <= samples.Length ==> prefix[j] == SumSquares(samples[..], 0, j)
  {
    hide Square;
    ghost var s := samples[..];
    prefix := new real[samples.Length + 1](_ => 0.0);
    for i := 0 to samples.Length
      invariant forall j :: 0 <= j <= i ==> prefix[j] == SumSquares(s, 0, j)
      invariant samples[..] == s
    {
      prefix[i + 1] := prefix[i] + Square(samples[i]);
    }
  }

  /** Prefix sums give the same powers as summing each block directly, with every index in range. */
  method BlockPowers(samples: array<real>, rate: real) returns (power: array<real>, centre: array<real>)
    ensures fresh(power) && fresh(centre)
    ensures power[..] == Powers(samples[..], rate)
    ensures centre[..] == Centres(samples.Length, rate)
  {
    hide SumSquares, BlockPower, Centre, BlockSize, Hop, Start, Mean;
    var n := samples.Length;
    ghost var s := samples[..];
    var size := BlockSize(n, rate);
    var hop := Hop(rate);
    var prefix := PrefixSums(samples);
    var count := if n == 0 then 0 else (n - size) / hop + 1;
    power := new real[count];
    centre := new real[count];
    for k := 0 to count
      invariant forall j :: 0 <= j < k ==> power[j] == BlockPower(s, rate, j)
      invariant forall j :: 0 <= j < k ==> centre[j] == Centre(n, rate, j)
      invariant forall j :: 0 <= j <= n ==> prefix[j] == SumSquares(s, 0, j)
    {
      var start := Start(k, rate);
      BlockFits(n, rate, k);
      BlockByDifference(s, rate, k);
      power[k] := Mean(prefix[start + size] - prefix[start], size);
      centre[k] := start as real + size as real / 2.0;
    }
  }

  lemma BlockByDifference(s: seq<real>, rate: real, k: nat)
    requires k < BlockCount(|s|, rate)
    requires Start(k, rate) + BlockSize(|s|, rate) <= |s|
    ensures var start, size := Start(k, rate), BlockSize(|s|, rate);
      && Mean(SumSquares(s, 0, start + size) - SumSquares(s, 0, start), size) == BlockPower(s, rate, k)
      && start as real + size as real / 2.0 == Centre(|s|, rate, k)
  {
    hide Mean, Start;
    var start, size := Start(k, rate), BlockSize(|s|, rate);
    SumSquaresSplits(s, 0, start, start + size);
  }

  // ----- the gates -----

  function SumAbove(s: seq<real>, gate: real): real {
    if s == [] then 0.0 else SumAbove(s[..|s| - 1], gate) + if s[|s| - 1] > gate then s[|s| - 1] else 0.0
  }

  function CountAbove(s: seq<real>, gate: real): nat {
    if s == [] then 0 else CountAbove(s[..|s| - 1], gate) + if s[|s| - 1] > gate then 1 else 0
  }

  function AbsoluteGate(sc: Scale): real {
    Square(sc.gain(ABSOLUTE_GATE_DB))
  }

  function MeanAbove(s: seq<real>, gate: real): real {
    if CountAbove(s, gate) == 0 then 0.0 else Mean(SumAbove(s, gate), CountAbove(s, gate))
  }

  function RelativeGate(mean: real, sc: Scale): real {
    mean * Square(sc.gain(-RELATIVE_GATE_DB))
  }

  /** Blocks that clear both gates are those above the larger one. */
  function BothGates(s: seq<real>, sc: Scale): real {
    Max(AbsoluteGate(sc), RelativeGate(MeanAbove(s, AbsoluteGate(sc)), sc))
  }

  function GatedLoudness(power: seq<real>, sc: Scale): Option<real> {
    if CountAbove(power, AbsoluteGate(sc)) == 0 then None
    else Some(sc.decibels(MeanAbove(power, BothGates(power, sc))))
  }

  method ComputeGatedLoudness(power: array<real>, sc: Scale) returns (r: Option<real>)
    requires Sound(sc)
    ensures r == GatedLoudness(power[..], sc)
  {
    hide AbsoluteGate, RelativeGate, Mean;
    ghost var s := power[..];
    var gate := AbsoluteGate(sc);
    var sum, count := 0.0, 0;
    for i := 0 to power.Length
      invariant sum == SumAbove(s[..i], gate) && count == CountAbove(s[..i], gate)
    {
      assert s[..i + 1][..i] == s[..i];
      if power[i] > gate { sum, count := sum + power[i], count + 1; }
    }
    assert s[..|s|] == s;
    if count == 0 { return None; }
    var relative := RelativeGate(Mean(sum, count), sc);
    var gatedSum, gatedCount := 0.0, 0;
    for i := 0 to power.Length
      invariant gatedSum == SumAbove(s[..i], Max(gate, relative))
              && gatedCount == CountAbove(s[..i], Max(gate, relative))
    {
      assert s[..i + 1][..i] == s[..i];
      if power[i] > gate && power[i] > relative { gatedSum, gatedCount := gatedSum + power[i], gatedCount + 1; }
    }
    assert Max(gate, relative) == BothGates(s, sc);
    RelativeGateKeepsABlock(s, sc);
    return Some(sc.decibels(Mean(gatedSum, gatedCount)));
  }

  function Times(level: real, count: int): real { level * count as real }

  lemma TimesOneMore(level: real, count: int)
    ensures Times(level, count + 1) == Times(level, count) + level
  {
    MulDistrib(level, count as real, 1.0);
  }

  lemma NoTimes(level: real)
    ensures Times(level, 0) == 0.0
  {
  }

  /** Raising a gate drops blocks of at most the new gate each. */
  lemma {:induction false} RaisingTheGate(s: seq<real>, low: real, high: real)
    requires low <= high
    ensures CountAbove(s, high) <= CountAbove(s, low)
    ensures SumAbove(s, low) - SumAbove(s, high) <= Times(high, CountAbove(s, low) - CountAbove(s, high))
    ensures CountAbove(s, high) == 0 ==> SumAbove(s, high) == 0.0
  {
    hide Times;
    NoTimes(high);
    if s != [] {
      var n := |s| - 1;
      RaisingTheGate(s[..n], low, high);
      TimesOneMore(high, CountAbove(s[..n], low) - CountAbove(s[..n], high));
    }
  }

  lemma {:induction false} AboveTheGate(s: seq<real>, gate: real)
    ensures SumAbove(s, gate) >= Times(gate, CountAbove(s, gate))
    ensures CountAbove(s, gate) > 0 ==> SumAbove(s, gate) > Times(gate, CountAbove(s, gate))
  {
    hide Times;
    NoTimes(gate);
    if s != [] {
      AboveTheGate(s[..|s| - 1], gate);
      TimesOneMore(gate, CountAbove(s[..|s| - 1], gate));
    }
  }

  /**
   * A gate set under the mean of the blocks that clear a lower gate keeps at least
   * one of them, and the mean of those it keeps is no smaller.
   */
  lemma GateUnderTheMean(s: seq<real>, low: real, high: real)
    requires low <= high && CountAbove(s, low) > 0 && high < MeanAbove(s, low)
    ensures CountAbove(s, high) > 0
    ensures MeanAbove(s, low) <= MeanAbove(s, high)
  {
    hide SumAbove, CountAbove;
    RaisingTheGate(s, low, high);
    MeanArithmetic(SumAbove(s, low), CountAbove(s, low), SumAbove(s, high), CountAbove(s, high), high,
      MeanAbove(s, low));
  }

  lemma MeanArithmetic(sum: real, all: nat, keptSum: real, kept: nat, high: real, mean: real)
    requires 0 < all && kept <= all && Mean(sum, all) == mean && high < mean
    requires sum - keptSum <= Times(high, all - kept) && (kept == 0 ==> keptSum == 0.0)
    ensures 0 < kept && mean <= Mean(keptSum, kept)
  {
    DivMul(sum, all as real);
    MulComm(mean, all as real);
    MulComm(high, all as real);
    if kept == 0 {
      ScaleOrder(all as real, mean, high);
      assert false;
    }
    MulDistrib(mean, all as real, kept as real);
    MulMonotone((all - kept) as real, high, mean);
    MulComm((all - kept) as real, high);
    MulComm((all - kept) as real, mean);
    DivAtMost(keptSum, kept as real, mean);
  }

  lemma GatesAreUnderTheMean(s: seq<real>, sc: Scale)
    requires Sound(sc) && CountAbove(s, AbsoluteGate(sc)) > 0
    ensures 0.0 < AbsoluteGate(sc) <= BothGates(s, sc) < MeanAbove(s, AbsoluteGate(sc))
  {
    hide SumAbove, CountAbove, Mean, AbsoluteGate, RelativeGate;
    var gate := AbsoluteGate(sc);
    AbsoluteGateIsPositive(sc);
    AboveTheGate(s, gate);
    MeanExceeds(SumAbove(s, gate), CountAbove(s, gate), gate);
    RelativeGateIsUnder(MeanAbove(s, gate), sc);
  }

  lemma AbsoluteGateIsPositive(sc: Scale)
    requires Sound(sc)
    ensures 0.0 < AbsoluteGate(sc)
  {
    SquareIsPositive(sc.gain(ABSOLUTE_GATE_DB));
  }

  lemma MeanExceeds(sum: real, count: int, level: real)
    requires 0 < count && Times(level, count) < sum
    ensures level < Mean(sum, count)
  {
    DivAtMost(sum, count as real, level);
  }

  lemma RelativeGateIsUnder(mean: real, sc: Scale)
    requires Sound(sc) && 0.0 < mean
    ensures RelativeGate(mean, sc) < mean
  {
    assert sc.gain(-RELATIVE_GATE_DB) < sc.gain(0.0);
    SquaredFractionShrinks(mean, sc.gain(-RELATIVE_GATE_DB));
  }

  lemma SquareIsPositive(x: real)
    requires 0.0 < x
    ensures 0.0 < Square(x)
  {
    var root := Square(x) / x;
    assert root * x == Square(x);
    assert root == x;
  }

  lemma SquaredFractionShrinks(mean: real, g: real)
    requires 0.0 < mean && 0.0 < g < 1.0
    ensures mean * Square(g) < mean
  {
    MulStrict(g, g, 1.0);
    MulStrict(mean, g * g, 1.0);
  }

  /** The relative gate always keeps a block, so the reading never divides by zero. */
  lemma RelativeGateKeepsABlock(s: seq<real>, sc: Scale)
    requires Sound(sc) && CountAbove(s, AbsoluteGate(sc)) > 0
    ensures CountAbove(s, BothGates(s, sc)) > 0
  {
    GatesAreUnderTheMean(s, sc);
    GateUnderTheMean(s, AbsoluteGate(sc), BothGates(s, sc));
  }

  /** Gating out quiet blocks never lowers the reading: it is at least the ungated one. */
  lemma RelativeGateNeverLowers(s: seq<real>, sc: Scale)
    requires Sound(sc) && GatedLoudness(s, sc).Some?
    ensures sc.decibels(MeanAbove(s, AbsoluteGate(sc))) <= GatedLoudness(s, sc).value
  {
    hide MeanAbove, CountAbove, BothGates, AbsoluteGate;
    GatesAreUnderTheMean(s, sc);
    GateUnderTheMean(s, AbsoluteGate(sc), BothGates(s, sc));
  }

  /** A clip is read as silent exactly when no block clears the absolute gate. */
  lemma {:induction false} SilentIffNoBlockIsLoud(s: seq<real>, gate: real)
    ensures CountAbove(s, gate) == 0 <==> forall i :: 0 <= i < |s| ==> s[i] <= gate
  {
    if s != [] {
      var n := |s| - 1;
      SilentIffNoBlockIsLoud(s[..n], gate);
      if forall i :: 0 <= i < n ==> s[..n][i] <= gate {
        assert forall i :: 0 <= i < n ==> s[i] <= gate;
      } else {
        var i :| 0 <= i < n && s[..n][i] > gate;
        assert s[i] > gate;
      }
    }
  }
}
