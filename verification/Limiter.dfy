/** The look-ahead peak limiter: a sliding minimum by a monotonic queue, then a moving average of it. */
module Limiter {
  import opened Numbers
  import opened RealArith
  import L = Loudness

  /** How far ahead the limiter looks, in samples. */
  function Look(rate: real): (look: nat)
    ensures 1 <= look
  {
    L.MaxInt(1, Round(0.005 * rate))
  }

  /** The peak ceiling: a positive amplitude (10 to the power -1/20 in the source). */
  type Ceiling = c: real | 0.0 < c witness 1.0

  function Product(x: real, y: real): real { x * y }

  /** The gain one sample needs to stay under the ceiling. */
  function Needed(x: real, ceiling: Ceiling): real {
    if Abs(x) > ceiling then ceiling / Abs(x) else 1.0
  }

  function NeededAll(s: seq<real>, ceiling: Ceiling): (v: seq<real>)
    ensures |v| == |s|
  {
    seq(|s|, i requires 0 <= i < |s| => Needed(s[i], ceiling))
  }

  // ----- the sliding minimum -----

  /** The least value from index lo to hi, both included. */
  function WindowMin(v: seq<real>, lo: nat, hi: nat): real
    requires lo <= hi < |v|
  {
    if lo == hi then v[lo] else Min(WindowMin(v, lo, hi - 1), v[hi])
  }

  lemma {:induction false} WindowMinIsLeast(v: seq<real>, lo: nat, hi: nat, t: nat)
    requires lo <= t <= hi < |v|
    ensures WindowMin(v, lo, hi) <= v[t]
  {
    if t < hi { WindowMinIsLeast(v, lo, hi - 1, t); }
  }

  lemma {:induction false} WindowMinIsAttained(v: seq<real>, lo: nat, hi: nat) returns (t: nat)
    requires lo <= hi < |v|
    ensures lo <= t <= hi && v[t] == WindowMin(v, lo, hi)
  {
    if lo == hi {
      t := lo;
    } else {
      t := WindowMinIsAttained(v, lo, hi - 1);
      if v[hi] < v[t] { t := hi; }
    }
  }

  /** The last index of the window that starts at j. */
  function WindowEnd(n: nat, look: nat, j: nat): nat
    requires j < n
  {
    if j + look < n then j + look else n - 1
  }

  function AheadAll(v: seq<real>, look: nat): (a: seq<real>)
    ensures |a| == |v|
  {
    seq(|v|, j requires 0 <= j < |v| => WindowMin(v, j, WindowEnd(|v|, look, j)))
  }

  /** Where the stretch answered for by queue entry `a` ends. */
  function StretchEnd(q: seq<int>, a: nat, hi: int): int
    requires a < |q|
  {
    if a == 0 then hi else q[a - 1] - 1
  }

  /** v[i] is the least of the values from lo to hi. */
  ghost predicate Least(v: seq<real>, i: nat, lo: int, hi: int)
    requires i < |v|
  {
    forall t :: lo <= t <= hi && 0 <= t < |v| ==> v[i] <= v[t]
  }

  /** Indices fall and values rise from head to tail. */
  ghost predicate Ordered(q: seq<int>, v: seq<real>, lo: int) {
    && (forall a :: 0 <= a < |q| ==> 0 <= q[a] < |v| && lo <= q[a])
    && (forall a, b :: 0 <= a < b < |q| ==> q[a] > q[b] && v[q[a]] < v[q[b]])
  }

  /** Each entry is the least of its stretch. */
  ghost predicate Monotonic(q: seq<int>, v: seq<real>, lo: int, hi: int) {
    && Ordered(q, v, lo)
    && forall a :: 0 <= a < |q| ==> Least(v, q[a], q[a], StretchEnd(q, a, hi))
  }

  /** Where the stretch below the whole queue ends. */
  function Unclaimed(q: seq<int>, hi: int): int {
    if q == [] then hi else q[|q| - 1] - 1
  }

  /** What is left to answer for below the queue: everything there is at least v[j]. */
  ghost predicate Cleared(q: seq<int>, v: seq<real>, j: nat, hi: int)
    requires j < |v|
  {
    Least(v, j, j + 1, Unclaimed(q, hi))
  }

  lemma PopStep(q: seq<int>, v: seq<real>, j: nat, hi: int)
    requires j < |v| && q != [] && Monotonic(q, v, j + 1, hi) && Cleared(q, v, j, hi)
    requires v[q[|q| - 1]] >= v[j]
    ensures Monotonic(q[..|q| - 1], v, j + 1, hi) && Cleared(q[..|q| - 1], v, j, hi)
  {
    hide Least, Ordered;
    var n := |q| - 1;
    var r := q[..n];
    OrderedPrefix(q, v, j + 1);
    LeastJoins(v, j, q[n], j + 1, StretchEnd(q, n, hi));
    assert Unclaimed(r, hi) == StretchEnd(q, n, hi);
    forall a | 0 <= a < |r| ensures Least(v, r[a], r[a], StretchEnd(r, a, hi)) {
      assert StretchEnd(q, a, hi) == StretchEnd(r, a, hi);
    }
  }

  lemma OrderedPrefix(q: seq<int>, v: seq<real>, lo: int)
    requires q != [] && Ordered(q, v, lo)
    ensures Ordered(q[..|q| - 1], v, lo)
    ensures forall a :: 0 <= a < |q| ==> 0 <= q[a] < |v|
  {
  }

  lemma LeastJoins(v: seq<real>, i: nat, k: nat, lo: int, hi: int)
    requires i < |v| && k < |v| && v[i] <= v[k]
    requires Least(v, i, lo, k - 1) && Least(v, k, k, hi)
    ensures Least(v, i, lo, hi)
  {
  }

  lemma PushStep(q: seq<int>, v: seq<real>, j: nat, hi: int)
    requires j < |v| && Monotonic(q, v, j + 1, hi) && Cleared(q, v, j, hi)
    requires q == [] || v[q[|q| - 1]] < v[j]
    ensures Monotonic(q + [j], v, j, hi)
  {
    hide Least, Ordered;
    var r := q + [j];
    var n := |q|;
    Indices(q, v, j + 1, hi);
    OrderedExtends(q, v, j);
    LeastIncludesSelf(v, j, Unclaimed(q, hi));
    forall a | 0 <= a < |r| ensures Least(v, r[a], r[a], StretchEnd(r, a, hi)) {
      if a < n {
        assert StretchEnd(q, a, hi) == StretchEnd(r, a, hi);
        assert Least(v, q[a], q[a], StretchEnd(q, a, hi));
      } else {
        assert StretchEnd(r, n, hi) == Unclaimed(q, hi);
      }
    }
  }

  lemma LeastIncludesSelf(v: seq<real>, j: nat, hi: int)
    requires j < |v| && Least(v, j, j + 1, hi)
    ensures Least(v, j, j, hi)
  {
  }

  lemma OrderedExtends(q: seq<int>, v: seq<real>, j: nat)
    requires j < |v| && Ordered(q, v, j + 1)
    requires q == [] || (0 <= q[|q| - 1] < |v| && v[q[|q| - 1]] < v[j])
    ensures Ordered(q + [j], v, j)
    ensures forall a :: 0 <= a < |q| ==> 0 <= q[a] < |v|
  {
    var n := |q|;
    forall a | 0 <= a < n ensures q[a] > j && v[q[a]] < v[j] {
      if a < n - 1 { assert v[q[a]] < v[q[n - 1]]; }
    }
  }

  lemma EvictStep(q: seq<int>, v: seq<real>, j: nat, hi: int)
    requires |q| > 1 && Monotonic(q, v, j, hi)
    ensures Monotonic(q[1..], v, j, q[0] - 1)
  {
    hide Least;
    var r := q[1..];
    forall a | 0 <= a < |r| ensures Least(v, r[a], r[a], StretchEnd(r, a, q[0] - 1)) {
      assert StretchEnd(r, a, q[0] - 1) == StretchEnd(q, a + 1, hi);
    }
  }

  lemma ShrinkStep(q: seq<int>, v: seq<real>, j: nat, hi: int, less: int)
    requires Monotonic(q, v, j, hi) && less <= hi
    ensures Monotonic(q, v, j, less)
  {
    forall a | 0 <= a < |q| ensures Least(v, q[a], q[a], StretchEnd(q, a, less)) {
      assert Least(v, q[a], q[a], StretchEnd(q, a, hi));
    }
  }

  /** The head of a queue that reaches down to j holds the window's minimum. */
  lemma HeadIsWindowMin(q: seq<int>, v: seq<real>, j: nat, hi: nat)
    requires q != [] && j <= hi < |v| && Monotonic(q, v, j, hi)
    requires q[|q| - 1] == j && q[0] <= hi
    ensures v[q[0]] == WindowMin(v, j, hi)
  {
    var t := WindowMinIsAttained(v, j, hi);
    WindowMinIsLeast(v, j, hi, q[0]);
    var a := EntryFor(q, v, j, hi, t);
    assert v[q[0]] <= v[q[a]];
  }

  lemma LeastAt(v: seq<real>, i: nat, lo: int, hi: int, t: nat)
    requires i < |v| && t < |v| && Least(v, i, lo, hi) && lo <= t <= hi
    ensures v[i] <= v[t]
  {
  }

  lemma EntryFor(q: seq<int>, v: seq<real>, j: nat, hi: nat, t: nat) returns (a: nat)
    requires q != [] && Monotonic(q, v, j, hi) && q[|q| - 1] <= t <= hi < |v|
    ensures a < |q| && v[q[a]] <= v[t]
  {
    hide Least, Ordered;
    assert forall i :: 0 <= i < |q| ==> 0 <= q[i] < |v| by { Indices(q, v, j, hi); }
    a := |q| - 1;
    while t > StretchEnd(q, a, hi)
      invariant 0 <= a < |q| && q[a] <= t
      decreases a
    {
      a := a - 1;
    }
    assert Least(v, q[a], q[a], StretchEnd(q, a, hi));
    LeastAt(v, q[a], q[a], StretchEnd(q, a, hi), t);
  }

  /** The stretch the queue answers for before sample j is added. */
  function EndBefore(n: nat, look: nat, j: nat): int
    requires j < n
  {
    if j == n - 1 then n - 1 else WindowEnd(n, look, j + 1)
  }

  /** What the queue satisfies once samples from j on have been added. */
  ghost predicate Serves(q: seq<int>, v: seq<real>, j: int, look: nat)
    requires 0 <= j <= |v|
  {
    && (j == |v| ==> q == [])
    && (j < |v| ==>
          && q != [] && q[|q| - 1] == j && q[0] <= WindowEnd(|v|, look, j)
          && Monotonic(q, v, j, WindowEnd(|v|, look, j)))
  }

  lemma ReadyToAdd(q: seq<int>, v: seq<real>, j: nat, look: nat)
    requires j < |v| && Serves(q, v, j + 1, look)
    ensures Monotonic(q, v, j + 1, EndBefore(|v|, look, j)) && Cleared(q, v, j, EndBefore(|v|, look, j))
  {
  }

  lemma Indices(q: seq<int>, v: seq<real>, lo: int, hi: int)
    requires Monotonic(q, v, lo, hi)
    ensures forall a :: 0 <= a < |q| ==> 0 <= q[a] < |v| && lo <= q[a]
  {
  }

  lemma Served(q: seq<int>, v: seq<real>, j: nat, look: nat, top: int)
    requires j < |v| && q != [] && q[|q| - 1] == j && q[0] <= j + look
    requires Monotonic(q, v, j, top) && WindowEnd(|v|, look, j) <= top
    ensures Serves(q, v, j, look)
    ensures 0 <= q[0] < |v| && v[q[0]] == WindowMin(v, j, WindowEnd(|v|, look, j))
  {
    ShrinkStep(q, v, j, top, WindowEnd(|v|, look, j));
    HeadIsWindowMin(q, v, j, WindowEnd(|v|, look, j));
  }

  /** For every window and every sample the queue computes the true minimum ahead. */
  method SlidingMinimum(needed: array<real>, look: nat) returns (ahead: array<real>)
    ensures fresh(ahead)
    ensures ahead[..] == AheadAll(needed[..], look)
  {
    hide WindowMin, Monotonic, Cleared, Serves, EndBefore;
    var n := needed.Length;
    ghost var v := needed[..];
    ahead := new real[n];
    var queue := new int[n];
    var head, tail := 0, 0;
    ghost var q: seq<int> := [];
    assert Serves(q, v, n, look) by { NothingServed(v, look); }
    var j := n - 1;
    while j >= 0
      invariant -1 <= j < n
      invariant needed[..] == v
      invariant 0 <= head <= tail <= n - 1 - j && queue[head..tail] == q
      invariant Serves(q, v, j + 1, look)
      invariant forall i :: j < i < n ==> ahead[i] == WindowMin(v, i, WindowEnd(n, look, i))
    {
      ReadyToAdd(q, v, j, look);
      tail, q := PopLarger(needed, queue, head, tail, j, q, EndBefore(n, look, j));
      queue[tail] := j;
      tail := tail + 1;
      q := q + [j];
      head, q := EvictOld(queue, head, tail, j, look, v, q, EndBefore(n, look, j));
      assert queue[head] == q[0];
      ahead[j] := needed[queue[head]];
      j := j - 1;
    }
  }

  lemma NothingServed(v: seq<real>, look: nat)
    ensures Serves([], v, |v|, look)
  {
  }

  /** Entries that can no longer be a minimum leave by the tail. */
  method PopLarger(needed: array<real>, queue: array<int>, head: nat, tail: nat, j: nat, ghost q: seq<int>,
                   ghost hi: int)
    returns (tail': nat, ghost q': seq<int>)
    requires j < needed.Length == queue.Length && head <= tail <= queue.Length && queue[head..tail] == q
    requires Monotonic(q, needed[..], j + 1, hi) && Cleared(q, needed[..], j, hi)
    ensures head <= tail' <= tail && queue[head..tail'] == q'
    ensures Monotonic(q' + [j], needed[..], j, hi)
  {
    hide Monotonic, Cleared;
    tail', q' := tail, q;
    Indices(q, needed[..], j + 1, hi);
    while tail' > head && needed[queue[tail' - 1]] >= needed[j]
      invariant head <= tail' <= tail && queue[head..tail'] == q'
      invariant Monotonic(q', needed[..], j + 1, hi) && Cleared(q', needed[..], j, hi)
      invariant forall a :: 0 <= a < |q'| ==> 0 <= q'[a] < needed.Length
    {
      assert queue[tail' - 1] == q'[|q'| - 1];
      PopStep(q', needed[..], j, hi);
      tail' := tail' - 1;
      q' := q'[..|q'| - 1];
    }
    assert q' != [] ==> queue[tail' - 1] == q'[|q'| - 1];
    PushStep(q', needed[..], j, hi);
  }

  /** Entries past the look-ahead leave by the head. */
  method EvictOld(queue: array<int>, head: nat, tail: nat, j: nat, look: nat, ghost v: seq<real>, ghost q: seq<int>,
                  ghost hi: int)
    returns (head': nat, ghost q': seq<int>)
    requires j < |v| && head < tail <= queue.Length && queue[head..tail] == q
    requires q[|q| - 1] == j && Monotonic(q, v, j, hi) && hi == EndBefore(|v|, look, j)
    ensures head <= head' < tail && queue[head'..tail] == q'
    ensures Serves(q', v, j, look)
    ensures 0 <= q'[0] < |v| && v[q'[0]] == WindowMin(v, j, WindowEnd(|v|, look, j))
  {
    hide Monotonic, WindowMin, Serves;
    head', q' := head, q;
    ghost var top := hi;
    while queue[head'] > j + look
      invariant head <= head' < tail && queue[head'..tail] == q'
      invariant q'[|q'| - 1] == j && WindowEnd(|v|, look, j) <= top
      invariant Monotonic(q', v, j, top)
      decreases tail - head'
    {
      assert queue[head'] == q'[0];
      EvictStep(q', v, j, top);
      top := q'[0] - 1;
      head' := head' + 1;
      q' := q'[1..];
    }
    assert queue[head'] == q'[0];
    Served(q', v, j, look, top);
  }

  // ----- the ramp and the gain -----

  /** Sum from index lo (inclusive) to hi (exclusive). */
  function SumRange(a: seq<real>, lo: nat, hi: nat): real
    requires lo <= hi <= |a|
  {
    if lo == hi then 0.0 else SumRange(a, lo, hi - 1) + a[hi - 1]
  }

  lemma {:induction false} DropFirst(a: seq<real>, lo: nat, hi: nat)
    requires lo < hi <= |a|
    ensures SumRange(a, lo, hi) == a[lo] + SumRange(a, lo + 1, hi)
  {
    if lo + 1 < hi { DropFirst(a, lo, hi - 1); }
  }

  function WindowStart(look: nat, i: nat): nat {
    if i < look then 0 else i - look + 1
  }

  /** The mean of the minima over the last `look` samples (fewer at the start). */
  function Ramp(a: seq<real>, look: nat, i: nat): real
    requires 1 <= look && i < |a|
  {
    SumRange(a, WindowStart(look, i), i + 1) / L.MinInt(i + 1, look) as real
  }

  /** One step of recovery towards unity gain. */
  function Recover(gain: real, release: real): real {
    gain + Product(release, 1.0 - gain)
  }

  function Gain(a: seq<real>, look: nat, release: real, i: nat): real
    requires 1 <= look && i < |a|
  {
    Min(Ramp(a, look, i), Recover(if i == 0 then 1.0 else Gain(a, look, release, i - 1), release))
  }

  /** The gain the limiter applies to each sample of a clip. */
  function LimiterGain(s: seq<real>, look: nat, release: real, ceiling: Ceiling, i: nat): real
    requires 1 <= look && i < |s|
  {
    Gain(AheadAll(NeededAll(s, ceiling), look), look, release, i)
  }

  function Limited(s: seq<real>, look: nat, release: real, ceiling: Ceiling): (t: seq<real>)
    requires 1 <= look
    ensures |t| == |s|
  {
    seq(|s|, i requires 0 <= i < |s| => Product(s[i], LimiterGain(s, look, release, ceiling, i)))
  }

  // ----- why nothing clips -----

  /** The last sample that every window the ramp at i averages contains: the one after i, or further on at the start. */
  function Reach(look: nat, i: nat): nat { WindowStart(look, i) + look }

  /** The ramp is a mean of minima over windows that all contain sample u, so it is at most what u needs. */
  lemma RampIsAtMostNeeded(v: seq<real>, look: nat, i: nat, u: nat)
    requires 1 <= look && i <= u < |v| && u <= Reach(look, i)
    ensures Ramp(AheadAll(v, look), look, i) <= v[u]
  {
    hide WindowMin;
    var a, lo := AheadAll(v, look), WindowStart(look, i);
    forall t | lo <= t <= i ensures a[t] <= v[u] {
      WindowMinIsLeast(v, t, WindowEnd(|v|, look, t), u);
    }
    SumIsAtMost(a, lo, i + 1, v[u]);
    DivAtMost(SumRange(a, lo, i + 1), (i + 1 - lo) as real, v[u]);
    MulComm(v[u], (i + 1 - lo) as real);
  }

  /** Whatever the clip, the ramp at i is at most what sample u needs. */
  ghost predicate AlwaysCovers(look: nat, i: nat, u: nat)
    requires 1 <= look && i <= u
  {
    forall v: seq<real> :: u < |v| && Fractions(v) ==> Ramp(AheadAll(v, look), look, i) <= v[u]
  }

  /** Of the samples ahead the gain takes account of those within reach, and of no others. */
  lemma CoversExactlyItsReach(look: nat, i: nat, u: nat)
    requires 1 <= look && i <= u <= i + look
    ensures AlwaysCovers(look, i, u) <==> u <= Reach(look, i)
  {
    hide Ramp, AheadAll;
    if u <= Reach(look, i) {
      forall v: seq<real> | u < |v| && Fractions(v) ensures Ramp(AheadAll(v, look), look, i) <= v[u] {
        RampIsAtMostNeeded(v, look, i, u);
      }
    } else {
      PeakBeyondReach(look, i, u);
      assert u < |PeakAt(u)| && Fractions(PeakAt(u));
    }
  }

  /** Nothing but one peak, twice the ceiling, in the last sample. */
  function PeakAt(u: nat): (v: seq<real>)
    ensures |v| == u + 1 && Fractions(v)
  {
    seq(u, _ => 1.0) + [0.5]
  }

  /** A peak beyond reach needs half, and the ramp is higher. */
  lemma PeakBeyondReach(look: nat, i: nat, u: nat)
    requires 1 <= look && i <= u <= i + look && Reach(look, i) < u
    ensures Ramp(AheadAll(PeakAt(u), look), look, i) > PeakAt(u)[u]
  {
    hide WindowMin, Ramp;
    var v, lo := PeakAt(u), WindowStart(look, i);
    var a := AheadAll(v, look);
    forall t | lo <= t <= i ensures a[t] >= 0.5 && (t == lo ==> a[t] == 1.0) {
      var at := WindowMinIsAttained(v, t, WindowEnd(|v|, look, t));
      assert v[at] == if at < u then 1.0 else 0.5;
    }
    MeanIsAbove(a, look, i, 0.5);
  }

  lemma MeanIsAbove(a: seq<real>, look: nat, i: nat, bound: real)
    requires 1 <= look && i < |a| && a[WindowStart(look, i)] > bound
    requires forall t :: WindowStart(look, i) <= t <= i ==> a[t] >= bound
    ensures Ramp(a, look, i) > bound
  {
    var lo := WindowStart(look, i);
    var n := (i + 1 - lo) as real;
    DropFirst(a, lo, i + 1);
    SumIsAtLeast(a, lo + 1, i + 1, bound);
    MulDistribRight((i - lo) as real, 1.0, bound);
    assert SumRange(a, lo, i + 1) > n * bound;
    DivAtMost(SumRange(a, lo, i + 1), n, bound);
    MulComm(n, bound);
  }

  lemma {:induction false} SumIsAtLeast(a: seq<real>, lo: nat, hi: nat, bound: real)
    requires lo <= hi <= |a| && forall t :: lo <= t < hi ==> a[t] >= bound
    ensures SumRange(a, lo, hi) >= (hi - lo) as real * bound
  {
    if lo < hi {
      SumIsAtLeast(a, lo, hi - 1, bound);
      MulDistribRight((hi - 1 - lo) as real, 1.0, bound);
    }
  }

  /** Not only the ramp but the gain: a peak just beyond reach needs a half, and the gain is three quarters. */
  lemma GainAheadOfPeak(look: nat, release: real)
    requires 2 <= look && 0.0 <= release <= 1.0
    ensures var a := AheadAll(PeakAt(look + 1), look);
      Gain(a, look, release, 1) == 0.75 > PeakAt(look + 1)[look + 1]
  {
    hide WindowMin;
    var v := PeakAt(look + 1);
    var a := AheadAll(v, look);
    var first := WindowMinIsAttained(v, 0, WindowEnd(|v|, look, 0));
    var second := WindowMinIsAttained(v, 1, WindowEnd(|v|, look, 1));
    WindowMinIsLeast(v, 1, WindowEnd(|v|, look, 1), look + 1);
    hide AheadAll;
    assert a[0] == 1.0 && a[1] == 0.5;
    GainAfterTwo(a, look, release);
  }

  lemma GainAfterTwo(a: seq<real>, look: nat, release: real)
    requires 2 <= look && |a| >= 2 && a[0] == 1.0 && a[1] == 0.5
    ensures Gain(a, look, release, 1) == 0.75
  {
    assert SumRange(a, 0, 0) == 0.0;
    assert SumRange(a, 0, 1) == SumRange(a, 0, 0) + a[0];
    assert SumRange(a, 0, 2) == SumRange(a, 0, 1) + a[1];
    hide SumRange;
    assert Ramp(a, look, 0) == 1.0 && Ramp(a, look, 1) == 0.75;
    hide Ramp;
    assert Product(release, 0.0) == 0.0;
    assert Gain(a, look, release, 0) == 1.0;
  }

  lemma {:induction false} SumIsAtMost(a: seq<real>, lo: nat, hi: nat, bound: real)
    requires lo <= hi <= |a| && forall t :: lo <= t < hi ==> a[t] <= bound
    ensures SumRange(a, lo, hi) <= (hi - lo) as real * bound
  {
    if lo < hi {
      SumIsAtMost(a, lo, hi - 1, bound);
      MulDistribRight((hi - 1 - lo) as real, 1.0, bound);
    }
  }

  lemma {:induction false} SumIsPositive(a: seq<real>, lo: nat, hi: nat)
    requires lo < hi <= |a| && forall t :: lo <= t < hi ==> 0.0 < a[t]
    ensures 0.0 < SumRange(a, lo, hi)
  {
    if lo + 1 < hi { SumIsPositive(a, lo, hi - 1); }
  }

  ghost predicate Fractions(v: seq<real>) {
    forall i :: 0 <= i < |v| ==> 0.0 < v[i] <= 1.0
  }

  lemma RampIsPositive(v: seq<real>, look: nat, i: nat)
    requires 1 <= look && i < |v| && Fractions(v)
    ensures 0.0 < Ramp(AheadAll(v, look), look, i)
  {
    var a, lo := AheadAll(v, look), WindowStart(look, i);
    forall t | 0 <= t < |a| ensures 0.0 < a[t] {
      var at := WindowMinIsAttained(v, t, WindowEnd(|v|, look, t));
    }
    SumIsPositive(a, lo, i + 1);
    var sum, n := SumRange(a, lo, i + 1), (i + 1 - lo) as real;
    DivMul(sum, n);
    if sum / n <= 0.0 { MulMonotone(n, sum / n, 0.0); }
  }

  lemma RecoverIsFraction(gain: real, release: real)
    requires 0.0 < gain <= 1.0 && 0.0 <= release <= 1.0
    ensures gain <= Recover(gain, release) <= 1.0
  {
    MulPart(1.0 - gain, release);
  }

  /** The gain stays in (0, 1] and never exceeds what its own sample needs, nor any within reach. */
  lemma {:induction false} GainIsSafe(v: seq<real>, look: nat, release: real, i: nat)
    requires 1 <= look && i < |v| && Fractions(v) && 0.0 <= release <= 1.0
    ensures 0.0 < Gain(AheadAll(v, look), look, release, i) <= v[i] <= 1.0
    ensures forall u :: i <= u < |v| && u <= Reach(look, i) ==> Gain(AheadAll(v, look), look, release, i) <= v[u]
  {
    hide Recover, Ramp, AheadAll;
    forall u: nat | i <= u < |v| && u <= Reach(look, i) ensures Ramp(AheadAll(v, look), look, i) <= v[u] {
      RampIsAtMostNeeded(v, look, i, u);
    }
    RampIsPositive(v, look, i);
    if i > 0 {
      GainIsSafe(v, look, release, i - 1);
      RecoverIsFraction(Gain(AheadAll(v, look), look, release, i - 1), release);
    } else {
      RecoverIsFraction(1.0, release);
    }
  }

  /** Gains that keep under the ramp, and that come back to unity no faster than the release allows. */
  ghost predicate KeepsUnder(h: seq<real>, a: seq<real>, look: nat, release: real)
    requires 1 <= look && |h| == |a|
  {
    forall i :: 0 <= i < |h| ==>
      && h[i] <= Ramp(a, look, i)
      && 1.0 - h[i] >= Product(1.0 - release, 1.0 - GainBefore(h, i))
  }

  /** The gain before sample i: unity before the first. */
  function GainBefore(h: seq<real>, i: nat): real
    requires i <= |h|
  {
    if i == 0 then 1.0 else h[i - 1]
  }

  function GainAll(a: seq<real>, look: nat, release: real): (g: seq<real>)
    requires 1 <= look
    ensures |g| == |a|
  {
    seq(|a|, i requires 0 <= i < |a| => Gain(a, look, release, i))
  }

  /** The limiter's gains are the greatest that do: it takes down no more, and recovers no slower, than it must. */
  lemma GainIsGreatest(a: seq<real>, look: nat, release: real, h: seq<real>)
    requires 1 <= look && 0.0 <= release <= 1.0 && |h| == |a| && KeepsUnder(h, a, look, release)
    ensures KeepsUnder(GainAll(a, look, release), a, look, release)
    ensures forall i :: 0 <= i < |a| ==> h[i] <= Gain(a, look, release, i)
  {
    hide Ramp, Product, Recover, GainBefore, Gain;
    var g := GainAll(a, look, release);
    forall i | 0 <= i < |a|
      ensures g[i] <= Ramp(a, look, i)
      ensures 1.0 - g[i] >= Product(1.0 - release, 1.0 - GainBefore(g, i))
    {
      GainKeepsUnder(a, look, release, i);
    }
    forall i | 0 <= i < |a| ensures h[i] <= Gain(a, look, release, i) { GainIsAtLeast(a, look, release, h, i); }
  }

  lemma GainKeepsUnder(a: seq<real>, look: nat, release: real, i: nat)
    requires 1 <= look && i < |a|
    ensures var g := GainAll(a, look, release);
      && g[i] <= Ramp(a, look, i) && 1.0 - g[i] >= Product(1.0 - release, 1.0 - GainBefore(g, i))
  {
    hide Ramp, Product, Recover;
    RecoveryIs(GainBefore(GainAll(a, look, release), i), release);
  }

  lemma {:induction false} GainIsAtLeast(a: seq<real>, look: nat, release: real, h: seq<real>, i: nat)
    requires 1 <= look && 0.0 <= release <= 1.0 && |h| == |a| && KeepsUnder(h, a, look, release) && i < |a|
    ensures h[i] <= Gain(a, look, release, i)
  {
    hide Ramp, Product, Recover;
    var before, mine := GainBefore(GainAll(a, look, release), i), GainBefore(h, i);
    if i > 0 { GainIsAtLeast(a, look, release, h, i - 1); }
    RecoveryIs(before, release);
    ProductIsMonotone(1.0 - release, 1.0 - before, 1.0 - mine);
    assert h[i] <= Ramp(a, look, i) && 1.0 - h[i] >= Product(1.0 - release, 1.0 - mine);
    assert Gain(a, look, release, i) == Min(Ramp(a, look, i), Recover(before, release));
  }

  /** What is missing to unity shrinks by the release. */
  lemma RecoveryIs(gain: real, release: real)
    ensures 1.0 - Recover(gain, release) == Product(1.0 - release, 1.0 - gain)
  {
    hide Product;
    ProductOfRest(release, 1.0 - gain);
    assert Recover(gain, release) == gain + Product(release, 1.0 - gain);
  }

  lemma ProductOfRest(release: real, x: real)
    ensures Product(1.0 - release, x) == x - Product(release, x)
  {
  }

  lemma NeededIsFraction(s: seq<real>, ceiling: Ceiling)
    ensures Fractions(NeededAll(s, ceiling))
  {
    forall i | 0 <= i < |s| ensures 0.0 < Needed(s[i], ceiling) <= 1.0 {
      NeededBounds(s[i], ceiling);
    }
  }

  lemma NeededBounds(x: real, ceiling: Ceiling)
    ensures 0.0 < Needed(x, ceiling) <= 1.0
    ensures Abs(x) <= ceiling ==> Needed(x, ceiling) == 1.0
    ensures Abs(x) > ceiling ==> Product(Abs(x), Needed(x, ceiling)) == ceiling
  {
    if Abs(x) > ceiling {
      var m := Abs(x);
      DivMul(ceiling, m);
      DivAtMost(ceiling, m, 1.0);
      if ceiling / m <= 0.0 { MulMonotone(m, ceiling / m, 0.0); }
    }
  }

  lemma ScaledSample(x: real, gain: real, ceiling: Ceiling)
    requires 0.0 < gain <= Needed(x, ceiling)
    ensures Abs(Product(x, gain)) <= ceiling
    ensures Abs(Product(x, gain)) <= Abs(x)
    ensures Sign(Product(x, gain)) == Sign(x)
  {
    hide Product, Needed;
    NeededBounds(x, ceiling);
    var m := Abs(x);
    ProductOfAbs(x, gain);
    ProductIsMonotone(m, gain, Needed(x, ceiling));
    ProductIsMonotone(m, Needed(x, ceiling), 1.0);
  }

  lemma ProductIsMonotone(m: real, g: real, h: real)
    requires 0.0 <= m && g <= h
    ensures Product(m, g) <= Product(m, h)
    ensures Product(m, 1.0) == m
  {
    MulMonotone(m, g, h);
  }

  lemma ProductOfAbs(x: real, gain: real)
    requires 0.0 < gain
    ensures Abs(Product(x, gain)) == Product(Abs(x), gain)
    ensures Sign(Product(x, gain)) == Sign(x)
  {
    if x > 0.0 { MulPos(x, gain); }
    if x < 0.0 { MulPos(-x, gain); }
    assert -x * gain == -(x * gain);
  }

  /** No sample exceeds the ceiling, none is amplified, and none changes sign. */
  lemma NothingClips(s: seq<real>, look: nat, release: real, ceiling: Ceiling, i: nat)
    requires 1 <= look && 0.0 <= release <= 1.0 && i < |s|
    ensures 0.0 < LimiterGain(s, look, release, ceiling, i) <= 1.0
    ensures Abs(Limited(s, look, release, ceiling)[i]) <= ceiling
    ensures Abs(Limited(s, look, release, ceiling)[i]) <= Abs(s[i])
    ensures Sign(Limited(s, look, release, ceiling)[i]) == Sign(s[i])
  {
    hide Gain, AheadAll, Needed, Product;
    NeededIsFraction(s, ceiling);
    GainIsSafe(NeededAll(s, ceiling), look, release, i);
    ScaledSample(s[i], LimiterGain(s, look, release, ceiling, i), ceiling);
  }

  // ----- a clip with no peak passes untouched -----

  lemma {:induction false} UnityGain(a: seq<real>, look: nat, release: real, i: nat)
    requires 1 <= look && i < |a| && forall t :: 0 <= t < |a| ==> a[t] == 1.0
    ensures Gain(a, look, release, i) == 1.0
  {
    UnityRamp(a, look, i);
    if i > 0 { UnityGain(a, look, release, i - 1); }
    assert Product(release, 0.0) == 0.0;
  }

  lemma UnityRamp(a: seq<real>, look: nat, i: nat)
    requires 1 <= look && i < |a| && forall t :: 0 <= t < |a| ==> a[t] == 1.0
    ensures Ramp(a, look, i) == 1.0
  {
    UnitySum(a, WindowStart(look, i), i + 1);
    MulDiv(1.0, L.MinInt(i + 1, look) as real);
  }

  lemma {:induction false} UnitySum(a: seq<real>, lo: nat, hi: nat)
    requires lo <= hi <= |a| && forall t :: 0 <= t < |a| ==> a[t] == 1.0
    ensures SumRange(a, lo, hi) == (hi - lo) as real
  {
    if lo < hi { UnitySum(a, lo, hi - 1); }
  }

  lemma NoPeakNoChange(s: seq<real>, look: nat, release: real, ceiling: Ceiling)
    requires 1 <= look && forall i :: 0 <= i < |s| ==> Needed(s[i], ceiling) == 1.0
    ensures Limited(s, look, release, ceiling) == s
  {
    hide Gain, Needed, WindowMin;
    var v := NeededAll(s, ceiling);
    var a := AheadAll(v, look);
    forall t | 0 <= t < |a| ensures a[t] == 1.0 {
      var at := WindowMinIsAttained(v, t, WindowEnd(|v|, look, t));
    }
    forall i | 0 <= i < |s| ensures Limited(s, look, release, ceiling)[i] == s[i] {
      UnityGain(a, look, release, i);
    }
  }

  // ----- the two loops -----

  method NeededGains(samples: array<real>, ceiling: Ceiling) returns (needed: array<real>, anyOver: bool)
    ensures fresh(needed) && needed[..] == NeededAll(samples[..], ceiling)
    ensures !anyOver <==> forall i :: 0 <= i < samples.Length ==> Needed(samples[i], ceiling) == 1.0
  {
    hide Needed;
    ghost var s := samples[..];
    needed := new real[samples.Length];
    anyOver := false;
    for i := 0 to samples.Length
      invariant samples[..] == s
      invariant forall j :: 0 <= j < i ==> needed[j] == Needed(s[j], ceiling)
      invariant !anyOver <==> forall j :: 0 <= j < i ==> Needed(s[j], ceiling) == 1.0
    {
      needed[i] := Needed(samples[i], ceiling);
      NeededBounds(samples[i], ceiling);
      if needed[i] < 1.0 { anyOver := true; }
    }
  }

  method ApplyGain(samples: array<real>, ahead: array<real>, look: nat, release: real, ceiling: Ceiling)
    returns (out: array<real>)
    requires 1 <= look && 0.0 <= release <= 1.0
    requires ahead[..] == AheadAll(NeededAll(samples[..], ceiling), look)
    ensures fresh(out) && out[..] == Limited(samples[..], look, release, ceiling)
  {
    hide AheadAll, Product, Recover, Limited;
    ghost var s, a := samples[..], ahead[..];
    out := new real[samples.Length];
    var windowSum, gain := 0.0, 1.0;
    for i := 0 to samples.Length
      invariant samples[..] == s && ahead[..] == a
      invariant windowSum == SumRange(a, if i < look then 0 else i - look, i)
      invariant gain == if i == 0 then 1.0 else Gain(a, look, release, i - 1)
      invariant forall j :: 0 <= j < i ==> out[j] == Limited(s, look, release, ceiling)[j]
    {
      windowSum := windowSum + ahead[i];
      if i >= look {
        DropFirst(a, i - look, i + 1);
        windowSum := windowSum - ahead[i - look];
      }
      var ramp := windowSum / L.MinInt(i + 1, look) as real;
      assert ramp == Ramp(a, look, i);
      gain := Min(ramp, Recover(gain, release));
      NothingClips(s, look, release, ceiling, i);
      LimitedAt(s, look, release, ceiling, i);
      var top: real := ceiling;
      out[i] := Clamp(Product(samples[i], gain), -top, top);
    }
  }

  lemma LimitedAt(s: seq<real>, look: nat, release: real, ceiling: Ceiling, i: nat)
    requires 1 <= look && i < |s|
    ensures Limited(s, look, release, ceiling)[i] == Product(s[i], LimiterGain(s, look, release, ceiling, i))
  {
  }

  /** The final clamp is proved to change nothing: the output is the sample times its gain. */
  method LimitPeaks(samples: array<real>, rate: real, release: real, ceiling: Ceiling) returns (out: array<real>)
    requires 0.0 <= release <= 1.0
    ensures out == samples || fresh(out)
    ensures out[..] == Limited(old(samples[..]), Look(rate), release, ceiling)
  {
    hide Limited, Needed;
    var look := Look(rate);
    var needed, anyOver := NeededGains(samples, ceiling);
    if !anyOver {
      NoPeakNoChange(samples[..], look, release, ceiling);
      return samples;
    }
    var ahead := SlidingMinimum(needed, look);
    out := ApplyGain(samples, ahead, look, release, ceiling);
  }
}
