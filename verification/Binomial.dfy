/** Binomial coefficients, the fair-coin distribution function, and the patterns it counts. */
module Binomial {
  import opened RealArith
  import opened Sorting

  function Choose(n: nat, k: int): nat {
    if k < 0 then 0
    else if k == 0 then 1
    else if n == 0 then 0
    else Choose(n - 1, k - 1) + Choose(n - 1, k)
  }

  function Pow2(n: nat): (p: nat)
    ensures p > 0
  {
    if n == 0 then 1 else 2 * Pow2(n - 1)
  }

  /** The sum of C(n, i) over i from 0 to k. */
  function SumChoose(n: nat, k: int): nat {
    if k < 0 then 0 else SumChoose(n, k - 1) + Choose(n, k)
  }

  lemma {:induction false} NoneAbove(n: nat, k: int)
    requires n < k
    ensures Choose(n, k) == 0
  {
    if n > 0 {
      NoneAbove(n - 1, k - 1);
      NoneAbove(n - 1, k);
    }
  }

  /** The multiplicative recurrence between neighbouring coefficients. */
  lemma {:induction false} Neighbours(n: nat, k: nat)
    requires 1 <= k
    ensures k * Choose(n, k) == (n - k + 1) * Choose(n, k - 1)
  {
    if n == 0 {
      NoneAbove(0, k);
      if k > 1 { NoneAbove(0, k - 1); }
    } else {
      Neighbours(n - 1, k);
      if k == 1 {
        assert Choose(n - 1, 0) == 1;
      } else {
        Neighbours(n - 1, k - 1);
        NeighboursArithmetic(n, k, Choose(n - 1, k), Choose(n - 1, k - 1), Choose(n - 1, k - 2));
      }
    }
  }

  lemma NeighboursArithmetic(n: int, k: int, a: int, b: int, c: int)
    requires k * a == (n - k) * b
    requires (k - 1) * b == (n - k + 1) * c
    ensures k * (b + a) == (n - k + 1) * (c + b)
  {
  }

  lemma {:induction false} Symmetric(n: nat, k: nat)
    requires k <= n
    ensures Choose(n, k) == Choose(n, n - k)
  {
    if n > 0 {
      if k == 0 {
        NoneAbove(n - 1, n);
        Symmetric(n - 1, 0);
      } else if k == n {
        NoneAbove(n - 1, n);
        Symmetric(n - 1, n - 1);
      } else {
        Symmetric(n - 1, k - 1);
        Symmetric(n - 1, k);
      }
    }
  }

  lemma {:induction false} SumPascal(n: nat, k: int)
    requires 1 <= n
    ensures SumChoose(n, k) == SumChoose(n - 1, k) + SumChoose(n - 1, k - 1)
  {
    if k >= 0 {
      SumPascal(n, k - 1);
    }
  }

  lemma {:induction false} SumIsPow2(n: nat, k: nat)
    requires n <= k
    ensures SumChoose(n, k) == Pow2(n)
  {
    if n == 0 {
      if k > 0 {
        SumIsPow2(0, k - 1);
        NoneAbove(0, k);
      } else {
        assert SumChoose(0, -1) == 0;
      }
    } else {
      SumPascal(n, k);
      SumIsPow2(n - 1, k);
      SumIsPow2(n - 1, k - 1);
    }
  }

  lemma {:induction false} SumIsMonotone(n: nat, j: int, k: int)
    requires j <= k
    ensures SumChoose(n, j) <= SumChoose(n, k)
    decreases k - j
  {
    if j < k { SumIsMonotone(n, j, k - 1); }
  }

  /** The two tails of the symmetric distribution are equal. */
  lemma {:induction false} TailsBalance(n: nat, k: nat)
    requires 1 <= k <= n
    ensures SumChoose(n, n - k) + SumChoose(n, k - 1) == Pow2(n)
  {
    if k == 1 {
      SumIsPow2(n, n);
      Symmetric(n, 0);
      assert SumChoose(n, 0) == 1 by { assert SumChoose(n, -1) == 0; }
    } else {
      TailsBalance(n, k - 1);
      Symmetric(n, k - 1);
    }
  }

  /** P(Bin(n, 1/2) <= k), exactly. */
  function Cdf(n: nat, k: int): real {
    SumChoose(n, k) as real / Pow2(n) as real
  }

  lemma CdfIsMonotone(n: nat, j: int, k: int)
    requires j <= k
    ensures Cdf(n, j) <= Cdf(n, k)
  {
    SumIsMonotone(n, j, k);
    DivMonotone(SumChoose(n, j) as real, SumChoose(n, k) as real, Pow2(n) as real);
  }

  lemma CdfIsProbability(n: nat, k: int)
    ensures 0.0 <= Cdf(n, k) <= 1.0
    ensures n <= k ==> Cdf(n, k) == 1.0
    ensures k < 0 ==> Cdf(n, k) == 0.0
  {
    var top := if k < n then n else k;
    SumIsMonotone(n, k, top);
    SumIsPow2(n, top);
    DivAtMost(SumChoose(n, k) as real, Pow2(n) as real, 1.0);
    DivMonotone(0.0, SumChoose(n, k) as real, Pow2(n) as real);
  }

  // ----- the recurrence the code runs -----

  function Halves(n: nat): real {
    if n == 0 then 1.0 else Halves(n - 1) / 2.0
  }

  lemma {:induction false} HalvesArePow2(n: nat)
    ensures Halves(n) == 1.0 / Pow2(n) as real
  {
    if n > 0 {
      HalvesArePow2(n - 1);
      var p := Pow2(n - 1) as real;
      assert Pow2(n) as real == 2.0 * p;
      HalfOfInverse(p);
    }
  }

  lemma HalfOfInverse(p: real)
    requires 0.0 < p
    ensures 1.0 / p / 2.0 == 1.0 / (2.0 * p)
  {
    var q := 1.0 / p / 2.0;
    DivMul(1.0, p);
    assert q * (2.0 * p) == 1.0;
    MulDiv(q, 2.0 * p);
  }

  /** One step of `pmf * (n - i + 1) / i`. */
  lemma MassStep(n: nat, i: nat, mass: real)
    requires 1 <= i <= n
    requires mass == Choose(n, i - 1) as real / Pow2(n) as real
    ensures mass * (n - i + 1) as real / i as real == Choose(n, i) as real / Pow2(n) as real
  {
    hide Choose, Pow2;
    Neighbours(n, i);
    var p, r, a, b := Pow2(n) as real, i as real, Choose(n, i) as real, Choose(n, i - 1) as real;
    assert r * a == (n - i + 1) as real * b by {
      assert r * a == (i * Choose(n, i)) as real;
      assert (n - i + 1) as real * b == ((n - i + 1) * Choose(n, i - 1)) as real;
    }
    MassArithmetic(p, r, a, b, (n - i + 1) as real, mass);
  }

  lemma MassArithmetic(p: real, r: real, a: real, b: real, s: real, mass: real)
    requires 0.0 < p && 0.0 < r && r * a == s * b && mass == b / p
    ensures mass * s / r == a / p
  {
    DivMul(b, p);
    DivMul(a, p);
    MulAssoc(p, mass, s);
    MulComm(b, s);
    MulAssoc(p, a / p, r);
    MulComm(a, r);
    assert p * (mass * s) == p * (a / p * r);
    MulCancel(p, mass * s, a / p * r);
    MulCancel(p, a / p * r, mass * s);
    MulDiv(a / p, r);
  }

  lemma CdfStep(n: nat, k: nat)
    ensures Cdf(n, k) == Cdf(n, k - 1) + Choose(n, k) as real / Pow2(n) as real
  {
    assert SumChoose(n, k) as real == SumChoose(n, k - 1) as real + Choose(n, k) as real;
    DivAdd(SumChoose(n, k - 1) as real, Choose(n, k) as real, Pow2(n) as real);
  }

  /** The loop of `pmf` and `cdf` updates, for a number of trials the source sums exactly. */
  method SumMasses(n: nat, k: nat) returns (cdf: real)
    requires k < n
    ensures cdf == Cdf(n, k)
  {
    var pmf := Halves(n);
    HalvesArePow2(n);
    cdf := pmf;
    assert SumChoose(n, 0) == 1 by { assert SumChoose(n, -1) == 0; }
    for i := 1 to k + 1
      invariant pmf == Choose(n, i - 1) as real / Pow2(n) as real
      invariant cdf == Cdf(n, i - 1)
    {
      MassStep(n, i, pmf);
      CdfStep(n, i);
      pmf := pmf * (n - i + 1) as real / i as real;
      cdf := cdf + pmf;
    }
  }

  // ----- the patterns the distribution counts -----

  /** Which of the observations fall below a point: one boolean each. */
  type Pattern = seq<bool>

  function Trues(p: Pattern): nat {
    if p == [] then 0 else Trues(p[..|p| - 1]) + if p[|p| - 1] then 1 else 0
  }

  function Extend(ps: seq<Pattern>, b: bool): seq<Pattern> {
    if ps == [] then [] else Extend(ps[..|ps| - 1], b) + [ps[|ps| - 1] + [b]]
  }

  /** Every pattern of a given length. */
  function Patterns(n: nat): seq<Pattern> {
    if n == 0 then [[]] else Extend(Patterns(n - 1), false) + Extend(Patterns(n - 1), true)
  }

  lemma {:induction false} CountExtended(ps: seq<Pattern>, b: bool, p: Pattern -> bool, q: Pattern -> bool)
    requires forall x :: p(x + [b]) == q(x)
    ensures Count(Extend(ps, b), p) == Count(ps, q)
  {
    if ps != [] {
      var n := |ps| - 1;
      CountExtended(ps[..n], b, p, q);
      assert Extend(ps, b)[..|Extend(ps, b)| - 1] == Extend(ps[..n], b);
    }
  }

  /** The enumeration is complete and has no repeats: every pattern of the length occurs exactly once. */
  lemma {:induction false} EveryPatternOnce(n: nat, x: Pattern)
    requires |x| == n
    ensures Count(Patterns(n), (y: Pattern) => y == x) == 1
  {
    var same := (y: Pattern) => y == x;
    if n == 0 {
      assert Patterns(0)[..0] == [];
      assert Count(Patterns(0)[..0], same) == 0;
    } else {
      var front, last := x[..n - 1], x[n - 1];
      assert x == front + [last];
      EveryPatternOnce(n - 1, front);
      var isFront := (y: Pattern) => y == front;
      var never := (y: Pattern) => false;
      forall y: Pattern, b: bool ensures same(y + [b]) == (b == last && y == front) {
        if y + [b] == x {
          assert (y + [b])[..|y|] == y;
          assert (y + [b])[|y|] == b;
        }
      }
      CountExtended(Patterns(n - 1), last, same, isFront);
      CountExtended(Patterns(n - 1), !last, same, never);
      CountNever(Patterns(n - 1), never);
      CountOfConcat(Extend(Patterns(n - 1), false), Extend(Patterns(n - 1), true), same);
    }
  }

  lemma {:induction false} CountNever(ps: seq<Pattern>, p: Pattern -> bool)
    requires forall x :: !p(x)
    ensures Count(ps, p) == 0
  {
    if ps != [] { CountNever(ps[..|ps| - 1], p); }
  }

  lemma TruesExtended(y: Pattern, b: bool)
    ensures Trues(y + [b]) == Trues(y) + if b then 1 else 0
  {
    assert (y + [b])[..|y|] == y;
  }

  function AtMost(k: int): Pattern -> bool {
    (y: Pattern) => Trues(y) <= k
  }

  function Between(lo: int, hi: int): Pattern -> bool {
    (y: Pattern) => lo <= Trues(y) <= hi
  }

  lemma OnlyPattern(k: int)
    ensures Count(Patterns(0), AtMost(k)) == SumChoose(0, k)
  {
    assert Patterns(0)[..0] == [];
    assert Count(Patterns(0)[..0], AtMost(k)) == 0;
    if k >= 0 { SumIsPow2(0, k); }
  }

  lemma ExtendedAtMost(ps: seq<Pattern>, b: bool, k: int)
    ensures Count(Extend(ps, b), AtMost(k)) == Count(ps, AtMost(if b then k - 1 else k))
  {
    forall y: Pattern ensures AtMost(k)(y + [b]) == AtMost(if b then k - 1 else k)(y) {
      TruesExtended(y, b);
    }
    CountExtended(ps, b, AtMost(k), AtMost(if b then k - 1 else k));
  }

  lemma {:induction false} PatternsAtMost(n: nat, k: int)
    ensures Count(Patterns(n), AtMost(k)) == SumChoose(n, k)
  {
    hide Count, SumChoose, Trues, Extend, AtMost;
    if n == 0 {
      OnlyPattern(k);
    } else {
      PatternsAtMost(n - 1, k);
      PatternsAtMost(n - 1, k - 1);
      ExtendedAtMost(Patterns(n - 1), false, k);
      ExtendedAtMost(Patterns(n - 1), true, k);
      CountOfConcat(Extend(Patterns(n - 1), false), Extend(Patterns(n - 1), true), AtMost(k));
      SumPascal(n, k);
    }
  }

  /** How many patterns have between k and n - k trues. */
  lemma PatternsBetween(n: nat, k: nat)
    requires 1 <= k && k <= n - k
    ensures Count(Patterns(n), Between(k, n - k)) == Pow2(n) - 2 * SumChoose(n, k - 1)
  {
    hide Count, SumChoose, Trues, Patterns, Pow2;
    CountDifference(Patterns(n), AtMost(k - 1), Between(k, n - k), AtMost(n - k));
    PatternsAtMost(n, k - 1);
    PatternsAtMost(n, n - k);
    TailsBalance(n, k);
  }

  lemma {:induction false} CountDifference(ps: seq<Pattern>, p: Pattern -> bool, q: Pattern -> bool, r: Pattern -> bool)
    requires forall x :: r(x) == (p(x) || q(x)) && !(p(x) && q(x))
    ensures Count(ps, r) == Count(ps, p) + Count(ps, q)
  {
    if ps != [] { CountDifference(ps[..|ps| - 1], p, q, r); }
  }
}
