/** Whether twelve passes are enough to bring every reviewer under the share. */
module CapSettling {
  import opened RealArith
  import opened ReviewerWeights

  /** Every reviewer is under the share. */
  ghost predicate Held(rows: seq<Row>, share: real) { forall r :: WithinShare(rows, share, r) }

  ghost predicate Positive(rows: seq<Row>) { forall i :: 0 <= i < |rows| ==> rows[i].weight > 0.0 }

  /** There are enough reviewers for all of them to be under the share. */
  ghost predicate Feasible(rows: seq<Row>, share: real) { Positive(rows) && share * |Reviewers(rows)| as real >= 1.0 }

  /** The capping does what it is for, on all rows on which it can be done at all. */
  ghost predicate AlwaysHolds(share: real) { forall rows :: Feasible(rows, share) ==> Held(Capped(rows, share), share) }

  // ----- at half the weight or more one pass is enough -----

  /** Two reviewers cannot both be over half. */
  lemma OneIsOver(rows: seq<Row>, share: real, r: ReviewerId, q: ReviewerId)
    requires NonNegative(rows) && 0.0 <= share && 2.0 * share + WEIGHT_SLACK >= 1.0
    requires r != q && !WithinShare(rows, share, r)
    ensures Of(rows, q) + Of(rows, r) <= Total(rows) && WithinShare(rows, share, q)
  {
    hide Of, Total;
    TwoAreWithinTotal(rows, r, q);
    var a, t := share + WEIGHT_SLACK, Total(rows);
    OfIsNonNegative(rows, r);
    if Of(rows, q) > a * t {
      MulMonotone(t, 1.0, 2.0 * a);
      MulDistribRight(a, a, t);
      MulComm(t, 2.0 * a);
    }
  }

  lemma {:induction false} TwoAreWithinTotal(rows: seq<Row>, r: ReviewerId, q: ReviewerId)
    requires NonNegative(rows) && r != q
    ensures Of(rows, q) + Of(rows, r) <= Total(rows)
  {
    if rows != [] { TwoAreWithinTotal(rows[..|rows| - 1], r, q); }
  }

  /** The total once a part of it is scaled. */
  function Without(total: real, own: real, factor: real): real { total - own + own * factor }

  /** Scaling one reviewer alone. */
  lemma {:induction false} TotalWithoutOne(rows: seq<Row>, f: ReviewerId -> real, r: ReviewerId)
    requires forall q :: q != r ==> f(q) == 1.0
    ensures Total(Scaled(rows, f)) == Without(Total(rows), Of(rows, r), f(r))
  {
    if rows != [] {
      var n := |rows| - 1;
      TotalWithoutOne(rows[..n], f, r);
      LastScaled(rows, f);
      TotalLast(rows);
      OfLast(rows, r);
      hide Total, Of, Scaled, Times, Without;
      OneStep(Total(rows[..n]), Of(rows[..n], r), rows[n], r, f(rows[n].reviewer), f(r));
    }
  }

  lemma LastScaled(rows: seq<Row>, f: ReviewerId -> real)
    requires rows != []
    ensures var n := |rows| - 1;
      Total(Scaled(rows, f)) == Total(Scaled(rows[..n], f)) + Times(rows[n], f(rows[n].reviewer)).weight
  {
    hide Total, Times;
    ScaledFront(rows, f);
    TotalLast(Scaled(rows, f));
  }

  /** One more row, scaled if it is the reviewer's. */
  lemma OneStep(total: real, own: real, row: Row, r: ReviewerId, factor: real, ownFactor: real)
    requires factor == if row.reviewer == r then ownFactor else 1.0
    ensures var more := if row.reviewer == r then row.weight else 0.0;
      Without(total, own, ownFactor) + Times(row, factor).weight == Without(total + row.weight, own + more, ownFactor)
  {
    MulDistribRight(own, row.weight, ownFactor);
  }

  lemma TotalLast(rows: seq<Row>)
    requires rows != []
    ensures Total(rows) == Total(rows[..|rows| - 1]) + rows[|rows| - 1].weight
  {
  }

  /** The one reviewer who is over comes down to exactly the share, and the others stay. */
  lemma OneComesDown(rows: seq<Row>, share: real, r: ReviewerId)
    requires NonNegative(rows) && Total(rows) > 0.0 && 0.0 <= share < 1.0 && 2.0 * share + WEIGHT_SLACK >= 1.0
    requires !WithinShare(rows, share, r)
    ensures var after, rest := CapPass(rows, share), Total(rows) - Of(rows, r);
      && Total(after) == rest + Target(rest, share) && Of(after, r) == Target(rest, share)
      && forall q :: q != r ==> Of(after, q) == Of(rows, q)
  {
    hide Of, Total, CapPass, OverShare, ScaleOf;
    forall q | q != r ensures !OverShare(Of(rows, q), Total(rows), share) {
      OneIsOver(rows, share, r, q);
      OverShareIff(rows, share, q);
    }
    OverShareIff(rows, share, r);
    PassOf(rows, share, r);
    forall q | q != r ensures Of(CapPass(rows, share), q) == Of(rows, q) { PassOf(rows, share, q); }
    TotalComesDown(rows, share, r);
  }

  lemma TotalComesDown(rows: seq<Row>, share: real, r: ReviewerId)
    requires Total(rows) > 0.0 && 0.0 <= share < 1.0
    requires forall q :: q != r ==> !OverShare(Of(rows, q), Total(rows), share)
    ensures Total(CapPass(rows, share)) == Total(rows) - Of(rows, r) + Of(CapPass(rows, share), r)
  {
    hide Of, Total, OverShare;
    var f := (q: ReviewerId) => ScaleOf(rows, share, q);
    forall q | q != r ensures f(q) == 1.0 {}
    TotalWithoutOne(rows, f, r);
    assert CapPass(rows, share) == Scaled(rows, f);
    PassIsProduct(rows, share, r);
  }

  lemma OnePassIsEnough(rows: seq<Row>, share: real)
    requires NonNegative(rows) && 0.0 <= share < 1.0 && 2.0 * share + WEIGHT_SLACK >= 1.0
    ensures Held(CapPass(rows, share), share)
  {
    hide Of, Total, ScaleOf;
    if Total(rows) <= 0.0 {
      WeightlessIsHeld(rows, share);
    } else if r :| !WithinShare(rows, share, r) {
      var after, rest := CapPass(rows, share), Total(rows) - Of(rows, r);
      OneComesDown(rows, share, r);
      OfIsNonNegative(rows, r);
      forall q ensures WithinShare(after, share, q) {
        if q == r { AtTheShare(rest, share); } else {
          OneIsOver(rows, share, r, q);
          OfIsNonNegative(rows, q);
          BesideTheShare(Of(rows, q), rest, share);
        }
      }
    } else {
      UnchangedIffWithin(rows, share);
    }
  }

  lemma WeightlessIsHeld(rows: seq<Row>, share: real)
    requires NonNegative(rows) && share < 1.0 && Total(rows) <= 0.0
    ensures Held(CapPass(rows, share), share)
  {
    hide Of, Total;
    forall r ensures WithinShare(rows, share, r) { OfIsNonNegative(rows, r); }
  }

  lemma TargetIsNonNegative(rest: real, share: real)
    requires 0.0 <= share < 1.0 && rest >= 0.0
    ensures Target(rest, share) >= 0.0
  {
    DivMonotone(0.0, share, 1.0 - share);
    MulSign(share / (1.0 - share), rest);
  }

  /** Of the total with the target in it, the target is the share and the rest is the rest. */
  lemma TargetIsTheShare(rest: real, share: real)
    requires share < 1.0
    ensures Target(rest, share) == share * (rest + Target(rest, share))
    ensures rest == (1.0 - share) * (rest + Target(rest, share))
  {
    TargetEquation(rest, share);
    hide Target;
    var t := Target(rest, share);
    MulDistrib(1.0 - share, rest, t);
    MulDistrib(share, rest, t);
    MulDistribRight(1.0, -share, rest);
    MulDistribRight(1.0, -share, t);
  }

  lemma AtTheShare(rest: real, share: real)
    requires 0.0 <= share < 1.0 && rest >= 0.0
    ensures Target(rest, share) <= (share + WEIGHT_SLACK) * (rest + Target(rest, share))
  {
    TargetIsNonNegative(rest, share);
    TargetIsTheShare(rest, share);
    hide Target;
    MulSign(WEIGHT_SLACK, rest + Target(rest, share));
    MulDistribRight(share, WEIGHT_SLACK, rest + Target(rest, share));
  }

  lemma BesideTheShare(sum: real, rest: real, share: real)
    requires 0.0 <= share < 1.0 && 0.0 <= sum <= rest && 2.0 * share + WEIGHT_SLACK >= 1.0
    ensures sum <= (share + WEIGHT_SLACK) * (rest + Target(rest, share))
  {
    TargetIsNonNegative(rest, share);
    TargetIsTheShare(rest, share);
    hide Target;
    var whole := rest + Target(rest, share);
    MulMonotone(whole, 1.0 - share, share + WEIGHT_SLACK);
    MulComm(whole, 1.0 - share);
    MulComm(whole, share + WEIGHT_SLACK);
  }

  // ----- below half they are not -----

  /** Two loud reviewers, and small ones. */
  function Loud(x: real, y: real, small: seq<Row>): seq<Row> { [Row(0.0, x, 0), Row(0.0, y, 1)] + small }

  ghost predicate Others(small: seq<Row>) {
    forall i :: 0 <= i < |small| ==> small[i].reviewer >= 2 && small[i].weight >= 0.0
  }

  /** One pass, for a reviewer with this sum beside this much weight of others. */
  function NextSum(sum: real, others: real, share: real): real
    requires share < 1.0 && sum + others > 0.0
  {
    if OverShare(sum, sum + others, share) then Target(others, share) else sum
  }

  lemma {:induction false} LoudSums(x: real, y: real, small: seq<Row>, r: ReviewerId)
    requires Others(small)
    ensures Total(Loud(x, y, small)) == x + y + Total(small)
    ensures Of(Loud(x, y, small), r) == if r == 0 then x else if r == 1 then y else Of(small, r)
    ensures r < 2 ==> Of(small, r) == 0.0
  {
    var rows := Loud(x, y, small);
    if small == [] {
      assert rows[..1] == [Row(0.0, x, 0)] && rows[..1][..0] == [];
      assert Total(rows[..1]) == x && Of(rows[..1], r) == if r == 0 then x else 0.0;
    } else {
      LoudSums(x, y, small[..|small| - 1], r);
      assert rows[..|rows| - 1] == Loud(x, y, small[..|small| - 1]);
    }
  }

  lemma PassOnRow(rows: seq<Row>, share: real, i: nat)
    requires share < 1.0 && Total(rows) > 0.0 && i < |rows|
    ensures CapPass(rows, share)[i] == Times(rows[i], ScaleOf(rows, share, rows[i].reviewer))
  {
    hide ScaleOf, Total;
    var f := (r: ReviewerId) => ScaleOf(rows, share, r);
    assert CapPass(rows, share) == Scaled(rows, f);
  }

  /** A pass over two loud reviewers beside small ones. */
  lemma PassOnLoud(x: real, y: real, small: seq<Row>, share: real)
    requires Others(small) && x > 0.0 && y > 0.0 && 0.0 < share < 1.0
    requires 0.0 <= Total(small) <= share * (x + y + Total(small))
    ensures var n := Total(small);
      CapPass(Loud(x, y, small), share) == Loud(NextSum(x, y + n, share), NextSum(y, x + n, share), small)
  {
    hide Of, Total, CapPass, NextSum, ScaleOf, Times;
    var rows, n := Loud(x, y, small), Total(small);
    var after := Loud(NextSum(x, y + n, share), NextSum(y, x + n, share), small);
    LoudSums(x, y, small, 0);
    assert Total(rows) == x + (y + n) == y + (x + n);
    forall i | 0 <= i < |rows| ensures CapPass(rows, share)[i] == after[i] {
      PassOnRow(rows, share, i);
      if i == 0 {
        LoudRow(x, y, small, share);
      } else if i == 1 {
        LoudRow(x, y, small, share);
      } else {
        assert rows[i] == small[i - 2] == after[i];
        SmallStays(x, y, small, share, rows[i].reviewer);
        TimesOne(rows[i]);
      }
    }
  }

  lemma TimesOne(row: Row)
    ensures Times(row, 1.0) == row
  {
  }

  lemma LoudRow(x: real, y: real, small: seq<Row>, share: real)
    requires Others(small) && x > 0.0 && y > 0.0 && 0.0 < share < 1.0 && Total(small) >= 0.0
    ensures Total(Loud(x, y, small)) > 0.0
    ensures var rows, n := Loud(x, y, small), Total(small);
      && Times(Row(0.0, x, 0), ScaleOf(rows, share, 0)) == Row(0.0, NextSum(x, y + n, share), 0)
      && Times(Row(0.0, y, 1), ScaleOf(rows, share, 1)) == Row(0.0, NextSum(y, x + n, share), 1)
  {
    hide Of, Total, OverShare, Target;
    var rows, n := Loud(x, y, small), Total(small);
    LoudSums(x, y, small, 0);
    LoudSums(x, y, small, 1);
    assert Total(rows) == x + (y + n) == y + (x + n);
    LoudScale(x, y + n, share);
    LoudScale(y, x + n, share);
  }

  lemma LoudScale(sum: real, others: real, share: real)
    requires share < 1.0 && sum > 0.0 && others >= 0.0
    ensures NextSum(sum, others, share) ==
            sum * if OverShare(sum, sum + others, share) then Target(others, share) / sum else 1.0
  {
    DivMul(Target(others, share), sum);
  }

  lemma SmallStays(x: real, y: real, small: seq<Row>, share: real, r: ReviewerId)
    requires Others(small) && x > 0.0 && y > 0.0 && 0.0 < share < 1.0 && r >= 2
    requires 0.0 <= Total(small) <= share * (x + y + Total(small))
    ensures Total(Loud(x, y, small)) > 0.0 && ScaleOf(Loud(x, y, small), share, r) == 1.0
  {
    hide Of, Total;
    var rows := Loud(x, y, small);
    LoudSums(x, y, small, r);
    OfIsNonNegative(small, r);
    OverShareIff(rows, share, r);
    MulSign(WEIGHT_SLACK, Total(rows));
    MulDistribRight(share, WEIGHT_SLACK, Total(rows));
  }

  /** One of the two loud reviewers is over the share. */
  predicate OneOver(x: real, y: real, n: real, share: real) {
    || x > (share + WEIGHT_SLACK) * (x + y + n)
    || y > (share + WEIGHT_SLACK) * (x + y + n)
  }

  /** How little weight the small ones must have, as a part of the total, for one of the loud ones to be over again. */
  function Margin(share: real): real {
    if 2.0 * share + 2.0 * WEIGHT_SLACK < 1.0 then 1.0 - 2.0 * share - 2.0 * WEIGHT_SLACK
    else 1.0 - 2.0 * share - WEIGHT_SLACK
  }

  /** Beside so little weight, the larger of the two is over. */
  lemma LargerIsOver(x: real, y: real, n: real, share: real)
    requires 2.0 * share + 2.0 * WEIGHT_SLACK < 1.0 && x > 0.0 && y > 0.0 && n >= 0.0
    requires n < Margin(share) * (x + y + n)
    ensures OneOver(x, y, n, share)
  {
    var a, t := share + WEIGHT_SLACK, x + y + n;
    MulDistribRight(1.0, -(a + a), t);
    MulDistribRight(a, a, t);
    assert -(a + a) * t == -((a + a) * t);
    assert Margin(share) == 1.0 + -(a + a);
  }

  /** When one comes down to the share, the other is what remains, and is over. */
  lemma OtherIsOver(x: real, y: real, n: real, share: real)
    requires 0.0 < share && 2.0 * share + WEIGHT_SLACK < 1.0 && x == Target(y + n, share)
    requires n < Margin(share) * (x + y + n) && x + y + n > 0.0
    ensures y > (share + WEIGHT_SLACK) * (x + y + n)
  {
    hide Target;
    var a, t := share + WEIGHT_SLACK, x + y + n;
    TargetIsTheShare(y + n, share);
    assert y + n + x == t;
    MulMonotone(t, Margin(share), 1.0 - share - a);
    MulComm(t, Margin(share));
    MulComm(t, 1.0 - share - a);
    MulDistribRight(1.0 - share, -a, t);
    assert -a * t == -(a * t);
    assert 1.0 - share - a == 1.0 - share + -a;
  }

  lemma BothAreNotOver(x: real, y: real, n: real, share: real)
    requires 2.0 * share + 2.0 * WEIGHT_SLACK >= 1.0 && x > 0.0 && y > 0.0 && n >= 0.0
    requires x > (share + WEIGHT_SLACK) * (x + y + n)
    ensures y <= (share + WEIGHT_SLACK) * (x + y + n)
  {
    var a, t := share + WEIGHT_SLACK, x + y + n;
    if y > a * t {
      MulMonotone(t, 1.0, a + a);
      MulComm(t, a + a);
      MulDistribRight(a, a, t);
    }
  }

  /** So little weight that one of the loud ones is over, as long as this much is left of them. */
  predicate IsLittle(n: real, share: real, kept: real) { 0.0 <= n < Margin(share) * kept && n <= share * kept }

  lemma LittleMeans(n: real, share: real, kept: real)
    requires IsLittle(n, share, kept)
    ensures 0.0 <= n < Margin(share) * kept
  {
  }

  lemma LittleBesideMore(n: real, share: real, kept: real, more: real)
    requires 0.0 < share && 2.0 * share + WEIGHT_SLACK < 1.0 && IsLittle(n, share, kept) && kept <= more
    ensures IsLittle(n, share, more) && 0.0 <= n <= share * more
  {
    MarginIsPositive(share);
    MulMonotone(Margin(share), kept, more);
    MulMonotone(share, kept, more);
  }

  lemma NextIsTarget(sum: real, others: real, share: real)
    requires 0.0 < share < 1.0 && sum > 0.0 && others >= 0.0
    ensures var over := sum > (share + WEIGHT_SLACK) * (sum + others);
      NextSum(sum, others, share) == if over then Target(others, share) else sum
  {
    OverShareMeans(sum, sum + others, share);
  }

  /** After a pass one of the two is over again. */
  lemma OverAgain(x: real, y: real, n: real, share: real)
    requires 0.0 < share && 2.0 * share + WEIGHT_SLACK < 1.0 && x > 0.0 && y > 0.0 && n >= 0.0
    requires OneOver(x, y, n, share)
    requires var u, v := NextSum(x, y + n, share), NextSum(y, x + n, share);
      u > 0.0 && v > 0.0 && IsLittle(n, share, u + v + n)
    ensures OneOver(NextSum(x, y + n, share), NextSum(y, x + n, share), n, share)
  {
    hide Target, Margin, IsLittle, NextSum;
    var u, v := NextSum(x, y + n, share), NextSum(y, x + n, share);
    LittleMeans(n, share, u + v + n);
    assert x + (y + n) == y + (x + n) == x + y + n;
    NextIsTarget(x, y + n, share);
    NextIsTarget(y, x + n, share);
    if 2.0 * share + 2.0 * WEIGHT_SLACK < 1.0 {
      LargerIsOver(u, v, n, share);
    } else if x > (share + WEIGHT_SLACK) * (x + y + n) {
      BothAreNotOver(x, y, n, share);
      OtherIsOver(u, y, n, share);
    } else {
      assert v + u + n == u + v + n;
      OtherIsOver(v, x, n, share);
    }
  }

  /** What a pass leaves at least of the smaller of the two. */
  function Kept(share: real, m: real): real
    requires share < 1.0
  {
    Target(m, share)
  }

  lemma KeptBounds(share: real, m: real)
    requires 0.0 < share && 2.0 * share < 1.0 && m > 0.0
    ensures 0.0 < Kept(share, m) <= m
  {
    DivAtMost(share, 1.0 - share, 1.0);
    DivMul(share, 1.0 - share);
    if share / (1.0 - share) <= 0.0 { MulMonotone(1.0 - share, share / (1.0 - share), 0.0); }
    MulPos(share / (1.0 - share), m);
    MulMonotone(m, share / (1.0 - share), 1.0);
    MulComm(m, share / (1.0 - share));
  }

  lemma NextIsAtLeast(sum: real, others: real, share: real, m: real)
    requires 0.0 < share && 2.0 * share < 1.0 && 0.0 < m <= sum && m <= others
    ensures NextSum(sum, others, share) >= Kept(share, m)
  {
    KeptBounds(share, m);
    TargetIsMonotone(m, others, share);
  }

  /** What any number of passes leaves at least. */
  function KeptAfter(share: real, m: real, passes: nat): real
    requires share < 1.0
    decreases passes
  {
    if passes == 0 then m else KeptAfter(share, Kept(share, m), passes - 1)
  }

  lemma {:induction false} KeptAfterBounds(share: real, m: real, passes: nat)
    requires 0.0 < share && 2.0 * share < 1.0 && m > 0.0
    ensures 0.0 < KeptAfter(share, m, passes) <= m
    decreases passes
  {
    if passes > 0 {
      KeptBounds(share, m);
      KeptAfterBounds(share, Kept(share, m), passes - 1);
    }
  }

  /** One pass of two loud reviewers beside so little. */
  lemma PassStaysOver(x: real, y: real, small: seq<Row>, share: real, m: real)
    requires 0.0 < share && 2.0 * share + WEIGHT_SLACK < 1.0 && Others(small) && 0.0 < m <= x && m <= y
    requires OneOver(x, y, Total(small), share) && IsLittle(Total(small), share, Kept(share, m))
    ensures var n := Total(small);
      var u, v := NextSum(x, y + n, share), NextSum(y, x + n, share);
      && CapPass(Loud(x, y, small), share) == Loud(u, v, small)
      && 0.0 < Kept(share, m) <= u && Kept(share, m) <= v && OneOver(u, v, n, share)
  {
    hide Total, OneOver, Loud, NextSum, Kept, Margin, CapPass, IsLittle;
    var n := Total(small);
    KeptBounds(share, m);
    LittleBesideMore(n, share, Kept(share, m), Kept(share, m));
    var u, v := NextSum(x, y + n, share), NextSum(y, x + n, share);
    NextIsAtLeast(x, y + n, share, m);
    NextIsAtLeast(y, x + n, share, m);
    LittleBesideMore(n, share, Kept(share, m), x + y + n);
    LittleBesideMore(n, share, Kept(share, m), u + v + n);
    PassOnLoud(x, y, small, share);
    OverAgain(x, y, n, share);
  }

  /** Beside small enough ones, one of two loud reviewers is over after any number of passes. */
  lemma {:induction false} StaysOver(x: real, y: real, small: seq<Row>, share: real, m: real, passes: nat)
    returns (u: real, v: real)
    requires 0.0 < share && 2.0 * share + WEIGHT_SLACK < 1.0 && Others(small) && 0.0 < m <= x && m <= y
    requires OneOver(x, y, Total(small), share) && IsLittle(Total(small), share, KeptAfter(share, m, passes))
    ensures u > 0.0 && v > 0.0 && OneOver(u, v, Total(small), share)
    ensures CapPasses(Loud(x, y, small), share, passes) == Loud(u, v, small)
    decreases passes
  {
    hide Total, OneOver, Loud, NextSum, Kept, IsLittle, CapPass;
    if passes == 0 {
      u, v := x, y;
    } else {
      var n := Total(small);
      KeptBounds(share, m);
      KeptAfterBounds(share, Kept(share, m), passes - 1);
      LittleBesideMore(n, share, KeptAfter(share, m, passes), Kept(share, m));
      PassStaysOver(x, y, small, share, m);
      u, v := StaysOver(NextSum(x, y + n, share), NextSum(y, x + n, share), small, share, Kept(share, m), passes - 1);
    }
  }

  lemma MarginIsPositive(share: real)
    requires 2.0 * share + WEIGHT_SLACK < 1.0
    ensures 0.0 < Margin(share) <= 1.0 - 2.0 * share - WEIGHT_SLACK
  {
  }

  // ----- rows for which twelve passes are not enough -----

  /** `count` small reviewers, from number 2 on, with this weight each. */
  function Small(count: nat, weight: real): (small: seq<Row>)
    ensures |small| == count
  {
    seq(count, i requires 0 <= i < count => Row(0.0, weight, i + 2))
  }

  lemma {:induction false} SmallTotal(count: nat, weight: real)
    ensures Total(Small(count, weight)) == count as real * weight
  {
    if count > 0 {
      SmallTotal(count - 1, weight);
      assert Small(count, weight)[..count - 1] == Small(count - 1, weight);
      MulDistribRight((count - 1) as real, 1.0, weight);
    }
  }

  lemma {:induction false} AllDifferent(rows: seq<Row>)
    requires forall i, j :: 0 <= i < j < |rows| ==> rows[i].reviewer != rows[j].reviewer
    ensures |Reviewers(rows)| == |rows|
  {
    if rows != [] {
      var n := |rows| - 1;
      AllDifferent(rows[..n]);
      assert Reviewers(rows) == Reviewers(rows[..n]) + {rows[n].reviewer} by {
        forall r | r in Reviewers(rows) ensures r in Reviewers(rows[..n]) + {rows[n].reviewer} {
          var i :| 0 <= i < |rows| && rows[i].reviewer == r;
          if i < n { assert rows[..n][i].reviewer == r; }
        }
        forall i | 0 <= i < n ensures rows[..n][i].reviewer in Reviewers(rows) { assert rows[i] == rows[..n][i]; }
      }
      assert rows[n].reviewer !in Reviewers(rows[..n]);
    }
  }

  /** Enough small reviewers beside two loud ones, with as little weight in all as asked for. */
  lemma FeasibleRows(share: real, x: real, y: real, most: real) returns (small: seq<Row>)
    requires 0.0 < share && x > 0.0 && y > 0.0 && most > 0.0
    ensures Others(small) && 0.0 <= Total(small) < most && Feasible(Loud(x, y, small), share)
  {
    hide Total, Of, Small;
    var count: nat := (1.0 / share).Floor + 1;
    var weight := most / 2.0 / count as real;
    small := EnoughSmall(share, count, weight, most);
    LoudAreDifferent(x, y, small, count, weight);
    DivMul(1.0, share);
    MulMonotone(share, 1.0 / share, |Reviewers(Loud(x, y, small))| as real);
  }

  lemma EnoughSmall(share: real, count: nat, weight: real, most: real) returns (small: seq<Row>)
    requires count >= 1 && most > 0.0 && weight == most / 2.0 / count as real
    ensures small == Small(count, weight) && 0.0 < weight && Others(small) && 0.0 <= Total(small) < most
  {
    hide Total;
    small := Small(count, weight);
    SmallTotal(count, weight);
    DivMul(most / 2.0, count as real);
    if weight <= 0.0 { MulMonotone(count as real, weight, 0.0); }
  }

  lemma LoudAreDifferent(x: real, y: real, small: seq<Row>, count: nat, weight: real)
    requires small == Small(count, weight) && x > 0.0 && y > 0.0 && weight > 0.0
    ensures Positive(Loud(x, y, small)) && |Reviewers(Loud(x, y, small))| == count + 2
  {
    var rows := Loud(x, y, small);
    forall i | 0 <= i < |rows| ensures rows[i].reviewer == i && rows[i].weight > 0.0 {
      if i >= 2 { assert rows[i] == small[i - 2]; }
    }
    AllDifferent(rows);
  }

  lemma TwelvePassesFallShort(share: real) returns (rows: seq<Row>)
    requires 0.0 < share && 2.0 * share + WEIGHT_SLACK < 1.0
    ensures Feasible(rows, share) && !Held(Capped(rows, share), share)
  {
    hide Total, Of, OneOver, Feasible, Held;
    var kept := KeptAfter(share, share, MAX_PASSES);
    KeptAfterBounds(share, share, MAX_PASSES);
    var most := LittleEnough(share, kept);
    var small := FeasibleRows(share, 1.0 - share, share, most);
    rows := Loud(1.0 - share, share, small);
    LittleBesideMore(Total(small), share, kept, share);
    StartsOver(share, Total(small));
    var u, v := StaysOver(1.0 - share, share, small, share, share, MAX_PASSES);
    OverIsNotHeld(u, v, small, share);
  }

  lemma LittleEnough(share: real, kept: real) returns (most: real)
    requires 0.0 < share && 2.0 * share + WEIGHT_SLACK < 1.0 && 0.0 < kept
    ensures most > 0.0 && forall n :: 0.0 <= n < most ==> IsLittle(n, share, kept)
  {
    MarginIsPositive(share);
    hide Margin;
    most := BelowBoth(Margin(share), share, kept);
  }

  lemma BelowBoth(p: real, q: real, kept: real) returns (most: real)
    requires p > 0.0 && q > 0.0 && kept > 0.0
    ensures 0.0 < most <= p * kept && most <= q * kept
  {
    MulPos(p, kept);
    MulPos(q, kept);
    most := if p * kept <= q * kept then p * kept else q * kept;
  }

  /** The first is over from the start. */
  lemma StartsOver(share: real, n: real)
    requires 0.0 < share && 2.0 * share + WEIGHT_SLACK < 1.0 && IsLittle(n, share, share)
    ensures OneOver(1.0 - share, share, n, share)
  {
    MarginIsPositive(share);
    MulMonotone(Margin(share), share, 1.0);
    hide Margin;
    WholeAndLittle(share + WEIGHT_SLACK, 1.0 - share, n);
    assert 1.0 - share + share + n == 1.0 + n;
  }

  lemma WholeAndLittle(a: real, x: real, n: real)
    requires 0.0 <= a <= 1.0 && 0.0 <= n < x - a
    ensures x > a * (1.0 + n)
  {
    MulMonotone(n, a, 1.0);
    MulComm(n, a);
    MulDistrib(a, 1.0, n);
  }

  lemma OverIsNotHeld(u: real, v: real, small: seq<Row>, share: real)
    requires Others(small) && OneOver(u, v, Total(small), share)
    ensures !Held(Loud(u, v, small), share)
  {
    hide Of, Total, Loud;
    LoudSums(u, v, small, 0);
    LoudSums(u, v, small, 1);
    assert !WithinShare(Loud(u, v, small), share, 0) || !WithinShare(Loud(u, v, small), share, 1);
  }

  // ----- exactly when -----

  lemma HalfIsHeld(rows: seq<Row>, share: real)
    requires NonNegative(rows) && 0.0 <= share && 2.0 * share + WEIGHT_SLACK >= 1.0
    ensures Held(Capped(rows, share), share)
  {
    hide Of, Total, CapPass;
    if share >= 1.0 {
      forall r ensures WithinShare(rows, share, r) {
        OfIsNonNegative(rows, r);
        MulMonotone(Total(rows), 1.0, share + WEIGHT_SLACK);
        MulComm(Total(rows), share + WEIGHT_SLACK);
      }
    } else {
      OnePassIsEnough(rows, share);
      SettlesAtOnce(rows, share);
    }
  }

  lemma SettlesAtOnce(rows: seq<Row>, share: real)
    requires NonNegative(rows) && 0.0 <= share < 1.0 && Held(CapPass(rows, share), share)
    ensures Capped(rows, share) == CapPass(rows, share)
  {
    hide Of, Total, CapPass;
    var once := CapPass(rows, share);
    PassKeepsNonNegative(rows, share);
    if Total(once) > 0.0 { UnchangedIffWithin(once, share); } else { WeightlessIsSettled(once, share); }
    Settled(once, share, MAX_PASSES - 1);
  }

  lemma PassKeepsNonNegative(rows: seq<Row>, share: real)
    requires NonNegative(rows) && 0.0 <= share < 1.0
    ensures NonNegative(CapPass(rows, share))
  {
    hide CapPass;
    var f := PassesScaleEachReviewer(rows, share, 1);
    ScaledStaysNonNegative(rows, f);
    assert CapPasses(CapPass(rows, share), share, 0) == CapPass(rows, share);
    assert CapPasses(rows, share, 1) == CapPass(rows, share);
  }

  /**
   * The capping brings everyone under the share, on all rows on which that is possible, exactly for a share of half
   * the weight or more, up to the tolerance. There one pass is enough; below it there are rows for which twelve are
   * not.
   */
  lemma TwelvePassesSufficeIff(share: real)
    requires 0.0 < share
    ensures AlwaysHolds(share) <==> 2.0 * share + 0.000000000001 >= 1.0
  {
    if 2.0 * share + WEIGHT_SLACK >= 1.0 {
      forall rows | Feasible(rows, share) ensures Held(Capped(rows, share), share) { HalfIsHeld(rows, share); }
    } else {
      hide Feasible, Held;
      var rows := TwelvePassesFallShort(share);
    }
  }

  // ----- how many passes are made -----

  const QUIET: seq<Row> := [Row(0.0, 1.0, 2)]

  /** Two equally loud reviewers beside one row of weight 1, under 0.4, come a third of the way closer to 2. */
  lemma OneThirdCloser(w: real)
    requires w >= 2.001
    ensures CapPass(Loud(w, w, QUIET), 0.4) == Loud(2.0 + (w - 2.0) * 2.0 / 3.0, 2.0 + (w - 2.0) * 2.0 / 3.0, QUIET)
  {
    hide CapPass, Loud, OverShare, Target;
    QuietTotal();
    PassOnLoud(w, w, QUIET, 0.4);
    OverShareMeans(w, w + (w + 1.0), 0.4);
    TargetEquation(w + 1.0, 0.4);
  }

  lemma QuietTotal()
    ensures Total(QUIET) == 1.0 && Others(QUIET)
  {
    assert QUIET[..0] == [];
  }

  /** How far from 2 they must be for so many passes to leave them a thousandth away. */
  function FarEnough(passes: nat): real { if passes == 0 then 0.001 else FarEnough(passes - 1) * 1.5 }

  /** What so many passes leave of a distance from 2. */
  function Left(distance: real, passes: nat): real
    decreases passes
  {
    if passes == 0 then distance else Left(distance * 2.0 / 3.0, passes - 1)
  }

  lemma {:induction false} ThirdAfterThird(distance: real, passes: nat)
    requires distance >= FarEnough(passes)
    ensures var u := 2.0 + Left(distance, passes);
      CapPasses(Loud(2.0 + distance, 2.0 + distance, QUIET), 0.4, passes) == Loud(u, u, QUIET)
    decreases passes
  {
    hide CapPass, Loud;
    if passes > 0 {
      FarEnoughIsFar(passes);
      OneThirdCloser(2.0 + distance);
      ThirdAfterThird(distance * 2.0 / 3.0, passes - 1);
    }
  }

  lemma {:induction false} FarEnoughIsFar(passes: nat)
    ensures FarEnough(passes) >= 0.001
  {
    if passes > 0 { FarEnoughIsFar(passes - 1); }
  }

  /** Twelve passes are made, no more and no fewer: two thirds to the twelfth are left of the way to the share. */
  lemma TwelvePassesAreMade(w: real)
    requires w >= 3.0
    ensures var u := 2.0 + (w - 2.0) * 4096.0 / 531441.0;
      Capped(Loud(w, w, QUIET), 0.4) == Loud(u, u, QUIET)
  {
    hide CapPasses;
    assert FarEnough(4) <= 0.0051 && FarEnough(8) <= 0.026 && FarEnough(12) <= 0.13;
    LeftOfFour(w - 2.0, 8);
    LeftOfFour((w - 2.0) * 16.0 / 81.0, 4);
    LeftOfFour((w - 2.0) * 256.0 / 6561.0, 0);
    ThirdAfterThird(w - 2.0, 12);
  }

  lemma LeftOfFour(distance: real, passes: nat)
    ensures Left(distance, passes + 4) == Left(distance * 16.0 / 81.0, passes)
  {
    assert Left(distance, passes + 4) == Left(distance * 2.0 / 3.0, passes + 3);
    assert Left(distance * 2.0 / 3.0, passes + 3) == Left(distance * 4.0 / 9.0, passes + 2);
    assert Left(distance * 4.0 / 9.0, passes + 2) == Left(distance * 8.0 / 27.0, passes + 1);
  }
}
