/**
 * Limiting each reviewer's part of the total weight. A pass takes everyone who is
 * over the limit down to it; since the total shrinks, others may then be over, and
 * passes repeat.
 */
module ReviewerWeights {
  import opened RealArith

  /** Reviewer ids are opaque keys: only ever compared for equality. */
  type ReviewerId = nat

  datatype Row = Row(value: real, weight: real, reviewer: ReviewerId)

  /** The tolerance on the share test. */
  const WEIGHT_SLACK: real := 0.000000000001
  const MAX_PASSES: nat := 12

  ghost predicate NonNegative(rows: seq<Row>) {
    forall i :: 0 <= i < |rows| ==> rows[i].weight >= 0.0
  }

  function Total(rows: seq<Row>): real {
    if rows == [] then 0.0 else Total(rows[..|rows| - 1]) + rows[|rows| - 1].weight
  }

  /** The weight one reviewer carries. */
  function Of(rows: seq<Row>, r: ReviewerId): real {
    if rows == [] then 0.0
    else Of(rows[..|rows| - 1], r) + if rows[|rows| - 1].reviewer == r then rows[|rows| - 1].weight else 0.0
  }

  function Reviewers(rows: seq<Row>): set<ReviewerId> {
    set i | 0 <= i < |rows| :: rows[i].reviewer
  }

  function Times(row: Row, factor: real): Row {
    row.(weight := row.weight * factor)
  }

  /** Every row of a reviewer multiplied by that reviewer's factor. */
  function Scaled(rows: seq<Row>, f: ReviewerId -> real): (s: seq<Row>)
    ensures |s| == |rows|
    ensures forall i :: 0 <= i < |rows| ==> s[i] == Times(rows[i], f(rows[i].reviewer))
  {
    seq(|rows|, i requires 0 <= i < |rows| => Times(rows[i], f(rows[i].reviewer)))
  }

  predicate OverShare(sum: real, total: real, share: real)
    requires total > 0.0
  {
    sum > 0.0 && sum / total > share + WEIGHT_SLACK
  }

  /** The weight at which a reviewer's share of the new total is exactly `share`. */
  function Target(others: real, share: real): real
    requires share < 1.0
  {
    share / (1.0 - share) * others
  }

  function ScaleOf(rows: seq<Row>, share: real, r: ReviewerId): real
    requires share < 1.0 && Total(rows) > 0.0
  {
    var sum := Of(rows, r);
    if OverShare(sum, Total(rows), share) then Target(Total(rows) - sum, share) / sum else 1.0
  }

  /** One pass: every reviewer is measured against the totals the pass started from. */
  function CapPass(rows: seq<Row>, share: real): (s: seq<Row>)
    requires share < 1.0
    ensures |s| == |rows|
    ensures forall i :: 0 <= i < |rows| ==> s[i].value == rows[i].value && s[i].reviewer == rows[i].reviewer
  {
    if Total(rows) <= 0.0 then rows else Scaled(rows, (r: ReviewerId) => ScaleOf(rows, share, r))
  }

  function CapPasses(rows: seq<Row>, share: real, passes: nat): (s: seq<Row>)
    requires share < 1.0
    ensures |s| == |rows|
    ensures forall i :: 0 <= i < |rows| ==> s[i].value == rows[i].value && s[i].reviewer == rows[i].reviewer
    decreases passes
  {
    if passes == 0 then rows else CapPasses(CapPass(rows, share), share, passes - 1)
  }

  function Capped(rows: seq<Row>, share: real): (s: seq<Row>)
    ensures |s| == |rows|
    ensures forall i :: 0 <= i < |rows| ==> s[i].value == rows[i].value && s[i].reviewer == rows[i].reviewer
  {
    if share >= 1.0 then rows else CapPasses(rows, share, MAX_PASSES)
  }

  // ----- the loop -----

  method SumWeights(rows: seq<Row>) returns (total: real)
    ensures total == Total(rows)
  {
    total := 0.0;
    for i := 0 to |rows|
      invariant total == Total(rows[..i])
    {
      assert rows[..i + 1][..i] == rows[..i];
      total := total + rows[i].weight;
    }
    assert rows[..|rows|] == rows;
  }

  /** The insertion-ordered map from reviewer to weight: its keys in order, and its entries. */
  method SumByReviewer(rows: seq<Row>) returns (keys: seq<ReviewerId>, sums: map<ReviewerId, real>)
    ensures sums.Keys == Reviewers(rows) && sums.Keys == (set k | k in keys)
    ensures forall i, j :: 0 <= i < j < |keys| ==> keys[i] != keys[j]
    ensures forall r :: r in sums ==> sums[r] == Of(rows, r)
  {
    keys, sums := [], map[];
    for i := 0 to |rows|
      invariant sums.Keys == Reviewers(rows[..i]) && sums.Keys == (set k | k in keys)
      invariant forall a, b :: 0 <= a < b < |keys| ==> keys[a] != keys[b]
      invariant forall r :: r in sums ==> sums[r] == Of(rows[..i], r)
    {
      var row := rows[i];
      assert rows[..i + 1][..i] == rows[..i];
      assert Reviewers(rows[..i + 1]) == Reviewers(rows[..i]) + {row.reviewer} by {
        assert rows[..i + 1][i] == row;
      }
      if row.reviewer in sums {
        sums := sums[row.reviewer := sums[row.reviewer] + row.weight];
      } else {
        AbsentCarriesNothing(rows[..i], row.reviewer);
        sums := sums[row.reviewer := row.weight];
        keys := keys + [row.reviewer];
      }
    }
    assert rows[..|rows|] == rows;
  }

  lemma AbsentCarriesNothing(rows: seq<Row>, r: ReviewerId)
    requires r !in Reviewers(rows)
    ensures Of(rows, r) == 0.0
  {
    if rows != [] {
      assert rows[|rows| - 1].reviewer in Reviewers(rows);
      var front := rows[..|rows| - 1];
      assert forall i :: 0 <= i < |front| ==> front[i] == rows[i] && rows[i].reviewer in Reviewers(rows);
      AbsentCarriesNothing(front, r);
    }
  }

  method CapReviewerWeights(rows: seq<Row>, share: real) returns (capped: seq<Row>)
    ensures capped == Capped(rows, share)
  {
    hide Total, CapPass;
    capped := rows;
    if share >= 1.0 { return; }
    for pass := 0 to MAX_PASSES
      invariant CapPasses(capped, share, MAX_PASSES - pass) == Capped(rows, share)
    {
      var total := SumWeights(capped);
      if total <= 0.0 {
        WeightlessIsSettled(capped, share);
        Settled(capped, share, MAX_PASSES - pass);
        return;
      }
      var next, changed := ScaleDown(capped, share, total);
      if !changed {
        Settled(capped, share, MAX_PASSES - pass);
        break;
      }
      capped := next;
    }
  }

  /** The body of one pass: reviewers over the share are scaled down, one at a time. */
  method ScaleDown(rows: seq<Row>, share: real, total: real) returns (capped: seq<Row>, changed: bool)
    requires share < 1.0 && total == Total(rows) > 0.0
    ensures capped == CapPass(rows, share)
    ensures !changed ==> capped == rows
  {
    hide Of, Total, Target, CapPass, Scaled;
    var keys, sums := SumByReviewer(rows);
    capped, changed := rows, false;
    ghost var goal := CapPass(rows, share);
    for j := 0 to |keys|
      invariant |capped| == |rows|
      invariant forall i :: 0 <= i < |rows| ==> capped[i] == if rows[i].reviewer in keys[..j] then goal[i] else rows[i]
      invariant !changed ==> capped == rows
    {
      var reviewer, sum := keys[j], sums[keys[j]];
      assert keys[..j + 1] == keys[..j] + [reviewer];
      assert reviewer !in keys[..j];
      if sum <= 0.0 || sum / total <= share + WEIGHT_SLACK {
        PassLeaves(rows, share, reviewer);
      } else {
        var scale := Target(total - sum, share) / sum;
        PassScales(rows, share, reviewer, scale);
        capped := Rescale(capped, reviewer, scale);
        changed := true;
      }
    }
    forall i | 0 <= i < |rows|
      ensures capped[i] == goal[i]
    {
      assert rows[i].reviewer in sums.Keys;
      assert keys[..|keys|] == keys;
    }
  }

  lemma PassLeaves(rows: seq<Row>, share: real, reviewer: ReviewerId)
    requires share < 1.0 && Total(rows) > 0.0 && !OverShare(Of(rows, reviewer), Total(rows), share)
    ensures forall i :: 0 <= i < |rows| && rows[i].reviewer == reviewer ==> CapPass(rows, share)[i] == rows[i]
  {
  }

  lemma PassScales(rows: seq<Row>, share: real, reviewer: ReviewerId, scale: real)
    requires share < 1.0 && Total(rows) > 0.0
    requires scale == ScaleOf(rows, share, reviewer)
    ensures forall i :: 0 <= i < |rows| && rows[i].reviewer == reviewer ==>
      CapPass(rows, share)[i] == Times(rows[i], scale)
  {
    var f := (r: ReviewerId) => ScaleOf(rows, share, r);
    ScaledRows(rows, f, reviewer, scale);
  }

  lemma ScaledRows(rows: seq<Row>, f: ReviewerId -> real, reviewer: ReviewerId, scale: real)
    requires f(reviewer) == scale
    ensures forall i :: 0 <= i < |rows| && rows[i].reviewer == reviewer ==>
      Scaled(rows, f)[i] == Times(rows[i], scale)
  {
  }

  function Rescale(rows: seq<Row>, reviewer: ReviewerId, scale: real): (s: seq<Row>)
    ensures |s| == |rows|
    ensures forall i :: 0 <= i < |rows| ==>
      s[i] == if rows[i].reviewer == reviewer then Times(rows[i], scale) else rows[i]
  {
    seq(|rows|, i requires 0 <= i < |rows| =>
      if rows[i].reviewer == reviewer then Times(rows[i], scale) else rows[i])
  }

  lemma WeightlessIsSettled(rows: seq<Row>, share: real)
    requires share < 1.0 && Total(rows) <= 0.0
    ensures CapPass(rows, share) == rows
  {
  }

  /** Once a pass changes nothing, no later pass does. */
  lemma Settled(rows: seq<Row>, share: real, passes: nat)
    requires share < 1.0 && CapPass(rows, share) == rows
    ensures CapPasses(rows, share, passes) == rows
  {
    if passes > 0 {
      Settled(rows, share, passes - 1);
    }
  }

  // ----- one pass, reviewer by reviewer -----

  lemma ScaledOf(rows: seq<Row>, f: ReviewerId -> real, r: ReviewerId)
    ensures Of(Scaled(rows, f), r) == Of(rows, r) * f(r)
  {
    SumIsScaled(rows, f, r);
  }

  function ScaledSum(sum: real, factor: real): real { sum * factor }

  lemma {:induction false} SumIsScaled(rows: seq<Row>, f: ReviewerId -> real, r: ReviewerId)
    ensures Of(Scaled(rows, f), r) == ScaledSum(Of(rows, r), f(r))
  {
    if rows != [] {
      var n := |rows| - 1;
      SumIsScaled(rows[..n], f, r);
      OfLast(rows, r);
      ScaledLast(rows, f, r);
      hide Of, Scaled, Times, ScaledSum;
      ScaledStep(Of(rows[..n], r), rows[n], r, f(rows[n].reviewer), f(r));
    }
  }

  lemma ScaledLast(rows: seq<Row>, f: ReviewerId -> real, r: ReviewerId)
    requires rows != []
    ensures var n := |rows| - 1;
      var last := Times(rows[n], f(rows[n].reviewer));
      Of(Scaled(rows, f), r) == Of(Scaled(rows[..n], f), r) + if last.reviewer == r then last.weight else 0.0
  {
    hide Of, Times;
    ScaledFront(rows, f);
    OfLast(Scaled(rows, f), r);
  }

  /** One more row, by its own factor, which is the reviewer's if the row is. */
  lemma ScaledStep(before: real, row: Row, r: ReviewerId, factor: real, own: real)
    requires row.reviewer == r ==> factor == own
    ensures var last := Times(row, factor);
      ScaledSum(before, own) + (if last.reviewer == r then last.weight else 0.0) ==
          ScaledSum(before + if row.reviewer == r then row.weight else 0.0, own)
  {
    MulDistribRight(before, row.weight, own);
  }

  lemma OfLast(rows: seq<Row>, r: ReviewerId)
    requires rows != []
    ensures var n := |rows| - 1;
      Of(rows, r) == Of(rows[..n], r) + if rows[n].reviewer == r then rows[n].weight else 0.0
  {
  }

  lemma ScaledFront(rows: seq<Row>, f: ReviewerId -> real)
    requires rows != []
    ensures Scaled(rows, f)[..|rows| - 1] == Scaled(rows[..|rows| - 1], f)
  {
    forall i | 0 <= i < |rows| - 1
      ensures Scaled(rows, f)[i] == Scaled(rows[..|rows| - 1], f)[i]
    {
      assert rows[..|rows| - 1][i] == rows[i];
    }
  }

  lemma {:induction false} OfIsNonNegative(rows: seq<Row>, r: ReviewerId)
    requires NonNegative(rows)
    ensures 0.0 <= Of(rows, r) <= Total(rows)
  {
    if rows != [] {
      OfIsNonNegative(rows[..|rows| - 1], r);
    }
  }

  lemma OverShareMeans(sum: real, total: real, share: real)
    requires total > 0.0
    ensures OverShare(sum, total, share) <==> sum > 0.0 && sum > (share + WEIGHT_SLACK) * total
  {
    DivAtMost(sum, total, share + WEIGHT_SLACK);
  }

  lemma TargetIsLess(sum: real, total: real, share: real)
    requires 0.0 <= share < 1.0 && 0.0 <= sum <= total && total > 0.0 && OverShare(sum, total, share)
    ensures 0.0 <= Target(total - sum, share) < sum
  {
    OverShareMeans(sum, total, share);
    MulComm(share + WEIGHT_SLACK, total);
    MulDistrib(total, share, WEIGHT_SLACK);
    MulSign(total, WEIGHT_SLACK);
    TargetBelow(sum, total - sum, share);
  }

  lemma TargetBelow(sum: real, others: real, share: real)
    requires 0.0 <= share < 1.0 && 0.0 <= others && share * (sum + others) < sum
    ensures 0.0 <= Target(others, share) < sum
  {
    var c := share / (1.0 - share);
    DivMonotone(0.0, share, 1.0 - share);
    MulSign(c, others);
    MulDistrib(share, sum, others);
    TargetEquation(others, share);
    MulComm(1.0 - share, sum);
    MulDistrib(sum, 1.0, share);
    if sum <= c * others { MulMonotone(1.0 - share, sum, c * others); }
  }

  lemma TargetEquation(others: real, share: real)
    requires share < 1.0
    ensures (1.0 - share) * Target(others, share) == share * others
  {
    DivMul(share, 1.0 - share);
    MulAssoc(1.0 - share, share / (1.0 - share), others);
  }

  /** A scale is a fraction between 0 and 1, and takes an over-weight reviewer to the target. */
  lemma ScaleIsFraction(rows: seq<Row>, share: real, r: ReviewerId)
    requires 0.0 <= share < 1.0 && NonNegative(rows) && Total(rows) > 0.0
    ensures 0.0 <= ScaleOf(rows, share, r) <= 1.0
    ensures OverShare(Of(rows, r), Total(rows), share) ==>
              0.0 <= Of(rows, r) * ScaleOf(rows, share, r) == Target(Total(rows) - Of(rows, r), share) < Of(rows, r)
  {
    hide Of, Total, Target, OverShare;
    OfIsNonNegative(rows, r);
    var sum, total := Of(rows, r), Total(rows);
    if OverShare(sum, total, share) {
      TargetIsLess(sum, total, share);
      QuotientIsFraction(Target(total - sum, share), sum);
    }
  }

  lemma QuotientIsFraction(part: real, whole: real)
    requires 0.0 <= part < whole
    ensures 0.0 <= part / whole <= 1.0 && whole * (part / whole) == part
  {
    DivMul(part, whole);
    DivAtMost(part, whole, 1.0);
    DivAtMost(part, whole, 0.0);
  }

  /**
   * A reviewer over the share is taken to exactly share/(1-share) of what the
   * others carried, which is a reduction; everyone else is left alone.
   */
  lemma PassOf(rows: seq<Row>, share: real, r: ReviewerId)
    requires 0.0 <= share < 1.0 && NonNegative(rows) && Total(rows) > 0.0
    ensures OverShare(Of(rows, r), Total(rows), share) ==>
              0.0 <= Of(CapPass(rows, share), r) == Target(Total(rows) - Of(rows, r), share) < Of(rows, r)
    ensures !OverShare(Of(rows, r), Total(rows), share) ==> Of(CapPass(rows, share), r) == Of(rows, r)
  {
    PassIsProduct(rows, share, r);
    ScaleIsFraction(rows, share, r);
  }

  lemma PassIsProduct(rows: seq<Row>, share: real, r: ReviewerId)
    requires share < 1.0 && Total(rows) > 0.0
    ensures Of(CapPass(rows, share), r) == Of(rows, r) * ScaleOf(rows, share, r)
  {
    hide Of, ScaleOf, Total;
    var f := (q: ReviewerId) => ScaleOf(rows, share, q);
    ScaledOf(rows, f, r);
    assert CapPass(rows, share) == Scaled(rows, f);
  }

  // ----- any number of passes -----

  /** Every factor of a rescaling lies between 0 and 1. */
  ghost predicate Fractions(f: ReviewerId -> real) {
    forall r :: 0.0 <= f(r) <= 1.0
  }

  /**
   * Whatever the number of passes, all of a reviewer's rows end up multiplied by one
   * factor between 0 and 1: weights never rise and ratios within a reviewer survive.
   */
  lemma {:induction false} PassesScaleEachReviewer(rows: seq<Row>, share: real, passes: nat)
    returns (f: ReviewerId -> real)
    requires 0.0 <= share < 1.0 && NonNegative(rows)
    ensures Fractions(f) && CapPasses(rows, share, passes) == Scaled(rows, f)
    decreases passes
  {
    if passes == 0 || Total(rows) <= 0.0 {
      f := (r: ReviewerId) => 1.0;
      if Total(rows) <= 0.0 { Settled(rows, share, passes); }
      UnitScales(rows, f);
    } else {
      hide Total, Of;
      var g := (r: ReviewerId) => ScaleOf(rows, share, r);
      forall r ensures 0.0 <= g(r) <= 1.0 {
        ScaleIsFraction(rows, share, r);
      }
      ScaledStaysNonNegative(rows, g);
      var h := PassesScaleEachReviewer(CapPass(rows, share), share, passes - 1);
      f := Composed(rows, g, h);
    }
  }

  lemma UnitScales(rows: seq<Row>, f: ReviewerId -> real)
    requires forall r :: f(r) == 1.0
    ensures Scaled(rows, f) == rows
  {
  }

  lemma ScaledStaysNonNegative(rows: seq<Row>, f: ReviewerId -> real)
    requires NonNegative(rows) && Fractions(f)
    ensures NonNegative(Scaled(rows, f))
  {
    forall i | 0 <= i < |rows|
      ensures Scaled(rows, f)[i].weight >= 0.0
    {
      MulSign(rows[i].weight, f(rows[i].reviewer));
    }
  }

  lemma Composed(rows: seq<Row>, g: ReviewerId -> real, h: ReviewerId -> real) returns (f: ReviewerId -> real)
    requires Fractions(g) && Fractions(h)
    ensures Fractions(f) && Scaled(Scaled(rows, g), h) == Scaled(rows, f)
  {
    f := (r: ReviewerId) => g(r) * h(r);
    forall r ensures 0.0 <= f(r) <= 1.0 {
      FractionProduct(g(r), h(r));
    }
    forall i | 0 <= i < |rows|
      ensures Scaled(Scaled(rows, g), h)[i] == Scaled(rows, f)[i]
    {
      MulAssoc(rows[i].weight, g(rows[i].reviewer), h(rows[i].reviewer));
    }
  }

  lemma FractionProduct(x: real, y: real)
    requires 0.0 <= x <= 1.0 && 0.0 <= y <= 1.0
    ensures 0.0 <= x * y <= 1.0
  {
    MulPart(x, y);
  }

  // ----- what no number of passes can undershoot -----

  /** The weight carried by a set of reviewers. */
  function OfSet(rows: seq<Row>, rs: set<ReviewerId>): real {
    if rows == [] then 0.0
    else OfSet(rows[..|rows| - 1], rs) + if rows[|rows| - 1].reviewer in rs then rows[|rows| - 1].weight else 0.0
  }

  lemma {:induction false} OfSetSplit(rows: seq<Row>, rs: set<ReviewerId>, r: ReviewerId)
    requires r in rs
    ensures OfSet(rows, rs) == Of(rows, r) + OfSet(rows, rs - {r})
  {
    if rows != [] { OfSetSplit(rows[..|rows| - 1], rs, r); }
  }

  lemma {:induction false} OfSetTotal(rows: seq<Row>, rs: set<ReviewerId>)
    requires Reviewers(rows) <= rs
    ensures OfSet(rows, rs) == Total(rows)
  {
    if rows != [] {
      var front := rows[..|rows| - 1];
      assert forall i :: 0 <= i < |front| ==>
          front[i].reviewer == rows[i].reviewer && rows[i].reviewer in Reviewers(rows);
      assert rows[|rows| - 1].reviewer in Reviewers(rows);
      OfSetTotal(front, rs);
    }
  }

  lemma OfSetEmpty(rows: seq<Row>)
    ensures OfSet(rows, {}) == 0.0
  {
    if rows != [] { OfSetEmpty(rows[..|rows| - 1]); }
  }

  /** Reviewer by reviewer, `v` gives nobody more than `w` does. */
  ghost predicate Below(v: seq<Row>, w: seq<Row>) {
    forall r :: Of(v, r) <= Of(w, r)
  }

  /** Nobody in `v` exceeds the share. */
  ghost predicate Within(v: seq<Row>, share: real)
    requires share < 1.0
  {
    forall r :: Of(v, r) <= Target(Total(v) - Of(v, r), share)
  }

  lemma {:induction false} BelowOnSets(v: seq<Row>, w: seq<Row>, rs: set<ReviewerId>)
    requires Below(v, w)
    ensures OfSet(v, rs) <= OfSet(w, rs)
  {
    if rs == {} {
      OfSetEmpty(v);
      OfSetEmpty(w);
    } else {
      var r :| r in rs;
      OfSetSplit(v, rs, r);
      OfSetSplit(w, rs, r);
      BelowOnSets(v, w, rs - {r});
    }
  }

  lemma OthersAreBelow(v: seq<Row>, w: seq<Row>, r: ReviewerId)
    requires Below(v, w)
    ensures Total(v) - Of(v, r) <= Total(w) - Of(w, r)
  {
    var rs := Reviewers(v) + Reviewers(w) + {r};
    OfSetTotal(v, rs);
    OfSetTotal(w, rs);
    OfSetSplit(v, rs, r);
    OfSetSplit(w, rs, r);
    BelowOnSets(v, w, rs - {r});
  }

  lemma TargetIsMonotone(x: real, y: real, share: real)
    requires 0.0 <= share < 1.0 && x <= y
    ensures Target(x, share) <= Target(y, share)
  {
    DivMonotone(0.0, share, 1.0 - share);
    MulMonotone(share / (1.0 - share), x, y);
  }

  lemma PassStaysAbove(v: seq<Row>, rows: seq<Row>, share: real)
    requires 0.0 <= share < 1.0 && NonNegative(rows) && Below(v, rows) && Within(v, share)
    ensures Below(v, CapPass(rows, share))
  {
    if Total(rows) > 0.0 {
      forall r ensures Of(v, r) <= Of(CapPass(rows, share), r) {
        PassOf(rows, share, r);
        OthersAreBelow(v, rows, r);
        TargetIsMonotone(Total(v) - Of(v, r), Total(rows) - Of(rows, r), share);
        assert Of(v, r) <= Target(Total(v) - Of(v, r), share);
        assert Of(v, r) <= Of(rows, r);
      }
    }
  }

  /**
   * The capping takes off no more than it must: a weighting that already satisfies
   * the cap and lies at or under the start stays at or under every number of passes.
   */
  lemma {:induction false} PassesStayAbove(v: seq<Row>, rows: seq<Row>, share: real, passes: nat)
    requires 0.0 <= share < 1.0 && NonNegative(rows) && Below(v, rows) && Within(v, share)
    ensures Below(v, CapPasses(rows, share, passes))
    decreases passes
  {
    if passes > 0 {
      PassStaysAbove(v, rows, share);
      var f := PassesScaleEachReviewer(rows, share, 1);
      ScaledStaysNonNegative(rows, f);
      assert CapPasses(rows, share, 1) == CapPass(rows, share);
      PassesStayAbove(v, CapPass(rows, share), share, passes - 1);
    }
  }

  /** The reviewer is within the share, up to the tolerance. */
  predicate WithinShare(rows: seq<Row>, share: real, r: ReviewerId) {
    Of(rows, r) <= (share + WEIGHT_SLACK) * Total(rows)
  }

  lemma OverShareIff(rows: seq<Row>, share: real, r: ReviewerId)
    requires 0.0 <= share && Total(rows) > 0.0
    ensures OverShare(Of(rows, r), Total(rows), share) <==> !WithinShare(rows, share, r)
  {
    OverShareMeans(Of(rows, r), Total(rows), share);
    MulSign(share + WEIGHT_SLACK, Total(rows));
  }

  /** A pass changes nothing exactly when every reviewer is within the share. */
  lemma UnchangedIffWithin(rows: seq<Row>, share: real)
    requires 0.0 <= share < 1.0 && NonNegative(rows) && Total(rows) > 0.0
    ensures CapPass(rows, share) == rows <==> forall r :: WithinShare(rows, share, r)
  {
    if r :| !WithinShare(rows, share, r) {
      OverShareIff(rows, share, r);
      PassOf(rows, share, r);
      assert CapPass(rows, share) != rows;
    } else {
      forall r ensures !OverShare(Of(rows, r), Total(rows), share) {
        OverShareIff(rows, share, r);
      }
      NobodyOver(rows, share);
    }
  }

  lemma NobodyOver(rows: seq<Row>, share: real)
    requires share < 1.0 && Total(rows) > 0.0
    requires forall r :: !OverShare(Of(rows, r), Total(rows), share)
    ensures CapPass(rows, share) == rows
  {
    var f := (r: ReviewerId) => ScaleOf(rows, share, r);
    ScaledByOne(rows, f);
  }

  lemma ScaledByOne(rows: seq<Row>, f: ReviewerId -> real)
    requires forall r :: f(r) == 1.0
    ensures Scaled(rows, f) == rows
  {
  }

  /**
   * With enough reviewers for the share to be feasible, nobody ever falls below the
   * lightest reviewer's starting weight, however many passes are made.
   */
  lemma LightestIsAFloor(rows: seq<Row>, share: real, passes: nat, floor: real, r: ReviewerId)
    requires 0.0 <= share < 1.0 && NonNegative(rows) && 0.0 <= floor
    requires forall q :: q in Reviewers(rows) ==> floor <= Of(rows, q)
    requires 1.0 <= share * |Reviewers(rows)| as real
    requires r in Reviewers(rows)
    ensures floor <= Of(CapPasses(rows, share, passes), r)
  {
    var level := (q: ReviewerId) => Level(Of(rows, q), floor);
    var v := Scaled(rows, level);
    forall q ensures Of(v, q) == (if q in Reviewers(rows) then floor else 0.0) <= Of(rows, q) {
      LevelledOf(rows, level, q, floor);
    }
    assert Reviewers(v) <= Reviewers(rows);
    LevelIsWithin(v, Reviewers(rows), floor, share);
    PassesStayAbove(v, rows, share, passes);
  }

  lemma LevelledOf(rows: seq<Row>, f: ReviewerId -> real, q: ReviewerId, floor: real)
    requires NonNegative(rows) && 0.0 <= floor && (q in Reviewers(rows) ==> floor <= Of(rows, q))
    requires f(q) == Level(Of(rows, q), floor)
    ensures Of(Scaled(rows, f), q) == (if q in Reviewers(rows) then floor else 0.0) <= Of(rows, q)
  {
    hide Of, Total, Scaled;
    ScaledOf(rows, f, q);
    OfIsNonNegative(rows, q);
    LevelTimes(Of(rows, q), floor);
    if q !in Reviewers(rows) { AbsentCarriesNothing(rows, q); }
  }

  /** The factor that takes a weight to `floor`. */
  function Level(weight: real, floor: real): real {
    if weight > 0.0 then floor / weight else 0.0
  }

  lemma LevelTimes(weight: real, floor: real)
    ensures weight * Level(weight, floor) == if weight > 0.0 then floor else 0.0
  {
    if weight > 0.0 { DivMul(floor, weight); }
  }

  lemma LevelIsWithin(v: seq<Row>, rs: set<ReviewerId>, floor: real, share: real)
    requires 0.0 <= share < 1.0 && 0.0 <= floor && rs != {} && 1.0 <= share * |rs| as real
    requires Reviewers(v) <= rs
    requires forall q :: Of(v, q) == if q in rs then floor else 0.0
    ensures Within(v, share)
  {
    hide Of, OfSet, Total;
    OfSetTotal(v, rs);
    LevelTotal(v, rs, floor);
    var n := |rs| as real;
    DivMonotone(0.0, share, 1.0 - share);
    var c := share / (1.0 - share);
    forall q ensures Of(v, q) <= Target(Total(v) - Of(v, q), share) {
      if q in rs {
        var others := n * floor - floor;
        TargetEquation(others, share);
        MulDistrib(share, n * floor, floor);
        MulAssoc(share, n, floor);
        MulComm(share * n, floor);
        MulMonotone(floor, 1.0, share * n);
        MulComm(share, floor);
        MulDistribRight(1.0, -share, floor);
        MulCancel(1.0 - share, floor, Target(others, share));
      } else {
        MulSign(n, floor);
        MulSign(c, Total(v));
      }
    }
  }

  lemma {:induction false} LevelTotal(v: seq<Row>, rs: set<ReviewerId>, floor: real)
    requires forall q :: q in rs ==> Of(v, q) == floor
    ensures OfSet(v, rs) == |rs| as real * floor
  {
    hide Of, OfSet;
    if rs == {} {
      OfSetEmpty(v);
    } else {
      var r :| r in rs;
      OfSetSplit(v, rs, r);
      LevelTotal(v, rs - {r}, floor);
      assert |rs| as real == |rs - {r}| as real + 1.0;
      MulDistribRight(|rs - {r}| as real, 1.0, floor);
    }
  }
}
