/** How many rows any one reviewer may contribute to the sample. */
module RowCap {
  import opened RealArith

  /** The tolerance on the row-share test. */
  const ROW_SLACK: real := 0.000000001

  function Least(n: nat, c: nat): nat {
    if n <= c then n else c
  }

  /** Rows left when each reviewer keeps at most `c`. */
  function Kept(counts: seq<nat>, c: nat): nat {
    if counts == [] then 0 else Kept(counts[..|counts| - 1], c) + Least(counts[|counts| - 1], c)
  }

  function Largest(counts: seq<nat>): nat {
    if counts == [] then 0
    else
      var m := Largest(counts[..|counts| - 1]);
      if counts[|counts| - 1] <= m then m else counts[|counts| - 1]
  }

  predicate WithinRowShare(c: nat, total: nat, share: real) {
    c as real <= share * total as real + ROW_SLACK
  }

  /** A reviewer supplying `c` rows stays within the share of what is kept. */
  predicate Feasible(counts: seq<nat>, share: real, c: nat) {
    WithinRowShare(c, Kept(counts, c), share)
  }

  /** The upward scan, stopping at the first cap that fails. */
  function ScanFrom(counts: seq<nat>, share: real, c: nat): (best: nat)
    requires 1 <= c <= Largest(counts) + 1
    ensures c - 1 <= best <= Largest(counts)
    decreases Largest(counts) + 1 - c
  {
    if c <= Largest(counts) && Feasible(counts, share, c) then ScanFrom(counts, share, c + 1) else c - 1
  }

  function ReviewerRowCap(counts: seq<nat>, share: real): nat {
    if share >= 1.0 then Largest(counts) else ScanFrom(counts, share, 1)
  }

  method CountKept(counts: seq<nat>, c: nat) returns (total: nat)
    ensures total == Kept(counts, c)
  {
    total := 0;
    for i := 0 to |counts|
      invariant total == Kept(counts[..i], c)
    {
      assert counts[..i + 1][..i] == counts[..i];
      total := total + Least(counts[i], c);
    }
    assert counts[..|counts|] == counts;
  }

  lemma NoCounts(share: real)
    ensures ReviewerRowCap([], share) == 0
  {
  }

  method ComputeRowCap(counts: seq<nat>, share: real) returns (best: nat)
    ensures best == ReviewerRowCap(counts, share)
  {
    hide Kept, Largest, WithinRowShare;
    if |counts| == 0 { NoCounts(share); return 0; }
    if share >= 1.0 { return Largest(counts); }
    best := 0;
    var c := 1;
    while c <= Largest(counts)
      invariant 1 <= c <= Largest(counts) + 1 && best == c - 1
      invariant ScanFrom(counts, share, c) == ReviewerRowCap(counts, share)
      decreases Largest(counts) + 1 - c
    {
      var total := CountKept(counts, c);
      if WithinRowShare(c, total, share) { best := c; } else { break; }
      c := c + 1;
    }
  }

  // ----- the total kept is concave in the cap -----

  lemma {:induction false} KeptIsConcave(counts: seq<nat>, c: nat)
    ensures 0 <= Kept(counts, c + 2) - Kept(counts, c + 1) <= Kept(counts, c + 1) - Kept(counts, c)
  {
    if counts != [] { KeptIsConcave(counts[..|counts| - 1], c); }
  }

  lemma {:induction false} KeptNothing(counts: seq<nat>)
    ensures Kept(counts, 0) == 0
  {
    if counts != [] { KeptNothing(counts[..|counts| - 1]); }
  }

  /** How much room the share leaves at this cap; feasible means it is not negative. */
  function Room(counts: seq<nat>, share: real, c: nat): real {
    share * Kept(counts, c) as real + ROW_SLACK - c as real
  }

  lemma RoomIsConcave(counts: seq<nat>, share: real, c: nat)
    requires 0.0 <= share
    ensures Room(counts, share, c + 2) - Room(counts, share, c + 1) <=
            Room(counts, share, c + 1) - Room(counts, share, c)
  {
    hide Kept;
    KeptIsConcave(counts, c);
    var k0, k1, k2 := Kept(counts, c) as real, Kept(counts, c + 1) as real, Kept(counts, c + 2) as real;
    MulMonotone(share, k2 - k1, k1 - k0);
    MulDistrib(share, k2, k1);
    MulDistrib(share, k1, k0);
  }

  /** After the first cap that fails, the room only shrinks. */
  lemma {:induction false} RoomFallsAfterFailure(counts: seq<nat>, share: real, c: nat, d: nat)
    requires 0.0 <= share && c < d
    requires Room(counts, share, c + 1) < 0.0 <= Room(counts, share, c)
    ensures Room(counts, share, d) < 0.0
    ensures Room(counts, share, d) < Room(counts, share, d - 1)
    decreases d
  {
    hide Room;
    if d > c + 1 {
      RoomFallsAfterFailure(counts, share, c, d - 1);
      RoomIsConcave(counts, share, d - 2);
    }
  }

  /**
   * Although the scan gives up at the first failure, the cap it returns is the
   * largest feasible one of all: everything up to it is feasible, nothing above is.
   */
  lemma ScanFindsLargestFeasible(counts: seq<nat>, share: real, c: nat)
    requires 0.0 <= share < 1.0 && 1 <= c <= Largest(counts)
    ensures Feasible(counts, share, c) <==> c <= ReviewerRowCap(counts, share)
  {
    hide Kept, Largest, Feasible, Room;
    ScanStops(counts, share, 1);
    var best := ReviewerRowCap(counts, share);
    if best < c {
      StartHasRoom(counts, share);
      FeasibleIffRoom(counts, share, best);
      FeasibleIffRoom(counts, share, best + 1);
      FeasibleIffRoom(counts, share, c);
      RoomFallsAfterFailure(counts, share, best, c);
    }
  }

  /** In numbers: the caps whose rows are at most the share of the rows kept, up to a billionth of a row. */
  lemma FeasibleIsWithinShare(counts: seq<nat>, share: real, c: nat)
    requires 0.0 <= share < 1.0 && 1 <= c <= Largest(counts)
    ensures c <= ReviewerRowCap(counts, share) <==> c as real - share * Kept(counts, c) as real <= 0.000000001
  {
    hide ReviewerRowCap, Kept, Largest;
    ScanFindsLargestFeasible(counts, share, c);
    WithinInNumbers(c, Kept(counts, c), share);
  }

  lemma WithinInNumbers(c: nat, total: nat, share: real)
    ensures WithinRowShare(c, total, share) <==> c as real - share * total as real <= 0.000000001
  {
  }

  lemma StartHasRoom(counts: seq<nat>, share: real)
    ensures Feasible(counts, share, 0)
  {
    KeptNothing(counts);
  }

  lemma FeasibleIffRoom(counts: seq<nat>, share: real, c: nat)
    ensures Feasible(counts, share, c) <==> Room(counts, share, c) >= 0.0
  {
    hide Kept;
  }

  lemma {:induction false} ScanStops(counts: seq<nat>, share: real, c: nat)
    requires 1 <= c <= Largest(counts) + 1
    ensures forall d :: c <= d <= ScanFrom(counts, share, c) ==> Feasible(counts, share, d)
    ensures ScanFrom(counts, share, c) < Largest(counts) ==> !Feasible(counts, share, ScanFrom(counts, share, c) + 1)
    decreases Largest(counts) + 1 - c
  {
    hide Kept, WithinRowShare;
    if c <= Largest(counts) && Feasible(counts, share, c) { ScanStops(counts, share, c + 1); }
  }

  // ----- what the cap guarantees about the sample -----

  lemma {:induction false} EveryCountIsAtMostLargest(counts: seq<nat>, i: nat)
    requires i < |counts|
    ensures counts[i] <= Largest(counts)
  {
    if i < |counts| - 1 {
      assert counts[..|counts| - 1][i] == counts[i];
      EveryCountIsAtMostLargest(counts[..|counts| - 1], i);
    }
  }

  lemma {:induction false} EveryoneKeepsOne(counts: seq<nat>)
    requires forall i :: 0 <= i < |counts| ==> 1 <= counts[i]
    ensures Kept(counts, 1) == |counts|
  {
    if counts != [] { EveryoneKeepsOne(counts[..|counts| - 1]); }
  }

  /** With enough reviewers for the share to be met at one row each, the scan finds a cap of at least one. */
  lemma EnoughReviewersGiveACap(counts: seq<nat>, share: real)
    requires 0.0 <= share <= 1.0 && counts != []
    requires forall i :: 0 <= i < |counts| ==> 1 <= counts[i]
    requires 1.0 <= share * |counts| as real
    ensures 1 <= ReviewerRowCap(counts, share)
  {
    EveryCountIsAtMostLargest(counts, 0);
    if share < 1.0 {
      EveryoneKeepsOne(counts);
      assert Feasible(counts, share, 1);
    }
  }

  /** Under the cap, no reviewer supplies more than the share of the rows that are counted. */
  lemma CappedCountsAreWithinShare(counts: seq<nat>, share: real, i: nat)
    requires 0.0 <= share && i < |counts| && 1 <= ReviewerRowCap(counts, share)
    ensures WithinRowShare(Least(counts[i], ReviewerRowCap(counts, share)), Kept(counts, ReviewerRowCap(counts, share)),
            share)
  {
    hide Kept, Largest, ScanFrom;
    var cap := ReviewerRowCap(counts, share);
    if share < 1.0 {
      ScanFindsLargestFeasible(counts, share, cap);
    } else {
      PartIsAtMostWhole(counts, cap, i);
      WholeIsWithin(Least(counts[i], cap), Kept(counts, cap), share);
    }
  }

  lemma WholeIsWithin(c: nat, total: nat, share: real)
    requires 1.0 <= share && c <= total
    ensures WithinRowShare(c, total, share)
  {
    MulMonotone(total as real, 1.0, share);
    MulComm(total as real, share);
  }

  lemma {:induction false} PartIsAtMostWhole(counts: seq<nat>, c: nat, i: nat)
    requires i < |counts|
    ensures Least(counts[i], c) <= Kept(counts, c)
  {
    if i < |counts| - 1 {
      assert counts[..|counts| - 1][i] == counts[i];
      PartIsAtMostWhole(counts[..|counts| - 1], c, i);
    }
  }
}
