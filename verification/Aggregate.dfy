/**
 * From paired judgements to the aggregate the activation gate reads: windowing,
 * balancing the sample per reviewer, weighting, capping, the median, its interval
 * and the reviewers' votes on direction.
 */
module Aggregate {
  import opened Numbers
  import opened Sorting
  import opened Thresholds
  import RW = ReviewerWeights
  import WM = WeightedMedian
  import RC = RowCap
  import MI = MedianInterval

  type ReviewerId = RW.ReviewerId

  const DAY_MS: int := 24 * 60 * 60 * 1000

  /** One paired judgement; no delta when either side has no level. */
  datatype Observation = Observation(reviewer: ReviewerId, delta: Option<real>, at: int)

  /** `recency` is the weight an observation made at a given time carries at `now`. */
  datatype Input = Input(
    observations: seq<Observation>,
    now: int,
    thresholds: Thresholds,
    excluded: set<ReviewerId>,
    recency: int -> real,
    approx: MI.Approximation)

  datatype Contribution = Contribution(reviewer: ReviewerId, observations: nat, median: real, weightShare: real)

  datatype Aggregate = Aggregate(
    observations: nat,
    observationsInWindow: nat,
    observationsSeen: nat,
    reviewers: nat,
    median: Option<real>,
    interval: Option<MI.Interval>,
    reviewerAgreement: real,
    contributions: seq<Contribution>)

  // ----- the window -----

  predicate Eligible(input: Input, o: Observation) {
    && o.delta.Some?
    && o.reviewer !in input.excluded
    && o.at >= input.now - input.thresholds.windowDays * DAY_MS
  }

  function InWindow(input: Input): seq<Observation> {
    Filter(input.observations, (o: Observation) => Eligible(input, o))
  }

  // ----- balancing the sample -----

  function ByReviewer(r: ReviewerId): Observation -> bool {
    (o: Observation) => o.reviewer == r
  }

  function RowsOf(rows: seq<Observation>, r: ReviewerId): seq<Observation> {
    Filter(rows, ByReviewer(r))
  }

  /** The reviewers in order of first appearance. */
  function Order(rows: seq<Observation>): (keys: seq<ReviewerId>)
    ensures forall r :: r in keys <==> exists i :: 0 <= i < |rows| && rows[i].reviewer == r
    ensures forall i, j :: 0 <= i < j < |keys| ==> keys[i] != keys[j]
  {
    if rows == [] then []
    else
      var n := |rows| - 1;
      assert rows == rows[..n] + [rows[n]];
      if rows[n].reviewer in Order(rows[..n]) then Order(rows[..n]) else Order(rows[..n]) + [rows[n].reviewer]
  }

  function Age(o: Observation): real { -(o.at as real) }
  function Time(o: Observation): real { o.at as real }

  function NewestFirst(rows: seq<Observation>): seq<Observation> {
    SortBy(rows, Age)
  }

  function Take(rows: seq<Observation>, cap: nat): (t: seq<Observation>)
    ensures |t| == RC.Least(|rows|, cap)
  {
    if |rows| <= cap then rows else rows[..cap]
  }

  function KeptOf(rows: seq<Observation>, r: ReviewerId, cap: nat): seq<Observation> {
    Take(NewestFirst(RowsOf(rows, r)), cap)
  }

  function KeptOfAll(rows: seq<Observation>, keys: seq<ReviewerId>, cap: nat): seq<Observation> {
    if keys == [] then []
    else KeptOfAll(rows, keys[..|keys| - 1], cap) + KeptOf(rows, keys[|keys| - 1], cap)
  }

  function Counts(rows: seq<Observation>, keys: seq<ReviewerId>): (c: seq<nat>)
    ensures |c| == |keys|
    ensures forall i :: 0 <= i < |keys| ==> c[i] == |RowsOf(rows, keys[i])|
  {
    seq(|keys|, i requires 0 <= i < |keys| => |RowsOf(rows, keys[i])|)
  }

  function AtLeastOne(cap: nat): nat {
    if cap < 1 then 1 else cap
  }

  function CapFor(rows: seq<Observation>, share: real): nat {
    AtLeastOne(RC.ReviewerRowCap(Counts(rows, Order(rows)), share))
  }

  function Balanced(rows: seq<Observation>, share: real): seq<Observation> {
    SortBy(KeptOfAll(rows, Order(rows), CapFor(rows, share)), Time)
  }

  /** The grouping loop: an insertion-ordered map from reviewer to their rows. */
  method GroupByReviewer(rows: seq<Observation>)
    returns (keys: seq<ReviewerId>, lists: map<ReviewerId, seq<Observation>>)
    ensures keys == Order(rows) && lists.Keys == (set r | r in keys)
    ensures forall r :: r in lists ==> lists[r] == RowsOf(rows, r)
  {
    keys, lists := [], map[];
    for i := 0 to |rows|
      invariant keys == Order(rows[..i]) && lists.Keys == (set r | r in keys)
      invariant forall r :: r in lists ==> lists[r] == RowsOf(rows[..i], r)
    {
      var o := rows[i];
      assert rows[..i + 1][..i] == rows[..i];
      var known := o.reviewer in lists;
      var list := if known then lists[o.reviewer] else [];
      if !known { Unseen(rows[..i], o.reviewer); }
      lists := lists[o.reviewer := list + [o]];
      if !known { keys := keys + [o.reviewer]; }
    }
    assert rows[..|rows|] == rows;
  }

  lemma {:induction false} Unseen(rows: seq<Observation>, r: ReviewerId)
    requires forall i :: 0 <= i < |rows| ==> rows[i].reviewer != r
    ensures RowsOf(rows, r) == []
  {
    if rows != [] { Unseen(rows[..|rows| - 1], r); }
  }

  method BalanceSample(rows: seq<Observation>, share: real) returns (kept: seq<Observation>)
    ensures kept == Balanced(rows, share)
  {
    hide RowsOf, NewestFirst, Order, Take, SortBy, RC.ReviewerRowCap, RC.Kept, RC.Least, KeptOfAll;
    var keys, lists := GroupByReviewer(rows);
    var counts := seq(|keys|, i requires 0 <= i < |keys| => |lists[keys[i]]|);
    assert counts == Counts(rows, keys);
    var rowCap := RC.ComputeRowCap(counts, share);
    var cap := AtLeastOne(rowCap);
    kept := [];
    assert KeptOfAll(rows, [], cap) == [] by { KeptOfNobody(rows, cap); }
    for j := 0 to |keys|
      invariant kept == KeptOfAll(rows, keys[..j], cap)
    {
      assert keys[..j + 1][..j] == keys[..j] && keys[..j + 1][j] == keys[j];
      KeptStep(rows, keys[..j + 1], cap);
      var newestFirst := NewestFirst(lists[keys[j]]);
      kept := kept + Take(newestFirst, cap);
    }
    assert keys[..|keys|] == keys;
    kept := SortBy(kept, Time);
  }

  lemma KeptOfNobody(rows: seq<Observation>, cap: nat)
    ensures KeptOfAll(rows, [], cap) == []
  {
  }

  // ----- what balancing keeps -----

  lemma {:induction false} OthersHaveNone(rows: seq<Observation>, r: ReviewerId, q: ReviewerId)
    requires forall i :: 0 <= i < |rows| ==> rows[i].reviewer == q
    ensures Count(rows, ByReviewer(r)) == if q == r then |rows| else 0
  {
    if rows != [] { OthersHaveNone(rows[..|rows| - 1], r, q); }
  }

  lemma KeptAreOwn(rows: seq<Observation>, r: ReviewerId, cap: nat)
    ensures forall i :: 0 <= i < |KeptOf(rows, r, cap)| ==> KeptOf(rows, r, cap)[i].reviewer == r
    ensures |KeptOf(rows, r, cap)| == RC.Least(|RowsOf(rows, r)|, cap)
  {
    var own, newest := RowsOf(rows, r), NewestFirst(RowsOf(rows, r));
    forall i | 0 <= i < |newest| ensures newest[i].reviewer == r {
      assert newest[i] in multiset(newest);
      assert newest[i] in own;
    }
  }

  lemma {:induction false} KeptCounts(rows: seq<Observation>, keys: seq<ReviewerId>, cap: nat, r: ReviewerId)
    requires forall i, j :: 0 <= i < j < |keys| ==> keys[i] != keys[j]
    ensures Count(KeptOfAll(rows, keys, cap), ByReviewer(r)) == if r in keys then RC.Least(|RowsOf(rows, r)|, cap)
            else 0
    ensures |KeptOfAll(rows, keys, cap)| == RC.Kept(Counts(rows, keys), cap)
  {
    if keys == [] {
      NothingCounted(r);
    } else {
      hide Count, RowsOf, KeptOf, KeptOfAll, RC.Kept, RC.Least, Counts;
      var n := |keys| - 1;
      KeptCounts(rows, keys[..n], cap, r);
      KeptStep(rows, keys, cap);
      var last := KeptOf(rows, keys[n], cap);
      KeptAreOwn(rows, keys[n], cap);
      OthersHaveNone(last, r, keys[n]);
      CountOfConcat(KeptOfAll(rows, keys[..n], cap), last, ByReviewer(r));
      assert r in keys <==> r in keys[..n] || r == keys[n];
    }
  }

  lemma KeptStep(rows: seq<Observation>, keys: seq<ReviewerId>, cap: nat)
    requires keys != []
    ensures var n := |keys| - 1;
      && KeptOfAll(rows, keys, cap) == KeptOfAll(rows, keys[..n], cap) + KeptOf(rows, keys[n], cap)
      && RC.Kept(Counts(rows, keys), cap) ==
          RC.Kept(Counts(rows, keys[..n]), cap) + RC.Least(|RowsOf(rows, keys[n])|, cap)
  {
    hide RowsOf, KeptOf;
    assert Counts(rows, keys)[..|keys| - 1] == Counts(rows, keys[..|keys| - 1]);
  }

  lemma NothingCounted(r: ReviewerId)
    ensures Count([], ByReviewer(r)) == 0
  {
  }

  /** Each reviewer keeps the smaller of what they filed and the cap, whoever they are. */
  lemma BalancedCounts(rows: seq<Observation>, share: real, r: ReviewerId)
    ensures Count(Balanced(rows, share), ByReviewer(r)) == RC.Least(Count(rows, ByReviewer(r)), CapFor(rows, share))
    ensures |Balanced(rows, share)| == RC.Kept(Counts(rows, Order(rows)), CapFor(rows, share))
  {
    hide CapFor, Count;
    var keys, cap := Order(rows), CapFor(rows, share);
    KeptCounts(rows, keys, cap, r);
    CountOfSort(KeptOfAll(rows, keys, cap), Time, ByReviewer(r));
    CountIsRows(rows, r);
    if r !in keys { Unseen(rows, r); }
  }

  /** Where no cap is feasible, everyone keeps exactly their newest row. */
  lemma WithoutACapOneRowEach(rows: seq<Observation>, share: real, r: ReviewerId)
    ensures var cap, filed := RC.ReviewerRowCap(Counts(rows, Order(rows)), share), Count(rows, ByReviewer(r));
      Count(Balanced(rows, share), ByReviewer(r)) ==
      if filed == 0 then 0 else if cap == 0 then 1 else if filed < cap then filed else cap
  {
    hide RC.ReviewerRowCap, Count, Order, Balanced;
    BalancedCounts(rows, share, r);
  }

  lemma CountIsRows(rows: seq<Observation>, r: ReviewerId)
    ensures Count(rows, ByReviewer(r)) == |RowsOf(rows, r)|
  {
  }

  /** What a reviewer keeps is their newest: nothing dropped is newer than anything kept. */
  lemma KeepsTheNewest(rows: seq<Observation>, r: ReviewerId, cap: nat) returns (dropped: seq<Observation>)
    ensures multiset(KeptOf(rows, r, cap)) + multiset(dropped) == multiset(RowsOf(rows, r))
    ensures forall k, d :: k in KeptOf(rows, r, cap) && d in dropped ==> k.at >= d.at
  {
    var newest := NewestFirst(RowsOf(rows, r));
    SortByIsSorted(RowsOf(rows, r), Age);
    var n := RC.Least(|newest|, cap);
    dropped := newest[n..];
    assert KeptOf(rows, r, cap) == newest[..n];
    hide Sorted, RowsOf, KeptOf, SortBy;
    assert newest == newest[..n] + dropped;
    forall k, d | k in newest[..n] && d in dropped ensures k.at >= d.at { NoneNewerBehind(newest, n, k, d); }
  }

  /** In a list from the newest on, nothing behind a position is newer than anything before it. */
  lemma NoneNewerBehind(newest: seq<Observation>, n: nat, k: Observation, d: Observation)
    requires Sorted(newest, Age) && n <= |newest| && k in newest[..n] && d in newest[n..]
    ensures k.at >= d.at
  {
    var i :| 0 <= i < n && newest[..n][i] == k;
    var j :| 0 <= j < |newest| - n && newest[n..][j] == d;
    assert Age(newest[i]) <= Age(newest[n + j]);
  }

  lemma {:induction false} BalancedIsFromRows(rows: seq<Observation>, keys: seq<ReviewerId>, cap: nat)
    ensures forall o :: o in KeptOfAll(rows, keys, cap) ==> o in rows
  {
    if keys != [] {
      var n := |keys| - 1;
      BalancedIsFromRows(rows, keys[..n], cap);
      var newest := NewestFirst(RowsOf(rows, keys[n]));
      forall o | o in newest ensures o in rows {
        assert o in multiset(newest);
        assert o in RowsOf(rows, keys[n]);
      }
    }
  }

  /** What counts: paired, not held out, and filed no more than the window's days, in milliseconds, before now. */
  lemma WindowHolds(input: Input)
    ensures forall o :: o in InWindow(input) <==>
              && o in input.observations && o.delta.Some? && o.reviewer !in input.excluded
              && input.now - o.at <= input.thresholds.windowDays * 86400000
  {
  }

  lemma BalancedAreEligible(input: Input)
    ensures forall o :: o in Balanced(InWindow(input), input.thresholds.maxReviewerWeightShare) ==>
              && o in input.observations && o.delta.Some? && o.reviewer !in input.excluded
              && input.now - o.at <= input.thresholds.windowDays * 86400000
  {
    var rows, share := InWindow(input), input.thresholds.maxReviewerWeightShare;
    var all := KeptOfAll(rows, Order(rows), CapFor(rows, share));
    WindowHolds(input);
    BalancedIsFromRows(rows, Order(rows), CapFor(rows, share));
    forall o | o in Balanced(rows, share) ensures o in rows {
      assert o in multiset(SortBy(all, Time));
      assert o in all;
    }
  }

  /** The balanced sample is in the order it was filed. */
  lemma BalancedInOrder(rows: seq<Observation>, share: real)
    ensures var kept := Balanced(rows, share); forall i, j :: 0 <= i < j < |kept| ==> kept[i].at <= kept[j].at
  {
    hide Order, CapFor, KeptOfAll;
    var kept := Balanced(rows, share);
    SortByIsSorted(KeptOfAll(rows, Order(rows), CapFor(rows, share)), Time);
    forall i, j | 0 <= i < j < |kept| ensures kept[i].at <= kept[j].at { assert Time(kept[i]) <= Time(kept[j]); }
  }

  /** With the required reviewers present, nobody supplies more than their share of the balanced rows. */
  lemma NobodyDominatesTheSample(rows: seq<Observation>, share: real, r: ReviewerId)
    requires 0.0 <= share <= 1.0 && rows != [] && 1.0 <= share * |Order(rows)| as real
    ensures RC.WithinRowShare(Count(Balanced(rows, share), ByReviewer(r)), |Balanced(rows, share)|, share)
  {
    hide RC.ReviewerRowCap, RC.Kept, Balanced, Count, RowsOf, RC.WithinRowShare, Order;
    var keys := Order(rows);
    var counts := Counts(rows, keys);
    EveryoneFiled(rows);
    assert rows[0].reviewer in keys;
    RC.EnoughReviewersGiveACap(counts, share);
    BalancedCounts(rows, share, r);
    CountIsRows(rows, r);
    if r in keys {
      var i :| 0 <= i < |keys| && keys[i] == r;
      RC.CappedCountsAreWithinShare(counts, share, i);
    } else {
      Unseen(rows, r);
      NoneIsWithin(|Balanced(rows, share)|, share);
    }
  }

  lemma NobodyFiled()
    ensures Order([]) == []
  {
  }

  lemma EveryoneFiled(rows: seq<Observation>)
    ensures forall i :: 0 <= i < |Order(rows)| ==> 1 <= Counts(rows, Order(rows))[i]
  {
    hide Order;
    var keys := Order(rows);
    forall i | 0 <= i < |keys| ensures 1 <= |RowsOf(rows, keys[i])| {
      assert keys[i] in keys;
      var j :| 0 <= j < |rows| && rows[j].reviewer == keys[i];
      assert rows[j] in RowsOf(rows, keys[i]);
    }
  }

  lemma NoneIsWithin(total: nat, share: real)
    requires 0.0 <= share
    ensures RC.WithinRowShare(0, total, share)
  {
  }

  lemma {:induction false} FiledIffCounted(rows: seq<Observation>, r: ReviewerId)
    ensures r in Order(rows) <==> Count(rows, ByReviewer(r)) > 0
  {
    if rows != [] {
      var n := |rows| - 1;
      FiledIffCounted(rows[..n], r);
      assert rows == rows[..n] + [rows[n]];
    }
  }

  function Members(keys: seq<ReviewerId>): set<ReviewerId> {
    set r | r in keys
  }

  lemma {:induction false} DistinctToSet(keys: seq<ReviewerId>)
    requires forall i, j :: 0 <= i < j < |keys| ==> keys[i] != keys[j]
    ensures |Members(keys)| == |keys|
  {
    if keys != [] {
      var n := |keys| - 1;
      DistinctToSet(keys[..n]);
      assert keys[n] !in Members(keys[..n]);
      assert Members(keys) == Members(keys[..n]) + {keys[n]} by {
        assert keys == keys[..n] + [keys[n]];
      }
    }
  }

  /** Balancing never loses a reviewer: everyone who filed keeps at least one row. */
  lemma BalancingKeepsEveryReviewer(rows: seq<Observation>, share: real)
    ensures |Order(Balanced(rows, share))| == |Order(rows)|
  {
    hide Order, Balanced, Count, RC.Kept, RC.ReviewerRowCap;
    var kept := Balanced(rows, share);
    forall r ensures r in Order(kept) <==> r in Order(rows) {
      FiledIffCounted(kept, r);
      FiledIffCounted(rows, r);
      BalancedCounts(rows, share, r);
    }
    DistinctToSet(Order(kept));
    DistinctToSet(Order(rows));
    assert Members(Order(kept)) == Members(Order(rows));
  }

  // ----- the aggregate -----

  function DeltaOf(o: Observation): real { OrZero(o.delta) }

  function Deltas(rows: seq<Observation>): (d: seq<real>)
    ensures |d| == |rows|
  {
    if rows == [] then [] else Deltas(rows[..|rows| - 1]) + [DeltaOf(rows[|rows| - 1])]
  }

  function Weighted(rows: seq<Observation>, recency: int -> real): (w: seq<RW.Row>)
    ensures |w| == |rows|
    ensures forall i :: 0 <= i < |rows| ==> w[i] == RW.Row(DeltaOf(rows[i]), recency(rows[i].at), rows[i].reviewer)
  {
    seq(|rows|, i requires 0 <= i < |rows| => RW.Row(DeltaOf(rows[i]), recency(rows[i].at), rows[i].reviewer))
  }

  function OrOne(total: real): real {
    if total == 0.0 then 1.0 else total
  }

  function ContributionOf(rows: seq<Observation>, capped: seq<RW.Row>, r: ReviewerId): Contribution {
    var own := RowsOf(rows, r);
    Contribution(r, |own|, MI.PlainMedian(Deltas(own)), RW.Of(capped, r) / OrOne(RW.Total(capped)))
  }

  function ContributionsOf(rows: seq<Observation>, capped: seq<RW.Row>, keys: seq<ReviewerId>): seq<Contribution> {
    if keys == [] then []
    else ContributionsOf(rows, capped, keys[..|keys| - 1]) + [ContributionOf(rows, capped, keys[|keys| - 1])]
  }

  function Fewest(c: Contribution): real { -(c.observations as real) }

  function HasDirection(): Contribution -> bool {
    (c: Contribution) => Sign(c.median) != 0
  }

  function Points(direction: int): Contribution -> bool {
    (c: Contribution) => Sign(c.median) == direction
  }

  function DirectionOf(median: Option<real>): int {
    match median
    case Some(m) => Sign(m)
    case None => 0
  }

  /** One vote per reviewer with a direction: the share whose own median points the aggregate's way. */
  function Agreement(contributions: seq<Contribution>, median: Option<real>): real {
    var withDirection := Filter(contributions, HasDirection());
    if withDirection == [] then 0.0
    else |Filter(withDirection, Points(DirectionOf(median)))| as real / |withDirection| as real
  }

  function Sample(input: Input): seq<Observation> {
    Balanced(InWindow(input), input.thresholds.maxReviewerWeightShare)
  }

  function CappedRows(input: Input): seq<RW.Row> {
    RW.Capped(Weighted(Sample(input), input.recency), input.thresholds.maxReviewerWeightShare)
  }

  function Contributions(input: Input): seq<Contribution> {
    SortBy(ContributionsOf(Sample(input), CappedRows(input), Order(Sample(input))), Fewest)
  }

  function AggregateOf(input: Input): Aggregate {
    var sample := Sample(input);
    var median := WM.MedianOf(CappedRows(input));
    Aggregate(
      |sample|,
      |InWindow(input)|,
      |input.observations|,
      |Order(sample)|,
      median,
      MI.IntervalOf(Deltas(sample), input.thresholds.confidence, input.approx),
      Agreement(Contributions(input), median),
      Contributions(input))
  }

  /** What the aggregation keeps for each reviewer. */
  datatype Entry = Entry(deltas: seq<real>, weight: real)

  function EntryOf(rows: seq<Observation>, capped: seq<RW.Row>, r: ReviewerId): Entry {
    Entry(Deltas(RowsOf(rows, r)), RW.Of(capped, r))
  }

  /** The per-reviewer loop: each reviewer's deltas and capped weight, in order of first appearance. */
  method CollectByReviewer(rows: seq<Observation>, capped: seq<RW.Row>)
    returns (keys: seq<ReviewerId>, entries: map<ReviewerId, Entry>)
    requires |capped| == |rows| && forall i :: 0 <= i < |rows| ==> capped[i].reviewer == rows[i].reviewer
    ensures keys == Order(rows) && entries.Keys == (set r | r in keys)
    ensures forall r :: r in entries ==> entries[r] == EntryOf(rows, capped, r)
  {
    hide EntryOf, Order;
    keys, entries := [], map[];
    NobodyFiled();
    for i := 0 to |rows|
      invariant keys == Order(rows[..i]) && entries.Keys == (set r | r in keys)
      invariant forall r :: r in entries ==> entries[r] == EntryOf(rows[..i], capped[..i], r)
    {
      var o := rows[i];
      assert rows[..i + 1][..i] == rows[..i];
      var known := o.reviewer in entries;
      if !known { NoEntryYet(rows[..i], capped[..i], o.reviewer); }
      EntryStep(rows, capped, i);
      OrderStep(rows, i);
      var entry := if known then entries[o.reviewer] else Entry([], 0.0);
      entries := entries[o.reviewer := Entry(entry.deltas + [DeltaOf(o)], entry.weight + capped[i].weight)];
      if !known { keys := keys + [o.reviewer]; }
    }
    assert rows[..|rows|] == rows && capped[..|rows|] == capped;
  }

  lemma OrderStep(rows: seq<Observation>, i: nat)
    requires i < |rows|
    ensures Order(rows[..i + 1]) ==
            if rows[i].reviewer in Order(rows[..i]) then Order(rows[..i]) else Order(rows[..i]) + [rows[i].reviewer]
  {
    assert rows[..i + 1][..i] == rows[..i];
  }

  lemma NoEntryYet(rows: seq<Observation>, capped: seq<RW.Row>, r: ReviewerId)
    requires |capped| == |rows| && forall i :: 0 <= i < |rows| ==> capped[i].reviewer == rows[i].reviewer != r
    ensures EntryOf(rows, capped, r) == Entry([], 0.0)
  {
    Unseen(rows, r);
    RW.AbsentCarriesNothing(capped, r);
  }

  function Extended(e: Entry, r: ReviewerId, o: Observation, weight: real): Entry {
    if o.reviewer == r then Entry(e.deltas + [DeltaOf(o)], e.weight + weight) else e
  }

  lemma EntryStep(rows: seq<Observation>, capped: seq<RW.Row>, i: nat)
    requires i < |rows| == |capped| && capped[i].reviewer == rows[i].reviewer
    ensures forall r :: EntryOf(rows[..i + 1], capped[..i + 1], r) ==
                        Extended(EntryOf(rows[..i], capped[..i], r), r, rows[i], capped[i].weight)
  {
    assert rows[..i + 1][..i] == rows[..i] && capped[..i + 1][..i] == capped[..i];
    forall r
      ensures EntryOf(rows[..i + 1], capped[..i + 1], r) ==
              Extended(EntryOf(rows[..i], capped[..i], r), r, rows[i], capped[i].weight)
    {
      var own := RowsOf(rows[..i], r);
      assert (own + [rows[i]])[..|own|] == own;
    }
  }

  method ComputeAggregate(input: Input) returns (a: Aggregate)
    ensures a == AggregateOf(input)
  {
    hide Order, Balanced, RW.Capped, RW.Of, RW.Total, RowsOf, Deltas, MI.IntervalOf, MI.PlainMedian, WM.MedianOf,
      Agreement, SortBy;
    var share := input.thresholds.maxReviewerWeightShare;
    var rawInWindow := InWindow(input);
    var inWindow := BalanceSample(rawInWindow, share);
    var weighted := Weighted(inWindow, input.recency);
    var capped := RW.CapReviewerWeights(weighted, share);
    var median := WM.ComputeMedian(capped);
    var interval := MI.ComputeInterval(Deltas(inWindow), input.thresholds.confidence, input.approx);
    var total := RW.SumWeights(capped);
    var cappedTotal := OrOne(total);
    var keys, entries := CollectByReviewer(inWindow, capped);
    var contributions := [];
    for j := 0 to |keys|
      invariant contributions == ContributionsOf(inWindow, capped, keys[..j])
    {
      assert keys[..j + 1][..j] == keys[..j] && keys[..j + 1][j] == keys[j];
      var r := keys[j];
      DeltaCount(RowsOf(inWindow, r));
      var e := entries[r];
      contributions := contributions + [Contribution(r, |e.deltas|, MI.PlainMedian(e.deltas), e.weight / cappedTotal)];
    }
    assert keys[..|keys|] == keys;
    contributions := SortBy(contributions, Fewest);
    var agreement := Agreement(contributions, median);
    a := Aggregate(|inWindow|, |rawInWindow|, |input.observations|, |keys|, median, interval, agreement, contributions);
  }

  lemma DeltaCount(rows: seq<Observation>)
    ensures |Deltas(rows)| == |rows|
  {
  }
}
