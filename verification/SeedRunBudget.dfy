/** How many lane calls a run can make: bounds over every interleaving. */
module SeedRunBudget {
  import opened Numbers
  import opened SeedRun
  import opened SeedRunSafety
  import S = Scheduler

  /** Calls a worker may still make before its pool ends, whatever it is answered. */
  function Remaining(phase: Phase): nat {
    if !phase.Working? then 0
    else
      var upcoming :=
        match phase.stage
        case WriteStandard => 4
        case WriteQuestions => 3
        case Critique => 2
        case BreakTie => 1
        case Assemble => 0;
      if phase.calling && upcoming > 0 then upcoming - 1 else upcoming
  }

  /** The same, counting one lane only. */
  function RemainingOn(phase: Phase, lane: S.Lane): nat {
    if !phase.Working? then 0
    else
      var a, stage, calling := phase.assignment, phase.stage, phase.calling;
      var writes :=
        match stage
        case WriteStandard => if calling then 1 else 2
        case WriteQuestions => if calling then 0 else 1
        case _ => 0;
      var critiques :=
        match stage
        case WriteStandard => 1
        case WriteQuestions => 1
        case Critique => if calling then 0 else 1
        case _ => 0;
      var ties :=
        match stage
        case BreakTie => if calling then 0 else 1
        case Assemble => 0
        case _ => 1;
      (if a.generator == lane then writes else 0) + (if a.critic == lane then critiques else 0)
        + (if a.tiebreak == Some(lane) then ties else 0)
  }

  function Sum(workers: seq<Phase>, f: Phase -> nat): nat {
    if workers == [] then 0 else Sum(workers[..|workers| - 1], f) + f(workers[|workers| - 1])
  }

  lemma {:induction false} SumAfterUpdate(workers: seq<Phase>, w: nat, phase: Phase, f: Phase -> nat)
    requires w < |workers|
    ensures Sum(workers[w := phase], f) + f(workers[w]) == Sum(workers, f) + f(phase)
  {
    var n := |workers| - 1;
    if w == n {
      assert workers[w := phase][..n] == workers[..n];
    } else {
      SumAfterUpdate(workers[..n], w, phase, f);
      assert workers[w := phase][..n] == workers[..n][w := phase];
    }
  }

  lemma {:induction false} SumIsBounded(workers: seq<Phase>, f: Phase -> nat, each: nat)
    requires forall i :: 0 <= i < |workers| ==> f(workers[i]) <= each
    ensures Sum(workers, f) <= each * |workers|
  {
    if workers != [] { SumIsBounded(workers[..|workers| - 1], f, each); }
  }

  /** One more call on a lane adds at most one to the total, and nothing to any other lane. */
  lemma {:induction false} CountAddsOne(lanes: S.Lanes, order: seq<S.Lane>, lane: S.Lane)
    requires S.Distinct(order) && lane in lanes
    ensures var more := lanes[lane := lanes[lane].(calls := lanes[lane].calls + 1)];
      TotalCalls(more, order) == TotalCalls(lanes, order) + if lane in order then 1 else 0
  {
    if order != [] {
      var n := |order| - 1;
      CountAddsOne(lanes, order[..n], lane);
      assert order == order[..n] + [order[n]];
      assert order[n] !in order[..n];
    }
  }

  /** The same calls were made on every lane. */
  ghost predicate SameCalls(lanes: S.Lanes, later: S.Lanes) {
    later.Keys == lanes.Keys && forall l :: l in lanes ==> later[l].calls == lanes[l].calls
  }

  lemma {:induction false} SameCallsSameTotal(lanes: S.Lanes, later: S.Lanes, order: seq<S.Lane>)
    requires SameCalls(lanes, later)
    ensures TotalCalls(later, order) == TotalCalls(lanes, order)
  {
    if order != [] { SameCallsSameTotal(lanes, later, order[..|order| - 1]); }
  }

  lemma ParkingCountsNothing(lanes: S.Lanes, lane: S.Lane, until: int)
    requires lane in lanes
    ensures SameCalls(lanes, Park(lanes, lane, until))
  {
  }

  lemma SettlingCountsNothing(lanes: S.Lanes, lane: S.Lane, r: Reply)
    requires lane in lanes
    ensures SameCalls(lanes, Settled(lanes, lane, r))
  {
    hide S.Backoff;
  }

  /** Calls made plus calls still allowed for. */
  function Committed(s: State, x: Setup): nat {
    TotalCalls(s.lanes, x.cfg.lanes) + Sum(s.workers, Remaining)
  }

  function OnLane(lane: S.Lane): Phase -> nat {
    (phase: Phase) => RemainingOn(phase, lane)
  }

  function CommittedOn(s: State, lane: S.Lane): nat
    requires lane in s.lanes
  {
    s.lanes[lane].calls + Sum(s.workers, OnLane(lane))
  }

  /** The lanes a worker was given are pairwise different and known. */
  ghost predicate Assigned(s: State, x: Setup) {
    && S.Distinct(x.cfg.lanes) && S.Covers(s.lanes, x.cfg) && Indexed(s, x)
    && forall w :: 0 <= w < |s.workers| && s.workers[w].Working? ==> DistinctLanes(s.workers[w].assignment)
  }

  predicate DistinctLanes(a: S.Assignment) {
    && a.generator != a.critic
    && (a.tiebreak.Some? ==> a.tiebreak.value != a.generator && a.tiebreak.value != a.critic)
  }

  /** How one step changes one worker's allowance and the calls made. */
  ghost predicate Spends(s: State, t: State, x: Setup, w: nat) {
    && w < |s.workers| == |t.workers| && t.workers == s.workers[w := t.workers[w]]
    && TotalCalls(t.lanes, x.cfg.lanes) + Remaining(t.workers[w]) <=
        TotalCalls(s.lanes, x.cfg.lanes) + Remaining(s.workers[w])
  }

  /** A pool is only taken on while the total is under its limit, and allows for four calls. */
  ghost predicate TakesOn(s: State, t: State, x: Setup, w: nat) {
    && w < |s.workers| == |t.workers| && t.workers == s.workers[w := t.workers[w]] && t.lanes == s.lanes
    && Remaining(t.workers[w]) <= 4
    && (x.opts.maxCalls.Some? ==> TotalCalls(s.lanes, x.cfg.lanes) < x.opts.maxCalls.value)
  }

  lemma StepSpends(s: State, x: Setup, e: Event)
    requires Assigned(s, x) && Enabled(s, x, e)
    ensures e.worker < |s.workers| && (Spends(s, Step(s, x, e), x, e.worker) || TakesOn(s, Step(s, x, e), x, e.worker))
  {
    hide WakeUp, Return, StageFails, End, Release, TotalCalls;
    if e.CallStarts? {
      CountAddsOne(s.lanes, x.cfg.lanes, LaneOf(s, e.worker));
    } else if e.Wake? {
      WakeSpends(s, x, e);
    } else {
      OthersCountNothing(s, x, e);
      AnswerSpends(s, x, e);
    }
  }

  lemma WakeSpends(s: State, x: Setup, e: Event)
    requires Assigned(s, x) && Enabled(s, x, e) && e.Wake?
    ensures Spends(s, Step(s, x, e), x, e.worker) || TakesOn(s, Step(s, x, e), x, e.worker)
  {
    hide S.Assign, S.NextWake, TotalCalls, NeedsStandard, WillCreate, FirstEligible;
  }

  /** Apart from a call that starts, no event of a worker counts a call. */
  lemma OthersCountNothing(s: State, x: Setup, e: Event)
    requires Indexed(s, x) && Enabled(s, x, e) && !e.Wake? && !e.CallStarts?
    ensures SameCalls(s.lanes, Step(s, x, e).lanes)
  {
    hide Settled, Park, ApplyOutcome, StoreStandard;
    match e
    case CallSkipped(w, _, until) => ParkingCountsNothing(s.lanes, LaneOf(s, w), until);
    case CallReturns(w, r) => SettlingCountsNothing(s.lanes, LaneOf(s, w), r);
    case _ =>
  }

  /** No answer gives a worker more calls to make. */
  lemma AnswersAllowNoMore(s: State, x: Setup, e: Event, lane: S.Lane)
    requires Indexed(s, x) && Enabled(s, x, e) && !e.Wake? && !e.CallStarts?
    ensures AllowsNoMore(s, Step(s, x, e), e.worker, lane)
  {
    hide Settled, Park, WakeUp, StageFails, Return, End, Remaining, RemainingOn;
    match e
    case CallSkipped(w, reason, until) =>
      FailingAllowsNoMore(s.(lanes := Park(s.lanes, LaneOf(s, w), until)), x, w, reason, true, lane);
    case CallReturns(w, r) => ReplyAllowsNoMore(s.(lanes := Settled(s.lanes, LaneOf(s, w), r)), x, w, r, lane);
    case PoolAssembled(w, accepted, rejected) => EndingAllowsNoMore(s, x, w, Finished(accepted, rejected), lane);
    case WorkerCrashes(w) => IdleAllowsNothing(Crashed, lane);
    case _ =>
  }

  /** From s to t the worker has no more calls to make. */
  ghost predicate AllowsNoMore(s: State, t: State, w: nat, lane: S.Lane) {
    && w < |s.workers| == |t.workers| && t.workers == s.workers[w := t.workers[w]]
    && Remaining(t.workers[w]) <= Remaining(s.workers[w])
    && RemainingOn(t.workers[w], lane) <= RemainingOn(s.workers[w], lane)
  }

  lemma IdleAllowsNothing(phase: Phase, lane: S.Lane)
    requires !phase.Working?
    ensures Remaining(phase) == 0 && RemainingOn(phase, lane) == 0
  {
  }

  lemma EndingAllowsNoMore(s: State, x: Setup, w: nat, o: Outcome, lane: S.Lane)
    requires Indexed(s, x) && IsWorking(s, w)
    ensures AllowsNoMore(s, End(s, x, w, o), w, lane)
  {
    hide ApplyOutcome, StoreStandard, Remaining, RemainingOn;
    IdleAllowsNothing(Ready, lane);
  }

  lemma FailingAllowsNoMore(s: State, x: Setup, w: nat, reason: Reason, laneLimited: bool, lane: S.Lane)
    requires Indexed(s, x) && IsWorking(s, w)
    ensures AllowsNoMore(s, StageFails(s, x, w, reason, laneLimited), w, lane)
  {
    hide End;
    EndingAllowsNoMore(s, x, w, Errored(reason, laneLimited), lane);
  }

  lemma ReplyAllowsNoMore(s: State, x: Setup, w: nat, r: Reply, lane: S.Lane)
    requires Indexed(s, x) && IsWorking(s, w) && s.workers[w].calling
    ensures AllowsNoMore(s, Return(s, x, w, r), w, lane)
  {
    hide End, StageFails;
    match r
    case LimitReached(reason, _) => FailingAllowsNoMore(s, x, w, reason, true, lane);
    case CallFailed(reason, _) => FailingAllowsNoMore(s, x, w, reason, false, lane);
    case Unusable(reason) => EndingAllowsNoMore(s, x, w, Errored(reason, false), lane);
    case Answer(_, _) =>
  }

  lemma AnswerSpends(s: State, x: Setup, e: Event)
    requires Assigned(s, x) && Enabled(s, x, e) && !e.Wake? && !e.CallStarts?
    requires SameCalls(s.lanes, Step(s, x, e).lanes)
    ensures Spends(s, Step(s, x, e), x, e.worker)
  {
    AnswersAllowNoMore(s, x, e, 0);
    SameCallsSameTotal(s.lanes, Step(s, x, e).lanes, x.cfg.lanes);
    hide Step, Enabled, Remaining, RemainingOn, TotalCalls;
  }

  lemma AllowanceIsAtMostFour(workers: seq<Phase>)
    ensures Sum(workers, Remaining) <= 4 * |workers|
  {
    SumIsBounded(workers, Remaining, 4);
  }

  /** A step never commits more than was committed, or than the limit allows with every worker mid-pool. */
  lemma StepKeepsBudget(s: State, x: Setup, e: Event, bound: nat)
    requires Assigned(s, x) && Enabled(s, x, e) && x.opts.maxCalls.Some? && |s.workers| >= 1
    requires Committed(s, x) <= bound && x.opts.maxCalls.value + 4 * |s.workers| <= bound + 1
    ensures Committed(Step(s, x, e), x) <= bound
  {
    hide TotalCalls, Remaining, Sum;
    var t := Step(s, x, e);
    StepSpends(s, x, e);
    hide Step, Enabled;
    SumAfterUpdate(s.workers, e.worker, t.workers[e.worker], Remaining);
    AllowanceIsAtMostFour(t.workers);
  }

  lemma StepKeepsAssigned(s: State, x: Setup, e: Event)
    requires Assigned(s, x) && Enabled(s, x, e)
    ensures Assigned(Step(s, x, e), x)
  {
    StepKeepsIndexed(s, x, e);
    StepKeepsLanes(s, x, e);
    var t := Step(s, x, e);
    forall w | 0 <= w < |t.workers| && t.workers[w].Working? ensures DistinctLanes(t.workers[w].assignment) {
      if s.workers[w].Working? { StepKeepsAssignment(s, x, e, w); } else { NewAssignment(s, x, e, w); }
    }
  }

  lemma StepKeepsLanes(s: State, x: Setup, e: Event)
    requires Indexed(s, x) && Enabled(s, x, e)
    ensures Step(s, x, e).lanes.Keys == s.lanes.Keys
  {
    if e.Wake? {
      hide S.Assign, S.NextWake, TotalCalls, WillCreate, NeedsStandard, FirstEligible;
    } else if !e.CallStarts? {
      OthersCountNothing(s, x, e);
      hide Step;
    }
  }

  lemma StepKeepsAssignment(s: State, x: Setup, e: Event, w: nat)
    requires Indexed(s, x) && Enabled(s, x, e) && IsWorking(s, w)
    ensures IsWorking(Step(s, x, e), w) ==> Step(s, x, e).workers[w].assignment == s.workers[w].assignment
  {
    StepKeepsIndexed(s, x, e);
    StepShape(s, x, e);
    hide Step, Enabled, ApplyOutcome, StoreStandard, Eligible;
  }

  /** A worker that starts working was given lanes by the scheduler on the state it woke up in. */
  lemma NewAssignment(s: State, x: Setup, e: Event, w: nat)
    requires Assigned(s, x) && Enabled(s, x, e)
    requires w < |s.workers| && !s.workers[w].Working? && Step(s, x, e).workers[w].Working?
    ensures e.Wake? && e.worker == w && Step(s, x, e).lanes == s.lanes
    ensures var a := Step(s, x, e).workers[w].assignment;
      && DistinctLanes(a)
      && S.CanRun(s.lanes, x.cfg, e.at)(a.generator) && S.CanRun(s.lanes, x.cfg, e.at)(a.critic)
      && (a.tiebreak.Some? ==> S.CanRun(s.lanes, x.cfg, e.at)(a.tiebreak.value))
  {
    hide WakeUp, Return, StageFails, End, Release, TotalCalls, S.CanRun;
    if e.Wake? && e.worker == w {
      WakeAssigns(s, x, w, e.at, e.stopped);
    } else {
      OnlyWakingStarts(s, x, e, w);
    }
  }

  lemma WakeAssigns(s: State, x: Setup, w: nat, at: int, stopped: bool)
    requires S.Distinct(x.cfg.lanes) && w < |s.workers| && !s.workers[w].Working?
    ensures var t := WakeUp(s, x, w, at, stopped);
      w < |t.workers| && t.lanes == s.lanes &&
      (t.workers[w].Working? ==>
        var a := t.workers[w].assignment;
        && DistinctLanes(a)
        && S.CanRun(s.lanes, x.cfg, at)(a.generator) && S.CanRun(s.lanes, x.cfg, at)(a.critic)
        && (a.tiebreak.Some? ==> S.CanRun(s.lanes, x.cfg, at)(a.tiebreak.value)))
  {
    hide S.NextWake, TotalCalls, NeedsStandard, WillCreate, S.Assign, S.CanRun, S.CanWrite;
    var next := FirstEligible(s, x.pools, 0);
    if next.Some? && x.pools[next.value].key in s.pools {
      var index := next.value + s.pools[x.pools[next.value].key].attempts;
      if S.Assign(s.lanes, x.cfg, index, at).Some? {
        S.AssignedLanesAreDistinctAndUsable(s.lanes, x.cfg, index, at);
        S.WritersCanRun(s.lanes, x.cfg, at, S.Assign(s.lanes, x.cfg, index, at).value.generator);
      }
    }
  }

  lemma OnlyWakingStarts(s: State, x: Setup, e: Event, w: nat)
    requires Indexed(s, x) && Enabled(s, x, e) && w < |s.workers| && !s.workers[w].Working?
    requires !(e.Wake? && e.worker == w)
    ensures w < |Step(s, x, e).workers| && !Step(s, x, e).workers[w].Working?
  {
    StepKeepsIndexed(s, x, e);
    StepShape(s, x, e);
    assert e.worker != w;
    hide Step, Enabled, Shaped;
    ShapeTouches(s, Step(s, x, e), x, e.worker);
  }

  /** How one step changes one worker's allowance on a lane. */
  ghost predicate SpendsOn(s: State, t: State, lane: S.Lane, w: nat)
    requires lane in s.lanes
  {
    && lane in t.lanes
    && w < |s.workers| == |t.workers| && t.workers == s.workers[w := t.workers[w]]
    && t.lanes[lane].calls + RemainingOn(t.workers[w], lane) <= s.lanes[lane].calls + RemainingOn(s.workers[w], lane)
  }

  /** A lane is only given out while it has calls left, and at most two are allowed for. */
  ghost predicate TakesOnLane(s: State, t: State, x: Setup, lane: S.Lane, w: nat)
    requires lane in s.lanes
  {
    && w < |s.workers| == |t.workers| && t.workers == s.workers[w := t.workers[w]] && t.lanes == s.lanes
    && RemainingOn(t.workers[w], lane) <= 2
    && (x.cfg.maxCallsPerLane.Some? ==> s.lanes[lane].calls < x.cfg.maxCallsPerLane.value)
  }

  lemma StepSpendsOn(s: State, x: Setup, e: Event, lane: S.Lane)
    requires Assigned(s, x) && Enabled(s, x, e) && lane in s.lanes
    ensures var t := Step(s, x, e);
      e.worker < |s.workers| && (SpendsOn(s, t, lane, e.worker) || TakesOnLane(s, t, x, lane, e.worker))
  {
    hide WakeUp, Return, StageFails, End, Release, TotalCalls;
    if e.Wake? {
      WakeSpendsOn(s, x, e, lane);
    } else if !e.CallStarts? {
      OthersCountNothing(s, x, e);
      AnswersAllowNoMore(s, x, e, lane);
      hide Step, Enabled, RemainingOn, Remaining;
    }
  }

  lemma WakeSpendsOn(s: State, x: Setup, e: Event, lane: S.Lane)
    requires Assigned(s, x) && Enabled(s, x, e) && e.Wake? && lane in s.lanes
    ensures var t := Step(s, x, e); SpendsOn(s, t, lane, e.worker) || TakesOnLane(s, t, x, lane, e.worker)
  {
    hide S.Assign, S.NextWake, TotalCalls, NeedsStandard, WillCreate, FirstEligible;
    var t, w := Step(s, x, e), e.worker;
    if t.workers[w].Working? { NewAssignment(s, x, e, w); }
  }

  lemma StepKeepsLaneBudget(s: State, x: Setup, e: Event, lane: S.Lane, bound: nat)
    requires Assigned(s, x) && Enabled(s, x, e) && x.cfg.maxCallsPerLane.Some? && lane in s.lanes
    requires CommittedOn(s, lane) <= bound && x.cfg.maxCallsPerLane.value + 2 * |s.workers| <= bound + 1
    requires forall w :: 0 <= w < |s.workers| ==> RemainingOn(s.workers[w], lane) <= 2
    ensures lane in Step(s, x, e).lanes && CommittedOn(Step(s, x, e), lane) <= bound
    ensures forall w :: 0 <= w < |s.workers| ==> RemainingOn(Step(s, x, e).workers[w], lane) <= 2
  {
    hide RemainingOn, Sum, TotalCalls;
    var t := Step(s, x, e);
    StepKeepsIndexed(s, x, e);
    StepSpendsOn(s, x, e, lane);
    StepKeepsAssigned(s, x, e);
    hide Step, Enabled, Assigned;
    SumAfterUpdate(s.workers, e.worker, t.workers[e.worker], OnLane(lane));
    AtMostTwo(t.workers[e.worker], lane, t, x, e.worker);
    SumIsBounded(t.workers, OnLane(lane), 2);
  }

  lemma AtMostTwo(phase: Phase, lane: S.Lane, t: State, x: Setup, w: nat)
    requires Assigned(t, x) && w < |t.workers| && t.workers[w] == phase
    ensures RemainingOn(phase, lane) <= 2
  {
  }

  // ----- whole runs -----

  function Larger(m: int, n: int): int { if m <= n then n else m }

  lemma {:induction false} EveryRunKeepsAssigned(start: State, x: Setup, events: seq<Event>)
    requires Assigned(start, x)
    ensures Assigned(Play(start, x, events), x)
  {
    if events != [] {
      hide Assigned, Step, Enabled;
      var n := |events| - 1;
      EveryRunKeepsAssigned(start, x, events[..n]);
      var s := Play(start, x, events[..n]);
      if Enabled(s, x, events[n]) { StepKeepsAssigned(s, x, events[n]); }
    }
  }

  lemma {:induction false} EveryRunKeepsBudget(start: State, x: Setup, events: seq<Event>, bound: nat)
    requires Assigned(start, x) && x.opts.maxCalls.Some? && |start.workers| >= 1
    requires Committed(start, x) <= bound && x.opts.maxCalls.value + 4 * |start.workers| <= bound + 1
    ensures Committed(Play(start, x, events), x) <= bound
  {
    if events != [] {
      hide Assigned, Step, Enabled, Committed;
      var n := |events| - 1;
      EveryRunKeepsBudget(start, x, events[..n], bound);
      EveryRunKeepsAssigned(start, x, events[..n]);
      var s := Play(start, x, events[..n]);
      if Enabled(s, x, events[n]) { StepKeepsBudget(s, x, events[n], bound); }
    }
  }

  ghost predicate WithinLaneBudget(s: State, lane: S.Lane, bound: nat) {
    && lane in s.lanes && CommittedOn(s, lane) <= bound
    && forall w :: 0 <= w < |s.workers| ==> RemainingOn(s.workers[w], lane) <= 2
  }

  lemma {:induction false} EveryRunKeepsLaneBudget(start: State, x: Setup, events: seq<Event>, lane: S.Lane, bound: nat)
    requires Assigned(start, x) && x.cfg.maxCallsPerLane.Some?
    requires WithinLaneBudget(start, lane, bound) && x.cfg.maxCallsPerLane.value + 2 * |start.workers| <= bound + 1
    ensures WithinLaneBudget(Play(start, x, events), lane, bound)
  {
    if events != [] {
      hide Assigned, Step, Enabled, CommittedOn, RemainingOn;
      var n := |events| - 1;
      EveryRunKeepsLaneBudget(start, x, events[..n], lane, bound);
      EveryRunKeepsAssigned(start, x, events[..n]);
      var s := Play(start, x, events[..n]);
      if Enabled(s, x, events[n]) { StepKeepsLaneBudget(s, x, events[n], lane, bound); }
    }
  }

  lemma {:induction false} IdleSum(workers: seq<Phase>, f: Phase -> nat)
    requires forall i :: 0 <= i < |workers| ==> f(workers[i]) == 0
    ensures Sum(workers, f) == 0
  {
    if workers != [] { IdleSum(workers[..|workers| - 1], f); }
  }

  /**
   * With C workers the calls of a whole run never exceed the larger of what was already
   * made and maxCalls - 1 + 4C, and one lane's never the larger of its own start and
   * maxCallsPerLane - 1 + 2C.
   */
  lemma CallsAreBounded(
    x: Setup, pools: map<Key, Progress>, standards: map<StandardKey, Standard>, lanes: S.Lanes, events: seq<Event>,
        lane: S.Lane)
    requires S.Distinct(x.cfg.lanes) && S.Covers(lanes, x.cfg) && lane in lanes
    ensures Indexed(Start(x, pools, standards, lanes), x)
    ensures var s, c := Play(Start(x, pools, standards, lanes), x, events), Workers(x.opts);
      && (x.opts.maxCalls.Some? ==>
            TotalCalls(s.lanes, x.cfg.lanes) <=
                Larger(TotalCalls(lanes, x.cfg.lanes), x.opts.maxCalls.value - 1 + 4 * c))
      && (x.cfg.maxCallsPerLane.Some? ==>
            lane in s.lanes && s.lanes[lane].calls <=
                Larger(lanes[lane].calls, x.cfg.maxCallsPerLane.value - 1 + 2 * c))
  {
    hide TotalCalls, Step, Enabled, Sum;
    var start, c := Start(x, pools, standards, lanes), Workers(x.opts);
    assert forall w :: 0 <= w < |start.workers| ==> start.workers[w].Ready?;
    IdleSum(start.workers, Remaining);
    IdleSum(start.workers, OnLane(lane));
    if x.opts.maxCalls.Some? {
      EveryRunKeepsBudget(start, x, events, Larger(TotalCalls(lanes, x.cfg.lanes), x.opts.maxCalls.value - 1 + 4 * c));
    }
    if x.cfg.maxCallsPerLane.Some? {
      EveryRunKeepsLaneBudget(start, x, events, lane,
        Larger(lanes[lane].calls, x.cfg.maxCallsPerLane.value - 1 + 2 * c));
    }
  }
}
