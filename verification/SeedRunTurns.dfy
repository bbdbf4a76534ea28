/** What one worker does next, and what a lane is told: each turn and each reply, by what a caller can see. */
module SeedRunTurns {
  import opened Numbers
  import opened SeedRun
  import S = Scheduler
  import L = SchedulerLaws

  // ----- a turn of the loop -----

  /** The calls made on the run's lanes. */
  function CallsMade(lanes: S.Lanes, order: seq<S.Lane>): nat {
    if order == [] then 0
    else (if order[0] in lanes then lanes[order[0]].calls else 0) + CallsMade(lanes, order[1..])
  }

  lemma {:induction false} TotalIsCallsMade(lanes: S.Lanes, order: seq<S.Lane>)
    ensures TotalCalls(lanes, order) == CallsMade(lanes, order)
    decreases order
  {
    if order != [] {
      TotalIsCallsMade(lanes, order[..|order| - 1]);
      CallsMadeNext(lanes, order);
    }
  }

  lemma {:induction false} CallsMadeNext(lanes: S.Lanes, order: seq<S.Lane>)
    requires order != []
    ensures var n := |order| - 1;
      CallsMade(lanes, order) ==
        CallsMade(lanes, order[..n]) + if order[n] in lanes then lanes[order[n]].calls else 0
    decreases order
  {
    var n := |order| - 1;
    if n > 0 {
      CallsMadeNext(lanes, order[1..]);
      assert order[1..][..n - 1] == order[..n][1..];
      assert order[1..][n - 1] == order[n];
    }
  }

  /** Some lane that is not spent comes back after now, and no later than a worker may wait. */
  ghost predicate ComesBackInTime(s: State, x: Setup, at: int) { SomeComesBack(s, x, at, x.cfg.lanes) }

  predicate ComesBack(s: State, x: Setup, at: int, lane: S.Lane) {
    && lane in s.lanes
    && (x.cfg.maxCallsPerLane.Some? ==> s.lanes[lane].calls < x.cfg.maxCallsPerLane.value)
    && at < s.lanes[lane].cooldownUntil <= at + x.opts.maxWaitMs
  }

  lemma {:induction false} EarliestInTime(s: State, x: Setup, lanes: seq<S.Lane>, at: int)
    ensures var wake := S.EarliestAfter(s.lanes, x.cfg, lanes, at);
      (wake.Some? && wake.value - at <= x.opts.maxWaitMs) <==>
        SomeComesBack(s, x, at, lanes)
    ensures S.EarliestAfter(s.lanes, x.cfg, lanes, at).Some? ==> S.EarliestAfter(s.lanes, x.cfg, lanes, at).value > at
  {
    if lanes != [] {
      var n := |lanes| - 1;
      hide SomeComesBack;
      EarliestInTime(s, x, lanes[..n], at);
      SomeComesBackNext(s, x, at, lanes);
    }
  }

  ghost predicate SomeComesBack(s: State, x: Setup, at: int, lanes: seq<S.Lane>) {
    exists lane :: lane in lanes && ComesBack(s, x, at, lane)
  }

  lemma SomeComesBackNext(s: State, x: Setup, at: int, lanes: seq<S.Lane>)
    requires lanes != []
    ensures var n := |lanes| - 1;
      SomeComesBack(s, x, at, lanes) <==> SomeComesBack(s, x, at, lanes[..n]) || ComesBack(s, x, at, lanes[n])
  {
    hide ComesBack;
    var n := |lanes| - 1;
    assert lanes == lanes[..n] + [lanes[n]];
    forall lane ensures lane in lanes <==> lane in lanes[..n] || lane == lanes[n] {}
  }

  ghost predicate IsFirstEligible(s: State, x: Setup, i: nat) {
    i < |x.pools| && Eligible(s, x.pools[i]) && forall k: nat :: k < i ==> !Eligible(s, x.pools[k])
  }

  lemma {:induction false} FirstIsFirst(s: State, x: Setup, from: nat)
    requires from <= |x.pools|
    ensures var r := FirstEligible(s, x.pools, from);
      r.Some? ==> forall k :: from <= k < r.value ==> !Eligible(s, x.pools[k])
    decreases |x.pools| - from
  {
    hide Eligible;
    if from < |x.pools| && !Eligible(s, x.pools[from]) { FirstIsFirst(s, x, from + 1); }
  }

  /** Worker w has gone home, for this reason. */
  predicate GoesHome(s: State, t: State, w: nat, exit: Exit)
    requires w < |s.workers|
  {
    t == s.(workers := s.workers[w := Left], exit := exit)
  }

  /** A worker told to stop goes home, as does one whose run has made its calls. */
  lemma StoppedOrSpent(s: State, x: Setup, w: nat, at: int, stopped: bool)
    requires w < |s.workers|
    requires stopped || (x.opts.maxCalls.Some? && CallsMade(s.lanes, x.cfg.lanes) >= x.opts.maxCalls.value)
    ensures GoesHome(s, WakeUp(s, x, w, at, stopped), w, if stopped then Stopped else MaxCalls)
  {
    hide FirstEligible, S.Assign, S.NextWake, Begin;
    TotalIsCallsMade(s.lanes, x.cfg.lanes);
  }

  predicate MayGoOn(s: State, x: Setup, stopped: bool) {
    !stopped && (x.opts.maxCalls.Some? ==> CallsMade(s.lanes, x.cfg.lanes) < x.opts.maxCalls.value)
  }

  /** With no pool to take, it goes home if nobody is at work, and comes back later otherwise. */
  lemma NothingToTake(s: State, x: Setup, w: nat, at: int, stopped: bool)
    requires w < |s.workers| && MayGoOn(s, x, stopped)
    requires forall i: nat :: i < |x.pools| ==> !Eligible(s, x.pools[i])
    ensures var t := WakeUp(s, x, w, at, stopped);
      if s.inFlight == {} then GoesHome(s, t, w, s.exit) else t == s.(workers := s.workers[w := Sleeping])
  {
    hide S.Assign, S.NextWake, Begin, TotalCalls, Eligible;
    TotalIsCallsMade(s.lanes, x.cfg.lanes);
  }

  /**
   * Otherwise it takes the first pool in the file's order that may be taken, with the lanes the scheduler gives for
   * its place and its attempts so far, from the progress stored; without lanes it waits for one to come back, and goes
   * home if none does in time.
   */
  lemma TakesTheFirst(s: State, x: Setup, w: nat, at: int, stopped: bool, i: nat)
    requires w < |s.workers| && MayGoOn(s, x, stopped) && IsFirstEligible(s, x, i)
    ensures x.pools[i].key in s.pools
    ensures var t, p, progress := WakeUp(s, x, w, at, stopped), x.pools[i], s.pools[x.pools[i].key];
      match S.Assign(s.lanes, x.cfg, i + progress.attempts, at)
      case Some(a) =>
        && t.workers == s.workers[w := Working(i, progress, a, None,
             if (p.standard.None? || p.standard.value < 2) && p.standardKey !in s.standards then WriteStandard
             else WriteQuestions, false)]
        && t.inFlight == s.inFlight + {p.key}
        && t.standardsInFlight == s.standardsInFlight
             + (if p.standard.None? && p.standardKey !in s.standards then {p.standardKey} else {})
        && t.exit == s.exit && t.lanes == s.lanes && t.pools == s.pools && t.standards == s.standards
      case None =>
        if ComesBackInTime(s, x, at) then t == s.(workers := s.workers[w := Sleeping])
        else GoesHome(s, t, w, LanesUnavailable)
  {
    hide S.Assign, S.EarliestAfter, TotalCalls, Eligible;
    TotalIsCallsMade(s.lanes, x.cfg.lanes);
    FirstIsFirst(s, x, 0);
    EligibleMeans(s, x.pools[i]);
    assert FirstEligible(s, x.pools, 0) == Some(i);
    EarliestInTime(s, x, x.cfg.lanes, at);
  }

  /** A run starts with as many workers as it was asked for, and with one at least. */
  lemma WorkersStart(x: Setup, pools: map<Key, Progress>, standards: map<StandardKey, Standard>, lanes: S.Lanes)
    ensures var s := Start(x, pools, standards, lanes);
      && |s.workers| == (if x.opts.concurrency >= 1 then x.opts.concurrency else 1)
      && (forall w :: 0 <= w < |s.workers| ==> s.workers[w].Ready?)
      && s.inFlight == {} && s.standardsInFlight == {} && s.exit.Complete? && s.pools == pools
      && s.standards == standards && s.lanes == lanes
  {
  }

  // ----- a pool's calls, in order -----

  /** The lane asked at each stage: the writer writes, another judges, the third breaks ties, and none assembles. */
  lemma StageAsks(a: S.Assignment)
    ensures StageLane(a, WriteStandard) == StageLane(a, WriteQuestions) == Some(a.generator)
    ensures StageLane(a, Critique) == Some(a.critic) && StageLane(a, BreakTie) == a.tiebreak
    ensures StageLane(a, Assemble) == None
  {
  }

  /** The worker goes on with the same pool, to this stage. */
  predicate GoesOn(s: State, t: State, w: nat, stage: Stage)
    requires IsWorking(s, w)
  {
    && |t.workers| == |s.workers| && t.workers == s.workers[w := t.workers[w]] && t.workers[w].Working?
    && t.workers[w].stage == stage && !t.workers[w].calling && t.workers[w].index == s.workers[w].index
    && t.pools == s.pools && t.standards == s.standards && t.inFlight == s.inFlight
  }

  /**
   * A text that can be used leads to the next stage: from the standard to the questions, from the questions to the
   * critic if any are left to judge, and from the critic to the tie-break if any are disputed, ties are to be broken
   * and there is a lane to break them. One that cannot be used ends a standard's attempt, and else leads to the end.
   */
  lemma RepliesLeadOn(s: State, x: Setup, w: nat, r: Reply)
    requires Indexed(s, x) && Enabled(s, x, CallReturns(w, r))
    ensures var t, p := Step(s, x, CallReturns(w, r)), s.workers[w];
      match r
      case Answer(more, _) =>
        GoesOn(s, t, w,
          if p.stage.WriteStandard? then WriteQuestions
          else if p.stage.WriteQuestions? && more then Critique
          else if p.stage.Critique? && more && x.opts.tiebreak && p.assignment.tiebreak.Some? then BreakTie
          else Assemble)
      case Unusable(_) =>
        if p.stage.WriteStandard? then t.workers == s.workers[w := Ready] else GoesOn(s, t, w, Assemble)
      case _ => if p.stage.BreakTie? then GoesOn(s, t, w, Assemble) else t.workers == s.workers[w := Ready]
  {
    hide Settled, ApplyOutcome, StoreStandard;
  }

  /** A pool given up because a call was refused goes back, but in the tie-break, which goes on without it. */
  lemma SkippedLeadsOn(s: State, x: Setup, w: nat, reason: Reason, until: int)
    requires Indexed(s, x) && Enabled(s, x, CallSkipped(w, reason, until))
    ensures var t := Step(s, x, CallSkipped(w, reason, until));
      if s.workers[w].stage.BreakTie? then GoesOn(s, t, w, Assemble) else t.workers == s.workers[w := Ready]
  {
    hide Park, ApplyOutcome, StoreStandard;
  }

  // ----- what a lane is told -----

  /** Failures one after the other, at the given times, and nothing else on the lane. */
  function FailingAt(lanes: S.Lanes, lane: S.Lane, times: seq<int>): S.Lanes
    requires lane in lanes
    ensures lane in FailingAt(lanes, lane, times)
  {
    if times == [] then lanes
    else Settled(FailingAt(lanes, lane, times[..|times| - 1]), lane, CallFailed(0, times[|times| - 1]))
  }

  /** Failures in a row are counted, and park the lane from the last one for a minute, two, four, up to half an hour. */
  lemma {:induction false} FailuresPark(lanes: S.Lanes, lane: S.Lane, times: seq<int>)
    requires lane in lanes && lanes[lane].failures == 0 && times != []
    ensures var l := FailingAt(lanes, lane, times)[lane];
      && l.failures == |times| && l.calls == lanes[lane].calls
      && l.cooldownUntil == times[|times| - 1] + L.WaitAfter(|times|)
  {
    hide S.Backoff;
    var n := |times| - 1;
    if n > 0 { FailuresPark(lanes, lane, times[..n]); }
    L.BackoffIsWait(|times|);
  }

  /** A text clears the failures and parks nothing; a limit parks the lane until its time and forgets nothing. */
  lemma SuccessAndLimit(lanes: S.Lanes, lane: S.Lane, r: Reply)
    requires lane in lanes && !r.CallFailed?
    ensures Settled(lanes, lane, r) ==
            lanes[lane := if r.LimitReached? then S.Snapshot(r.until, lanes[lane].failures, lanes[lane].calls)
                          else S.Snapshot(lanes[lane].cooldownUntil, 0, lanes[lane].calls)]
  {
  }

  /** The lane asked is told, and no other; a call refused before it was made only parks it again. */
  lemma LanesAreTold(s: State, x: Setup, e: Event)
    requires Indexed(s, x) && Enabled(s, x, e) && !e.Wake?
    ensures Step(s, x, e).lanes ==
            match e
            case CallStarts(w) => Count(s.lanes, LaneOf(s, w))
            case CallSkipped(w, _, until) =>
              s.lanes[LaneOf(s, w) := s.lanes[LaneOf(s, w)].(cooldownUntil := until)]
            case CallReturns(w, r) => Settled(s.lanes, LaneOf(s, w), r)
            case _ => s.lanes
  {
    hide Settled, Count, ApplyOutcome, StoreStandard;
  }
}
