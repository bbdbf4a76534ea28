/** What every interleaving of the seed run's workers keeps. */
module SeedRunSafety {
  import opened SeedRun
  import S = Scheduler

  function KeyOf(s: State, x: Setup, w: int): Key
    requires IsWorking(s, w) && s.workers[w].index < |x.pools|
  {
    x.pools[s.workers[w].index].key
  }

  function StandardKeyOf(s: State, x: Setup, w: int): StandardKey
    requires IsWorking(s, w) && s.workers[w].index < |x.pools|
  {
    x.pools[s.workers[w].index].standardKey
  }

  /** A pool is being worked on by at most one worker, and every one of those is marked. */
  ghost predicate Exclusive(s: State, x: Setup) {
    && Indexed(s, x)
    && (forall w :: IsWorking(s, w) ==> KeyOf(s, x, w) in s.inFlight)
    && (forall v, w :: IsWorking(s, v) && IsWorking(s, w) && v != w ==> KeyOf(s, x, v) != KeyOf(s, x, w))
  }

  /** The progress a worker started from is still the stored one, and still pending. */
  ghost predicate Current(s: State, x: Setup) {
    && Indexed(s, x)
    && forall w :: IsWorking(s, w) ==>
         && KeyOf(s, x, w) in s.pools
         && s.pools[KeyOf(s, x, w)] == s.workers[w].progress
         && s.workers[w].progress.status.Pending?
  }

  /** A standard's key is only ever held by a worker on a pool that has that key. */
  ghost predicate StandardsHeld(s: State, x: Setup) {
    && Indexed(s, x)
    && forall k :: k in s.standardsInFlight ==> exists w :: IsWorking(s, w) && StandardKeyOf(s, x, w) == k
  }

  ghost predicate Listed(s: State, x: Setup) {
    forall i :: 0 <= i < |x.pools| ==> x.pools[i].key in s.pools
  }

  ghost predicate NothingPending(s: State, x: Setup) {
    forall i :: 0 <= i < |x.pools| ==> x.pools[i].key in s.pools && !s.pools[x.pools[i].key].status.Pending?
  }

  predicate SomeoneLeft(s: State) { exists w :: 0 <= w < |s.workers| && s.workers[w].Left? }

  /** A worker that left while the run still counts as complete left nothing pending. */
  ghost predicate LeavesNothing(s: State, x: Setup) {
    s.exit.Complete? && SomeoneLeft(s) ==> NothingPending(s, x)
  }

  ghost predicate Safe(s: State, x: Setup) {
    Exclusive(s, x) && Current(s, x) && StandardsHeld(s, x) && Listed(s, x) && LeavesNothing(s, x)
  }

  // ----- every step has one of four shapes -----

  /**
   * The worker stays where it was, or moves along within the pool it has;
   * nothing shared but lanes or the exit changes.
   */
  ghost predicate Moves(s: State, t: State, w: nat) {
    && w < |s.workers| == |t.workers| && t.workers == s.workers[w := t.workers[w]]
    && t.pools == s.pools && t.standards == s.standards && t.log == s.log
    && t.inFlight == s.inFlight && t.standardsInFlight == s.standardsInFlight
    && (t.workers[w].Working? <==> s.workers[w].Working?)
    && (t.workers[w].Working? ==>
          && s.workers[w].index == t.workers[w].index && s.workers[w].progress == t.workers[w].progress
          && s.workers[w].assignment == t.workers[w].assignment
          && Creates(s.workers[w]) == Creates(t.workers[w]))
  }

  /** The worker is writing a new standard, or has one written and not stored yet. */
  predicate Creates(phase: Phase) {
    phase.Working? && (phase.stage.WriteStandard? || phase.created.Some?)
  }

  /** The worker takes a pool nobody had. */
  ghost predicate Takes(s: State, t: State, x: Setup, w: nat, i: nat, a: S.Assignment) {
    && w < |s.workers| && i < |x.pools| && !s.workers[w].Working?
    && Eligible(s, x.pools[i]) && t == Begin(s, x, w, i, a)
  }

  /** The worker's attempt ends with the outcome; a lane may be parked with it. */
  ghost predicate Ends(s: State, t: State, x: Setup, w: nat, o: Outcome) {
    IsWorking(s, w) && s.workers[w].index < |x.pools| && t.(lanes := s.lanes) == End(s, x, w, o)
  }

  ghost predicate Shaped(s: State, t: State, x: Setup, w: nat) {
    || Moves(s, t, w)
    || (exists i, a :: Takes(s, t, x, w, i, a))
    || (IsWorking(s, w) && s.workers[w].index < |x.pools| && t == Release(s, x, w, Crashed))
    || (exists o :: Ends(s, t, x, w, o))
  }

  lemma WakeShape(s: State, x: Setup, w: nat, at: int, stopped: bool)
    requires w < |s.workers| && !s.workers[w].Working?
    ensures Shaped(s, WakeUp(s, x, w, at, stopped), x, w)
  {
    hide S.Assign, S.NextWake, TotalCalls, Begin, Eligible, Release, End;
    var t := WakeUp(s, x, w, at, stopped);
    if !stopped && !(x.opts.maxCalls.Some? && TotalCalls(s.lanes, x.cfg.lanes) >= x.opts.maxCalls.value) {
      var next := FirstEligible(s, x.pools, 0);
      if next.Some? {
        EligibleIsKnown(s, x.pools[next.value]);
        var a := S.Assign(s.lanes, x.cfg, next.value + s.pools[x.pools[next.value].key].attempts, at);
        if a.Some? { assert Takes(s, t, x, w, next.value, a.value); }
      }
    }
  }

  lemma EligibleIsKnown(s: State, p: Pool)
    requires Eligible(s, p)
    ensures p.key in s.pools
  {
  }

  lemma EndShape(s: State, x: Setup, w: nat, o: Outcome, lanes: S.Lanes)
    requires IsWorking(s, w) && s.workers[w].index < |x.pools|
    ensures Shaped(s, End(s.(lanes := lanes), x, w, o), x, w)
  {
    assert Ends(s, End(s.(lanes := lanes), x, w, o), x, w, o);
  }

  lemma ReturnShape(s: State, x: Setup, w: nat, r: Reply, lanes: S.Lanes)
    requires IsWorking(s, w) && s.workers[w].index < |x.pools|
    ensures Shaped(s, Return(s.(lanes := lanes), x, w, r), x, w)
  {
    hide Begin, Release, End, Shaped;
    match r
    case LimitReached(reason, _) => FailShape(s, x, w, reason, true, lanes);
    case CallFailed(reason, _) => FailShape(s, x, w, reason, false, lanes);
    case Unusable(reason) =>
      if s.workers[w].stage.WriteStandard? {
        EndShape(s, x, w, Errored(reason, false), lanes);
      } else {
        MovesIsShaped(s, Return(s.(lanes := lanes), x, w, r), x, w);
      }
    case Answer(_, _) => MovesIsShaped(s, Return(s.(lanes := lanes), x, w, r), x, w);
  }

  lemma MovesIsShaped(s: State, t: State, x: Setup, w: nat)
    requires Moves(s, t, w)
    ensures Shaped(s, t, x, w)
  {
  }

  lemma FailShape(s: State, x: Setup, w: nat, reason: Reason, laneLimited: bool, lanes: S.Lanes)
    requires IsWorking(s, w) && s.workers[w].index < |x.pools|
    ensures Shaped(s, StageFails(s.(lanes := lanes), x, w, reason, laneLimited), x, w)
  {
    hide Begin, Release, End;
    if !s.workers[w].stage.BreakTie? { EndShape(s, x, w, Errored(reason, laneLimited), lanes); }
  }

  lemma CrashShape(s: State, x: Setup, w: nat)
    requires IsWorking(s, w) && s.workers[w].index < |x.pools|
    ensures Shaped(s, Release(s, x, w, Crashed), x, w)
  {
  }

  lemma StepShape(s: State, x: Setup, e: Event)
    requires Indexed(s, x) && Enabled(s, x, e)
    ensures e.worker < |s.workers| && Shaped(s, Step(s, x, e), x, e.worker)
  {
    hide WakeUp, Return, StageFails, Begin, Release, End, Shaped, Settled, Park;
    match e
    case Wake(w, at, stopped) => WakeShape(s, x, w, at, stopped);
    case CallSkipped(w, reason, until) => FailShape(s, x, w, reason, true, Park(s.lanes, LaneOf(s, w), until));
    case CallReturns(w, r) => ReturnShape(s, x, w, r, Settled(s.lanes, LaneOf(s, w), r));
    case CallStarts(w) => MovesIsShaped(s, Step(s, x, e), x, w);
    case PoolAssembled(w, accepted, rejected) => EndShape(s, x, w, Finished(accepted, rejected), s.lanes);
    case WorkerCrashes(w) => CrashShape(s, x, w);
  }

  // ----- what the shapes have in common -----

  /** The worker gave up the pool with the key. */
  predicate GivesUp(s: State, t: State, x: Setup, w: nat, key: Key)
    requires IsWorking(s, w) ==> s.workers[w].index < |x.pools|
  {
    IsWorking(s, w) && !IsWorking(t, w) && KeyOf(s, x, w) == key
  }

  /** One worker moves; it stays on its pool, or takes one that nobody had marked and that is still to do. */
  ghost predicate OneMoves(s: State, t: State, x: Setup, w: nat)
    requires Indexed(s, x) && Indexed(t, x)
  {
    && w < |s.workers| == |t.workers| && t.workers == s.workers[w := t.workers[w]]
    && (IsWorking(t, w) ==>
          if IsWorking(s, w) then
            t.workers[w].index == s.workers[w].index && t.workers[w].progress == s.workers[w].progress
          else
            var key := KeyOf(t, x, w);
            && key !in s.inFlight && key in t.inFlight
            && key in t.pools && t.pools[key] == t.workers[w].progress && t.workers[w].progress.status.Pending?)
  }

  /** Marks and progress only change for the pool given up, and a standard's key is only marked with a pool of it. */
  ghost predicate TouchesItsOwn(s: State, t: State, x: Setup, w: nat)
    requires Indexed(s, x) && Indexed(t, x)
  {
    && (forall k :: k in s.inFlight ==> k in t.inFlight || GivesUp(s, t, x, w, k))
    && (forall k :: k in s.pools ==> k in t.pools && (t.pools[k] == s.pools[k] || GivesUp(s, t, x, w, k)))
    && (forall k :: k in t.standardsInFlight ==>
          || (IsWorking(t, w) && StandardKeyOf(t, x, w) == k)
          || (k in s.standardsInFlight && (IsWorking(s, w) && StandardKeyOf(s, x, w) == k ==> IsWorking(t, w))))
  }

  lemma ShapeTouches(s: State, t: State, x: Setup, w: nat)
    requires Indexed(s, x) && Indexed(t, x) && Shaped(s, t, x, w)
    ensures OneMoves(s, t, x, w) && TouchesItsOwn(s, t, x, w)
  {
    hide Moves, Takes, Ends, Release, OneMoves, TouchesItsOwn;
    if Moves(s, t, w) {
      MoveTouches(s, t, x, w);
    } else if exists i, a :: Takes(s, t, x, w, i, a) {
      var i, a :| Takes(s, t, x, w, i, a);
      TakeTouches(s, t, x, w, i, a);
    } else if exists o :: Ends(s, t, x, w, o) {
      var o :| Ends(s, t, x, w, o);
      EndTouches(s, t, x, w, o);
    } else {
      ReleaseTouches(s, x, w, Crashed);
    }
  }

  lemma MoveTouches(s: State, t: State, x: Setup, w: nat)
    requires Indexed(s, x) && Indexed(t, x) && Moves(s, t, w)
    ensures OneMoves(s, t, x, w) && TouchesItsOwn(s, t, x, w)
  {
  }

  lemma TakeTouches(s: State, t: State, x: Setup, w: nat, i: nat, a: S.Assignment)
    requires Indexed(s, x) && Indexed(t, x) && Takes(s, t, x, w, i, a)
    ensures OneMoves(s, t, x, w) && TouchesItsOwn(s, t, x, w)
  {
    hide WillCreate, NeedsStandard;
  }

  lemma ReleaseTouches(s: State, x: Setup, w: nat, phase: Phase)
    requires Indexed(s, x) && IsWorking(s, w) && !phase.Working?
    ensures var t := Release(s, x, w, phase); Indexed(t, x) && OneMoves(s, t, x, w) && TouchesItsOwn(s, t, x, w)
  {
  }

  lemma EndTouches(s: State, t: State, x: Setup, w: nat, o: Outcome)
    requires Indexed(s, x) && Indexed(t, x) && Ends(s, t, x, w, o)
    ensures OneMoves(s, t, x, w) && TouchesItsOwn(s, t, x, w)
  {
    hide ApplyOutcome, StoreStandard;
  }

  // ----- each invariant -----

  lemma ShapeKeepsExclusive(s: State, t: State, x: Setup, w: nat)
    requires Exclusive(s, x) && Indexed(t, x) && OneMoves(s, t, x, w) && TouchesItsOwn(s, t, x, w)
    ensures Exclusive(t, x)
  {
    hide TouchesItsOwn;
    forall v | IsWorking(t, v) ensures KeyOf(t, x, v) in t.inFlight { StaysMarked(s, t, x, w, v); }
    forall v, u | IsWorking(t, v) && IsWorking(t, u) && v != u ensures KeyOf(t, x, v) != KeyOf(t, x, u) {
      if IsWorking(s, v) && IsWorking(s, u) {
        assert KeyOf(s, x, v) != KeyOf(s, x, u);
      } else if u == w {
        assert KeyOf(s, x, v) in s.inFlight;
      } else {
        assert KeyOf(s, x, u) in s.inFlight;
      }
    }
  }

  lemma StaysMarked(s: State, t: State, x: Setup, w: nat, v: int)
    requires Exclusive(s, x) && Indexed(t, x) && OneMoves(s, t, x, w) && TouchesItsOwn(s, t, x, w) && IsWorking(t, v)
    ensures KeyOf(t, x, v) in t.inFlight
  {
    if IsWorking(s, v) {
      assert KeyOf(t, x, v) == KeyOf(s, x, v);
      if IsWorking(s, w) && v != w { assert KeyOf(s, x, v) != KeyOf(s, x, w); }
    }
  }

  lemma ShapeKeepsCurrent(s: State, t: State, x: Setup, w: nat)
    requires Exclusive(s, x) && Current(s, x) && Indexed(t, x) && OneMoves(s, t, x, w) && TouchesItsOwn(s, t, x, w)
    ensures Current(t, x)
  {
    forall v | IsWorking(t, v)
      ensures KeyOf(t, x, v) in t.pools && t.pools[KeyOf(t, x, v)] == t.workers[v].progress
      ensures t.workers[v].progress.status.Pending?
    {
      if IsWorking(s, v) {
        assert KeyOf(t, x, v) == KeyOf(s, x, v);
        if IsWorking(s, w) && v != w { assert KeyOf(s, x, v) != KeyOf(s, x, w); }
      }
    }
  }

  lemma ShapeKeepsStandardsHeld(s: State, t: State, x: Setup, w: nat)
    requires StandardsHeld(s, x) && Indexed(t, x) && OneMoves(s, t, x, w) && TouchesItsOwn(s, t, x, w)
    ensures StandardsHeld(t, x)
  {
    forall k | k in t.standardsInFlight ensures exists v :: IsWorking(t, v) && StandardKeyOf(t, x, v) == k {
      if !(IsWorking(t, w) && StandardKeyOf(t, x, w) == k) {
        var v :| IsWorking(s, v) && StandardKeyOf(s, x, v) == k;
        assert IsWorking(t, v) && StandardKeyOf(t, x, v) == k;
      }
    }
  }

  lemma StepKeepsExclusion(s: State, x: Setup, e: Event)
    requires Exclusive(s, x) && Current(s, x) && StandardsHeld(s, x) && Enabled(s, x, e)
    ensures var t := Step(s, x, e); Exclusive(t, x) && Current(t, x) && StandardsHeld(t, x)
  {
    StepKeepsIndexed(s, x, e);
    StepShape(s, x, e);
    hide Step, Enabled, Shaped, Exclusive, Current, StandardsHeld, OneMoves, TouchesItsOwn;
    var t := Step(s, x, e);
    ShapeTouches(s, t, x, e.worker);
    ShapeKeepsExclusive(s, t, x, e.worker);
    ShapeKeepsCurrent(s, t, x, e.worker);
    ShapeKeepsStandardsHeld(s, t, x, e.worker);
  }

  lemma WorkingIsInFlight(s: State, x: Setup, w: int)
    requires Exclusive(s, x) && IsWorking(s, w)
    ensures s.inFlight != {}
  {
    assert KeyOf(s, x, w) in s.inFlight;
  }

  lemma HeldMeansWorking(s: State, x: Setup)
    requires StandardsHeld(s, x) && s.standardsInFlight != {}
    ensures exists w :: IsWorking(s, w)
  {
    var k :| k in s.standardsInFlight;
  }

  /** Nobody is working once nothing is in flight, and then no standard's key is held either. */
  lemma IdleHoldsNothing(s: State, x: Setup)
    requires Exclusive(s, x) && StandardsHeld(s, x) && s.inFlight == {}
    ensures s.standardsInFlight == {}
    ensures forall w :: !IsWorking(s, w)
  {
    forall w ensures !IsWorking(s, w) {
      if IsWorking(s, w) { WorkingIsInFlight(s, x, w); }
    }
    if s.standardsInFlight != {} { HeldMeansWorking(s, x); }
  }

  /** A step never makes the exit complete again, and a worker leaves a complete run only when nothing can be taken. */
  ghost predicate LeavesIdle(s: State, t: State, x: Setup, w: nat)
    requires w < |s.workers| == |t.workers|
  {
    && (t.exit.Complete? ==> s.exit.Complete?)
    && (t.exit.Complete? && t.workers[w].Left? && !s.workers[w].Left? ==>
          t.pools == s.pools && s.inFlight == {} && FirstEligible(s, x.pools, 0).None?)
  }

  lemma StepLeavesIdle(s: State, x: Setup, e: Event)
    requires Indexed(s, x) && Enabled(s, x, e)
    ensures |Step(s, x, e).workers| == |s.workers| && LeavesIdle(s, Step(s, x, e), x, e.worker)
  {
    StepKeepsIndexed(s, x, e);
    if e.Wake? {
      WakeLeavesIdle(s, x, e.worker, e.at, e.stopped);
    } else {
      hide ApplyOutcome, StoreStandard, Settled, Park, Count, FirstEligible;
    }
  }

  lemma WakeLeavesIdle(s: State, x: Setup, w: nat, at: int, stopped: bool)
    requires w < |s.workers|
    ensures var t := WakeUp(s, x, w, at, stopped); |t.workers| == |s.workers| && LeavesIdle(s, t, x, w)
  {
    hide S.Assign, S.NextWake, TotalCalls, WillCreate, NeedsStandard, FirstEligible;
  }

  lemma StepKeepsLeaving(s: State, x: Setup, e: Event)
    requires Safe(s, x) && Enabled(s, x, e)
    ensures Listed(Step(s, x, e), x) && LeavesNothing(Step(s, x, e), x)
  {
    StepKeepsIndexed(s, x, e);
    StepShape(s, x, e);
    StepLeavesIdle(s, x, e);
    hide Step, Enabled, Shaped, Exclusive, Current, StandardsHeld;
    var t := Step(s, x, e);
    ShapeTouches(s, t, x, e.worker);
    ShapeKeepsLeaving(s, t, x, e.worker);
  }

  lemma ShapeKeepsLeaving(s: State, t: State, x: Setup, w: nat)
    requires Safe(s, x) && Indexed(t, x) && OneMoves(s, t, x, w) && TouchesItsOwn(s, t, x, w) && LeavesIdle(s, t, x, w)
    ensures Listed(t, x) && LeavesNothing(t, x)
  {
    hide Exclusive, Current, StandardsHeld;
    if t.exit.Complete? && SomeoneLeft(t) {
      if SomeoneLeft(s) {
        NothingPendingStays(s, t, x, w);
      } else {
        IdleHoldsNothing(s, x);
        NothingToTake(s, x);
      }
    }
  }

  lemma NothingToTake(s: State, x: Setup)
    requires Listed(s, x) && s.inFlight == {} && s.standardsInFlight == {} && FirstEligible(s, x.pools, 0).None?
    ensures NothingPending(s, x)
  {
    forall i | 0 <= i < |x.pools| ensures !s.pools[x.pools[i].key].status.Pending? {
      assert !Eligible(s, x.pools[i]);
    }
  }

  /** With nothing pending there is nobody working, and nothing can be picked up again. */
  lemma NothingPendingStays(s: State, t: State, x: Setup, w: nat)
    requires Current(s, x) && Indexed(t, x) && NothingPending(s, x) && TouchesItsOwn(s, t, x, w)
    ensures NothingPending(t, x)
  {
    if IsWorking(s, w) { WorkingIsPending(s, x, w); }
  }

  lemma WorkingIsPending(s: State, x: Setup, w: int)
    requires Current(s, x) && IsWorking(s, w)
    ensures !NothingPending(s, x)
  {
    assert s.pools[KeyOf(s, x, w)].status.Pending?;
  }

  lemma StepKeepsSafe(s: State, x: Setup, e: Event)
    requires Safe(s, x) && Enabled(s, x, e)
    ensures Safe(Step(s, x, e), x)
  {
    hide Exclusive, Current, StandardsHeld, Listed, LeavesNothing, Step, Enabled;
    StepKeepsExclusion(s, x, e);
    StepKeepsLeaving(s, x, e);
  }
}
