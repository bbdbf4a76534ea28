/** What a run leaves in its state, told from the events alone: nothing written is lost, and nothing is made up. */
module SeedRunOutcomes {
  import opened Numbers
  import opened SeedRun
  import opened SeedRunSafety
  import opened SeedRunResults
  import S = Scheduler

  /** What events add to a pool's progress. */
  datatype Gain = Gain(accepted: seq<Item>, rejected: seq<Item>, errors: seq<Reason>, counted: nat, finished: bool)

  const NOTHING: Gain := Gain([], [], [], 0, false)

  /** One worker's event is about the pool with the key. */
  predicate IsAbout(s: State, x: Setup, w: nat, key: Key) {
    IsWorking(s, w) && s.workers[w].index < |x.pools| && x.pools[s.workers[w].index].key == key
  }

  /** A call that fails ends the attempt, except while a tie is broken. */
  predicate EndsAttempt(s: State, w: nat) { IsWorking(s, w) && !s.workers[w].stage.BreakTie? }

  predicate AsksForStandard(s: State, w: nat) { IsWorking(s, w) && s.workers[w].stage.WriteStandard? }

  /** What one event adds: a finished pool its questions, an attempt that failed its reason. */
  function GainOf(s: State, x: Setup, e: Event, key: Key): Gain {
    match e
    case PoolAssembled(w, accepted, rejected) =>
      if IsAbout(s, x, w, key) then Gain(accepted, rejected, [], 1, true) else NOTHING
    case CallSkipped(w, reason, _) =>
      if IsAbout(s, x, w, key) && EndsAttempt(s, w) then Gain([], [], [reason], 0, false) else NOTHING
    case CallReturns(w, LimitReached(reason, _)) =>
      if IsAbout(s, x, w, key) && EndsAttempt(s, w) then Gain([], [], [reason], 0, false) else NOTHING
    case CallReturns(w, CallFailed(reason, _)) =>
      if IsAbout(s, x, w, key) && EndsAttempt(s, w) then Gain([], [], [reason], 1, false) else NOTHING
    case CallReturns(w, Unusable(reason)) =>
      if IsAbout(s, x, w, key) && AsksForStandard(s, w) then Gain([], [], [reason], 1, false) else NOTHING
    case _ => NOTHING
  }

  function Both(a: Gain, b: Gain): Gain {
    Gain(a.accepted + b.accepted, a.rejected + b.rejected, a.errors + b.errors, a.counted + b.counted,
      a.finished || b.finished)
  }

  /** What all the events of a run add, in their order. */
  ghost function GainedBy(start: State, x: Setup, events: seq<Event>, key: Key): Gain
    requires Indexed(start, x)
  {
    if events == [] then NOTHING
    else
      var before, e := events[..|events| - 1], events[|events| - 1];
      var s := Play(start, x, before);
      Both(GainedBy(start, x, before, key), if Enabled(s, x, e) then GainOf(s, x, e, key) else NOTHING)
  }

  /** Where a pool stands that started so and gained this. */
  function StatusAfter(started: Status, gain: Gain, attempts: nat, maxAttempts: nat): Status {
    if !started.Pending? then started
    else if gain.finished then Done
    else if gain.errors != [] && attempts >= maxAttempts then Failed
    else Pending
  }

  /** The progress is what it was with the gain added. */
  predicate Grown(p: Progress, q: Progress, gain: Gain, maxAttempts: nat) {
    && q.accepted == p.accepted + gain.accepted && q.rejected == p.rejected + gain.rejected
    && q.errors == p.errors + gain.errors && q.attempts == p.attempts + gain.counted
    && q.status == StatusAfter(p.status, gain, q.attempts, maxAttempts)
  }

  lemma NothingGrows(p: Progress, maxAttempts: nat)
    ensures Grown(p, p, NOTHING, maxAttempts)
  {
  }

  lemma FinishedGrows(p: Progress, accepted: seq<Item>, rejected: seq<Item>, maxAttempts: nat)
    requires p.status.Pending?
    ensures Grown(p, ApplyOutcome(p, Finished(accepted, rejected), maxAttempts),
              Gain(accepted, rejected, [], 1, true), maxAttempts)
  {
  }

  lemma ErroredGrows(p: Progress, reason: Reason, laneLimited: bool, maxAttempts: nat)
    requires p.status.Pending?
    ensures Grown(p, ApplyOutcome(p, Errored(reason, laneLimited), maxAttempts),
              Gain([], [], [reason], if laneLimited then 0 else 1, false), maxAttempts)
  {
  }

  lemma EndGrows(s: State, x: Setup, w: nat, o: Outcome, key: Key, lanes: S.Lanes)
    requires Current(s, x) && IsWorking(s, w) && key in s.pools
    ensures var t := End(s.(lanes := lanes), x, w, o);
      var gain := if !IsAbout(s, x, w, key) then NOTHING
                  else if o.Finished? then Gain(o.accepted, o.rejected, [], 1, true)
                  else Gain([], [], [o.reason], if o.laneLimited then 0 else 1, false);
      key in t.pools && Grown(s.pools[key], t.pools[key], gain, x.opts.maxAttempts)
  {
    hide ApplyOutcome, StoreStandard, Grown;
    NothingGrows(s.pools[key], x.opts.maxAttempts);
    if IsAbout(s, x, w, key) {
      assert KeyOf(s, x, w) == key && s.pools[key] == s.workers[w].progress;
      match o
      case Finished(accepted, rejected) => FinishedGrows(s.pools[key], accepted, rejected, x.opts.maxAttempts);
      case Errored(reason, limited) => ErroredGrows(s.pools[key], reason, limited, x.opts.maxAttempts);
    }
  }

  lemma FailGrows(s: State, x: Setup, w: nat, reason: Reason, laneLimited: bool, key: Key, lanes: S.Lanes)
    requires Current(s, x) && IsWorking(s, w) && key in s.pools
    ensures var t := StageFails(s.(lanes := lanes), x, w, reason, laneLimited);
      var gain := if IsAbout(s, x, w, key) && EndsAttempt(s, w)
                  then Gain([], [], [reason], if laneLimited then 0 else 1, false) else NOTHING;
      key in t.pools && Grown(s.pools[key], t.pools[key], gain, x.opts.maxAttempts)
  {
    hide End, Grown;
    NothingGrows(s.pools[key], x.opts.maxAttempts);
    EndGrows(s, x, w, Errored(reason, laneLimited), key, lanes);
  }

  lemma ReturnGrows(s: State, x: Setup, w: nat, r: Reply, key: Key, lanes: S.Lanes)
    requires Current(s, x) && IsWorking(s, w) && key in s.pools
    ensures var t := Return(s.(lanes := lanes), x, w, r);
      key in t.pools && Grown(s.pools[key], t.pools[key], GainOf(s, x, CallReturns(w, r), key), x.opts.maxAttempts)
  {
    hide End, StageFails, Grown;
    NothingGrows(s.pools[key], x.opts.maxAttempts);
    match r
    case LimitReached(reason, _) => FailGrows(s, x, w, reason, true, key, lanes);
    case CallFailed(reason, _) => FailGrows(s, x, w, reason, false, key, lanes);
    case Unusable(reason) => EndGrows(s, x, w, Errored(reason, false), key, lanes);
    case Answer(_, _) =>
  }

  lemma WakeGrows(s: State, x: Setup, w: nat, at: int, stopped: bool)
    requires w < |s.workers|
    ensures WakeUp(s, x, w, at, stopped).pools == s.pools
  {
    hide S.Assign, S.NextWake, TotalCalls, WillCreate, NeedsStandard, FirstEligible;
  }

  /** One event adds to each pool exactly what it says. */
  lemma StepGrows(s: State, x: Setup, e: Event, key: Key)
    requires Current(s, x) && Enabled(s, x, e) && key in s.pools
    ensures var t := Step(s, x, e);
      key in t.pools && Grown(s.pools[key], t.pools[key], GainOf(s, x, e, key), x.opts.maxAttempts)
  {
    hide WakeUp, Return, StageFails, End, Grown, Settled, Park, Count, Current;
    NothingGrows(s.pools[key], x.opts.maxAttempts);
    match e
    case Wake(w, at, stopped) => WakeGrows(s, x, w, at, stopped);
    case CallStarts(w) =>
    case CallSkipped(w, reason, until) => FailGrows(s, x, w, reason, true, key, Park(s.lanes, LaneOf(s, w), until));
    case CallReturns(w, r) => ReturnGrows(s, x, w, r, key, Settled(s.lanes, LaneOf(s, w), r));
    case PoolAssembled(w, accepted, rejected) => EndGrows(s, x, w, Finished(accepted, rejected), key, s.lanes);
    case WorkerCrashes(w) =>
  }

  /** A pool that is not pending gains nothing: nobody works on it. */
  lemma SettledGainsNothing(s: State, x: Setup, e: Event, key: Key)
    requires Current(s, x) && Enabled(s, x, e) && key in s.pools && !s.pools[key].status.Pending?
    ensures GainOf(s, x, e, key) == NOTHING
  {
    hide GainOf;
    forall w: nat ensures !IsAbout(s, x, w, key) { NobodyIsAbout(s, x, w, key); }
    NobodyGains(s, x, e, key);
  }

  lemma NobodyIsAbout(s: State, x: Setup, w: nat, key: Key)
    requires Current(s, x) && key in s.pools && !s.pools[key].status.Pending?
    ensures !IsAbout(s, x, w, key)
  {
    assert IsWorking(s, w) ==> s.pools[KeyOf(s, x, w)].status.Pending?;
  }

  lemma NobodyGains(s: State, x: Setup, e: Event, key: Key)
    requires Enabled(s, x, e) && forall w: nat :: !IsAbout(s, x, w, key)
    ensures GainOf(s, x, e, key) == NOTHING
  {
    if e.CallReturns? { assert !IsAbout(s, x, e.worker, key); }
  }

  lemma GainHasAReason(s: State, x: Setup, e: Event, key: Key)
    ensures var gain := GainOf(s, x, e, key); gain.counted > 0 ==> gain.finished || gain.errors != []
  {
  }

  lemma GrowsOn(p: Progress, q: Progress, r: Progress, a: Gain, b: Gain, maxAttempts: nat)
    requires Grown(p, q, a, maxAttempts) && Grown(q, r, b, maxAttempts)
    requires !q.status.Pending? ==> b == NOTHING
    requires b.counted > 0 ==> b.finished || b.errors != []
    ensures Grown(p, r, Both(a, b), maxAttempts)
  {
    if b == NOTHING {
      assert a.errors + [] == a.errors;
    } else if a.errors != [] {
      assert (a.errors + b.errors)[0] == a.errors[0];
    } else if b.errors != [] {
      assert (a.errors + b.errors)[0] == b.errors[0];
    }
  }

  /**
   * Over every interleaving a pool's accepted and rejected questions are those it started with and those of the
   * attempts that finished it, in order; its errors gain the reason of every attempt that failed, its attempts every
   * one but those a lane's limit ended; and it is done, failed or pending accordingly.
   */
  lemma {:induction false} EveryRunGrows(start: State, x: Setup, events: seq<Event>, key: Key)
    requires Accounted(start, start, x) && Indexed(start, x) && key in start.pools
    ensures var s := Play(start, x, events);
      key in s.pools
      && Grown(start.pools[key], s.pools[key], GainedBy(start, x, events, key), x.opts.maxAttempts)
  {
    var gain := GainedBy(start, x, events, key);
    NothingGrows(start.pools[key], x.opts.maxAttempts);
    if events != [] {
      hide Accounted, Step, Enabled, Grown, GainOf;
      var n := |events| - 1;
      EveryRunGrows(start, x, events[..n], key);
      EveryRunIsAccounted(start, x, events[..n]);
      var s := Play(start, x, events[..n]);
      AccountedIsCurrent(start, s, x);
      var before := GainedBy(start, x, events[..n], key);
      NothingGrows(s.pools[key], x.opts.maxAttempts);
      if Enabled(s, x, events[n]) {
        StepGrows(s, x, events[n], key);
        GainHasAReason(s, x, events[n], key);
        if !s.pools[key].status.Pending? { SettledGainsNothing(s, x, events[n], key); }
        GrowsOn(start.pools[key], s.pools[key], Step(s, x, events[n]).pools[key], before, GainOf(s, x, events[n], key),
          x.opts.maxAttempts);
      } else {
        GrowsOn(start.pools[key], s.pools[key], s.pools[key], before, NOTHING, x.opts.maxAttempts);
      }
    }
  }

  lemma AccountedIsCurrent(start: State, s: State, x: Setup)
    requires Accounted(start, s, x)
    ensures Current(s, x)
  {
  }

  // ----- standards -----

  /** A worker holds a standard of its own exactly if it asked for one and was answered, and it is that answer. */
  function CreatedAfter(s: State, x: Setup, e: Event, w: nat): Option<Standard> {
    if w >= |s.workers| || !s.workers[w].Working? then None
    else
      match e
      case CallReturns(v, Answer(_, standard)) =>
        if v == w && s.workers[w].stage.WriteStandard? then Some(standard) else s.workers[w].created
      case _ => s.workers[w].created
  }

  lemma StepKeepsCreated(s: State, x: Setup, e: Event, w: nat)
    requires Indexed(s, x) && Enabled(s, x, e) && IsWorking(Step(s, x, e), w)
    ensures Step(s, x, e).workers[w].created == CreatedAfter(s, x, e, w)
  {
    hide Settled, Park, Count, ApplyOutcome, StoreStandard, S.Assign, S.NextWake, TotalCalls, FirstEligible;
    if e.Wake? {
      WakeCreatesNothing(s, x, e.worker, e.at, e.stopped);
    } else if e.CallReturns? {
      ReturnKeepsCreated(s.(lanes := Settled(s.lanes, LaneOf(s, e.worker), e.reply)), x, e.worker, e.reply, w);
    }
  }

  lemma WakeCreatesNothing(s: State, x: Setup, w: nat, at: int, stopped: bool)
    requires w < |s.workers|
    ensures var t := WakeUp(s, x, w, at, stopped);
      && t.workers == s.workers[w := t.workers[w]] && (t.workers[w].Working? ==> t.workers[w].created.None?)
  {
    hide S.Assign, S.NextWake, TotalCalls, WillCreate, NeedsStandard, FirstEligible;
  }

  lemma ReturnKeepsCreated(s: State, x: Setup, w: nat, r: Reply, v: nat)
    requires Indexed(s, x) && IsWorking(s, w) && IsWorking(Return(s, x, w, r), v)
    ensures Return(s, x, w, r).workers[v].created ==
            if r.Answer? && v == w && s.workers[w].stage.WriteStandard? then Some(r.standard)
            else s.workers[v].created
  {
    hide ApplyOutcome, StoreStandard;
  }

  /** The stored standards change only when a pool is finished by a worker that created one, under its own key. */
  lemma StepStores(s: State, x: Setup, e: Event)
    requires Indexed(s, x) && Enabled(s, x, e)
    ensures var t := Step(s, x, e);
      if e.PoolAssembled? && s.workers[e.worker].created.Some? && StandardKeyOf(s, x, e.worker) !in s.standards then
        t.standards == s.standards[StandardKeyOf(s, x, e.worker) := s.workers[e.worker].created.value]
      else t.standards == s.standards
  {
    hide Settled, Park, Count, ApplyOutcome, S.Assign, S.NextWake, TotalCalls, FirstEligible;
    if e.Wake? { WakeStoresNothing(s, x, e.worker, e.at, e.stopped); }
  }

  lemma WakeStoresNothing(s: State, x: Setup, w: nat, at: int, stopped: bool)
    requires w < |s.workers|
    ensures WakeUp(s, x, w, at, stopped).standards == s.standards
  {
    hide S.Assign, S.NextWake, TotalCalls, WillCreate, NeedsStandard, FirstEligible;
  }
}
