/** When two workers of the seed run can be creating one standard at once, and when they cannot. */
module SeedRunStandards {
  import opened Numbers
  import opened SeedRun
  import opened SeedRunSafety
  import opened SeedRunResults
  import S = Scheduler

  // ----- the condition on the pools file -----

  /** A pool the pipeline may have to create a standard for: the file's is missing or too thin to use. */
  predicate IsCapable(p: Pool) { p.standard.None? || p.standard.value < 2 }

  /** Two pools of the file may each have to create the standard of the key. */
  ghost predicate TwoCapable(pools: seq<Pool>, key: StandardKey) {
    exists i, j :: 0 <= i < j < |pools| && CapableFor(pools, key, i) && CapableFor(pools, key, j)
  }

  predicate CapableFor(pools: seq<Pool>, key: StandardKey, i: nat)
    requires i < |pools|
  {
    pools[i].standardKey == key && IsCapable(pools[i])
  }

  /** No pool of the key has a standard in the file, thin or not. */
  ghost predicate AllMissing(pools: seq<Pool>, key: StandardKey) {
    forall i :: 0 <= i < |pools| && pools[i].standardKey == key ==> pools[i].standard.None?
  }

  /** For each standard at most one pool may have to create it, or none of its pools has it in the file. */
  ghost predicate Consistent(pools: seq<Pool>) {
    forall key :: !TwoCapable(pools, key) || AllMissing(pools, key)
  }

  ghost predicate DistinctKeys(pools: seq<Pool>) {
    forall i, j :: 0 <= i < j < |pools| ==> pools[i].key != pools[j].key
  }

  predicate IsCreating(s: State, w: int) {
    0 <= w < |s.workers| && Creates(s.workers[w])
  }

  ghost predicate IsCreatingFor(s: State, x: Setup, w: int, key: StandardKey)
    requires Indexed(s, x)
  {
    IsCreating(s, w) && StandardKeyOf(s, x, w) == key
  }

  /** At most one worker is creating the standard of the key. */
  ghost predicate OneCreatorFor(s: State, x: Setup, key: StandardKey) {
    && Indexed(s, x)
    && forall v, w :: IsCreatingFor(s, x, v, key) && IsCreatingFor(s, x, w, key) ==> v == w
  }

  ghost predicate OneCreator(s: State, x: Setup) {
    Indexed(s, x) && forall key :: OneCreatorFor(s, x, key)
  }

  // ----- keys with at most one capable pool -----

  ghost predicate CreatorsAreCapable(s: State, x: Setup) {
    Indexed(s, x) && forall w :: IsCreating(s, w) ==> IsCapable(x.pools[s.workers[w].index])
  }

  lemma StepKeepsCapable(s: State, x: Setup, e: Event)
    requires CreatorsAreCapable(s, x) && Enabled(s, x, e)
    ensures CreatorsAreCapable(Step(s, x, e), x)
  {
    StepKeepsIndexed(s, x, e);
    StepShape(s, x, e);
    hide Step, Enabled, Shaped;
    var t := Step(s, x, e);
    ShapeTouches(s, t, x, e.worker);
    if IsCreating(t, e.worker) { CreatorIsCapable(s, t, x, e.worker); }
    hide TouchesItsOwn, IsCapable;
    forall v | IsCreating(t, v) ensures IsCapable(x.pools[t.workers[v].index]) {
      if v != e.worker { assert t.workers[v] == s.workers[v] && IsCreating(s, v); }
    }
  }

  lemma CreatorIsCapable(s: State, t: State, x: Setup, w: nat)
    requires CreatorsAreCapable(s, x) && Indexed(t, x) && Shaped(s, t, x, w) && IsCreating(t, w)
    ensures IsCapable(x.pools[t.workers[w].index])
  {
    hide ApplyOutcome, StoreStandard, Eligible;
    if IsWorking(s, w) { assert IsCreating(s, w); }
  }

  /** Two creators of a key are at work on two pools that may each have to create it. */
  lemma TwoCreatorsNeedTwoCapable(s: State, x: Setup, key: StandardKey)
    requires CreatorsAreCapable(s, x) && Exclusive(s, x) && !TwoCapable(x.pools, key)
    ensures OneCreatorFor(s, x, key)
  {
    forall v, w | IsCreatingFor(s, x, v, key) && IsCreatingFor(s, x, w, key) ensures v == w {
      var i, j := s.workers[v].index, s.workers[w].index;
      assert CapableFor(x.pools, key, i) && CapableFor(x.pools, key, j);
      assert i == j;
      assert KeyOf(s, x, v) == KeyOf(s, x, w);
    }
  }

  // ----- keys whose standard is nowhere in the file -----

  /** A creator holds the key and nothing is stored under it; a worker that relies on the stored one finds it there. */
  ghost predicate CreatorsHold(s: State, x: Setup, key: StandardKey) {
    && Indexed(s, x)
    && (forall w :: IsCreatingFor(s, x, w, key) ==> key in s.standardsInFlight && key !in s.standards)
    && (forall w :: IsWorking(s, w) && !IsCreating(s, w) && StandardKeyOf(s, x, w) == key ==> key in s.standards)
  }

  ghost predicate Guarded(s: State, x: Setup, key: StandardKey) { OneCreatorFor(s, x, key) && CreatorsHold(s, x, key) }

  lemma ShapeKeepsGuarded(s: State, t: State, x: Setup, w: nat, key: StandardKey)
    requires AllMissing(x.pools, key) && Guarded(s, x, key) && Shaped(s, t, x, w) && Indexed(s, x) && Indexed(t, x)
    ensures Guarded(t, x, key)
  {
    hide Moves, Takes, Ends, Release, Guarded, AllMissing, LeavesKey;
    if Moves(s, t, w) {
      MoveKeepsGuarded(s, t, x, w, key);
    } else if exists i, a :: Takes(s, t, x, w, i, a) {
      var i, a :| Takes(s, t, x, w, i, a);
      TakeKeepsGuarded(s, t, x, w, i, a, key);
    } else if exists o :: Ends(s, t, x, w, o) {
      var o :| Ends(s, t, x, w, o);
      EndLeavesKey(s, t, x, w, o);
      LeavingKeepsGuarded(s, t, x, w, key);
    } else {
      CrashLeavesKey(s, t, x, w);
      LeavingKeepsGuarded(s, t, x, w, key);
    }
  }

  /** The worker is no longer at work: its standard's key is given up, and what it created may be stored. */
  ghost predicate LeavesKey(s: State, t: State, x: Setup, w: nat)
    requires Indexed(s, x)
  {
    && IsWorking(s, w) && !IsWorking(t, w) && w < |s.workers| == |t.workers|
    && t.workers == s.workers[w := t.workers[w]]
    && t.standardsInFlight == s.standardsInFlight - {StandardKeyOf(s, x, w)}
    && exists created :: t.standards == StoreStandard(s.standards, StandardKeyOf(s, x, w), created)
  }

  lemma EndLeavesKey(s: State, t: State, x: Setup, w: nat, o: Outcome)
    requires Indexed(s, x) && Ends(s, t, x, w, o)
    ensures LeavesKey(s, t, x, w)
  {
    hide ApplyOutcome, StoreStandard;
    var created := if o.Finished? then s.workers[w].created else None;
    assert t.standards == StoreStandard(s.standards, StandardKeyOf(s, x, w), created);
  }

  lemma CrashLeavesKey(s: State, t: State, x: Setup, w: nat)
    requires Indexed(s, x) && IsWorking(s, w) && t == Release(s, x, w, Crashed)
    ensures LeavesKey(s, t, x, w)
  {
    assert t.standards == StoreStandard(s.standards, StandardKeyOf(s, x, w), None);
  }

  lemma MoveKeepsGuarded(s: State, t: State, x: Setup, w: nat, key: StandardKey)
    requires Guarded(s, x, key) && Indexed(t, x) && Moves(s, t, w)
    ensures Guarded(t, x, key)
  {
    forall v | IsWorking(t, v)
      ensures IsWorking(s, v) && (IsCreatingFor(t, x, v, key) <==> IsCreatingFor(s, x, v, key))
      ensures (IsCreating(t, v) <==> IsCreating(s, v)) && StandardKeyOf(t, x, v) == StandardKeyOf(s, x, v)
    {
    }
  }

  lemma TakeKeepsGuarded(s: State, t: State, x: Setup, w: nat, i: nat, a: S.Assignment, key: StandardKey)
    requires AllMissing(x.pools, key) && Guarded(s, x, key) && Indexed(t, x) && Takes(s, t, x, w, i, a)
    ensures Guarded(t, x, key)
  {
    assert x.pools[i].standardKey == key ==> x.pools[i].standard.None?;
    forall v | IsWorking(t, v) && v != w
      ensures IsWorking(s, v) && (IsCreatingFor(t, x, v, key) <==> IsCreatingFor(s, x, v, key))
      ensures (IsCreating(t, v) <==> IsCreating(s, v)) && StandardKeyOf(t, x, v) == StandardKeyOf(s, x, v)
    {
    }
    if IsCreatingFor(t, x, w, key) {
      assert key !in s.standardsInFlight && key !in s.standards;
      forall v ensures !IsCreatingFor(s, x, v, key) {}
    }
  }

  lemma LeavingKeepsGuarded(s: State, t: State, x: Setup, w: nat, key: StandardKey)
    requires Guarded(s, x, key) && Indexed(t, x) && LeavesKey(s, t, x, w)
    ensures Guarded(t, x, key)
  {
    forall v | IsWorking(t, v)
      ensures v != w && IsWorking(s, v) && (IsCreatingFor(t, x, v, key) <==> IsCreatingFor(s, x, v, key))
      ensures (IsCreating(t, v) <==> IsCreating(s, v)) && StandardKeyOf(t, x, v) == StandardKeyOf(s, x, v)
    {
    }
    forall v | IsCreatingFor(t, x, v, key) ensures StandardKeyOf(s, x, w) != key {
      NobodyElseOnTheKey(s, x, v, w, key);
    }
  }

  /** While the standard is being created, nobody else is working on a pool of the key. */
  lemma NobodyElseOnTheKey(s: State, x: Setup, v: int, w: int, key: StandardKey)
    requires Guarded(s, x, key) && IsCreatingFor(s, x, v, key) && IsWorking(s, w) && v != w
    ensures StandardKeyOf(s, x, w) != key
  {
    assert !IsCreatingFor(s, x, w, key);
  }

  lemma StepKeepsGuarded(s: State, x: Setup, e: Event, key: StandardKey)
    requires AllMissing(x.pools, key) && Guarded(s, x, key) && Enabled(s, x, e) && Indexed(s, x)
    ensures Guarded(Step(s, x, e), x, key)
  {
    StepKeepsIndexed(s, x, e);
    StepShape(s, x, e);
    hide Step, Enabled, Shaped, Guarded, AllMissing;
    ShapeKeepsGuarded(s, Step(s, x, e), x, e.worker, key);
  }

  // ----- a consistent file never has two creators -----

  /** What every run over the file keeps, whatever it started from. */
  ghost predicate Protected(start: State, s: State, x: Setup) {
    && Accounted(start, s, x) && CreatorsAreCapable(s, x)
    && forall key :: AllMissing(x.pools, key) ==> Guarded(s, x, key)
  }

  lemma {:induction false} EveryRunIsProtected(start: State, x: Setup, events: seq<Event>)
    requires Protected(start, start, x) && Indexed(start, x)
    ensures Protected(start, Play(start, x, events), x)
  {
    if events != [] {
      hide Accounted, CreatorsAreCapable, Guarded, AllMissing, Step, Enabled;
      var n := |events| - 1;
      EveryRunIsProtected(start, x, events[..n]);
      var s := Play(start, x, events[..n]);
      if Enabled(s, x, events[n]) {
        StepKeepsAccounts(start, s, x, events[n]);
        StepKeepsCapable(s, x, events[n]);
        forall key | AllMissing(x.pools, key) ensures Guarded(Step(s, x, events[n]), x, key) {
          StepKeepsGuarded(s, x, events[n], key);
        }
      }
    }
  }

  /** With a consistent pools file no run, from any saved progress, has two workers creating one standard. */
  lemma ConsistentFileHasOneCreator(
    x: Setup, pools: map<Key, Progress>, standards: map<StandardKey, Standard>, lanes: S.Lanes, events: seq<Event>)
    requires Consistent(x.pools) && Startable(x, pools)
    ensures Indexed(Start(x, pools, standards, lanes), x)
    ensures OneCreator(Play(Start(x, pools, standards, lanes), x, events), x)
  {
    var start := Start(x, pools, standards, lanes);
    assert forall w :: 0 <= w < |start.workers| ==> start.workers[w].Ready?;
    StartIsAccounted(x, pools, standards, lanes);
    EveryRunIsProtected(start, x, events);
    var s := Play(start, x, events);
    forall key ensures OneCreatorFor(s, x, key) {
      hide TwoCapable, AllMissing;
      if !AllMissing(x.pools, key) { TwoCreatorsNeedTwoCapable(s, x, key); }
    }
  }

  // ----- an inconsistent one can -----

  /** Some sequence of events leads there. */
  ghost predicate Reaches(start: State, x: Setup, s: State) {
    Indexed(start, x) && exists events :: Play(start, x, events) == s
  }

  lemma ReachesItself(start: State, x: Setup)
    requires Indexed(start, x)
    ensures Reaches(start, x, start)
  {
    assert Play(start, x, []) == start;
  }

  lemma ReachesNext(start: State, x: Setup, s: State, e: Event)
    requires Reaches(start, x, s) && Indexed(s, x) && Enabled(s, x, e)
    ensures Reaches(start, x, Step(s, x, e))
  {
    var events :| Play(start, x, events) == s;
    assert (events + [e])[..|events|] == events;
    assert Play(start, x, events + [e]) == Step(s, x, e);
  }

  function FreeLanes(): S.Lanes { map[0 := S.Snapshot(0, 0, 0), 1 := S.Snapshot(0, 0, 0)] }

  /** Two workers, two lanes, one attempt a pool. */
  function TwoWorkers(pools: seq<Pool>): Setup {
    Setup(pools, Options(2, 1, 0, None, false), S.Config([0, 1], 0, None, None))
  }

  ghost predicate LanesAreFree(lanes: S.Lanes) {
    lanes.Keys == {0, 1} && lanes[0].cooldownUntil == 0 && lanes[1].cooldownUntil == 0
  }

  lemma FreeLanesAssign(pools: seq<Pool>, lanes: S.Lanes, index: nat)
    requires LanesAreFree(lanes)
    ensures S.Assign(lanes, TwoWorkers(pools).cfg, index, 0).Some?
    ensures S.Assign(lanes, TwoWorkers(pools).cfg, index, 0).value.generator in lanes
  {
    var cfg := TwoWorkers(pools).cfg;
    assert S.CanWrite(lanes, cfg, 0)(0) && S.CanRun(lanes, cfg, 0)(0) && S.CanRun(lanes, cfg, 0)(1);
    hide S.Assign, S.CanWrite, S.CanRun;
    assert 0 in cfg.lanes && 1 in cfg.lanes;
    S.AssignIsNoneIff(lanes, cfg, index, 0);
    S.AssignedLanesAreDistinctAndUsable(lanes, cfg, index, 0);
    GeneratorsAreKnown(lanes, cfg, 0, S.Assign(lanes, cfg, index, 0).value.generator);
  }

  lemma GeneratorsAreKnown(lanes: S.Lanes, cfg: S.Config, at: int, lane: S.Lane)
    requires S.CanWrite(lanes, cfg, at)(lane)
    ensures lane in lanes
  {
  }

  lemma {:induction false} FirstIs(s: State, pools: seq<Pool>, from: nat, i: nat)
    requires from <= i < |pools| && Eligible(s, pools[i])
    requires forall k :: from <= k < i ==> !Eligible(s, pools[k])
    ensures FirstEligible(s, pools, from) == Some(i)
    decreases i - from
  {
    hide Eligible;
    if from < i { FirstIs(s, pools, from + 1, i); }
  }

  /** A free worker takes the first pool it may. */
  lemma WorkerTakes(s: State, pools: seq<Pool>, w: nat, i: nat) returns (a: S.Assignment)
    requires w < |s.workers| && s.workers[w].Ready? && LanesAreFree(s.lanes) && i < |pools| && Eligible(s, pools[i])
    requires forall k :: 0 <= k < i ==> !Eligible(s, pools[k])
    ensures var x := TwoWorkers(pools);
      && Enabled(s, x, Wake(w, 0, false)) && pools[i].key in s.pools
      && WakeUp(s, x, w, 0, false) == Begin(s, x, w, i, a) && a.generator in s.lanes
  {
    hide S.Assign, TotalCalls, Eligible;
    FirstIs(s, pools, 0, i);
    EligibleIsKnown(s, pools[i]);
    FreeLanesAssign(pools, s.lanes, i + s.pools[pools[i].key].attempts);
    a := S.Assign(s.lanes, TwoWorkers(pools).cfg, i + s.pools[pools[i].key].attempts, 0).value;
  }

  /** The pools at the live positions are new; the rest of the file is done. */
  function SavedFor(pools: seq<Pool>, live: set<nat>): map<Key, Progress> {
    if pools == [] then map[]
    else
      var n := |pools| - 1;
      SavedFor(pools[..n], live)[pools[n].key := if n in live then InitialProgress() else Progress(Done, 1, [], [], [])]
  }

  lemma {:induction false} SavedIsLive(pools: seq<Pool>, live: set<nat>)
    requires DistinctKeys(pools)
    ensures forall i :: 0 <= i < |pools| ==>
              && pools[i].key in SavedFor(pools, live)
              && (if i in live then SavedFor(pools, live)[pools[i].key] == InitialProgress()
                  else !SavedFor(pools, live)[pools[i].key].status.Pending?)
  {
    if pools != [] {
      var n := |pools| - 1;
      SavedIsLive(pools[..n], live);
      forall i | 0 <= i < n
        ensures pools[i].key != pools[n].key && pools[i].key in SavedFor(pools[..n], live)
        ensures if i in live then SavedFor(pools[..n], live)[pools[i].key] == InitialProgress()
                else !SavedFor(pools[..n], live)[pools[i].key].status.Pending?
      {
        assert pools[..n][i] == pools[i];
      }
    }
  }

  /** Two workers over free lanes; only the live pools are still to do. */
  ghost predicate OnlyLive(s: State, pools: seq<Pool>, live: set<nat>) {
    && |s.workers| == 2 && LanesAreFree(s.lanes) && s.standards == map[]
    && forall i :: 0 <= i < |pools| ==>
         && pools[i].key in s.pools
         && (if i in live then s.pools[pools[i].key] == InitialProgress() else !s.pools[pools[i].key].status.Pending?)
  }

  lemma StartIsLive(pools: seq<Pool>, live: set<nat>)
    requires DistinctKeys(pools)
    ensures var x, saved := TwoWorkers(pools), SavedFor(pools, live);
      var s := Start(x, saved, map[], FreeLanes());
      && Startable(x, saved) && Indexed(s, x) && OnlyLive(s, pools, live)
      && s.workers == [Ready, Ready] && s.inFlight == {} && s.standardsInFlight == {}
  {
    hide SavedFor;
    SavedIsLive(pools, live);
  }

  /** Which pools a worker may take. */
  lemma EligibleMeansLive(s: State, pools: seq<Pool>, live: set<nat>, k: nat)
    requires OnlyLive(s, pools, live) && k < |pools|
    ensures Eligible(s, pools[k]) <==>
            && k in live && pools[k].key !in s.inFlight
            && !(pools[k].standard.None? && pools[k].standardKey in s.standardsInFlight)
  {
  }

  /**
   * A pool taken in such a state: the worker creates if the pool is
   * capable, and marks the key if it has no standard.
   */
  lemma TakenLive(s: State, pools: seq<Pool>, live: set<nat>, w: nat, i: nat, a: S.Assignment)
    requires OnlyLive(s, pools, live) && w < 2 && i in live && i < |pools|
    ensures var t, x := Begin(s, TwoWorkers(pools), w, i, a), TwoWorkers(pools);
      && OnlyLive(t, pools, live) && t.inFlight == s.inFlight + {pools[i].key}
      && t.standardsInFlight == s.standardsInFlight + (if pools[i].standard.None? then {pools[i].standardKey} else {})
      && t.workers == s.workers[w := t.workers[w]] && t.workers[w].Working? && t.workers[w].index == i
      && t.workers[w].assignment == a && !t.workers[w].calling && t.workers[w].progress == InitialProgress()
      && t.workers[w].created.None?
      && t.workers[w].stage == if IsCapable(pools[i]) then WriteStandard else WriteQuestions
  {
  }

  lemma TwoCreatorsSeen(s: State, pools: seq<Pool>, key: StandardKey, i: nat, j: nat, c: nat, h: nat)
    requires Indexed(s, TwoWorkers(pools)) && |s.workers| == 2 && c < 2 && h < 2 && c != h
    requires i < |pools| && pools[i].standardKey == key && j < |pools| && pools[j].standardKey == key
    requires Creates(s.workers[c]) && s.workers[c].index == i && Creates(s.workers[h]) && s.workers[h].index == j
    ensures !OneCreator(s, TwoWorkers(pools))
  {
    var x := TwoWorkers(pools);
    assert IsCreatingFor(s, x, c, key) && IsCreatingFor(s, x, h, key);
    assert !OneCreatorFor(s, x, key);
  }

  /** One of two capable pools has a thin standard in the file: it neither marks the key nor minds the mark. */
  lemma ThinStandardLetsTwoIn(pools: seq<Pool>, key: StandardKey, i: nat, j: nat) returns (t: State)
    requires DistinctKeys(pools) && i < j < |pools| && CapableFor(pools, key, i) && CapableFor(pools, key, j)
    requires pools[i].standard.Some? || pools[j].standard.Some?
    ensures Startable(TwoWorkers(pools), SavedFor(pools, {i, j}))
    ensures Reaches(Start(TwoWorkers(pools), SavedFor(pools, {i, j}), map[], FreeLanes()), TwoWorkers(pools), t)
    ensures !OneCreator(t, TwoWorkers(pools))
  {
    hide Play, WakeUp, Begin, Start, Eligible, OnlyLive, Reaches, S.Assign, SavedFor, LanesAreFree;
    var x, live := TwoWorkers(pools), {i, j};
    StartIsLive(pools, live);
    var s := Start(x, SavedFor(pools, live), map[], FreeLanes());
    ReachesItself(s, x);
    var s1, a := TakesLive(s, x, s, pools, live, 0, i);
    var s2, b := TakesLive(s, x, s1, pools, live, 1, j);
    TwoCreatorsSeen(s2, pools, key, i, j, 0, 1);
    t := s2;
  }

  /** A free worker takes the live pool i, every earlier live one being taken or waiting. */
  lemma TakesLive(start: State, x: Setup, s: State, pools: seq<Pool>, live: set<nat>, w: nat, i: nat)
    returns (t: State, a: S.Assignment)
    requires x == TwoWorkers(pools) && Reaches(start, x, s) && Indexed(s, x) && OnlyLive(s, pools, live)
    requires w < 2 && s.workers[w].Ready? && i in live && i < |pools| && pools[i].key !in s.inFlight
    requires !(pools[i].standard.None? && pools[i].standardKey in s.standardsInFlight)
    requires forall k :: 0 <= k < i && k in live ==>
      pools[k].key in s.inFlight || (pools[k].standard.None? && pools[k].standardKey in s.standardsInFlight)
    ensures Reaches(start, x, t) && Indexed(t, x) && OnlyLive(t, pools, live) && a.generator in t.lanes
    ensures t.inFlight == s.inFlight + {pools[i].key}
    ensures t.standardsInFlight ==
            s.standardsInFlight + (if pools[i].standard.None? then {pools[i].standardKey} else {})
    ensures t.workers == s.workers[w := Working(i, InitialProgress(), a, None, if IsCapable(pools[i]) then WriteStandard
            else WriteQuestions, false)]
  {
    hide Play, WakeUp, Eligible, Reaches, S.Assign, SavedFor;
    EligibleMeansLive(s, pools, live, i);
    forall k: nat | k < i ensures !Eligible(s, pools[k]) { EligibleMeansLive(s, pools, live, k); }
    a := WorkerTakes(s, pools, w, i);
    TakenLive(s, pools, live, w, i, a);
    ReachesNext(start, x, s, Wake(w, 0, false));
    StepKeepsIndexed(s, x, Wake(w, 0, false));
    t := Begin(s, x, w, i, a);
  }

  // ----- two pools without a standard, and one with it -----

  /** The event happens next. */
  lemma Happens(start: State, x: Setup, s: State, e: Event) returns (t: State)
    requires Reaches(start, x, s) && Indexed(s, x) && Enabled(s, x, e)
    ensures t == Step(s, x, e) && Reaches(start, x, t) && Indexed(t, x)
  {
    ReachesNext(start, x, s, e);
    StepKeepsIndexed(s, x, e);
    t := Step(s, x, e);
  }

  lemma CallIsMade(start: State, s: State, pools: seq<Pool>, live: set<nat>, w: nat) returns (t: State)
    requires Reaches(start, TwoWorkers(pools), s) && Indexed(s, TwoWorkers(pools)) && OnlyLive(s, pools, live)
    requires HasLane(s, w) && !s.workers[w].calling
    ensures Reaches(start, TwoWorkers(pools), t) && Indexed(t, TwoWorkers(pools)) && OnlyLive(t, pools, live)
    ensures t == s.(workers := s.workers[w := s.workers[w].(calling := true)], lanes := t.lanes)
  {
    t := Happens(start, TwoWorkers(pools), s, CallStarts(w));
  }

  /** A text comes back: the standard asked for, or questions in a form nothing can be made of. */
  lemma CallIsAnswered(start: State, s: State, pools: seq<Pool>, live: set<nat>, w: nat, r: Reply) returns (t: State)
    requires Reaches(start, TwoWorkers(pools), s) && Indexed(s, TwoWorkers(pools)) && OnlyLive(s, pools, live)
    requires HasLane(s, w) && s.workers[w].calling
    requires if s.workers[w].stage.WriteStandard? then r.Answer? else r.Unusable?
    ensures Reaches(start, TwoWorkers(pools), t) && Indexed(t, TwoWorkers(pools)) && OnlyLive(t, pools, live)
    ensures var p := s.workers[w];
      var next := if r.Answer? then p.(created := Some(r.standard), stage := WriteQuestions, calling := false)
                  else p.(stage := Assemble, calling := false);
      t == s.(workers := s.workers[w := next], lanes := t.lanes)
  {
    t := Happens(start, TwoWorkers(pools), s, CallReturns(w, r));
  }

  /** A pool that needed no new standard ends, and its standard's key is given up with it. */
  lemma PoolIsDone(start: State, s: State, pools: seq<Pool>, live: set<nat>, w: nat, rejected: seq<Item>)
    returns (t: State)
    requires DistinctKeys(pools)
    requires Reaches(start, TwoWorkers(pools), s) && Indexed(s, TwoWorkers(pools)) && OnlyLive(s, pools, live)
    requires IsWorking(s, w) && s.workers[w].stage.Assemble? && s.workers[w].created.None?
    ensures var p := pools[s.workers[w].index];
      && Reaches(start, TwoWorkers(pools), t) && Indexed(t, TwoWorkers(pools))
      && OnlyLive(t, pools, live - {s.workers[w].index})
      && t.workers == s.workers[w := Ready]
      && t.inFlight == s.inFlight - {p.key} && t.standardsInFlight == s.standardsInFlight - {p.standardKey}
  {
    var r := s.workers[w].index;
    t := Happens(start, TwoWorkers(pools), s, PoolAssembled(w, [], rejected));
    forall k | 0 <= k < |pools| && k != r ensures pools[k].key != pools[r].key {
    }
  }

  /** One worker creates for pool i; the other is about to ask for the questions of pool r, which has its standard. */
  ghost predicate Paired(s: State, pools: seq<Pool>, i: nat, r: nat, c: nat, h: nat, key: StandardKey) {
    && i < |pools| && r < |pools| && c < 2 && h < 2 && c != h && |s.workers| == 2
    && s.workers[c].Working? && s.workers[c].index == i && s.workers[c].stage.WriteStandard?
    && s.workers[h].Working? && s.workers[h].index == r && s.workers[h].stage.WriteQuestions?
    && s.workers[h].created.None? && !s.workers[c].calling && !s.workers[h].calling
    && s.workers[c].assignment.generator in s.lanes && s.workers[h].assignment.generator in s.lanes
    && s.inFlight == {pools[i].key, pools[r].key} && s.standardsInFlight == {key}
  }

  /** Both workers start at once and take the two pools in the file's order. */
  lemma BothTake(pools: seq<Pool>, key: StandardKey, i: nat, j: nat, r: nat) returns (s: State, c: nat, h: nat)
    requires DistinctKeys(pools) && i < j < |pools| && r < |pools| && !IsCapable(pools[r])
    requires pools[i].standardKey == pools[j].standardKey == pools[r].standardKey == key
    requires pools[i].standard.None? && pools[j].standard.None?
    ensures var x, live := TwoWorkers(pools), {i, j, r};
      && Startable(x, SavedFor(pools, live)) && Reaches(Start(x, SavedFor(pools, live), map[], FreeLanes()), x, s)
      && Indexed(s, x) && OnlyLive(s, pools, live) && Paired(s, pools, i, r, c, h, key)
  {
    hide Play, WakeUp, Begin, Start, Eligible, OnlyLive, Reaches, S.Assign, SavedFor, LanesAreFree;
    var x, live := TwoWorkers(pools), {i, j, r};
    StartIsLive(pools, live);
    var start := Start(x, SavedFor(pools, live), map[], FreeLanes());
    ReachesItself(start, x);
    if r < i {
      c, h := 1, 0;
      var s1, a := TakesLive(start, x, start, pools, live, 0, r);
      var s2, b := TakesLive(start, x, s1, pools, live, 1, i);
      LanesStayFree(s1, s2, pools, live, a.generator);
      s := s2;
    } else {
      c, h := 0, 1;
      var s1, a := TakesLive(start, x, start, pools, live, 0, i);
      var s2, b := TakesLive(start, x, s1, pools, live, 1, r);
      LanesStayFree(s1, s2, pools, live, a.generator);
      s := s2;
    }
  }

  lemma LanesStayFree(s: State, t: State, pools: seq<Pool>, live: set<nat>, lane: S.Lane)
    requires OnlyLive(s, pools, live) && OnlyLive(t, pools, live) && lane in s.lanes
    ensures lane in t.lanes
  {
  }

  /**
   * Both first calls are made, on one lane or on two. On one lane the creator's may come
   * first: then its standard is back, not stored yet, and its next call is made behind the helper's.
   */
  lemma HelperIsAnswered(start: State, s: State, pools: seq<Pool>, live: set<nat>, i: nat, r: nat, c: nat, h: nat,
                         key: StandardKey)
    returns (t: State)
    requires Reaches(start, TwoWorkers(pools), s) && Indexed(s, TwoWorkers(pools)) && OnlyLive(s, pools, live)
    requires Paired(s, pools, i, r, c, h, key)
    ensures Reaches(start, TwoWorkers(pools), t) && Indexed(t, TwoWorkers(pools)) && OnlyLive(t, pools, live)
    ensures |t.workers| == 2 && Creates(t.workers[c]) && t.workers[c].index == i
    ensures IsWorking(t, h) && t.workers[h].index == r && t.workers[h].stage.Assemble? && t.workers[h].created.None?
    ensures t.inFlight == s.inFlight && t.standardsInFlight == s.standardsInFlight
  {
    hide Reaches, Indexed, Step;
    var oneLane := s.workers[c].assignment.generator == s.workers[h].assignment.generator;
    var first, second := if i < r then c else h, if i < r then h else c;
    var s1 := CallIsMade(start, s, pools, live, first);
    LanesStayFree(s, s1, pools, live, s.workers[second].assignment.generator);
    var s2 := CallIsMade(start, s1, pools, live, second);
    if i < r && oneLane {
      LanesStayFree(s1, s2, pools, live, s.workers[c].assignment.generator);
      var s3 := CallIsAnswered(start, s2, pools, live, c, Answer(false, 2));
      LanesStayFree(s2, s3, pools, live, s.workers[c].assignment.generator);
      s2 := CallIsMade(start, s3, pools, live, c);
      LanesStayFree(s3, s2, pools, live, s.workers[h].assignment.generator);
    } else {
      LanesStayFree(s, s2, pools, live, s.workers[h].assignment.generator);
    }
    t := CallIsAnswered(start, s2, pools, live, h, Unusable(0));
  }

  /** The helper's pool is done, and the key it never took is free: it takes another pool of the key. */
  lemma GivenUpKeyLetsTwoIn(pools: seq<Pool>, key: StandardKey, i: nat, j: nat, r: nat) returns (t: State)
    requires DistinctKeys(pools) && i < j < |pools| && r < |pools| && !IsCapable(pools[r])
    requires pools[i].standardKey == pools[j].standardKey == pools[r].standardKey == key
    requires pools[i].standard.None? && pools[j].standard.None?
    ensures Startable(TwoWorkers(pools), SavedFor(pools, {i, j, r}))
    ensures Reaches(Start(TwoWorkers(pools), SavedFor(pools, {i, j, r}), map[], FreeLanes()), TwoWorkers(pools), t)
    ensures !OneCreator(t, TwoWorkers(pools))
  {
    hide Play, WakeUp, Begin, Start, Step, Enabled, OnlyLive, Reaches, SavedFor;
    var x, live := TwoWorkers(pools), {i, j, r};
    var start := Start(x, SavedFor(pools, live), map[], FreeLanes());
    var s, c, h := BothTake(pools, key, i, j, r);
    var s1 := HelperIsAnswered(start, s, pools, live, i, r, c, h, key);
    var s2 := PoolIsDone(start, s1, pools, live, h, [0]);
    assert pools[i].key != pools[j].key && pools[i].key != pools[r].key;
    var s3, b := TakesLive(start, x, s2, pools, live - {r}, h, j);
    TwoCreatorsSeen(s3, pools, key, i, j, c, h);
    t := s3;
  }

  // ----- exactly when -----

  /** No run over the file, whatever the options, lanes and saved progress, has two workers creating one standard. */
  ghost predicate NeverTwoCreators(pools: seq<Pool>) {
    forall x: Setup, saved, standards, lanes, s ::
      x.pools == pools && Startable(x, saved) && Reaches(Start(x, saved, standards, lanes), x, s) ==> OneCreator(s, x)
  }

  lemma OneCreatorExactly(pools: seq<Pool>)
    requires DistinctKeys(pools)
    ensures NeverTwoCreators(pools) <==> Consistent(pools)
  {
    if Consistent(pools) {
      forall x: Setup, saved, standards, lanes, s
        | x.pools == pools && Startable(x, saved) && Reaches(Start(x, saved, standards, lanes), x, s)
        ensures OneCreator(s, x)
      {
        var events :| Play(Start(x, saved, standards, lanes), x, events) == s;
        ConsistentFileHasOneCreator(x, saved, standards, lanes, events);
      }
    } else {
      InconsistentFileHasTwoCreators(pools);
    }
  }

  lemma InconsistentFileHasTwoCreators(pools: seq<Pool>)
    requires DistinctKeys(pools) && !Consistent(pools)
    ensures !NeverTwoCreators(pools)
  {
    hide Reaches, OneCreator, Start, SavedFor, Startable;
    var key :| TwoCapable(pools, key) && !AllMissing(pools, key);
    var i, j :| 0 <= i < j < |pools| && CapableFor(pools, key, i) && CapableFor(pools, key, j);
    var r :| 0 <= r < |pools| && pools[r].standardKey == key && pools[r].standard.Some?;
    if pools[i].standard.Some? || pools[j].standard.Some? {
      var t := ThinStandardLetsTwoIn(pools, key, i, j);
    } else if IsCapable(pools[r]) {
      assert CapableFor(pools, key, r);
      var t := ThinStandardLetsTwoIn(pools, key, if r < i then r else i, if r < i then i else r);
    } else {
      var t := GivenUpKeyLetsTwoIn(pools, key, i, j, r);
    }
  }

  /** Both pools have a standard in the file, but with one anchor: agreeing on having one is not enough. */
  lemma ThinStandardsHaveTwoCreators()
    ensures !NeverTwoCreators([Pool(0, 7, Some(1)), Pool(1, 7, Some(1))])
  {
    var pools := [Pool(0, 7, Some(1)), Pool(1, 7, Some(1))];
    assert CapableFor(pools, 7, 0) && CapableFor(pools, 7, 1);
    assert TwoCapable(pools, 7) && pools[0].standard.Some?;
    assert !Consistent(pools);
    InconsistentFileHasTwoCreators(pools);
  }

  /** Three pools of a key of which only the second has its standard. */
  lemma MixedFileHasTwoCreators()
    ensures !NeverTwoCreators([Pool(0, 7, None), Pool(1, 7, Some(2)), Pool(2, 7, None)])
  {
    var pools := [Pool(0, 7, None), Pool(1, 7, Some(2)), Pool(2, 7, None)];
    assert CapableFor(pools, 7, 0) && CapableFor(pools, 7, 2);
    assert TwoCapable(pools, 7) && pools[1].standard.Some?;
    assert !Consistent(pools);
    InconsistentFileHasTwoCreators(pools);
  }

  /** One pool without a standard beside one that has it: they disagree, and no run has two creators. */
  lemma DisagreeingFileCanBeSafe()
    ensures NeverTwoCreators([Pool(0, 7, None), Pool(1, 7, Some(2))])
  {
    var pools := [Pool(0, 7, None), Pool(1, 7, Some(2))];
    assert !IsCapable(pools[1]);
    OneCreatorExactly(pools);
  }
}
