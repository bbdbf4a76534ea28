/** What a whole run of the seed run adds up to: results and exits. */
module SeedRunResults {
  import opened Numbers
  import opened SeedRun
  import opened SeedRunSafety
  import S = Scheduler

  // ----- nothing written is lost -----

  function LogFor(log: seq<Update>, key: Key): seq<Outcome> {
    if log == [] then []
    else
      var last := log[|log| - 1];
      LogFor(log[..|log| - 1], key) + if last.key == key then [last.outcome] else []
  }

  /** The progress after a list of attempts, each applied to the one before. */
  function Replay(p: Progress, outcomes: seq<Outcome>, maxAttempts: nat): Progress {
    if outcomes == [] then p
    else ApplyOutcome(Replay(p, outcomes[..|outcomes| - 1], maxAttempts), outcomes[|outcomes| - 1], maxAttempts)
  }

  ghost predicate Replayed(start: State, s: State, x: Setup) {
    && s.pools.Keys == start.pools.Keys
    && forall k :: k in s.pools ==> s.pools[k] == Replay(start.pools[k], LogFor(s.log, k), x.opts.maxAttempts)
  }

  /** Only a finished pool has gained questions, so the state never holds half a pool. */
  ghost predicate WholePools(start: State, s: State) {
    && s.pools.Keys == start.pools.Keys
    && forall k :: k in s.pools && !s.pools[k].status.Done? ==>
         s.pools[k].accepted == start.pools[k].accepted && s.pools[k].rejected == start.pools[k].rejected
  }

  /** A pool that started under the attempt limit never passes it, and is still under it while pending. */
  ghost predicate AttemptsHeld(start: State, s: State, x: Setup) {
    && s.pools.Keys == start.pools.Keys
    && forall k :: k in s.pools && start.pools[k].attempts < x.opts.maxAttempts ==>
         s.pools[k].attempts <= x.opts.maxAttempts
             && (s.pools[k].status.Pending? ==> s.pools[k].attempts < x.opts.maxAttempts)
  }

  /** Finished and failed pools are never reopened, and stored standards never overwritten. */
  ghost predicate Keeps(s: State, t: State) {
    && (forall k :: k in s.pools ==> k in t.pools)
    && (forall k :: k in s.pools && !s.pools[k].status.Pending? ==> t.pools[k] == s.pools[k])
    && (forall k :: k in s.standards ==> k in t.standards && t.standards[k] == s.standards[k])
  }

  /** A step either leaves results and log alone, or writes one attempt's outcome over the pool it came from. */
  ghost predicate WritesOne(s: State, t: State, x: Setup) {
    || (t.pools == s.pools && t.log == s.log && t.standards == s.standards)
    || (exists k, o, key, created :: k in s.pools && s.pools[k].status.Pending?
          && t.pools == s.pools[k := ApplyOutcome(s.pools[k], o, x.opts.maxAttempts)]
          && t.log == s.log + [Update(k, o)]
          && t.standards == StoreStandard(s.standards, key, created))
  }

  lemma StepWritesOne(s: State, x: Setup, e: Event)
    requires Current(s, x) && Enabled(s, x, e)
    ensures WritesOne(s, Step(s, x, e), x)
  {
    StepShape(s, x, e);
    hide Step, Enabled, ApplyOutcome, StoreStandard, Eligible, Ends, WritesOne;
    var t, w := Step(s, x, e), e.worker;
    if exists o :: Ends(s, t, x, w, o) {
      var o :| Ends(s, t, x, w, o);
      EndWritesOne(s, t, x, w, o);
    } else {
      OthersWriteNothing(s, t, x, w);
    }
  }

  lemma OthersWriteNothing(s: State, t: State, x: Setup, w: nat)
    requires Shaped(s, t, x, w) && !exists o :: Ends(s, t, x, w, o)
    ensures WritesOne(s, t, x)
  {
    hide Eligible, Ends;
  }

  lemma EndWritesOne(s: State, t: State, x: Setup, w: nat, o: Outcome)
    requires Current(s, x) && Ends(s, t, x, w, o)
    ensures WritesOne(s, t, x)
  {
    hide ApplyOutcome, StoreStandard;
    var k := KeyOf(s, x, w);
    var created := if o.Finished? then s.workers[w].created else None;
    assert t.pools == s.pools[k := ApplyOutcome(s.pools[k], o, x.opts.maxAttempts)];
    assert t.standards == StoreStandard(s.standards, StandardKeyOf(s, x, w), created);
  }

  lemma WriteKeeps(s: State, t: State, x: Setup)
    requires WritesOne(s, t, x)
    ensures Keeps(s, t)
  {
  }

  lemma LogGrows(log: seq<Update>, k: Key, o: Outcome, q: Key)
    ensures LogFor(log + [Update(k, o)], q) == if q == k then LogFor(log, q) + [o] else LogFor(log, q)
  {
    assert (log + [Update(k, o)])[..|log|] == log;
    assert LogFor(log, q) + [] == LogFor(log, q);
  }

  lemma ReplayGrows(p: Progress, outcomes: seq<Outcome>, o: Outcome, maxAttempts: nat)
    ensures Replay(p, outcomes + [o], maxAttempts) == ApplyOutcome(Replay(p, outcomes, maxAttempts), o, maxAttempts)
  {
    assert (outcomes + [o])[..|outcomes|] == outcomes;
  }

  lemma WriteKeepsReplay(start: State, s: State, t: State, x: Setup)
    requires Replayed(start, s, x) && WritesOne(s, t, x)
    ensures Replayed(start, t, x)
  {
    hide ApplyOutcome, StoreStandard, LogFor, Replay;
    if t.pools != s.pools || t.log != s.log || t.standards != s.standards {
      var k, o, key, created :| k in s.pools && t.pools == s.pools[k := ApplyOutcome(s.pools[k], o, x.opts.maxAttempts)]
        && t.log == s.log + [Update(k, o)] && t.standards == StoreStandard(s.standards, key, created);
      forall q | q in t.pools ensures t.pools[q] == Replay(start.pools[q], LogFor(t.log, q), x.opts.maxAttempts) {
        LogGrows(s.log, k, o, q);
        ReplayGrows(start.pools[q], LogFor(s.log, q), o, x.opts.maxAttempts);
      }
    }
  }

  lemma WriteKeepsCounts(start: State, s: State, t: State, x: Setup)
    requires WholePools(start, s) && AttemptsHeld(start, s, x) && WritesOne(s, t, x)
    ensures WholePools(start, t) && AttemptsHeld(start, t, x)
  {
  }

  // ----- whole runs -----

  /** A run starts with every listed pool in the state: fresh ones pending, the others as saved. */
  ghost predicate Startable(x: Setup, pools: map<Key, Progress>) {
    forall i :: 0 <= i < |x.pools| ==> x.pools[i].key in pools
  }

  lemma {:induction false} WithPoolsAddsAndKeeps(saved: map<Key, Progress>, pools: seq<Pool>)
    ensures forall i :: 0 <= i < |pools| ==> pools[i].key in WithPools(saved, pools)
    ensures forall k :: k in saved ==> k in WithPools(saved, pools) && WithPools(saved, pools)[k] == saved[k]
    ensures forall k :: k in WithPools(saved, pools) && k !in saved ==>
              WithPools(saved, pools)[k] == Progress(Pending, 0, [], [], [])
  {
    if pools != [] {
      WithPoolsAddsAndKeeps(saved, pools[..|pools| - 1]);
      forall i | 0 <= i < |pools| ensures pools[i].key in WithPools(saved, pools) {
        if i < |pools| - 1 { assert pools[..|pools| - 1][i] == pools[i]; }
      }
    }
  }

  ghost predicate Accounted(start: State, s: State, x: Setup) {
    Safe(s, x) && Replayed(start, s, x) && WholePools(start, s) && AttemptsHeld(start, s, x) && Keeps(start, s)
  }

  lemma StepKeepsAccounts(start: State, s: State, x: Setup, e: Event)
    requires Accounted(start, s, x) && Enabled(s, x, e)
    ensures Accounted(start, Step(s, x, e), x)
  {
    hide Replayed, WholePools, AttemptsHeld, Step, Enabled, WritesOne, Exclusive, Current, StandardsHeld, Listed,
      LeavesNothing;
    AccountedIsIndexed(start, s, x);
    StepKeepsSafe(s, x, e);
    StepWritesOne(s, x, e);
    var t := Step(s, x, e);
    WriteKeepsReplay(start, s, t, x);
    WriteKeepsCounts(start, s, t, x);
    WriteKeeps(s, t, x);
  }

  lemma StartIsAccounted(x: Setup, pools: map<Key, Progress>, standards: map<StandardKey, Standard>, lanes: S.Lanes)
    requires Startable(x, pools)
    ensures var start := Start(x, pools, standards, lanes);
      Accounted(start, start, x)
  {
    var start := Start(x, pools, standards, lanes);
    assert forall w :: 0 <= w < |start.workers| ==> start.workers[w].Ready?;
  }

  /** Whatever the interleaving, the run stays safe and its results are exactly its attempts' outcomes in order. */
  lemma {:induction false} EveryRunIsAccounted(start: State, x: Setup, events: seq<Event>)
    requires Accounted(start, start, x)
    ensures Accounted(start, Play(start, x, events), x)
  {
    if events != [] {
      hide Accounted, Step, Enabled;
      var n := |events| - 1;
      AccountedIsIndexed(start, start, x);
      EveryRunIsAccounted(start, x, events[..n]);
      var s := Play(start, x, events[..n]);
      if Enabled(s, x, events[n]) { StepKeepsAccounts(start, s, x, events[n]); }
    }
  }

  lemma AccountedIsIndexed(start: State, s: State, x: Setup)
    requires Accounted(start, s, x)
    ensures Indexed(s, x)
  {
  }

  /** Every worker has gone home, none by a crash: the run returns. */
  predicate Returned(s: State) {
    forall w :: 0 <= w < |s.workers| ==> s.workers[w].Left?
  }

  /** The exit the caller sees: a stop asked for by then overrides the rest. */
  function ExitOf(s: State, stopped: bool): Exit {
    if stopped then Stopped else s.exit
  }

  /** "complete" means complete: every pool of the file is done or failed. */
  lemma CompleteMeansNothingPending(
    x: Setup, pools: map<Key, Progress>, standards: map<StandardKey, Standard>, lanes: S.Lanes, events: seq<Event>,
        stopped: bool)
    requires Startable(x, pools)
    requires var start := Start(x, pools, standards, lanes);
      Indexed(start, x) && Returned(Play(start, x, events)) && ExitOf(Play(start, x, events), stopped).Complete?
    ensures NothingPending(Play(Start(x, pools, standards, lanes), x, events), x)
  {
    var start := Start(x, pools, standards, lanes);
    StartIsAccounted(x, pools, standards, lanes);
    EveryRunIsAccounted(start, x, events);
    assert Play(start, x, events).workers[0].Left?;
  }

  /** What is saved after any step is a state a later run can start from, with the same guarantees. */
  lemma ResumeIsSafe(
    x: Setup, pools: map<Key, Progress>, standards: map<StandardKey, Standard>, lanes: S.Lanes, events: seq<Event>,
    again: Setup, lanesNow: S.Lanes)
    requires Startable(x, pools)
    ensures Indexed(Start(x, pools, standards, lanes), x)
    ensures var saved := Play(Start(x, pools, standards, lanes), x, events);
      var reloaded := WithPools(saved.pools, again.pools);
      && Accounted(Start(again, reloaded, saved.standards, lanesNow), Start(again, reloaded, saved.standards, lanesNow),
          again)
      && (forall k :: k in saved.pools ==> k in reloaded && reloaded[k] == saved.pools[k])
  {
    StartIsAccounted(x, pools, standards, lanes);
    var saved := Play(Start(x, pools, standards, lanes), x, events);
    WithPoolsAddsAndKeeps(saved.pools, again.pools);
    StartIsAccounted(again, WithPools(saved.pools, again.pools), saved.standards, lanesNow);
  }
}
