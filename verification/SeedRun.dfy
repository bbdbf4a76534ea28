/**
 * The seed run: several workers over one shared state. A worker runs without
 * interruption between two awaits, so each event below is one such stretch; events
 * of different workers interleave freely.
 */
module SeedRun {
  import opened Numbers
  import S = Scheduler

  type Key = nat
  type StandardKey = nat
  type Item = nat
  type Reason = nat
  type Standard = nat

  /** `standard` is the number of anchors of the standard the pools file carries, if it carries one. */
  datatype Pool = Pool(key: Key, standardKey: StandardKey, standard: Option<nat>)

  datatype Status = Pending | Done | Failed

  datatype Progress = Progress(status: Status, attempts: nat, accepted: seq<Item>, rejected: seq<Item>,
                               errors: seq<Reason>)

  datatype Options = Options(concurrency: nat, maxAttempts: nat, maxWaitMs: int, maxCalls: Option<nat>, tiebreak: bool)

  datatype Setup = Setup(pools: seq<Pool>, opts: Options, cfg: S.Config)

  datatype Exit = Complete | Stopped | LanesUnavailable | MaxCalls

  /** The pool pipeline's awaits, in order; the last stage has no call left to make. */
  datatype Stage = WriteStandard | WriteQuestions | Critique | BreakTie | Assemble

  datatype Phase =
    | Ready
    | Sleeping
    | Working(index: nat, progress: Progress, assignment: S.Assignment, created: Option<Standard>, stage: Stage,
        calling: bool)
    | Left
    | Crashed

  /** How one attempt at a pool ended. */
  datatype Outcome =
    | Finished(accepted: seq<Item>, rejected: seq<Item>)
    | Errored(reason: Reason, laneLimited: bool)

  datatype Update = Update(key: Key, outcome: Outcome)

  datatype State = State(
    pools: map<Key, Progress>,
    standards: map<StandardKey, Standard>,
    lanes: S.Lanes,
    inFlight: set<Key>,
    standardsInFlight: set<StandardKey>,
    workers: seq<Phase>,
    exit: Exit,
    log: seq<Update>)

  /** How a lane call ended: at its usage limit until a time, with an error noted at a time, or with a text. */
  datatype Reply =
    | LimitReached(reason: Reason, until: int)
    | CallFailed(reason: Reason, at: int)
    | Unusable(reason: Reason)
    | Answer(more: bool, standard: Standard)

  datatype Event =
    | Wake(worker: nat, at: int, stopped: bool)
    | CallStarts(worker: nat)
    | CallSkipped(worker: nat, reason: Reason, until: int)
    | CallReturns(worker: nat, reply: Reply)
    | PoolAssembled(worker: nat, accepted: seq<Item>, rejected: seq<Item>)
    | WorkerCrashes(worker: nat)

  // ----- starting state and resume -----

  function InitialProgress(): Progress { Progress(Pending, 0, [], [], []) }

  /** Saved progress, and a fresh start for every listed pool that has none. */
  function WithPools(saved: map<Key, Progress>, pools: seq<Pool>): map<Key, Progress> {
    if pools == [] then saved
    else
      var rest, key := WithPools(saved, pools[..|pools| - 1]), pools[|pools| - 1].key;
      if key in rest then rest else rest[key := InitialProgress()]
  }

  method AddPools(saved: map<Key, Progress>, pools: seq<Pool>) returns (next: map<Key, Progress>)
    ensures next == WithPools(saved, pools)
  {
    next := saved;
    for i := 0 to |pools|
      invariant next == WithPools(saved, pools[..i])
    {
      assert pools[..i + 1][..i] == pools[..i];
      if pools[i].key !in next { next := next[pools[i].key := InitialProgress()]; }
    }
    assert pools[..|pools|] == pools;
  }

  function Workers(opts: Options): nat {
    if opts.concurrency < 1 then 1 else opts.concurrency
  }

  function Start(x: Setup, pools: map<Key, Progress>, standards: map<StandardKey, Standard>, lanes: S.Lanes): (s: State)
    ensures |s.workers| == Workers(x.opts)
  {
    State(pools, standards, lanes, {}, {}, seq(Workers(x.opts), _ => Ready), Complete, [])
  }

  // ----- the shared helpers -----

  predicate NeedsStandard(s: State, p: Pool) {
    p.standard.None? && p.standardKey !in s.standards
  }

  /** Whether the pipeline will ask for a new standard: the file's is missing or too thin, and none is stored. */
  predicate WillCreate(s: State, p: Pool) {
    !(p.standard.Some? && p.standard.value >= 2) && p.standardKey !in s.standards
  }

  predicate Eligible(s: State, p: Pool) {
    && p.key in s.pools && s.pools[p.key].status.Pending? && p.key !in s.inFlight
    && !(NeedsStandard(s, p) && p.standardKey in s.standardsInFlight)
  }

  function FirstEligible(s: State, pools: seq<Pool>, from: nat): (r: Option<nat>)
    requires from <= |pools|
    ensures r.Some? ==> from <= r.value < |pools| && Eligible(s, pools[r.value])
    ensures r.None? ==> forall i :: from <= i < |pools| ==> !Eligible(s, pools[i])
    decreases |pools| - from
  {
    if from == |pools| then None
    else if Eligible(s, pools[from]) then Some(from)
    else FirstEligible(s, pools, from + 1)
  }

  function TotalCalls(lanes: S.Lanes, order: seq<S.Lane>): nat {
    if order == [] then 0
    else
      var last := order[|order| - 1];
      TotalCalls(lanes, order[..|order| - 1]) + if last in lanes then lanes[last].calls else 0
  }

  function ApplyOutcome(p: Progress, o: Outcome, maxAttempts: nat): Progress {
    match o
    case Finished(accepted, rejected) =>
      Progress(Done, p.attempts + 1, p.accepted + accepted, p.rejected + rejected, p.errors)
    case Errored(reason, laneLimited) =>
      var attempts := if laneLimited then p.attempts else p.attempts + 1;
      p.(status := if attempts >= maxAttempts then Failed
          else Pending, attempts := attempts, errors := p.errors + [reason])
  }

  function StageLane(a: S.Assignment, stage: Stage): Option<S.Lane> {
    match stage
    case WriteStandard => Some(a.generator)
    case WriteQuestions => Some(a.generator)
    case Critique => Some(a.critic)
    case BreakTie => a.tiebreak
    case Assemble => None
  }

  // ----- the atomic steps -----

  predicate IsWorking(s: State, w: int) {
    0 <= w < |s.workers| && s.workers[w].Working?
  }

  /** The worker's stage has a call to make, on a lane the scheduler knows. */
  predicate HasLane(s: State, w: int) {
    && IsWorking(s, w)
    && StageLane(s.workers[w].assignment, s.workers[w].stage).Some?
    && StageLane(s.workers[w].assignment, s.workers[w].stage).value in s.lanes
  }

  function LaneOf(s: State, w: int): S.Lane
    requires HasLane(s, w)
  {
    StageLane(s.workers[w].assignment, s.workers[w].stage).value
  }

  predicate Enabled(s: State, x: Setup, e: Event) {
    match e
    case Wake(w, _, _) => w < |s.workers| && (s.workers[w].Ready? || s.workers[w].Sleeping?)
    case CallStarts(w) => HasLane(s, w) && !s.workers[w].calling
    case CallSkipped(w, _, _) => HasLane(s, w) && !s.workers[w].calling
    case CallReturns(w, _) => HasLane(s, w) && s.workers[w].calling
    case PoolAssembled(w, _, _) => IsWorking(s, w) && s.workers[w].stage.Assemble? && s.workers[w].index < |x.pools|
    case WorkerCrashes(w) => IsWorking(s, w)
  }

  function At(s: State, w: nat, phase: Phase): State
    requires w < |s.workers|
  {
    s.(workers := s.workers[w := phase])
  }

  function Leave(s: State, w: nat, exit: Exit): State
    requires w < |s.workers|
  {
    At(s, w, Left).(exit := exit)
  }

  function Begin(s: State, x: Setup, w: nat, i: nat, a: S.Assignment): State
    requires w < |s.workers| && i < |x.pools| && x.pools[i].key in s.pools
  {
    var p := x.pools[i];
    At(s, w, Working(i, s.pools[p.key], a, None, if WillCreate(s, p) then WriteStandard else WriteQuestions, false)).(
      inFlight := s.inFlight + {p.key},
      standardsInFlight := if NeedsStandard(s, p) then s.standardsInFlight + {p.standardKey} else s.standardsInFlight)
  }

  /** The top of the worker's loop, up to its next await. */
  function WakeUp(s: State, x: Setup, w: nat, at: int, stopped: bool): State
    requires w < |s.workers|
  {
    if stopped then Leave(s, w, Stopped)
    else if x.opts.maxCalls.Some?
        && TotalCalls(s.lanes, x.cfg.lanes) >= x.opts.maxCalls.value then Leave(s, w, MaxCalls)
    else
      match FirstEligible(s, x.pools, 0)
      case None => if s.inFlight == {} then At(s, w, Left) else At(s, w, Sleeping)
      case Some(i) =>
        match S.Assign(s.lanes, x.cfg, i + s.pools[x.pools[i].key].attempts, at)
        case Some(a) => Begin(s, x, w, i, a)
        case None =>
          var wake := S.NextWake(s.lanes, x.cfg, at);
          if wake.None? || wake.value - at > x.opts.maxWaitMs then Leave(s, w, LanesUnavailable)
          else At(s, w, Sleeping)
  }

  /** The `finally` block: the pool and its standard's key are given up. */
  function Release(s: State, x: Setup, w: nat, phase: Phase): State
    requires IsWorking(s, w) && s.workers[w].index < |x.pools|
  {
    var p := x.pools[s.workers[w].index];
    At(s, w, phase).(inFlight := s.inFlight - {p.key}, standardsInFlight := s.standardsInFlight - {p.standardKey})
  }

  function StoreStandard(standards: map<StandardKey, Standard>, key: StandardKey,
                         created: Option<Standard>): map<StandardKey, Standard> {
    if created.Some? && key !in standards then standards[key := created.value] else standards
  }

  /** `update`, then the `finally` block: an attempt ends and is written on the progress it started from. */
  function End(s: State, x: Setup, w: nat, o: Outcome): State
    requires IsWorking(s, w) && s.workers[w].index < |x.pools|
  {
    var p := x.pools[s.workers[w].index];
    var created := if o.Finished? then s.workers[w].created else None;
    Release(
      s.(pools := s.pools[p.key := ApplyOutcome(s.workers[w].progress, o, x.opts.maxAttempts)],
         standards := StoreStandard(s.standards, p.standardKey, created),
         log := s.log + [Update(p.key, o)]),
      x, w, Ready)
  }

  /** A lane that cannot or would not answer ends the attempt, except while breaking ties. */
  function StageFails(s: State, x: Setup, w: nat, reason: Reason, laneLimited: bool): State
    requires IsWorking(s, w) && s.workers[w].index < |x.pools|
  {
    if s.workers[w].stage.BreakTie? then At(s, w, s.workers[w].(stage := Assemble, calling := false))
    else End(s, x, w, Errored(reason, laneLimited))
  }

  function Return(s: State, x: Setup, w: nat, r: Reply): State
    requires IsWorking(s, w) && s.workers[w].index < |x.pools|
  {
    var p := s.workers[w];
    match r
    case LimitReached(reason, _) => StageFails(s, x, w, reason, true)
    case CallFailed(reason, _) => StageFails(s, x, w, reason, false)
    case Unusable(reason) =>
      if p.stage.WriteStandard? then End(s, x, w, Errored(reason, false))
      else At(s, w, p.(stage := Assemble, calling := false))
    case Answer(more, standard) =>
      var next :=
        match p.stage
        case WriteStandard => p.(created := Some(standard), stage := WriteQuestions)
        case WriteQuestions => p.(stage := if more then Critique else Assemble)
        case Critique => p.(stage := if more && x.opts.tiebreak && p.assignment.tiebreak.Some? then BreakTie
            else Assemble)
        case _ => p.(stage := Assemble);
      At(s, w, next.(calling := false))
  }

  function Count(lanes: S.Lanes, lane: S.Lane): S.Lanes
    requires lane in lanes
  {
    lanes[lane := lanes[lane].(calls := lanes[lane].calls + 1)]
  }

  function Park(lanes: S.Lanes, lane: S.Lane, until: int): S.Lanes
    requires lane in lanes
  {
    lanes[lane := lanes[lane].(cooldownUntil := until)]
  }

  /** What the scheduler is told of a call's end, before the pool's stage hears of it. */
  function Settled(lanes: S.Lanes, lane: S.Lane, r: Reply): S.Lanes
    requires lane in lanes
  {
    match r
    case LimitReached(_, until) => Park(lanes, lane, until)
    case CallFailed(_, at) =>
      var failures := lanes[lane].failures + 1;
      Park(lanes[lane := lanes[lane].(failures := failures)], lane, at + S.Backoff(failures))
    case _ => lanes[lane := lanes[lane].(failures := 0)]
  }

  function Step(s: State, x: Setup, e: Event): State
    requires Enabled(s, x, e) && Indexed(s, x)
  {
    match e
    case Wake(w, at, stopped) => WakeUp(s, x, w, at, stopped)
    case CallStarts(w) =>
      At(s, w, s.workers[w].(calling := true)).(lanes := Count(s.lanes, LaneOf(s, w)))
    case CallSkipped(w, reason, until) =>
      StageFails(s.(lanes := Park(s.lanes, LaneOf(s, w), until)), x, w, reason, true)
    case CallReturns(w, r) => Return(s.(lanes := Settled(s.lanes, LaneOf(s, w), r)), x, w, r)
    case PoolAssembled(w, accepted, rejected) => End(s, x, w, Finished(accepted, rejected))
    case WorkerCrashes(w) => Release(s, x, w, Crashed)
  }

  ghost predicate Indexed(s: State, x: Setup) {
    forall w :: 0 <= w < |s.workers| && s.workers[w].Working? ==> s.workers[w].index < |x.pools|
  }

  lemma StepKeepsIndexed(s: State, x: Setup, e: Event)
    requires Indexed(s, x) && Enabled(s, x, e)
    ensures Indexed(Step(s, x, e), x)
    ensures |Step(s, x, e).workers| == |s.workers|
  {
    hide Settled, Park, Count, WakeUp, Return, StageFails, End;
    match e
    case Wake(w, at, stopped) => WakeKeepsIndexed(s, x, w, at, stopped);
    case CallSkipped(w, reason, until) =>
      FailKeepsIndexed(s.(lanes := Park(s.lanes, LaneOf(s, w), until)), x, w, reason, true);
    case CallReturns(w, r) => ReturnKeepsIndexed(s.(lanes := Settled(s.lanes, LaneOf(s, w), r)), x, w, r);
    case PoolAssembled(w, accepted, rejected) => EndKeepsIndexed(s, x, w, Finished(accepted, rejected));
    case _ => AtKeepsIndexed(s, Step(s, x, e), x, e.worker);
  }

  lemma WakeKeepsIndexed(s: State, x: Setup, w: nat, at: int, stopped: bool)
    requires Indexed(s, x) && w < |s.workers|
    ensures var t := WakeUp(s, x, w, at, stopped); Indexed(t, x) && |t.workers| == |s.workers|
  {
    hide S.Assign, S.NextWake, TotalCalls, WillCreate, NeedsStandard;
    AtKeepsIndexed(s, WakeUp(s, x, w, at, stopped), x, w);
  }

  lemma EndKeepsIndexed(s: State, x: Setup, w: nat, o: Outcome)
    requires Indexed(s, x) && IsWorking(s, w)
    ensures var t := End(s, x, w, o); Indexed(t, x) && |t.workers| == |s.workers|
  {
    hide ApplyOutcome, StoreStandard;
    AtKeepsIndexed(s, End(s, x, w, o), x, w);
  }

  lemma FailKeepsIndexed(s: State, x: Setup, w: nat, reason: Reason, laneLimited: bool)
    requires Indexed(s, x) && IsWorking(s, w)
    ensures var t := StageFails(s, x, w, reason, laneLimited); Indexed(t, x) && |t.workers| == |s.workers|
  {
    hide End;
    EndKeepsIndexed(s, x, w, Errored(reason, laneLimited));
  }

  lemma ReturnKeepsIndexed(s: State, x: Setup, w: nat, r: Reply)
    requires Indexed(s, x) && IsWorking(s, w)
    ensures var t := Return(s, x, w, r); Indexed(t, x) && |t.workers| == |s.workers|
  {
    hide End, StageFails;
    match r
    case LimitReached(reason, _) => FailKeepsIndexed(s, x, w, reason, true);
    case CallFailed(reason, _) => FailKeepsIndexed(s, x, w, reason, false);
    case Unusable(reason) => EndKeepsIndexed(s, x, w, Errored(reason, false));
    case Answer(_, _) =>
  }

  lemma AtKeepsIndexed(s: State, t: State, x: Setup, w: nat)
    requires Indexed(s, x) && w < |s.workers| == |t.workers| && t.workers == s.workers[w := t.workers[w]]
    requires t.workers[w].Working? ==> t.workers[w].index < |x.pools|
    ensures Indexed(t, x)
  {
  }

  /** Any sequence of events, in any order; one that cannot happen is passed over. */
  ghost function Play(s: State, x: Setup, events: seq<Event>): (r: State)
    requires Indexed(s, x)
    ensures Indexed(r, x) && |r.workers| == |s.workers|
  {
    if events == [] then s
    else
      var before := Play(s, x, events[..|events| - 1]);
      var e := events[|events| - 1];
      if Enabled(before, x, e) then
        StepKeepsIndexed(before, x, e);
        Step(before, x, e)
      else before
  }

  // ----- the closures over the shared state -----

  class Runner {
    const setup: Setup
    var pools: map<Key, Progress>
    var standards: map<StandardKey, Standard>
    var lanes: S.Lanes
    var inFlight: set<Key>
    var standardsInFlight: set<StandardKey>
    var workers: seq<Phase>
    var exit: Exit
    ghost var log: seq<Update>

    ghost function View(): State
      reads this
    {
      State(pools, standards, lanes, inFlight, standardsInFlight, workers, exit, log)
    }

    constructor (x: Setup, initialPools: map<Key, Progress>, initialStandards: map<StandardKey, Standard>,
        initialLanes: S.Lanes)
      ensures setup == x && View() == Start(x, initialPools, initialStandards, initialLanes)
    {
      setup := x;
      pools, standards, lanes := initialPools, initialStandards, initialLanes;
      inFlight, standardsInFlight := {}, {};
      workers := seq(Workers(x.opts), _ => Ready);
      exit := Complete;
      log := [];
    }

    /** `nextPool`: the first pool in file order that is pending, not in flight and not waiting for a standard. */
    method NextPool() returns (r: Option<nat>)
      ensures r == FirstEligible(View(), setup.pools, 0)
    {
      hide Eligible;
      var i := 0;
      while i < |setup.pools|
        invariant 0 <= i <= |setup.pools|
        invariant FirstEligible(View(), setup.pools, 0) == FirstEligible(View(), setup.pools, i)
      {
        var pool := setup.pools[i];
        var skip := true;
        if pool.key in pools && pools[pool.key].status.Pending? && pool.key !in inFlight {
          var needsStandard := pool.standard.None? && pool.standardKey !in standards;
          skip := needsStandard && pool.standardKey in standardsInFlight;
        }
        EligibleMeans(View(), pool);
        if !skip { return Some(i); }
        i := i + 1;
      }
      return None;
    }

    method CountCalls() returns (total: nat)
      ensures total == TotalCalls(lanes, setup.cfg.lanes)
    {
      total := 0;
      var order := setup.cfg.lanes;
      for i := 0 to |order|
        invariant total == TotalCalls(lanes, order[..i])
      {
        assert order[..i + 1][..i] == order[..i];
        if order[i] in lanes { total := total + lanes[order[i]].calls; }
      }
      assert order[..|order|] == order;
    }

    /** One turn of a worker's loop, from its top to its next await. */
    method Turn(w: nat, at: int, stopped: bool)
      requires Enabled(View(), setup, Wake(w, at, stopped)) && Indexed(View(), setup)
      modifies this
      ensures View() == Step(old(View()), setup, Wake(w, at, stopped))
    {
      hide TotalCalls, S.Assign, S.NextWake, Eligible, Begin;
      if stopped {
        exit := Stopped;
        workers := workers[w := Left];
        return;
      }
      if setup.opts.maxCalls.Some? {
        var made := CountCalls();
        if made >= setup.opts.maxCalls.value {
          exit := MaxCalls;
          workers := workers[w := Left];
          return;
        }
      }
      var next := NextPool();
      if next.None? {
        workers := workers[w := if inFlight == {} then Left else Sleeping];
        return;
      }
      var pool := setup.pools[next.value];
      EligibleMeans(View(), pool);
      var progress := pools[pool.key];
      var assignment := S.Assign(lanes, setup.cfg, next.value + progress.attempts, at);
      if assignment.None? {
        var wake := S.NextWake(lanes, setup.cfg, at);
        if wake.None? || wake.value - at > setup.opts.maxWaitMs {
          exit := LanesUnavailable;
          workers := workers[w := Left];
        } else {
          workers := workers[w := Sleeping];
        }
        return;
      }
      TakePool(w, next.value, assignment.value);
    }

    /** The pool is marked, and its standard's key with it when that is missing. */
    method TakePool(w: nat, i: nat, a: S.Assignment)
      requires w < |workers| && i < |setup.pools| && setup.pools[i].key in pools
      modifies this
      ensures View() == Begin(old(View()), setup, w, i, a)
    {
      var pool := setup.pools[i];
      var thin := !(pool.standard.Some? && pool.standard.value >= 2);
      var stage := if thin && pool.standardKey !in standards then WriteStandard else WriteQuestions;
      inFlight := inFlight + {pool.key};
      if pool.standard.None? && pool.standardKey !in standards {
        standardsInFlight := standardsInFlight + {pool.standardKey};
      }
      workers := workers[w := Working(i, pools[pool.key], a, None, stage, false)];
    }

    method BeginCall(w: nat)
      requires Enabled(View(), setup, CallStarts(w)) && Indexed(View(), setup)
      modifies this
      ensures View() == Step(old(View()), setup, CallStarts(w))
    {
      var lane := StageLane(workers[w].assignment, workers[w].stage).value;
      lanes := lanes[lane := lanes[lane].(calls := lanes[lane].calls + 1)];
      workers := workers[w := workers[w].(calling := true)];
    }

    /** `update` with the progress of one attempt, then the `finally` block. */
    method Finish(w: nat, o: Outcome)
      requires IsWorking(View(), w) && workers[w].index < |setup.pools|
      modifies this
      ensures View() == End(old(View()), setup, w, o)
    {
      var pool, progress := setup.pools[workers[w].index], workers[w].progress;
      match o {
        case Finished(accepted, rejected) =>
          if workers[w].created.Some? && pool.standardKey !in standards {
            standards := standards[pool.standardKey := workers[w].created.value];
          }
          pools := pools[pool.key := Progress(Done, progress.attempts + 1, progress.accepted + accepted,
                                             progress.rejected + rejected, progress.errors)];
        case Errored(reason, laneLimited) =>
          var attempts := if laneLimited then progress.attempts else progress.attempts + 1;
          var status := if attempts >= setup.opts.maxAttempts then Failed else Pending;
          pools := pools[pool.key := progress.(status := status, attempts := attempts, errors := progress.errors +
              [reason])];
      }
      log := log + [Update(pool.key, o)];
      inFlight := inFlight - {pool.key};
      standardsInFlight := standardsInFlight - {pool.standardKey};
      workers := workers[w := Ready];
    }

    method FailStage(w: nat, reason: Reason, laneLimited: bool)
      requires IsWorking(View(), w) && workers[w].index < |setup.pools|
      modifies this
      ensures View() == StageFails(old(View()), setup, w, reason, laneLimited)
    {
      if workers[w].stage.BreakTie? {
        workers := workers[w := workers[w].(stage := Assemble, calling := false)];
      } else {
        Finish(w, Errored(reason, laneLimited));
      }
    }

    /** The lane is parked again while the call is given up before it was made. */
    method SkipCall(w: nat, reason: Reason, until: int)
      requires Enabled(View(), setup, CallSkipped(w, reason, until)) && Indexed(View(), setup)
      modifies this
      ensures View() == Step(old(View()), setup, CallSkipped(w, reason, until))
    {
      var lane := StageLane(workers[w].assignment, workers[w].stage).value;
      lanes := lanes[lane := lanes[lane].(cooldownUntil := until)];
      FailStage(w, reason, true);
    }

    /** `succeeded`, `limited` and `failed` as the call's end demands. */
    method SettleLane(lane: S.Lane, r: Reply)
      requires lane in lanes
      modifies this`lanes
      ensures lanes == Settled(old(lanes), lane, r)
    {
      match r {
        case LimitReached(_, until) => lanes := lanes[lane := lanes[lane].(cooldownUntil := until)];
        case CallFailed(_, at) =>
          var failures := lanes[lane].failures + 1;
          lanes := lanes[lane := S.Snapshot(at + S.Backoff(failures), failures, lanes[lane].calls)];
        case _ => lanes := lanes[lane := lanes[lane].(failures := 0)];
      }
    }

    method TakeReply(w: nat, r: Reply)
      requires Enabled(View(), setup, CallReturns(w, r)) && Indexed(View(), setup)
      modifies this
      ensures View() == Step(old(View()), setup, CallReturns(w, r))
    {
      var p := workers[w];
      SettleLane(StageLane(p.assignment, p.stage).value, r);
      match r {
        case LimitReached(reason, _) => FailStage(w, reason, true);
        case CallFailed(reason, _) => FailStage(w, reason, false);
        case Unusable(reason) =>
          if p.stage.WriteStandard? {
            Finish(w, Errored(reason, false));
          } else {
            workers := workers[w := p.(stage := Assemble, calling := false)];
          }
        case Answer(more, standard) =>
          var next := p.(stage := Assemble);
          if p.stage.WriteStandard? { next := p.(created := Some(standard), stage := WriteQuestions); }
          if p.stage.WriteQuestions? && more { next := p.(stage := Critique); }
          if p.stage.Critique? && more && setup.opts.tiebreak
              && p.assignment.tiebreak.Some? { next := p.(stage := BreakTie); }
          workers := workers[w := next.(calling := false)];
      }
    }
  }

  lemma EligibleMeans(s: State, p: Pool)
    ensures Eligible(s, p) <==>
      && p.key in s.pools && s.pools[p.key].status.Pending? && p.key !in s.inFlight
      && !(p.standard.None? && p.standardKey !in s.standards && p.standardKey in s.standardsInFlight)
  {
  }
}
