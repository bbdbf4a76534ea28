/**
 * One lane's calls as a protocol. Every caller chains itself behind the promise it
 * found at the lane's tail, so who may proceed depends only on that chain; between
 * two awaits a caller runs one atomic step, and steps of different callers interleave
 * freely with each other and with cool-downs being set.
 */
module LaneProtocol {
  import opened Numbers
  import Scheduler

  /** Where one caller of `run` is. */
  datatype Phase = Queued | Sleeping(until: int) | Calling(start: int) | Done

  /** A caller, and the caller whose release it awaits (-1: nobody). */
  datatype Ticket = Ticket(after: int, phase: Phase)

  /** A finished turn: no start when the lane was parked and no call was made. */
  datatype Turn = Turn(ticket: nat, start: Option<int>, end: int)

  datatype State = State(
    now: int,
    cooldownUntil: int,
    nextAt: int,
    failures: nat,
    calls: nat,
    tail: int,
    tickets: seq<Ticket>,
    log: seq<Turn>)

  datatype Event =
    | Arrive(at: int)
    | Resume(at: int, ticket: nat)
    | Awake(at: int, ticket: nat)
    | Settle(at: int, ticket: nat)
    | Limited(at: int, until: int)
    | Failed(at: int)
    | Succeeded(at: int)

  function Initial(saved: Scheduler.Snapshot, now: int): State {
    State(now, saved.cooldownUntil, 0, saved.failures, saved.calls, -1, [], [])
  }

  predicate Released(s: State, after: int) {
    after < 0 || (after < |s.tickets| && s.tickets[after].phase.Done?)
  }

  /** When a step can happen: time never runs backwards, and a sleep lasts at least as long as asked. */
  predicate Enabled(s: State, e: Event) {
    && s.now <= e.at
    && match e
       case Arrive(_) => true
       case Resume(_, t) => t < |s.tickets| && s.tickets[t].phase.Queued? && Released(s, s.tickets[t].after)
       case Awake(_, t) => t < |s.tickets| && s.tickets[t].phase.Sleeping? && s.tickets[t].phase.until <= e.at
       case Settle(_, t) => t < |s.tickets| && s.tickets[t].phase.Calling?
       case Limited(_, _) => true
       case Failed(_) => true
       case Succeeded(_) => true
  }

  function Later(x: int, y: int): int { if x <= y then y else x }

  function Moved(s: State, t: nat, phase: Phase): seq<Ticket>
    requires t < |s.tickets|
  {
    s.tickets[t := s.tickets[t].(phase := phase)]
  }

  /** The `finally` block: the pacing gap starts, then the next caller is released. */
  function Finished(s: State, t: nat, start: Option<int>, gap: nat): State
    requires t < |s.tickets|
  {
    s.(nextAt := s.now + gap, tickets := Moved(s, t, Done), log := s.log + [Turn(t, start, s.now)])
  }

  function Step(before: State, e: Event, gap: nat): State
    requires Enabled(before, e)
  {
    var s := before.(now := e.at);
    match e
    case Arrive(_) => s.(tickets := s.tickets + [Ticket(s.tail, Queued)], tail := |s.tickets|)
    case Resume(_, t) =>
      if s.cooldownUntil > s.now then Finished(s, t, None, gap)
      else if Later(s.nextAt, s.cooldownUntil) - s.now > 0 then
        s.(tickets := Moved(s, t, Sleeping(Later(s.nextAt, s.cooldownUntil))))
      else s.(calls := s.calls + 1, tickets := Moved(s, t, Calling(s.now)))
    case Awake(_, t) => s.(calls := s.calls + 1, tickets := Moved(s, t, Calling(s.now)))
    case Settle(_, t) => Finished(s, t, Some(s.tickets[t].phase.start), gap)
    case Limited(_, until) => s.(cooldownUntil := until)
    case Failed(_) => s.(failures := s.failures + 1, cooldownUntil := s.now + Scheduler.Backoff(s.failures + 1))
    case Succeeded(_) => s.(failures := 0)
  }

  /** Any sequence of events, in any order; one that cannot happen is passed over. */
  function Play(s: State, events: seq<Event>, gap: nat): State {
    if events == [] then s
    else
      var before := Play(s, events[..|events| - 1], gap);
      var e := events[|events| - 1];
      if Enabled(before, e) then Step(before, e, gap) else before
  }

  // ----- the record a lane's callers share -----

  class LaneRecord {
    const minGapMs: nat
    var now: int
    var cooldownUntil: int
    var nextAt: int
    var failures: nat
    var calls: nat
    var queue: int
    var tickets: seq<Ticket>
    ghost var log: seq<Turn>

    ghost function View(): State
      reads this
    {
      State(now, cooldownUntil, nextAt, failures, calls, queue, tickets, log)
    }

    constructor (saved: Scheduler.Snapshot, gap: nat, at: int)
      ensures minGapMs == gap && View() == Initial(saved, at)
    {
      minGapMs := gap;
      now := at;
      cooldownUntil, nextAt, failures, calls := saved.cooldownUntil, 0, saved.failures, saved.calls;
      queue, tickets, log := -1, [], [];
    }

    /** `run` up to its first await: remember the tail, become the tail. */
    method Enqueue(at: int) returns (ticket: nat)
      requires now <= at
      modifies this
      ensures ticket == |old(tickets)| && View() == Step(old(View()), Arrive(at), minGapMs)
    {
      now := at;
      var previous := queue;
      ticket := |tickets|;
      queue := ticket;
      tickets := tickets + [Ticket(previous, Queued)];
    }

    /** After the caller ahead released: fail fast if parked, else wait out the gap, else call. */
    method Proceed(at: int, ticket: nat)
      requires Enabled(View(), Resume(at, ticket))
      modifies this
      ensures View() == Step(old(View()), Resume(at, ticket), minGapMs)
    {
      now := at;
      if cooldownUntil > now {
        Release(ticket, None);
        return;
      }
      var wait := Later(nextAt, cooldownUntil) - now;
      if wait > 0 {
        tickets := tickets[ticket := tickets[ticket].(phase := Sleeping(now + wait))];
      } else {
        calls := calls + 1;
        tickets := tickets[ticket := tickets[ticket].(phase := Calling(now))];
      }
    }

    method WakeUp(at: int, ticket: nat)
      requires Enabled(View(), Awake(at, ticket))
      modifies this
      ensures View() == Step(old(View()), Awake(at, ticket), minGapMs)
    {
      now := at;
      calls := calls + 1;
      tickets := tickets[ticket := tickets[ticket].(phase := Calling(now))];
    }

    method CallSettled(at: int, ticket: nat)
      requires Enabled(View(), Settle(at, ticket))
      modifies this
      ensures View() == Step(old(View()), Settle(at, ticket), minGapMs)
    {
      now := at;
      Release(ticket, Some(tickets[ticket].phase.start));
    }

    method Release(ticket: nat, ghost start: Option<int>)
      requires ticket < |tickets|
      modifies this
      ensures View() == Finished(old(View()), ticket, start, minGapMs)
    {
      nextAt := now + minGapMs;
      tickets := tickets[ticket := tickets[ticket].(phase := Done)];
      log := log + [Turn(ticket, start, now)];
    }

    method Limit(at: int, until: int)
      requires now <= at
      modifies this
      ensures View() == Step(old(View()), Limited(at, until), minGapMs)
    {
      now := at;
      cooldownUntil := until;
    }

    method Fail(at: int)
      requires now <= at
      modifies this
      ensures View() == Step(old(View()), Failed(at), minGapMs)
    {
      now := at;
      failures := failures + 1;
      cooldownUntil := now + Scheduler.Backoff(failures);
    }

    method Succeed(at: int)
      requires now <= at
      modifies this
      ensures View() == Step(old(View()), Succeeded(at), minGapMs)
    {
      now := at;
      failures := 0;
    }
  }

  // ----- what the chain of promises guarantees -----

  /** Everyone before the current caller is done, everyone after it is still queued behind the one ahead. */
  ghost predicate Chained(s: State) {
    && |s.log| <= |s.tickets| && s.tail == |s.tickets| - 1
    && (forall i :: 0 <= i < |s.tickets| ==> s.tickets[i].after == i - 1)
    && (forall i :: 0 <= i < |s.log| ==> s.tickets[i].phase.Done?)
    && (|s.log| < |s.tickets| ==> !s.tickets[|s.log|].phase.Done?)
    && (forall i :: |s.log| < i < |s.tickets| ==> s.tickets[i].phase.Queued?)
  }

  /** Turns end in arrival order, and nothing can start within the gap after any of them. */
  ghost predicate Paced(s: State, gap: nat) {
    && (forall i :: 0 <= i < |s.log| ==>
        s.log[i].ticket == i && s.log[i].end <= s.now && s.log[i].end + gap <= s.nextAt)
    && (forall i :: 0 <= i < |s.log| && s.log[i].start.Some? ==> s.log[i].start.value <= s.log[i].end)
    && (forall i, j :: 0 <= i < j < |s.log| && s.log[j].start.Some? ==> s.log[i].end + gap <= s.log[j].start.value)
  }

  /** The caller whose turn it is keeps the gap too, asleep or calling. */
  ghost predicate CurrentIsPaced(s: State, gap: nat) {
    |s.log| < |s.tickets| ==>
      match s.tickets[|s.log|].phase
      case Sleeping(until) => s.nextAt <= until
      case Calling(start) => s.nextAt <= start <= s.now
      case _ => true
  }

  function Made(log: seq<Turn>): nat {
    if log == [] then 0 else Made(log[..|log| - 1]) + if log[|log| - 1].start.Some? then 1 else 0
  }

  /** The call under way, if there is one. */
  function UnderWay(s: State): nat {
    if |s.log| < |s.tickets| && s.tickets[|s.log|].phase.Calling? then 1 else 0
  }

  /** Calls counted so far: those that ended, and the one under way. */
  ghost predicate Counted(s: State, initial: nat) { s.calls == initial + Made(s.log) + UnderWay(s) }

  ghost predicate Invariant(s: State, gap: nat, initial: nat) {
    Chained(s) && Paced(s, gap) && CurrentIsPaced(s, gap) && Counted(s, initial)
  }

  /** Only the current caller can take a step of its own: the chain alone enforces it. */
  lemma OnlyTheCurrentMoves(s: State, e: Event)
    requires Chained(s) && Enabled(s, e) && (e.Resume? || e.Awake? || e.Settle?)
    ensures |s.log| < |s.tickets| && e.ticket == |s.log|
  {
    if e.Resume? {
      assert s.tickets[e.ticket].after == e.ticket - 1;
    }
  }

  lemma StepKeepsChain(s: State, e: Event, gap: nat)
    requires Chained(s) && Enabled(s, e)
    ensures Chained(Step(s, e, gap))
  {
    if e.Resume? || e.Awake? || e.Settle? { OnlyTheCurrentMoves(s, e); }
  }

  lemma StepKeepsPace(s: State, e: Event, gap: nat)
    requires Chained(s) && Paced(s, gap) && CurrentIsPaced(s, gap) && Enabled(s, e)
    ensures Paced(Step(s, e, gap), gap) && CurrentIsPaced(Step(s, e, gap), gap)
  {
    TurnsStayPaced(s, e, gap);
    CurrentStaysPaced(s, e, gap);
    hide Step;
  }

  lemma TurnsStayPaced(s: State, e: Event, gap: nat)
    requires Chained(s) && Paced(s, gap) && CurrentIsPaced(s, gap) && Enabled(s, e)
    ensures Paced(Step(s, e, gap), gap)
  {
    if e.Resume? || e.Awake? || e.Settle? { OnlyTheCurrentMoves(s, e); }
    hide Chained;
  }

  lemma CurrentStaysPaced(s: State, e: Event, gap: nat)
    requires Chained(s) && CurrentIsPaced(s, gap) && Enabled(s, e)
    ensures CurrentIsPaced(Step(s, e, gap), gap)
  {
    if e.Resume? || e.Awake? || e.Settle? { OnlyTheCurrentMoves(s, e); }
  }

  lemma StepKeepsCount(s: State, e: Event, gap: nat, initial: nat)
    requires Chained(s) && Counted(s, initial) && Enabled(s, e)
    ensures Counted(Step(s, e, gap), initial)
  {
    hide Made;
    if e.Resume? || e.Awake? || e.Settle? {
      OnlyTheCurrentMoves(s, e);
      FinishCounts(s.(now := e.at), gap);
    }
  }

  /** A turn that ends adds its call to those made, and nobody else is calling then. */
  lemma FinishCounts(s: State, gap: nat)
    requires Chained(s) && |s.log| < |s.tickets|
    ensures forall start: Option<int> ::
      var t := Finished(s, |s.log|, start, gap);
      Made(t.log) == Made(s.log) + (if start.Some? then 1 else 0) && UnderWay(t) == 0
  {
    forall start: Option<int>
      ensures var t := Finished(s, |s.log|, start, gap);
        Made(t.log) == Made(s.log) + (if start.Some? then 1 else 0) && UnderWay(t) == 0
    {
      var t := Finished(s, |s.log|, start, gap);
      assert t.log[..|s.log|] == s.log;
    }
  }

  /** Every state any interleaving can reach satisfies the invariant. */
  lemma {:induction false} EveryRunIsOrdered(saved: Scheduler.Snapshot, now: int, events: seq<Event>, gap: nat)
    ensures Invariant(Play(Initial(saved, now), events, gap), gap, saved.calls)
  {
    if events != [] {
      hide Chained, Paced, CurrentIsPaced, Counted, Step, Enabled;
      var n := |events| - 1;
      EveryRunIsOrdered(saved, now, events[..n], gap);
      var s := Play(Initial(saved, now), events[..n], gap);
      if Enabled(s, events[n]) {
        StepKeepsChain(s, events[n], gap);
        StepKeepsPace(s, events[n], gap);
        StepKeepsCount(s, events[n], gap, saved.calls);
      }
    }
  }

  /** A caller is inside its turn on the lane: it has been let through and has not released. */
  predicate Inside(s: State, t: int) {
    0 <= t < |s.tickets| && (s.tickets[t].phase.Sleeping? || s.tickets[t].phase.Calling?)
  }

  /**
   * Over every interleaving: at most one caller is inside the lane; turns are taken in
   * arrival order; and each call starts at least the gap after every earlier turn ended.
   */
  lemma CallsNeverOverlap(saved: Scheduler.Snapshot, now: int, events: seq<Event>, gap: nat)
    ensures var s := Play(Initial(saved, now), events, gap);
      && (forall t, u :: Inside(s, t) && Inside(s, u) ==> t == u)
      && (forall i :: 0 <= i < |s.log| ==> s.log[i].ticket == i)
      && (forall i, j :: 0 <= i < j < |s.log| && s.log[j].start.Some? ==> s.log[i].end + gap <= s.log[j].start.value)
      && (forall t, i :: Inside(s, t) && s.tickets[t].phase.Calling? && 0 <= i < |s.log| ==>
            s.log[i].end + gap <= s.tickets[t].phase.start)
      && s.calls <= saved.calls + |s.tickets|
  {
    var s := Play(Initial(saved, now), events, gap);
    EveryRunIsOrdered(saved, now, events, gap);
    MadeIsAtMost(s.log);
    forall t | Inside(s, t) ensures t == |s.log| {
    }
  }

  lemma {:induction false} MadeIsAtMost(log: seq<Turn>)
    ensures Made(log) <= |log|
  {
    if log != [] { MadeIsAtMost(log[..|log| - 1]); }
  }

  // ----- a parked lane -----

  /** The lane is parked from its first moment to the last event, and nobody sets its cool-down anew. */
  predicate StaysParked(s: State, events: seq<Event>) {
    forall i :: 0 <= i < |events| ==> events[i].at < s.cooldownUntil && !events[i].Limited? && !events[i].Failed?
  }

  /** A caller already let through, whose sleep is not over: the one call a parked lane may still start. */
  function LetThrough(s: State): nat {
    if |s.log| < |s.tickets| && s.tickets[|s.log|].phase.Sleeping? then 1 else 0
  }

  /** From s to t: calls counted, callers asleep and turns taken. */
  ghost predicate FailsFast(s: State, t: State) {
    && t.cooldownUntil == s.cooldownUntil && s.log <= t.log
    && t.calls + LetThrough(t) <= s.calls + LetThrough(s)
    && (|t.log| > |s.log| ==> LetThrough(t) == 0 && UnderWay(t) == 0)
    && forall i :: |s.log| < i < |t.log| ==> t.log[i].start.None?
  }

  /** The same for one step. */
  ghost predicate FailsFastOnce(s: State, t: State) {
    && t.cooldownUntil == s.cooldownUntil && s.log <= t.log && |t.log| <= |s.log| + 1
    && t.calls + LetThrough(t) <= s.calls + LetThrough(s) && LetThrough(t) <= LetThrough(s)
    && (|t.log| > |s.log| ==> LetThrough(t) == 0 && UnderWay(t) == 0)
    && (|t.log| > |s.log| && t.log[|s.log|].start.Some? ==> UnderWay(s) == 1)
    && (UnderWay(s) == 0 && LetThrough(s) == 0 ==> UnderWay(t) == 0)
  }

  lemma ParkedStep(s: State, e: Event, gap: nat)
    requires Chained(s) && Enabled(s, e) && e.at < s.cooldownUntil && !e.Limited? && !e.Failed?
    ensures FailsFastOnce(s, Step(s, e, gap))
  {
    if e.Resume? || e.Awake? || e.Settle? { OnlyTheCurrentMoves(s, e); }
  }

  lemma ParkedSteps(s: State, t: State, u: State)
    requires FailsFast(s, t) && FailsFastOnce(t, u)
    ensures FailsFast(s, u)
  {
    hide LetThrough, UnderWay;
  }

  /**
   * While a lane is parked at most one more call starts, that of a caller who was let through before and is asleep;
   * every later caller ends its turn without one, however many there are and in whatever order things happen.
   */
  lemma {:induction false} ParkedLaneFailsFast(s: State, events: seq<Event>, gap: nat)
    requires Chained(s) && StaysParked(s, events)
    ensures Chained(Play(s, events, gap)) && FailsFast(s, Play(s, events, gap))
  {
    if events != [] {
      hide Chained, Step, Enabled;
      var n := |events| - 1;
      var before := Play(s, events[..n], gap);
      ParkedLaneFailsFast(s, events[..n], gap);
      if Enabled(before, events[n]) {
        StepKeepsChain(before, events[n], gap);
        ParkedStep(before, events[n], gap);
        hide FailsFastOnce;
        ParkedSteps(s, before, Step(before, events[n], gap));
      }
    }
  }

  /** Two callers; the first call fails, and its caller parks the lane once the second has been let through. */
  function FailingCall(gap: nat): seq<Event> {
    [Arrive(0), Resume(0, 0), Arrive(0), Settle(1, 0), Resume(1, 1), Failed(1), Awake(1 + gap, 1)]
  }

  lemma PlayNext(s: State, events: seq<Event>, n: nat, gap: nat)
    requires n < |events|
    ensures Play(s, events[..n + 1], gap) ==
            var before := Play(s, events[..n], gap);
            if Enabled(before, events[n]) then Step(before, events[n], gap) else before
  {
    hide Step, Enabled;
    assert events[..n + 1][..n] == events[..n];
  }

  /** Whatever the gap, the caller next in line calls the lane although the call it waited behind has parked it. */
  lemma NextInLineSlipsThrough(gap: nat)
    ensures var s := Play(Initial(Scheduler.Snapshot(0, 0, 0), 0), FailingCall(gap), gap);
      s.calls == 2 && s.cooldownUntil == 60001 && |s.tickets| == 2 && s.tickets[1].phase == Calling(1 + gap)
  {
    hide Play;
    var s, events := Initial(Scheduler.Snapshot(0, 0, 0), 0), FailingCall(gap);
    assert events[..7] == events;
    FirstFails(s, events, gap);
    PlayNext(s, events, 4, gap);
    PlayNext(s, events, 5, gap);
    PlayNext(s, events, 6, gap);
    assert Scheduler.Power2(0) == 1;
  }

  lemma FirstFails(s: State, events: seq<Event>, gap: nat)
    requires s == Initial(Scheduler.Snapshot(0, 0, 0), 0) && events == FailingCall(gap)
    ensures Play(s, events[..4], gap) ==
            State(1, 0, 1 + gap, 0, 1, 1, [Ticket(-1, Done), Ticket(0, Queued)], [Turn(0, Some(0), 1)])
  {
    assert events[..0] == [];
    assert Play(s, events[..0], gap) == s;
    hide Play;
    PlayNext(s, events, 0, gap);
    assert Play(s, events[..1], gap) == s.(tickets := [Ticket(-1, Queued)], tail := 0);
    PlayNext(s, events, 1, gap);
    assert Play(s, events[..2], gap) == s.(tickets := [Ticket(-1, Calling(0))], tail := 0, calls := 1);
    PlayNext(s, events, 2, gap);
    PlayNext(s, events, 3, gap);
  }
}
