/** What a lane remembers and what its callers do, told from the events of the run alone. */
module LaneLaws {
  import opened Numbers
  import opened LaneProtocol
  import S = Scheduler
  import L = SchedulerLaws

  /** A run in which every event happens. */
  ghost predicate Happens(s: State, events: seq<Event>, gap: nat) {
    events != [] ==>
      var before, e := events[..|events| - 1], events[|events| - 1];
      Happens(s, before, gap) && Enabled(Play(s, before, gap), e)
  }

  /** The failures in a row: those since the last success. */
  function InARow(saved: S.Snapshot, events: seq<Event>): nat {
    if events == [] then saved.failures
    else
      match events[|events| - 1]
      case Failed(_) => InARow(saved, events[..|events| - 1]) + 1
      case Succeeded(_) => 0
      case _ => InARow(saved, events[..|events| - 1])
  }

  /** Until when the lane is parked: as the last limit or failure says, whichever came last. */
  function ParkedUntil(saved: S.Snapshot, events: seq<Event>): int {
    if events == [] then saved.cooldownUntil
    else
      match events[|events| - 1]
      case Limited(_, until) => until
      case Failed(at) => at + L.WaitAfter(InARow(saved, events))
      case _ => ParkedUntil(saved, events[..|events| - 1])
  }

  /** The earliest next call as far as pacing goes: the gap after the end of the last turn. */
  function FreeFrom(log: seq<Turn>, gap: nat): int {
    if log == [] then 0 else log[|log| - 1].end + gap
  }

  ghost predicate Remembers(s: State, saved: S.Snapshot, events: seq<Event>, gap: nat) {
    && s.failures == InARow(saved, events) && s.cooldownUntil == ParkedUntil(saved, events)
    && s.nextAt == FreeFrom(s.log, gap)
  }

  /** Over every run: failures, parking and pacing are those of the events, and of nothing else. */
  lemma {:induction false} EveryRunRemembers(saved: S.Snapshot, now: int, events: seq<Event>, gap: nat)
    requires Happens(Initial(saved, now), events, gap)
    ensures Remembers(Play(Initial(saved, now), events, gap), saved, events, gap)
  {
    if events != [] {
      hide Step, Remembers;
      var before, e := events[..|events| - 1], events[|events| - 1];
      EveryRunRemembers(saved, now, before, gap);
      StepRemembers(Play(Initial(saved, now), before, gap), saved, events, gap);
    } else {
      assert Play(Initial(saved, now), [], gap) == Initial(saved, now);
    }
  }

  lemma StepRemembers(s: State, saved: S.Snapshot, events: seq<Event>, gap: nat)
    requires events != [] && Enabled(s, events[|events| - 1]) && Remembers(s, saved, events[..|events| - 1], gap)
    ensures Remembers(Step(s, events[|events| - 1], gap), saved, events, gap)
  {
    hide S.Backoff, L.WaitAfter;
    L.BackoffIsWait(InARow(saved, events));
  }

  /** What became of a caller: it ended without a call, it sleeps until a time, or it calls from now on. */
  datatype Move = Ends | Sleeps(until: int) | Calls

  function MoveOf(s: State, saved: S.Snapshot, before: seq<Event>, e: Event, gap: nat): Move
    requires e.Resume? || e.Awake?
  {
    if e.Awake? then Calls
    else if e.at < ParkedUntil(saved, before) then Ends
    else if e.at < FreeFrom(s.log, gap) then Sleeps(FreeFrom(s.log, gap))
    else Calls
  }

  function PhaseAfter(move: Move, at: int): Phase {
    match move
    case Ends => Done
    case Sleeps(until) => Sleeping(until)
    case Calls => Calling(at)
  }

  /** The caller whose turn it is after a step that took it to `move`, and the lane's log and call count. */
  ghost predicate Moves(s: State, t: State, ticket: nat, at: int, move: Move)
    requires ticket < |s.tickets| == |t.tickets|
  {
    && t.log == s.log + (if move.Ends? then [Turn(ticket, None, at)] else [])
    && t.calls == s.calls + (if move.Calls? then 1 else 0)
    && t.tickets == s.tickets[ticket := Ticket(s.tickets[ticket].after, PhaseAfter(move, at))]
  }

  /**
   * A caller whose turn comes fails fast exactly while the lane is parked, else waits exactly until the gap after the
   * last turn is over, else calls at once; one that wakes calls.
   */
  lemma TurnsComeTo(saved: S.Snapshot, now: int, events: seq<Event>, gap: nat)
    requires events != [] && Happens(Initial(saved, now), events, gap)
    requires events[|events| - 1].Resume? || events[|events| - 1].Awake?
    ensures var before, e := events[..|events| - 1], events[|events| - 1];
      var s, t := Play(Initial(saved, now), before, gap), Play(Initial(saved, now), events, gap);
      && e.ticket < |s.tickets| == |t.tickets|
      && Moves(s, t, e.ticket, e.at, MoveOf(s, saved, before, e, gap))
  {
    var before, e := events[..|events| - 1], events[|events| - 1];
    var s := Play(Initial(saved, now), before, gap);
    EveryRunRemembers(saved, now, before, gap);
    hide Play, ParkedUntil, FreeFrom, Happens, InARow;
    StepMoves(s, saved, before, e, gap);
    assert Play(Initial(saved, now), events, gap) == Step(s, e, gap) by { PlayLast(Initial(saved, now), events, gap); }
  }

  lemma PlayLast(s: State, events: seq<Event>, gap: nat)
    requires events != [] && Happens(s, events, gap)
    ensures Enabled(Play(s, events[..|events| - 1], gap), events[|events| - 1])
    ensures Play(s, events, gap) == Step(Play(s, events[..|events| - 1], gap), events[|events| - 1], gap)
  {
  }

  lemma StepMoves(s: State, saved: S.Snapshot, before: seq<Event>, e: Event, gap: nat)
    requires Remembers(s, saved, before, gap) && Enabled(s, e) && (e.Resume? || e.Awake?)
    ensures var t := Step(s, e, gap);
      e.ticket < |s.tickets| == |t.tickets| && Moves(s, t, e.ticket, e.at, MoveOf(s, saved, before, e, gap))
  {
    hide ParkedUntil, FreeFrom, InARow;
  }

  /** A call that settles ends its caller's turn then, with the time it was begun, and lets nobody else move. */
  lemma CallEnds(s: State, e: Event, gap: nat)
    requires Enabled(s, e) && e.Settle?
    ensures var t := Step(s, e, gap);
      && t.log == s.log + [Turn(e.ticket, Some(s.tickets[e.ticket].phase.start), e.at)] && t.calls == s.calls
      && t.tickets == s.tickets[e.ticket := Ticket(s.tickets[e.ticket].after, Done)]
  {
  }

  /** A caller that arrives queues behind the one that arrived before it; what the lane is told moves no caller. */
  lemma OthersWait(s: State, e: Event, gap: nat)
    requires Enabled(s, e) && (e.Arrive? || e.Limited? || e.Failed? || e.Succeeded?)
    ensures var t := Step(s, e, gap);
      && t.log == s.log && t.calls == s.calls
      && t.tickets == s.tickets + (if e.Arrive? then [Ticket(s.tail, Queued)] else [])
      && t.tail == if e.Arrive? then |s.tickets| else s.tail
  {
  }
}
