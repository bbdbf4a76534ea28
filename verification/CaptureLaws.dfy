/** What the capture loop sends while it runs, event by event: every chunk, with its own place in the round. */
module CaptureLaws {
  import opened Numbers
  import opened ObserverCapture

  /** What one event sends: the chunk it ends, from where that began, if it holds anything and may still be sent. */
  function SentBy(s: State, e: Event): seq<Upload>
    requires Enabled(s, e)
  {
    match e
    case Rotated(true, at) => if s.stopped then [] else [Placed(s, s.rotating.value, at)]
    case Final(true, at) => if s.stopped && !s.flushing then [] else [Placed(s, s.chunkStart, at)]
    case Finished(true, at) => [Placed(s, s.finishing.value, at)]
    case _ => []
  }

  /** A stretch of time by its place from the start of the round; nothing lies before it. */
  function Placed(s: State, from: int, to: int): Upload {
    Upload(if from <= s.startedAt then 0 else from - s.startedAt, to - from)
  }

  ghost predicate Sends(s: State, t: State, e: Event)
    requires Enabled(s, e)
  {
    t.uploads == s.uploads + SentBy(s, e)
  }

  lemma StepSends(s: State, e: Event)
    requires Enabled(s, e)
    ensures Sends(s, Step(s, e), e)
  {
    hide OnOpened, OnFired, OnRotated, OnSettled, OnFinalText, OnStop, OnFinished, OnClosed, Report, Halted, Sends;
    match e
    case Opened(ok) => OpenedSends(s, ok);
    case GapReported => GapSends(s);
    case Fired(at) => FiredSends(s, at);
    case Rotated(hasBlob, at) => RotatedSends(s, hasBlob, at);
    case Settled(outcome) => SettledSends(s, outcome);
    case Final(hasText, at) => FinalSends(s, hasText, at);
    case Stop(flush) => StopSends(s, flush);
    case Finished(hasBlob, at) => FinishedSends(s, hasBlob, at);
    case Sent => SentSends(s);
    case Waited => WaitedSends(s);
    case Closed => ClosedSends(s);
  }

  lemma OpenedSends(s: State, ok: bool)
    requires Enabled(s, Opened(ok))
    ensures Sends(s, OnOpened(s, ok), Opened(ok))
  {
  }

  lemma HaltSends(s: State, reason: Reason)
    ensures Halted(s, reason).uploads == s.uploads
  {
  }

  lemma GapSends(s: State)
    requires Enabled(s, GapReported)
    ensures Sends(s, Halted(s.(givingUp := false), Unavailable), GapReported)
  {
    hide Halted;
    HaltSends(s.(givingUp := false), Unavailable);
  }

  lemma FiredSends(s: State, at: int)
    requires Enabled(s, Fired(at))
    ensures Sends(s, OnFired(s, at), Fired(at))
  {
  }

  lemma RotatedSends(s: State, hasBlob: bool, at: int)
    requires Enabled(s, Rotated(hasBlob, at))
    ensures Sends(s, OnRotated(s, hasBlob, at), Rotated(hasBlob, at))
  {
  }

  lemma SettledSends(s: State, outcome: Outcome)
    requires Enabled(s, Settled(outcome))
    ensures Sends(s, OnSettled(s, outcome), Settled(outcome))
  {
    hide Halted;
    HaltSends(s.(inFlight := s.inFlight - 1), Refused);
  }

  lemma FinalSends(s: State, hasText: bool, at: int)
    requires Enabled(s, Final(hasText, at))
    ensures Sends(s, OnFinalText(s, hasText, at), Final(hasText, at))
  {
    hide WithUpload, Placed;
    if hasText && (!s.stopped || s.flushing) { HeardSends(s, at); }
  }

  lemma HeardSends(s: State, at: int)
    requires !s.stopped || s.flushing
    ensures OnFinalText(s, true, at).uploads == s.uploads + [Placed(s, s.chunkStart, at)]
  {
    hide WithUpload, Placed;
    var t := s.(chunkStart := at, clock := at);
    UploadSends(s, t.(inFlight := s.inFlight + 1), s.chunkStart, at);
  }

  lemma UploadSends(s: State, t: State, from: int, to: int)
    requires t.uploads == s.uploads && t.startedAt == s.startedAt
    ensures WithUpload(t, from, to).uploads == s.uploads + [Placed(s, from, to)]
  {
  }

  lemma StopSends(s: State, flush: bool)
    ensures Sends(s, OnStop(s, flush), Stop(flush))
  {
    hide Halted;
    HaltSends(s, Stopped);
  }

  lemma FinishedSends(s: State, hasBlob: bool, at: int)
    requires Enabled(s, Finished(hasBlob, at))
    ensures Sends(s, OnFinished(s, hasBlob, at), Finished(hasBlob, at))
  {
  }

  lemma SentSends(s: State)
    requires Enabled(s, Sent)
    ensures Sends(s, Report(s.(sending := false, flushing := false), Stopped), Sent)
  {
  }

  lemma WaitedSends(s: State)
    requires Enabled(s, Waited)
    ensures Sends(s, Report(s.(waiting := false, flushing := false), Stopped), Waited)
  {
  }

  lemma ClosedSends(s: State)
    requires Enabled(s, Closed)
    ensures Sends(s, Report(OnClosed(s), s.closing.value.reason), Closed)
  {
  }

  // ----- where a chunk begins -----

  /** A chunk ends when the recorder hands it over, or the recogniser its text. */
  predicate Cuts(s: State, e: Event) { Enabled(s, e) && (e.Rotated? || e.Final?) }

  /** The next chunk begins where the last one ended; a chunk asked for is the one that was being recorded. */
  ghost predicate Follows(s: State, t: State, e: Event) {
    && t.startedAt == s.startedAt && t.browser == s.browser
    && t.chunkStart == (if Cuts(s, e) then e.at else s.chunkStart)
    && (t.rotating.Some? ==> t.rotating == s.rotating || t.rotating == Some(s.chunkStart))
    && (t.finishing.Some? ==> t.finishing == s.finishing || t.finishing == Some(s.chunkStart))
  }

  lemma StepFollows(s: State, e: Event)
    requires Enabled(s, e)
    ensures Follows(s, Step(s, e), e)
  {
    hide OnOpened, OnFired, OnRotated, OnSettled, OnFinalText, OnStop, OnFinished, OnClosed, Report, Halted, Follows;
    match e
    case Opened(ok) => OpenedFollows(s, ok);
    case GapReported => GapFollows(s);
    case Fired(at) => FiredFollows(s, at);
    case Rotated(hasBlob, at) => RotatedFollows(s, hasBlob, at);
    case Settled(outcome) => SettledFollows(s, outcome);
    case Final(hasText, at) => FinalFollows(s, hasText, at);
    case Stop(flush) => StopFollows(s, flush);
    case Finished(hasBlob, at) => FinishedFollows(s, hasBlob, at);
    case Sent => SentFollows(s);
    case Waited => WaitedFollows(s);
    case Closed => ClosedFollows(s);
  }

  lemma OpenedFollows(s: State, ok: bool)
    ensures Follows(s, OnOpened(s, ok), Opened(ok))
  {
  }

  lemma GapFollows(s: State)
    ensures Follows(s, Halted(s.(givingUp := false), Unavailable), GapReported)
  {
  }

  lemma FiredFollows(s: State, at: int)
    ensures Follows(s, OnFired(s, at), Fired(at))
  {
  }

  lemma RotatedFollows(s: State, hasBlob: bool, at: int)
    requires Enabled(s, Rotated(hasBlob, at))
    ensures Follows(s, OnRotated(s, hasBlob, at), Rotated(hasBlob, at))
  {
  }

  lemma SettledFollows(s: State, outcome: Outcome)
    requires s.inFlight > 0
    ensures Follows(s, OnSettled(s, outcome), Settled(outcome))
  {
  }

  lemma FinalFollows(s: State, hasText: bool, at: int)
    requires Enabled(s, Final(hasText, at))
    ensures Follows(s, OnFinalText(s, hasText, at), Final(hasText, at))
  {
  }

  lemma StopFollows(s: State, flush: bool)
    ensures Follows(s, OnStop(s, flush), Stop(flush))
  {
    hide Halted, Report;
    if s.stopped {
    } else if flush {
      FlushFollows(s);
    } else {
      HaltFollows(s);
    }
  }

  lemma HaltFollows(s: State)
    ensures Follows(s, Halted(s, Stopped), Stop(false))
  {
  }

  lemma FlushFollows(s: State)
    requires !s.stopped
    ensures Follows(s, OnStop(s, true), Stop(true))
  {
    hide Report;
    ReportChanges(s.(stopped := true, flushing := false, timer := false), Stopped);
  }

  lemma ReportChanges(s: State, reason: Reason)
    ensures Report(s, reason) == s.(reports := s.reports + [reason])
  {
  }

  lemma FinishedFollows(s: State, hasBlob: bool, at: int)
    requires s.finishing.Some?
    ensures Follows(s, OnFinished(s, hasBlob, at), Finished(hasBlob, at))
  {
  }

  lemma SentFollows(s: State)
    ensures Follows(s, Report(s.(sending := false, flushing := false), Stopped), Sent)
  {
  }

  lemma WaitedFollows(s: State)
    ensures Follows(s, Report(s.(waiting := false, flushing := false), Stopped), Waited)
  {
  }

  lemma ClosedFollows(s: State)
    requires s.closing.Some?
    ensures Follows(s, Report(OnClosed(s), s.closing.value.reason), Closed)
  {
  }

  // ----- while the loop runs -----

  /** When the chunks ended that the run has ended so far, and whether they held anything. */
  datatype Cut = Cut(holds: bool, at: int)

  function CutsOf(start: State, events: seq<Event>): seq<Cut> {
    if events == [] then []
    else
      var before, e := events[..|events| - 1], events[|events| - 1];
      CutsOf(start, before) + if Cuts(Play(start, before), e) then [CutOf(e)] else []
  }

  function CutOf(e: Event): Cut
    requires e.Rotated? || e.Final?
  {
    match e
    case Rotated(holds, at) => Cut(holds, at)
    case Final(holds, at) => Cut(holds, at)
  }

  /** Where the chunk being heard began: where the last one ended, or the round. */
  function Since(start: int, cuts: seq<Cut>): int { if cuts == [] then start else cuts[|cuts| - 1].at }

  /** Each chunk that held anything, from the end of the one before it to its own, counted from the start. */
  function ChunksOf(start: int, cuts: seq<Cut>): seq<Upload> {
    if cuts == [] then []
    else
      var before, last := cuts[..|cuts| - 1], cuts[|cuts| - 1];
      ChunksOf(start, before)
        + if last.holds then [Upload(Since(start, before) - start, last.at - Since(start, before))] else []
  }

  /** A running loop has sent every chunk that held anything, each with its own stretch of the round. */
  ghost predicate SendsAll(start: State, s: State, cuts: seq<Cut>) {
    && s.startedAt == start.startedAt && s.chunkStart == Since(start.startedAt, cuts)
    && (!s.stopped ==>
          && s.uploads == ChunksOf(start.startedAt, cuts)
          && (s.rotating.Some? ==> s.rotating.value == s.chunkStart) && s.finishing.None?)
  }

  /** Nothing starts a stopped loop again. */
  lemma StaysStopped(s: State, e: Event)
    requires s.stopped
    ensures Step(s, e).stopped
  {
    hide WithUpload;
    if Enabled(s, e) { StoppedSteps(s, e); }
  }

  lemma StoppedSteps(s: State, e: Event)
    requires s.stopped && Enabled(s, e)
    ensures Step(s, e).stopped
  {
    hide OnOpened, OnFired, OnRotated, OnSettled, OnFinalText, OnStop, OnFinished, OnClosed, Report, Halted;
    match e
    case Opened(ok) => StoppedOpens(s, ok);
    case GapReported => StoppedHalts(s.(givingUp := false), Unavailable);
    case Fired(at) => StoppedFires(s, at);
    case Rotated(hasBlob, at) => StoppedRotates(s, hasBlob, at);
    case Settled(outcome) => StoppedSettles(s, outcome);
    case Final(hasText, at) => StoppedHears(s, hasText, at);
    case Stop(flush) => StoppedStops(s, flush);
    case Finished(hasBlob, at) => StoppedFinishes(s, hasBlob, at);
    case Sent => StoppedReports(s.(sending := false, flushing := false), Stopped);
    case Waited => StoppedReports(s.(waiting := false, flushing := false), Stopped);
    case Closed =>
      StoppedCloses(s);
      StoppedReports(OnClosed(s), s.closing.value.reason);
  }

  lemma StoppedOpens(s: State, ok: bool)
    requires s.stopped
    ensures OnOpened(s, ok).stopped
  {
  }

  lemma StoppedHalts(s: State, reason: Reason)
    requires s.stopped
    ensures Halted(s, reason).stopped
  {
  }

  lemma StoppedFires(s: State, at: int)
    requires s.stopped
    ensures OnFired(s, at).stopped
  {
  }

  lemma StoppedRotates(s: State, hasBlob: bool, at: int)
    requires s.stopped && s.rotating.Some?
    ensures OnRotated(s, hasBlob, at).stopped
  {
  }

  lemma StoppedSettles(s: State, outcome: Outcome)
    requires s.stopped && s.inFlight > 0
    ensures OnSettled(s, outcome).stopped
  {
    hide Halted;
    StoppedHalts(s.(inFlight := s.inFlight - 1), Refused);
  }

  lemma StoppedHears(s: State, hasText: bool, at: int)
    requires s.stopped
    ensures OnFinalText(s, hasText, at).stopped
  {
  }

  lemma StoppedStops(s: State, flush: bool)
    requires s.stopped
    ensures OnStop(s, flush).stopped
  {
  }

  lemma StoppedFinishes(s: State, hasBlob: bool, at: int)
    requires s.stopped && s.finishing.Some?
    ensures OnFinished(s, hasBlob, at).stopped
  {
  }

  lemma StoppedCloses(s: State)
    requires s.stopped && s.closing.Some?
    ensures OnClosed(s).stopped
  {
  }

  lemma StoppedReports(s: State, reason: Reason)
    requires s.stopped
    ensures Report(s, reason).stopped
  {
  }

  lemma StepSendsAll(start: State, s: State, e: Event, cuts: seq<Cut>)
    requires Enabled(s, e) && Promises(s) && Promises(Step(s, e)) && Times(s) && SendsAll(start, s, cuts)
    ensures SendsAll(start, Step(s, e), cuts + if Cuts(s, e) then [CutOf(e)] else [])
  {
    StepSends(s, e);
    StepFollows(s, e);
    if s.stopped { StaysStopped(s, e); }
    hide Step, Times;
    ChunkAdded(start.startedAt, cuts, if Cuts(s, e) then CutOf(e) else Cut(false, 0));
    assert cuts + [] == cuts;
    TimesAreInOrder(s);
    assert s.browser ==> s.rotating.None?;
  }

  lemma TimesAreInOrder(s: State)
    requires Times(s)
    ensures s.startedAt <= s.chunkStart
  {
  }

  lemma ChunkAdded(start: int, cuts: seq<Cut>, last: Cut)
    ensures ChunksOf(start, cuts + [last]) ==
            ChunksOf(start, cuts)
              + if last.holds then [Upload(Since(start, cuts) - start, last.at - Since(start, cuts))] else []
  {
    assert (cuts + [last])[..|cuts|] == cuts;
  }

  /**
   * Over every run: as long as the loop has not stopped, what it has sent are exactly the chunks that held anything,
   * each from the end of the chunk before it to its own end, whichever way it listens.
   */
  lemma {:induction false} RunningLoopSendsEveryChunk(browser: bool, available: bool, at: int, events: seq<Event>)
    ensures var start := Begin(browser, available, at);
      SendsAll(start, Play(start, events), CutsOf(start, events))
  {
    var start := Begin(browser, available, at);
    if events != [] {
      hide Step, SendsAll, Cuts, Times, Promises, InTimeOrder;
      var before, e := events[..|events| - 1], events[|events| - 1];
      RunningLoopSendsEveryChunk(browser, available, at, before);
      EveryRunKeepsInvariant(browser, available, at, before);
      EveryRunKeepsInvariant(browser, available, at, events);
      var s := Play(start, before);
      if Enabled(s, e) {
        StepSendsAll(start, s, e, CutsOf(start, before));
      } else {
        NothingHappens(s, e);
        assert CutsOf(start, before) + [] == CutsOf(start, before);
      }
    }
  }

  lemma NothingHappens(s: State, e: Event)
    requires !Enabled(s, e)
    ensures Step(s, e) == s && !Cuts(s, e)
  {
  }

  // ----- it keeps listening, and says why it ends -----

  /** A running loop with a microphone has either its timer set or a chunk asked for; with a recogniser, its timer. */
  ghost predicate KeepsTicking(s: State) {
    !s.stopped ==>
      && (s.mic ==> s.timer == s.rotating.None?) && (s.recognizer ==> s.timer)
      && (!s.browser && !s.mic ==> !s.timer && s.rotating.None?)
  }

  lemma StepKeepsTicking(s: State, e: Event)
    requires Enabled(s, e) && Promises(s) && KeepsTicking(s)
    ensures KeepsTicking(Step(s, e))
  {
    hide OnOpened, OnFired, OnRotated, OnSettled, OnFinalText, OnStop, OnFinished, OnClosed, Report, Halted, Promises;
    if s.stopped {
      StaysStopped(s, e);
      hide Step;
    } else {
      match e
      case Opened(ok) => OpenedTicks(s, ok);
      case GapReported => GapTicks(s);
      case Fired(at) => FiredTicks(s, at);
      case Rotated(hasBlob, at) => RotatedTicks(s, hasBlob, at);
      case Settled(outcome) => SettledTicks(s, outcome);
      case Final(hasText, at) => FinalTicks(s, hasText, at);
      case Stop(flush) => StopTicks(s, flush);
      case Finished(hasBlob, at) => NotWhileRunning(s);
      case Sent => NotWhileRunning(s);
      case Waited => NotWhileRunning(s);
      case Closed => NotWhileRunning(s);
    }
  }

  lemma NotWhileRunning(s: State)
    requires Promises(s) && !s.stopped
    ensures s.finishing.None? && !s.sending && !s.waiting && s.closing.None?
  {
  }

  lemma OpenedTicks(s: State, ok: bool)
    requires !s.stopped && s.opening && KeepsTicking(s) && Promises(s)
    ensures KeepsTicking(OnOpened(s, ok))
  {
  }

  lemma GapTicks(s: State)
    requires !s.stopped
    ensures KeepsTicking(Halted(s.(givingUp := false), Unavailable))
  {
  }

  lemma FiredTicks(s: State, at: int)
    requires !s.stopped && KeepsTicking(s) && Promises(s)
    ensures KeepsTicking(OnFired(s, at))
  {
  }

  lemma RotatedTicks(s: State, hasBlob: bool, at: int)
    requires !s.stopped && s.rotating.Some? && KeepsTicking(s)
    ensures KeepsTicking(OnRotated(s, hasBlob, at))
  {
  }

  lemma SettledTicks(s: State, outcome: Outcome)
    requires !s.stopped && s.inFlight > 0 && KeepsTicking(s)
    ensures KeepsTicking(OnSettled(s, outcome))
  {
  }

  lemma FinalTicks(s: State, hasText: bool, at: int)
    requires !s.stopped && KeepsTicking(s)
    ensures KeepsTicking(OnFinalText(s, hasText, at))
  {
  }

  lemma StopTicks(s: State, flush: bool)
    requires !s.stopped
    ensures KeepsTicking(OnStop(s, flush))
  {
  }

  /** Over every run the loop keeps asking for chunks until it is stopped. */
  lemma {:induction false} EveryRunKeepsTicking(browser: bool, available: bool, at: int, events: seq<Event>)
    ensures KeepsTicking(Play(Begin(browser, available, at), events))
  {
    if events != [] {
      hide Step, KeepsTicking, Times, Promises, InTimeOrder;
      var before, e := events[..|events| - 1], events[|events| - 1];
      EveryRunKeepsTicking(browser, available, at, before);
      EveryRunKeepsInvariant(browser, available, at, before);
      var s := Play(Begin(browser, available, at), before);
      if Enabled(s, e) { StepKeepsTicking(s, e); } else { NothingHappens(s, e); }
    }
  }

  function One(b: bool): nat { if b then 1 else 0 }

  /** The loop opens its device, has it, or is giving it up: one of these at a time, and always one while it runs. */
  ghost predicate HasItsDevice(s: State) {
    var devices := One(s.opening) + One(s.givingUp) + One(s.mic) + One(s.recognizer);
    && devices <= 1 && (!s.stopped ==> devices == 1)
    && (s.browser ==> !s.opening && !s.mic) && (!s.browser ==> !s.recognizer)
  }

  lemma StepKeepsDevice(s: State, e: Event)
    requires Enabled(s, e) && HasItsDevice(s)
    ensures HasItsDevice(Step(s, e))
  {
    hide OnOpened, Halted;
    match e
    case Opened(ok) => OpenedKeepsDevice(s, ok);
    case GapReported => HaltTakesNoDevice(s.(givingUp := false), Unavailable);
    case _ =>
      OthersTakeNoDevice(s, e);
      hide Step;
  }

  lemma OthersTakeNoDevice(s: State, e: Event)
    requires Enabled(s, e) && !e.Opened? && !e.GapReported?
    ensures SameDevices(s, Step(s, e))
  {
    hide OnOpened, OnFired, OnRotated, OnSettled, OnFinalText, OnStop, OnFinished, OnClosed, Report, Halted,
      SameDevices;
    match e
    case Fired(at) => FiredTakesNoDevice(s, at);
    case Rotated(hasBlob, at) => RotatedTakesNoDevice(s, hasBlob, at);
    case Settled(outcome) => SettledTakesNoDevice(s, outcome);
    case Final(hasText, at) => FinalTakesNoDevice(s, hasText, at);
    case Stop(flush) => StopTakesNoDevice(s, flush);
    case Finished(hasBlob, at) => FinishedTakesNoDevice(s, hasBlob, at);
    case Sent => SentTakesNoDevice(s);
    case Waited => WaitedTakesNoDevice(s);
    case Closed => ClosedTakesNoDevice(s);
  }

  /** The devices are as they were, and the loop no less stopped. */
  ghost predicate SameDevices(s: State, t: State) {
    && t.opening == s.opening && t.givingUp == s.givingUp && t.mic == s.mic && t.recognizer == s.recognizer
    && t.browser == s.browser && (s.stopped ==> t.stopped)
  }

  lemma OpenedKeepsDevice(s: State, ok: bool)
    requires s.opening && HasItsDevice(s)
    ensures HasItsDevice(OnOpened(s, ok))
  {
  }

  lemma FiredTakesNoDevice(s: State, at: int)
    ensures SameDevices(s, OnFired(s, at))
  {
  }

  lemma HaltTakesNoDevice(s: State, reason: Reason)
    ensures SameDevices(s, Halted(s, reason)) && Halted(s, reason).stopped
  {
  }

  lemma RotatedTakesNoDevice(s: State, hasBlob: bool, at: int)
    requires s.rotating.Some?
    ensures SameDevices(s, OnRotated(s, hasBlob, at))
  {
    if !s.stopped && hasBlob { ChunkTakesNoDevice(s, at); }
  }

  lemma ChunkTakesNoDevice(s: State, at: int)
    requires s.rotating.Some? && !s.stopped
    ensures SameDevices(s, OnRotated(s, true, at))
  {
  }

  lemma SettledTakesNoDevice(s: State, outcome: Outcome)
    requires s.inFlight > 0
    ensures SameDevices(s, OnSettled(s, outcome))
  {
    hide Halted;
    HaltTakesNoDevice(s.(inFlight := s.inFlight - 1), Refused);
  }

  lemma FinalTakesNoDevice(s: State, hasText: bool, at: int)
    ensures SameDevices(s, OnFinalText(s, hasText, at))
  {
  }

  lemma StopTakesNoDevice(s: State, flush: bool)
    ensures SameDevices(s, OnStop(s, flush))
  {
    hide Halted, Report;
    HaltTakesNoDevice(s, Stopped);
    if !s.stopped && flush { FlushTakesNoDevice(s); }
  }

  lemma FlushTakesNoDevice(s: State)
    requires !s.stopped
    ensures SameDevices(s, OnStop(s, true))
  {
    hide Report;
    ReportTakesNoDevice(s.(stopped := true, flushing := false, timer := false), Stopped);
  }

  lemma FinishedTakesNoDevice(s: State, hasBlob: bool, at: int)
    requires s.finishing.Some?
    ensures SameDevices(s, OnFinished(s, hasBlob, at))
  {
  }

  lemma ClosedTakesNoDevice(s: State)
    requires s.closing.Some?
    ensures SameDevices(s, Report(OnClosed(s), s.closing.value.reason))
  {
  }

  lemma SentTakesNoDevice(s: State)
    ensures SameDevices(s, Report(s.(sending := false, flushing := false), Stopped))
  {
  }

  lemma WaitedTakesNoDevice(s: State)
    ensures SameDevices(s, Report(s.(waiting := false, flushing := false), Stopped))
  {
  }

  lemma ReportTakesNoDevice(s: State, reason: Reason)
    ensures SameDevices(s, Report(s, reason))
  {
  }

  /** Over every run: until it stops, the loop has its device, is opening it, or is about to report that it cannot. */
  lemma {:induction false} EveryRunHasItsDevice(browser: bool, available: bool, at: int, events: seq<Event>)
    ensures HasItsDevice(Play(Begin(browser, available, at), events))
    ensures events == [] ==> var s := Begin(browser, available, at);
              s.opening == !browser && s.recognizer == (browser && available) && s.givingUp == (browser && !available)
  {
    if events != [] {
      hide Step, HasItsDevice;
      var before, e := events[..|events| - 1], events[|events| - 1];
      EveryRunHasItsDevice(browser, available, at, before);
      var s := Play(Begin(browser, available, at), before);
      if Enabled(s, e) { StepKeepsDevice(s, e); } else { NothingHappens(s, e); }
    }
  }

  /** What a stopped loop has reported, or will: why it stopped. */
  ghost predicate WillReport(s: State, reason: Reason) {
    s.stopped && s.reports
      + (if s.closing.Some? then [s.closing.value.reason] else if s.flushing then [Stopped] else []) == [reason]
  }

  /** The first event that stops the loop is the one reported: a stop, a refusal, or a device that is missing. */
  lemma StopIsReportedAs(s: State, e: Event)
    requires Promises(s) && Stops(s, e)
    ensures WillReport(Step(s, e), if e == Settled(WasRefused) then Refused
              else if e == GapReported then Unavailable else Stopped)
    ensures e == Settled(WasRefused) || e == GapReported || e.Stop?
  {
    hide Halted, OnStop, Promises;
    if e == GapReported {
      HaltReports(s.(givingUp := false), Unavailable);
      NoReportYet(s);
    } else if e == Settled(WasRefused) {
      HaltReports(s.(inFlight := s.inFlight - 1), Refused);
      NoReportYet(s);
    } else if e.Stop? {
      NoReportYet(s);
      StopReports(s, e.flush);
    } else {
      OthersDoNotStop(s, e);
    }
  }

  lemma NoReportYet(s: State)
    requires Promises(s) && !s.stopped
    ensures s.reports == [] && s.closing.None? && !s.flushing
  {
  }

  lemma HaltReports(s: State, reason: Reason)
    ensures !s.stopped && s.reports == [] ==> WillReport(Halted(s, reason), reason)
  {
  }

  lemma StopReports(s: State, flush: bool)
    requires !s.stopped && s.reports == [] && s.closing.None? && !s.flushing
    ensures WillReport(OnStop(s, flush), Stopped)
  {
    hide Halted, Report;
    if flush {
      FlushWillReport(s);
    } else {
      HaltReports(s, Stopped);
    }
  }

  lemma FlushWillReport(s: State)
    requires !s.stopped && s.reports == [] && s.closing.None? && !s.flushing
    ensures WillReport(OnStop(s, true), Stopped)
  {
    hide Report;
    ReportChanges(s.(stopped := true, flushing := false, timer := false), Stopped);
  }

  // ----- and reports just that -----

  function ReasonOf(e: Event): Reason {
    if e.Settled? then Refused else if e.GapReported? then Unavailable else Reason.Stopped
  }

  /** Why the run stopped, if it has: as the event says that stopped it. */
  function StopReason(start: State, events: seq<Event>): Option<Reason> {
    if events == [] then None
    else
      var before, e := events[..|events| - 1], events[|events| - 1];
      if StopReason(start, before).Some? then StopReason(start, before)
      else if Stops(Play(start, before), e) then Some(ReasonOf(e)) else None
  }

  /** Nothing about the end is changed. */
  ghost predicate SameEnding(s: State, t: State) {
    t.reports == s.reports && t.closing == s.closing && t.flushing == s.flushing && t.stopped == s.stopped
  }

  lemma OpenedKeepsEnding(s: State, ok: bool)
    ensures SameEnding(s, OnOpened(s, ok))
  {
  }

  lemma FiredKeepsEnding(s: State, at: int)
    ensures SameEnding(s, OnFired(s, at))
  {
  }

  lemma RotatedKeepsEnding(s: State, hasBlob: bool, at: int)
    requires s.stopped && s.rotating.Some?
    ensures SameEnding(s, OnRotated(s, hasBlob, at))
  {
  }

  lemma HaltedKeepsEnding(s: State, reason: Reason)
    requires s.stopped
    ensures Halted(s, reason) == s
  {
  }

  lemma FinalKeepsEnding(s: State, hasText: bool, at: int)
    ensures SameEnding(s, OnFinalText(s, hasText, at))
  {
  }

  lemma SettledKeepsEnding(s: State, outcome: Outcome)
    requires s.stopped && s.inFlight > 0
    ensures SameEnding(s, OnSettled(s, outcome))
  {
    hide Halted;
    HaltedKeepsEnding(s.(inFlight := s.inFlight - 1), Refused);
  }

  lemma FinishedReports(s: State, hasBlob: bool, at: int, reason: Reason)
    requires s.finishing.Some? && Promises(s) && WillReport(s, reason)
    ensures WillReport(OnFinished(s, hasBlob, at), reason)
  {
    hide WithUpload;
    UploadKeepsEnding(s.(finishing := None, held := false, clock := at).(sending := true), s.finishing.value, at);
  }

  lemma UploadKeepsEnding(s: State, from: int, to: int)
    ensures SameEnding(s, WithUpload(s, from, to))
  {
  }

  lemma FlushReports(s: State, t: State, reason: Reason)
    requires s.closing.None? && s.flushing && WillReport(s, reason)
    requires t.closing.None? && !t.flushing && t.stopped && t.reports == s.reports
    ensures WillReport(Report(t, Stopped), reason)
  {
  }

  lemma ClosedReports(s: State, reason: Reason)
    requires s.closing.Some? && !s.flushing && WillReport(s, reason)
    ensures WillReport(Report(OnClosed(s), s.closing.value.reason), reason)
  {
  }

  lemma SameEndingReports(s: State, t: State, reason: Reason)
    requires SameEnding(s, t) && WillReport(s, reason)
    ensures WillReport(t, reason)
  {
  }

  lemma SentReports(s: State, reason: Reason)
    requires s.sending && Promises(s) && WillReport(s, reason)
    ensures WillReport(Report(s.(sending := false, flushing := false), Stopped), reason)
  {
    OneEnding(s);
    hide Report;
    FlushReports(s, s.(sending := false, flushing := false), reason);
  }

  lemma WaitedReports(s: State, reason: Reason)
    requires s.waiting && Promises(s) && WillReport(s, reason)
    ensures WillReport(Report(s.(waiting := false, flushing := false), Stopped), reason)
  {
    OneEnding(s);
    hide Report;
    FlushReports(s, s.(waiting := false, flushing := false), reason);
  }

  /** What will be reported stays so until it is. */
  lemma StepKeepsReport(s: State, e: Event, reason: Reason)
    requires Enabled(s, e) && Promises(s) && WillReport(s, reason)
    ensures WillReport(Step(s, e), reason)
  {
    OneEnding(s);
    assert s.stopped;
    hide OnOpened, OnFired, OnRotated, OnSettled, OnFinalText, OnStop, OnFinished, OnClosed, Report, Halted, WillReport,
      SameEnding, Promises;
    match e
    case Finished(hasBlob, at) => FinishedReports(s, hasBlob, at, reason);
    case Sent => SentReports(s, reason);
    case Waited => WaitedReports(s, reason);
    case Closed => ClosedReports(s, reason);
    case _ => OthersKeepEnding(s, e, reason);
  }

  lemma OthersKeepEnding(s: State, e: Event, reason: Reason)
    requires Enabled(s, e) && s.stopped && WillReport(s, reason)
    requires !e.Finished? && !e.Sent? && !e.Waited? && !e.Closed?
    ensures WillReport(Step(s, e), reason)
  {
    hide OnOpened, OnFired, OnRotated, OnSettled, OnFinalText, OnStop, Halted, WillReport, SameEnding;
    match e {
    case Opened(ok) => OpenedKeepsEnding(s, ok);
    case GapReported => GapKeepsEnding(s);
    case Fired(at) => FiredKeepsEnding(s, at);
    case Rotated(hasBlob, at) => RotatedKeepsEnding(s, hasBlob, at);
    case Settled(outcome) => SettledKeepsEnding(s, outcome);
    case Final(hasText, at) => FinalKeepsEnding(s, hasText, at);
    case Stop(flush) => StopKeepsEnding(s, flush);
    }
    SameEndingReports(s, Step(s, e), reason);
  }

  lemma GapKeepsEnding(s: State)
    requires s.stopped
    ensures SameEnding(s, Halted(s.(givingUp := false), Unavailable))
  {
  }

  lemma StopKeepsEnding(s: State, flush: bool)
    requires s.stopped
    ensures SameEnding(s, OnStop(s, flush))
  {
  }

  lemma OneEnding(s: State)
    requires Promises(s)
    ensures s.finishing.Some? || s.sending || s.waiting ==> s.flushing && s.closing.None?
    ensures s.closing.Some? ==> !s.flushing
  {
  }

  /** Over every run: what is reported, once, is why the loop was stopped, and nothing before that. */
  lemma {:induction false} EveryRunReportsWhy(browser: bool, available: bool, at: int, events: seq<Event>)
    ensures var start := Begin(browser, available, at);
      var s, why := Play(start, events), StopReason(start, events);
      (s.stopped <==> why.Some?) && (s.stopped ==> WillReport(s, why.value)) && (!s.stopped ==> s.reports == [])
  {
    if events != [] {
      hide Step, WillReport, Times, Promises, InTimeOrder;
      var start := Begin(browser, available, at);
      var before, e := events[..|events| - 1], events[|events| - 1];
      EveryRunReportsWhy(browser, available, at, before);
      EveryRunKeepsInvariant(browser, available, at, before);
      EndIsReportedOnce(browser, available, at, events);
      var s := Play(start, before);
      if !Enabled(s, e) {
        NothingHappens(s, e);
      } else if s.stopped {
        StepKeepsReport(s, e, StopReason(start, before).value);
        StaysStopped(s, e);
      } else if Step(s, e).stopped {
        StopIsReportedAs(s, e);
      }
    }
  }

  // ----- the device, the timer and the last words -----

  /** A microphone that opens is there, one that does not is given up, and nothing else changes the devices. */
  lemma DevicesAre(s: State, e: Event)
    requires Enabled(s, e)
    ensures var t := Step(s, e);
      && (e.Opened? ==> OpensAs(s, t, e.ok))
      && (e.GapReported? ==> SameDevices(s.(givingUp := false), t))
      && (!e.Opened? && !e.GapReported? ==> SameDevices(s, t))
  {
    hide OnOpened, OnFired, OnRotated, OnSettled, OnFinalText, OnStop, OnFinished, OnClosed, Report, Halted,
      SameDevices, OpensAs;
    match e
    case Opened(ok) => OpenedIsHad(s, ok);
    case GapReported => HaltTakesNoDevice(s.(givingUp := false), Unavailable);
    case _ =>
      OthersTakeNoDevice(s, e);
      hide Step;
  }

  /** The device that was being opened is there, or is given up. */
  ghost predicate OpensAs(s: State, t: State, ok: bool) {
    && !t.opening && t.mic == (s.mic || ok) && t.givingUp == (s.givingUp || !ok)
    && t.recognizer == s.recognizer && t.browser == s.browser && t.stopped == s.stopped
  }

  lemma OpenedIsHad(s: State, ok: bool)
    ensures OpensAs(s, OnOpened(s, ok), ok)
  {
  }

  /** A stop cancels the timer. A flush takes the chunk being recorded, or waits for the recogniser's last words. */
  lemma StopTakesTheLastWords(s: State, e: Event)
    requires Promises(s) && Stops(s, e)
    ensures var t := Step(s, e);
      && !t.timer && t.chunkStart == s.chunkStart
      && (e == Stop(true) && s.mic ==> t.finishing == Some(s.chunkStart) && t.held)
      && (e == Stop(true) && s.recognizer ==> t.waiting)
      && (e != Stop(true) || !(s.mic || s.recognizer) ==> !t.flushing)
  {
    hide Promises;
    StopIsReportedAs(s, e);
    NotWhileRunning(s);
    NoReportYet(s);
    PromisesDevices(s);
    if e.Stop? { StopNowTakes(s, e.flush); }
  }

  lemma PromisesDevices(s: State)
    requires Promises(s) && !s.stopped
    ensures s.held == s.mic && !(s.mic && s.recognizer)
  {
  }

  lemma StopNowTakes(s: State, flush: bool)
    requires !s.stopped && !s.flushing && s.held == s.mic && !(s.mic && s.recognizer)
    ensures var t := OnStop(s, flush);
      && !t.timer && t.chunkStart == s.chunkStart
      && (flush && s.mic ==> t.finishing == Some(s.chunkStart) && t.held)
      && (flush && s.recognizer ==> t.waiting)
      && (!flush || !(s.mic || s.recognizer) ==> !t.flushing)
  {
  }
}
