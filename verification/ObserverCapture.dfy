/** The observer room's capture loop: every event it can meet, and what it sends and reports in answer. */
module ObserverCapture {
  import opened Numbers

  /** What one upload covers, from the start of the round. */
  datatype Upload = Upload(offset: int, duration: int) {
    function End(): int { offset + duration }
  }

  datatype Reason = Stopped | Refused | Unavailable

  /** Why the loop halted, and whether it has a microphone to release first. */
  datatype Closing = Closing(reason: Reason, releasing: bool)

  datatype Outcome = Ok | WasRefused | Gap

  /** The loop's variables, and the promises it waits on. */
  datatype State = State(
    browser: bool,
    stopped: bool,
    flushing: bool,
    startedAt: int,
    chunkStart: int,
    timer: bool,
    mic: bool,
    recognizer: bool,
    opening: bool,             // the microphone has been asked for
    givingUp: bool,            // the gap of a missing device is being reported
    rotating: Option<int>,     // the next chunk has been asked for; when this one began
    finishing: Option<int>,    // the last chunk has been asked for; when it began
    sending: bool,             // the last chunk is on its way
    waiting: bool,             // the recogniser's last words are awaited
    held: bool,                // the microphone is open
    closing: Option<Closing>,  // the loop has halted and not reported it yet
    inFlight: nat,             // uploads whose outcome is awaited
    uploads: seq<Upload>,
    reports: seq<Reason>,
    clock: int)

  datatype Event =
    | Opened(ok: bool)
    | GapReported
    | Fired(at: int)
    | Rotated(hasBlob: bool, at: int)
    | Settled(outcome: Outcome)
    | Final(hasText: bool, at: int)
    | Stop(flush: bool)
    | Finished(hasBlob: bool, at: int)
    | Sent
    | Waited
    | Closed

  function Begin(browser: bool, available: bool, at: int): State {
    State(browser, false, false, at, at, browser && available, false, browser && available, !browser, browser
        && !available,
      None, None, false, false, false, None, 0, [], [], at)
  }

  function Offset(s: State, at: int): int { if at < s.startedAt then 0 else at - s.startedAt }

  function WithUpload(s: State, from: int, to: int): State {
    s.(uploads := s.uploads + [Upload(Offset(s, from), to - from)])
  }

  function Report(s: State, reason: Reason): State { s.(reports := s.reports + [reason]) }

  function Halted(s: State, reason: Reason): State {
    if s.stopped then s else s.(stopped := true, timer := false, closing := Some(Closing(reason, s.mic)))
  }

  /** The promise an event settles is awaited, and time does not run back. */
  predicate Enabled(s: State, e: Event) {
    match e
    case Opened(_) => s.opening
    case GapReported => s.givingUp
    case Fired(at) => s.timer && s.clock <= at
    case Rotated(_, at) => s.rotating.Some? && s.clock <= at
    case Settled(_) => s.inFlight > 0
    case Final(_, at) => s.recognizer && s.clock <= at
    case Stop(_) => true
    case Finished(_, at) => s.finishing.Some? && s.clock <= at
    case Sent => s.sending
    case Waited => s.waiting
    case Closed => s.closing.Some?
  }

  function OnOpened(s: State, ok: bool): State {
    if ok then s.(opening := false, mic := true, held := true, timer := true)
    else s.(opening := false, givingUp := true)
  }

  function OnFired(s: State, at: int): State {
    s.(timer := s.browser && !s.stopped, clock := at,
       rotating := if !s.browser && !s.stopped && s.mic then Some(s.chunkStart) else s.rotating)
  }

  function OnRotated(s: State, hasBlob: bool, at: int): State
    requires s.rotating.Some?
  {
    var t := s.(rotating := None, chunkStart := at, clock := at);
    if s.stopped then t
    else if hasBlob then WithUpload(t.(timer := true, inFlight := s.inFlight + 1), s.rotating.value, at)
    else t.(timer := true)
  }

  function OnSettled(s: State, outcome: Outcome): State
    requires s.inFlight > 0
  {
    var t := s.(inFlight := s.inFlight - 1);
    if outcome == WasRefused then Halted(t, Refused) else t
  }

  function OnFinalText(s: State, hasText: bool, at: int): State {
    var t := s.(chunkStart := at, clock := at);
    if s.stopped && !s.flushing then t
    else if hasText then WithUpload(t.(inFlight := s.inFlight + 1), s.chunkStart, at)
    else t
  }

  function OnStop(s: State, flush: bool): State {
    if s.stopped then s
    else if !flush then Halted(s, Stopped)
    else
      var t := s.(stopped := true, flushing := true, timer := false);
      if s.mic then t.(finishing := Some(s.chunkStart))
      else if s.recognizer then t.(waiting := true)
      else Report(t.(flushing := false), Stopped)
  }

  function OnFinished(s: State, hasBlob: bool, at: int): State
    requires s.finishing.Some?
  {
    var t := s.(finishing := None, held := false, clock := at);
    if hasBlob then WithUpload(t.(sending := true), s.finishing.value, at) else Report(t.(flushing := false), Stopped)
  }

  function OnClosed(s: State): State
    requires s.closing.Some?
  {
    s.(closing := None, held := s.held && !s.closing.value.releasing)
  }

  /** One event, if it can happen. */
  function Step(s: State, e: Event): State {
    if !Enabled(s, e) then s
    else
      match e
      case Opened(ok) => OnOpened(s, ok)
      case GapReported => Halted(s.(givingUp := false), Unavailable)
      case Fired(at) => OnFired(s, at)
      case Rotated(hasBlob, at) => OnRotated(s, hasBlob, at)
      case Settled(outcome) => OnSettled(s, outcome)
      case Final(hasText, at) => OnFinalText(s, hasText, at)
      case Stop(flush) => OnStop(s, flush)
      case Finished(hasBlob, at) => OnFinished(s, hasBlob, at)
      case Sent => Report(s.(sending := false, flushing := false), Stopped)
      case Waited => Report(s.(waiting := false, flushing := false), Stopped)
      case Closed => Report(OnClosed(s), s.closing.value.reason)
  }

  function Play(s: State, events: seq<Event>): State {
    if events == [] then s else Step(Play(s, events[..|events| - 1]), events[|events| - 1])
  }

  // ----- the loop itself -----

  /** The variables the loop itself keeps. */
  datatype Vars = Vars(browser: bool, stopped: bool, flushing: bool, startedAt: int, chunkStart: int, timer: bool,
                       mic: bool, recognizer: bool)

  function VarsOf(s: State): Vars {
    Vars(s.browser, s.stopped, s.flushing, s.startedAt, s.chunkStart, s.timer, s.mic, s.recognizer)
  }

  function Window(v: Vars, from: int, to: int): Upload {
    Upload(if from < v.startedAt then 0 else from - v.startedAt, to - from)
  }

  lemma RotatedVars(s: State, hasBlob: bool, at: int)
    requires s.rotating.Some?
    ensures var t := OnRotated(s, hasBlob, at);
      && VarsOf(t) == (if s.stopped then VarsOf(s).(chunkStart := at) else VarsOf(s).(chunkStart := at, timer := true))
      && t.uploads == s.uploads + if !s.stopped && hasBlob then [Window(VarsOf(s), s.rotating.value, at)] else []
  {
  }

  lemma FinalVars(s: State, hasText: bool, at: int)
    ensures var t := OnFinalText(s, hasText, at);
      && VarsOf(t) == VarsOf(s).(chunkStart := at)
      && t.uploads == s.uploads + if (!s.stopped || s.flushing) && hasText then [Window(VarsOf(s), s.chunkStart, at)]
          else []
  {
  }

  lemma FinishedVars(s: State, hasBlob: bool, at: int)
    requires s.finishing.Some?
    ensures var t := OnFinished(s, hasBlob, at);
      && VarsOf(t) == VarsOf(s).(flushing := s.flushing && hasBlob)
      && t.uploads == s.uploads + if hasBlob then [Window(VarsOf(s), s.finishing.value, at)] else []
  {
  }

  class Capture {
    const browser: bool
    var stopped: bool
    var flushing: bool
    var startedAt: int
    var chunkStart: int
    var timer: bool
    var mic: bool
    var recognizer: bool

    /** The variables, with the promises awaited and the log of uploads and reports. */
    ghost var state: State

    ghost predicate Valid()
      reads this
    {
      VarsOf(state) == Vars(browser, stopped, flushing, startedAt, chunkStart, timer, mic, recognizer)
    }

    constructor (browser: bool, available: bool, at: int)
      ensures Valid() && state == Begin(browser, available, at)
    {
      this.browser := browser;
      stopped, flushing := false, false;
      startedAt, chunkStart := at, at;
      mic, recognizer, timer := false, browser && available, browser && available;
      state := Begin(browser, available, at);
    }

    method Halt(ghost reason: Reason)
      requires Valid()
      modifies this
      ensures Valid() && state == Halted(old(state), reason)
    {
      state := Halted(state, reason);
      if stopped { return; }
      stopped := true;
      timer := false;
    }

    method MicrophoneOpened(ok: bool)
      requires Valid() && Enabled(state, Opened(ok))
      modifies this
      ensures Valid() && state == OnOpened(old(state), ok)
    {
      state := OnOpened(state, ok);
      if !ok { return; }
      mic := true;
      timer := true;
    }

    method GiveUp()
      requires Valid() && Enabled(state, GapReported)
      modifies this
      ensures Valid() && state == Halted(old(state).(givingUp := false), Unavailable)
    {
      state := state.(givingUp := false);
      Halt(Unavailable);
    }

    /** The chunk asked for, if one is, begins at `from`. */
    method ServerTick(at: int) returns (from: Option<int>)
      requires Valid() && !browser && Enabled(state, Fired(at))
      modifies this
      ensures Valid() && state == OnFired(old(state), at)
      ensures from.Some? ==> state.rotating == from
    {
      state := OnFired(state, at);
      timer := false;
      if stopped || !mic { return None; }
      return Some(chunkStart);
    }

    method AfterNext(from: int, hasBlob: bool, at: int) returns (send: Option<Upload>)
      requires Valid() && Enabled(state, Rotated(hasBlob, at)) && state.rotating == Some(from)
      modifies this
      ensures Valid() && state == OnRotated(old(state), hasBlob, at)
      ensures state.uploads == old(state.uploads) + if send.Some? then [send.value] else []
    {
      hide OnRotated;
      RotatedVars(state, hasBlob, at);
      state := OnRotated(state, hasBlob, at);
      chunkStart := at;
      if stopped { return None; }
      timer := true;
      return if hasBlob then Some(Upload(if from < startedAt then 0 else from - startedAt, chunkStart - from))
          else None;
    }

    method Settle(outcome: Outcome)
      requires Valid() && Enabled(state, Settled(outcome))
      modifies this
      ensures Valid() && state == OnSettled(old(state), outcome)
    {
      state := state.(inFlight := state.inFlight - 1);
      if outcome == WasRefused { Halt(Refused); }
    }

    method BrowserTick(at: int)
      requires Valid() && browser && Enabled(state, Fired(at))
      modifies this
      ensures Valid() && state == OnFired(old(state), at)
    {
      state := OnFired(state, at);
      timer := false;
      if stopped { return; }
      timer := true;
    }

    method OnFinal(hasText: bool, at: int) returns (send: Option<Upload>, restart: bool)
      requires Valid() && Enabled(state, Final(hasText, at))
      modifies this
      ensures Valid() && state == OnFinalText(old(state), hasText, at)
      ensures state.uploads == old(state.uploads) + if send.Some? then [send.value] else []
      ensures restart <==> !old(stopped)
    {
      hide OnFinalText;
      FinalVars(state, hasText, at);
      state := OnFinalText(state, hasText, at);
      var from := chunkStart;
      chunkStart := at;
      if stopped && !flushing { return None, false; }
      send := if hasText then Some(Upload(if from < startedAt then 0 else from - startedAt, chunkStart - from))
          else None;
      restart := !stopped;
    }

    method StopNow(flush: bool)
      requires Valid()
      modifies this
      ensures Valid() && state == OnStop(old(state), flush)
    {
      if stopped { return; }
      if !flush {
        Halt(Stopped);
        return;
      }
      state := OnStop(state, flush);
      stopped := true;
      flushing := mic || recognizer;
      timer := false;
    }

    method AfterFinish(from: int, hasBlob: bool, at: int) returns (send: Option<Upload>)
      requires Valid() && Enabled(state, Finished(hasBlob, at)) && state.finishing == Some(from)
      modifies this
      ensures Valid() && state == OnFinished(old(state), hasBlob, at)
      ensures state.uploads == old(state.uploads) + if send.Some? then [send.value] else []
    {
      hide OnFinished;
      FinishedVars(state, hasBlob, at);
      state := OnFinished(state, hasBlob, at);
      if !hasBlob { flushing := false; }
      return if hasBlob then Some(Upload(if from < startedAt then 0 else from - startedAt, at - from)) else None;
    }

    method AfterFlush(e: Event)
      requires Valid() && (e == Sent || e == Waited) && Enabled(state, e)
      modifies this
      ensures Valid() && state == Step(old(state), e)
    {
      state := Step(state, e);
      flushing := false;
    }
  }

  // ----- what every run keeps -----

  /** Uploads cover separate stretches of time, one after another. */
  ghost predicate InTimeOrder(uploads: seq<Upload>) {
    && (forall i :: 0 <= i < |uploads| ==> 0 <= uploads[i].offset && 0 <= uploads[i].duration)
    && (forall i, j :: 0 <= i < j < |uploads| ==> uploads[i].End() <= uploads[j].offset)
  }

  /** Everything uploaded so far ends by this time. */
  ghost predicate EndsBy(s: State, at: int) {
    forall i :: 0 <= i < |s.uploads| ==> s.uploads[i].End() <= at - s.startedAt
  }

  /** How many reports of the end are made or on their way. */
  function Endings(s: State): nat {
    |s.reports| + (if s.closing.Some? then 1 else 0) + (if s.finishing.Some? then 1 else 0) +
        (if s.sending then 1 else 0)
    + (if s.waiting then 1 else 0)
  }

  ghost predicate Times(s: State) {
    && s.startedAt <= s.chunkStart <= s.clock && EndsBy(s, s.clock)
    && (s.rotating.Some? ==> s.startedAt <= s.rotating.value <= s.clock && (!s.stopped ==> EndsBy(s, s.rotating.value)))
    && (s.finishing.Some? ==> s.startedAt <= s.finishing.value <= s.clock && EndsBy(s, s.finishing.value))
    && (!s.stopped || s.browser ==> EndsBy(s, s.chunkStart))
  }

  ghost predicate Promises(s: State) {
    && (s.browser ==> !s.mic && !s.opening && s.rotating.None? && s.finishing.None? && !s.sending)
    && (!s.browser ==> !s.recognizer && !s.waiting)
    && (s.flushing <==> s.finishing.Some? || s.sending || s.waiting)
    && (s.flushing ==> s.stopped) && (s.waiting ==> s.recognizer)
    && Endings(s) == (if s.stopped then 1 else 0)
    && (!s.stopped ==> s.held == s.mic && !(s.opening && s.mic))
  }

  ghost predicate Invariant(s: State) { InTimeOrder(s.uploads) && Times(s) && Promises(s) }

  lemma UploadKeepsOrder(s: State, from: int, to: int)
    requires InTimeOrder(s.uploads) && s.startedAt <= from <= to && EndsBy(s, from)
    ensures InTimeOrder(WithUpload(s, from, to).uploads)
    ensures EndsBy(WithUpload(s, from, to), to)
  {
  }

  lemma EndsLater(s: State, from: int, to: int)
    requires EndsBy(s, from) && from <= to
    ensures EndsBy(s, to)
  {
  }

  lemma OpenedKeeps(s: State, ok: bool)
    requires Invariant(s) && s.opening
    ensures Invariant(OnOpened(s, ok))
  {
    hide InTimeOrder;
  }

  lemma HaltKeeps(s: State, reason: Reason)
    requires Invariant(s)
    ensures Invariant(Halted(s, reason))
  {
    hide InTimeOrder;
  }

  lemma FiredKeeps(s: State, at: int)
    requires Invariant(s) && s.timer && s.clock <= at
    ensures Invariant(OnFired(s, at))
  {
    hide InTimeOrder;
    EndsLater(s, s.clock, at);
  }

  lemma RotatedKeeps(s: State, hasBlob: bool, at: int)
    requires Invariant(s) && s.rotating.Some? && s.clock <= at
    ensures Invariant(OnRotated(s, hasBlob, at))
  {
    hide InTimeOrder;
    EndsLater(s, s.clock, at);
    if !s.stopped { UploadKeepsOrder(s, s.rotating.value, at); }
  }

  lemma SettledKeeps(s: State, outcome: Outcome)
    requires Invariant(s) && s.inFlight > 0
    ensures Invariant(OnSettled(s, outcome))
  {
    hide InTimeOrder;
  }

  lemma FinalKeeps(s: State, hasText: bool, at: int)
    requires Invariant(s) && s.recognizer && s.clock <= at
    ensures Invariant(OnFinalText(s, hasText, at))
  {
    hide InTimeOrder;
    EndsLater(s, s.clock, at);
    UploadKeepsOrder(s, s.chunkStart, at);
  }

  lemma StopKeeps(s: State, flush: bool)
    requires Invariant(s)
    ensures Invariant(OnStop(s, flush))
  {
    hide InTimeOrder;
  }

  lemma FinishedKeeps(s: State, hasBlob: bool, at: int)
    requires Invariant(s) && s.finishing.Some? && s.clock <= at
    ensures Invariant(OnFinished(s, hasBlob, at))
  {
    hide InTimeOrder;
    EndsLater(s, s.clock, at);
    UploadKeepsOrder(s, s.finishing.value, at);
  }

  lemma ReportKeeps(s: State, e: Event)
    requires Invariant(s) && Enabled(s, e) && (e == Sent || e == Waited || e == Closed)
    ensures Invariant(Step(s, e))
  {
    hide InTimeOrder, OnOpened, OnFired, OnRotated, OnSettled, OnFinalText, OnStop, OnFinished;
  }

  lemma StepKeepsInvariant(s: State, e: Event)
    requires Invariant(s)
    ensures Invariant(Step(s, e))
  {
    hide OnOpened, OnFired, OnRotated, OnSettled, OnFinalText, OnStop, OnFinished, Invariant, Report, Halted;
    if Enabled(s, e) {
      match e
      case Opened(ok) => OpenedKeeps(s, ok);
      case GapReported => GivingUpKeeps(s);
      case Fired(at) => FiredKeeps(s, at);
      case Rotated(hasBlob, at) => RotatedKeeps(s, hasBlob, at);
      case Settled(outcome) => SettledKeeps(s, outcome);
      case Final(hasText, at) => FinalKeeps(s, hasText, at);
      case Stop(flush) => StopKeeps(s, flush);
      case Finished(hasBlob, at) => FinishedKeeps(s, hasBlob, at);
      case Sent => ReportKeeps(s, e);
      case Waited => ReportKeeps(s, e);
      case Closed => ReportKeeps(s, e);
    }
  }

  lemma GivingUpKeeps(s: State)
    requires Invariant(s)
    ensures Invariant(Halted(s.(givingUp := false), Unavailable))
  {
    hide InTimeOrder;
    HaltKeeps(s.(givingUp := false), Unavailable);
  }

  lemma {:induction false} EveryRunKeepsInvariant(browser: bool, available: bool, at: int, events: seq<Event>)
    ensures Invariant(Play(Begin(browser, available, at), events))
  {
    hide Step;
    if events != [] {
      EveryRunKeepsInvariant(browser, available, at, events[..|events| - 1]);
      StepKeepsInvariant(Play(Begin(browser, available, at), events[..|events| - 1]), events[|events| - 1]);
    }
  }

  /** Over every run, uploads cover separate stretches of the round, in time order. */
  lemma UploadsNeverOverlap(browser: bool, available: bool, at: int, events: seq<Event>, i: nat, j: nat)
    ensures var uploads := Play(Begin(browser, available, at), events).uploads;
      && (i < |uploads| ==> uploads[i].offset >= 0 && uploads[i].duration >= 0)
      && (i < j < |uploads| ==> uploads[i].offset + uploads[i].duration <= uploads[j].offset)
  {
    hide Play, Times, Promises;
    EveryRunKeepsInvariant(browser, available, at, events);
  }

  /** The end is reported at most once; once stopped, exactly one report is made or still on its way. */
  lemma EndIsReportedOnce(browser: bool, available: bool, at: int, events: seq<Event>)
    ensures var s := Play(Begin(browser, available, at), events);
      && |s.reports| <= 1 && (!s.stopped ==> s.reports == [])
      && (s.stopped && s.closing.None? && !s.flushing ==> |s.reports| == 1)
  {
    hide Play, Times, InTimeOrder;
    EveryRunKeepsInvariant(browser, available, at, events);
  }

  // ----- nothing is sent after a stop -----

  /** Stopped, and not waiting for anything more to send. */
  predicate IsOver(s: State) { s.stopped && s.finishing.None? && !s.waiting }

  /** It stays over, and no upload begins. */
  predicate StaysOver(s: State, t: State) { IsOver(t) && t.uploads == s.uploads }

  lemma OverStaysOver(s: State, e: Event)
    requires IsOver(s) && Promises(s)
    ensures StaysOver(s, Step(s, e))
  {
    hide OnOpened, OnFired, OnRotated, OnSettled, OnFinalText, OnStop, OnFinished, Promises, Report, Halted;
    if Enabled(s, e) {
      match e
      case Opened(ok) => OpenedWhenOver(s, ok);
      case GapReported => HaltWhenOver(s, s.(givingUp := false), Unavailable);
      case Fired(at) => FiredWhenOver(s, at);
      case Rotated(hasBlob, at) => RotatedWhenOver(s, hasBlob, at);
      case Settled(outcome) => SettledWhenOver(s, outcome);
      case Final(hasText, at) => FinalWhenOver(s, hasText, at);
      case Stop(flush) => StopWhenOver(s, flush);
      case Finished(hasBlob, at) =>
      case Sent => ReportWhenOver(s, s.(sending := false, flushing := false), Stopped);
      case Waited =>
      case Closed => ReportWhenOver(s, OnClosed(s), s.closing.value.reason);
    } else {
      NothingWhenOver(s);
    }
  }

  lemma NothingWhenOver(s: State)
    requires IsOver(s)
    ensures StaysOver(s, s)
  {
  }

  lemma OpenedWhenOver(s: State, ok: bool)
    requires IsOver(s)
    ensures StaysOver(s, OnOpened(s, ok))
  {
  }

  lemma HaltWhenOver(s: State, t: State, reason: Reason)
    requires StaysOver(s, t)
    ensures StaysOver(s, Halted(t, reason))
  {
  }

  lemma FiredWhenOver(s: State, at: int)
    requires IsOver(s)
    ensures StaysOver(s, OnFired(s, at))
  {
  }

  lemma SettledWhenOver(s: State, outcome: Outcome)
    requires IsOver(s) && s.inFlight > 0
    ensures StaysOver(s, OnSettled(s, outcome))
  {
  }

  lemma StopWhenOver(s: State, flush: bool)
    requires IsOver(s)
    ensures StaysOver(s, OnStop(s, flush))
  {
  }

  lemma ReportWhenOver(s: State, t: State, reason: Reason)
    requires StaysOver(s, t)
    ensures StaysOver(s, Report(t, reason))
  {
  }

  lemma FinalWhenOver(s: State, hasText: bool, at: int)
    requires IsOver(s) && Promises(s) && s.recognizer
    ensures StaysOver(s, OnFinalText(s, hasText, at))
  {
  }

  lemma RotatedWhenOver(s: State, hasBlob: bool, at: int)
    requires IsOver(s) && s.rotating.Some?
    ensures StaysOver(s, OnRotated(s, hasBlob, at))
  {
  }

  lemma {:induction false} NothingAfterTheEnd(s: State, events: seq<Event>)
    requires IsOver(s) && Invariant(s)
    ensures IsOver(Play(s, events)) && Invariant(Play(s, events)) && Play(s, events).uploads == s.uploads
  {
    hide Step, IsOver, Invariant;
    if events != [] {
      NothingAfterTheEnd(s, events[..|events| - 1]);
      StepKeepsInvariant(Play(s, events[..|events| - 1]), events[|events| - 1]);
      InvariantGivesPromises(Play(s, events[..|events| - 1]));
      OverStaysOver(Play(s, events[..|events| - 1]), events[|events| - 1]);
    }
  }

  lemma InvariantGivesPromises(s: State)
    requires Invariant(s)
    ensures Promises(s)
  {
  }

  /** A stop without flush, or a refusal, as far as the caller sees. */
  predicate Withdraws(s: State, e: Event) { Enabled(s, e) && (e == Stop(false) || e == Settled(WasRefused)) }

  /** An upload can still begin, whatever has to happen first. */
  ghost predicate CanStillUpload(s: State) { exists events :: Play(s, events).uploads != s.uploads }

  /**
   * After consent is withdrawn no upload begins, exactly if no flush was under way that still had its last chunk to
   * take: one that has is not cut short.
   */
  lemma WithdrawalEndsUploads(s: State, e: Event)
    requires Invariant(s) && Withdraws(s, e)
    ensures CanStillUpload(Step(s, e)) <==> s.finishing.Some? || s.waiting
  {
    hide InTimeOrder, Times;
    var after := Step(s, e);
    WithdrawnState(s, e);
    StepKeepsInvariant(s, e);
    if s.finishing.Some? {
      LastChunkUploads(after);
    } else if s.waiting {
      LastWordsUpload(after);
    } else {
      forall events ensures Play(after, events).uploads == after.uploads { NothingAfterTheEnd(after, events); }
    }
  }

  /** Everything but what a halt changes. */
  predicate StopsOnly(s: State, t: State) {
    && t.stopped && t.flushing == s.flushing && t.finishing == s.finishing && t.waiting == s.waiting
    && t.sending == s.sending && t.recognizer == s.recognizer && t.clock == s.clock && t.uploads == s.uploads
  }

  /** Withdrawing stops a loop that is running, and leaves one that has been stopped as it is. */
  lemma WithdrawnState(s: State, e: Event)
    requires Withdraws(s, e)
    ensures StopsOnly(s, Step(s, e))
  {
    hide StopsOnly, Halted;
    if e == Stop(false) {
      HaltStopsOnly(s, Stopped);
    } else {
      var t := s.(inFlight := s.inFlight - 1);
      HaltStopsOnly(t, Refused);
      SettledStopsOnly(s, t, Halted(t, Refused));
    }
  }

  lemma HaltStopsOnly(s: State, reason: Reason)
    ensures StopsOnly(s, Halted(s, reason))
    ensures s.stopped ==> Halted(s, reason) == s
  {
  }

  lemma SettledStopsOnly(s: State, t: State, u: State)
    requires s.inFlight > 0 && t == s.(inFlight := s.inFlight - 1) && StopsOnly(t, u)
    ensures StopsOnly(s, u)
  {
  }

  lemma PlayOne(s: State, e: Event)
    ensures Play(s, [e]) == Step(s, e)
  {
    hide Step;
    assert [e][..0] == [];
  }

  lemma LastChunkUploads(s: State)
    requires s.finishing.Some?
    ensures CanStillUpload(s)
  {
    var e := Finished(true, s.clock);
    PlayOne(s, e);
    assert |Step(s, e).uploads| == |s.uploads| + 1;
  }

  lemma LastWordsUpload(s: State)
    requires s.waiting && s.flushing && s.recognizer
    ensures CanStillUpload(s)
  {
    var e := Final(true, s.clock);
    PlayOne(s, e);
    assert |Step(s, e).uploads| == |s.uploads| + 1;
  }

  lemma PlayNext(s: State, events: seq<Event>, e: Event)
    ensures Play(s, events + [e]) == Step(Play(s, events), e)
  {
    hide Step;
    assert (events + [e])[..|events|] == events;
  }

  /** A stop without flush comes while a flush is under way: the flush's chunk is uploaded after it. */
  lemma FlushOutlivesStop()
    ensures var s, events := Begin(false, true, 0), [Opened(true), Stop(true), Stop(false), Finished(true, 1)];
      && Withdraws(Play(s, events[..2]), Stop(false))
      && Play(s, events[..3]).uploads == [] && Play(s, events).uploads == [Upload(0, 1)]
  {
    var s, events := Begin(false, true, 0), [Opened(true), Stop(true), Stop(false), Finished(true, 1)];
    var flushing := s.(opening := false, mic := true, held := true, stopped := true, flushing := true,
      finishing := Some(0));
    assert events[..1] == [] + [Opened(true)] && events[..2] == events[..1] + [Stop(true)];
    assert events[..3] == events[..2] + [Stop(false)] && events == events[..3] + [Finished(true, 1)];
    PlayNext(s, [], Opened(true));
    PlayNext(s, events[..1], Stop(true));
    assert Play(s, events[..2]) == flushing;
    PlayNext(s, events[..2], Stop(false));
    PlayNext(s, events[..3], Finished(true, 1));
  }

  /** Listening with the first chunk uploaded and its outcome awaited. */
  function FirstChunkSent(): State {
    Begin(false, true, 0).(opening := false, mic := true, held := true, timer := true, chunkStart := 2, clock := 2,
      inFlight := 1, uploads := [Upload(0, 2)])
  }

  lemma FirstChunkIsSent()
    ensures Play(Begin(false, true, 0), [Opened(true), Fired(1), Rotated(true, 2)]) == FirstChunkSent()
  {
    var s := Begin(false, true, 0);
    PlayNext(s, [], Opened(true));
    PlayNext(s, [Opened(true)], Fired(1));
    PlayNext(s, [Opened(true), Fired(1)], Rotated(true, 2));
    assert [] + [Opened(true)] == [Opened(true)];
    assert [Opened(true)] + [Fired(1)] == [Opened(true), Fired(1)];
    assert [Opened(true), Fired(1)] + [Rotated(true, 2)] == [Opened(true), Fired(1), Rotated(true, 2)];
  }

  /** The same with a flush under way. */
  function FlushBegun(): State {
    FirstChunkSent().(stopped := true, flushing := true, timer := false, finishing := Some(2))
  }

  lemma FlushBegins()
    ensures Step(FirstChunkSent(), Stop(true)) == FlushBegun()
  {
  }

  lemma RefusalIsIgnored()
    ensures Withdraws(FlushBegun(), Settled(WasRefused))
    ensures Step(FlushBegun(), Settled(WasRefused)) == FlushBegun().(inFlight := 0)
  {
  }

  lemma LastChunkIsSent()
    ensures Step(FlushBegun().(inFlight := 0), Finished(true, 3)).uploads == [Upload(0, 2), Upload(2, 1)]
  {
  }

  /** A refusal of an earlier chunk comes while a flush is under way: the flush's chunk is uploaded after it. */
  lemma FlushOutlivesRefusal()
    ensures var s, sent := Begin(false, true, 0), [Opened(true), Fired(1), Rotated(true, 2)];
      && Withdraws(Play(s, sent + [Stop(true)]), Settled(WasRefused))
      && Play(s, sent + [Stop(true)] + [Settled(WasRefused)]).uploads == [Upload(0, 2)]
      && Play(s, sent + [Stop(true)] + [Settled(WasRefused)] + [Finished(true, 3)]).uploads ==
          [Upload(0, 2), Upload(2, 1)]
  {
    hide Play, Step, Withdraws;
    var s, sent := Begin(false, true, 0), [Opened(true), Fired(1), Rotated(true, 2)];
    FirstChunkIsSent();
    FlushBegins();
    RefusalIsIgnored();
    LastChunkIsSent();
    PlayNext(s, sent, Stop(true));
    PlayNext(s, sent + [Stop(true)], Settled(WasRefused));
    PlayNext(s, sent + [Stop(true)] + [Settled(WasRefused)], Finished(true, 3));
  }

  // ----- the microphone -----

  /** The microphone is being released because the loop has halted. */
  predicate Releasing(s: State) { s.closing.Some? && s.closing.value.releasing }

  /** After a stop: whether the microphone was being opened then, and what became of it. */
  predicate OwnedSince(late: bool, s: State) {
    && s.stopped && (s.opening ==> late)
    && (late ==> s.finishing.None? && !Releasing(s) && (s.opening ==> !s.mic))
    && (s.held <==> s.mic && (late || s.finishing.Some? || Releasing(s)))
  }

  /** Stopped, the end reported, and nothing awaited for it. */
  predicate AtRest(s: State) { s.stopped && s.closing.None? && s.finishing.None? && !s.flushing }

  /** The event stops the loop, whoever asks for it and why. */
  predicate Stops(s: State, e: Event) { !s.stopped && Step(s, e).stopped }

  /** The loop can come to rest with the microphone open. */
  ghost predicate CanKeepMicrophone(s: State) { exists events :: AtRest(Play(s, events)) && Play(s, events).held }

  lemma HaltOwns(s: State, reason: Reason)
    requires Promises(s) && !s.stopped
    ensures OwnedSince(s.opening, Halted(s, reason))
  {
  }

  lemma StopOwns(s: State, flush: bool)
    requires Promises(s) && !s.stopped
    ensures OwnedSince(s.opening, OnStop(s, flush))
  {
  }

  lemma SettledOwns(s: State)
    requires Promises(s) && !s.stopped && s.inFlight > 0
    ensures OwnedSince(s.opening, OnSettled(s, WasRefused))
  {
    hide Promises, Halted, OwnedSince;
    var t := s.(inFlight := s.inFlight - 1);
    SettledPromises(s, t);
    HaltOwns(t, Refused);
  }

  lemma SettledPromises(s: State, t: State)
    requires Promises(s) && s.inFlight > 0 && t == s.(inFlight := s.inFlight - 1)
    ensures Promises(t)
  {
  }

  lemma GapOwns(s: State)
    requires Promises(s) && !s.stopped
    ensures OwnedSince(s.opening, Halted(s.(givingUp := false), Unavailable))
  {
    hide Halted, OwnedSince;
    HaltOwns(s.(givingUp := false), Unavailable);
  }

  /** Whatever stops the loop leaves it owning what it had. */
  lemma StoppingOwns(s: State, e: Event)
    requires Promises(s) && Stops(s, e)
    ensures OwnedSince(s.opening, Step(s, e))
  {
    hide Promises, OwnedSince, OnStop, OnSettled, Halted;
    if e == GapReported {
      GapOwns(s);
    } else if e.Stop? {
      StopOwns(s, e.flush);
    } else if e == Settled(WasRefused) {
      SettledOwns(s);
    } else {
      OthersDoNotStop(s, e);
    }
  }

  lemma OthersDoNotStop(s: State, e: Event)
    requires !s.stopped && e != GapReported && !e.Stop? && e != Settled(WasRefused)
    ensures !Step(s, e).stopped
  {
    hide OnOpened, OnFired, OnRotated, OnSettled, OnFinalText, OnFinished, OnClosed, Report, Halted;
    if Enabled(s, e) {
      match e
      case Opened(ok) => OpenedRunsOn(s, ok);
      case Fired(at) => FiredRunsOn(s, at);
      case Rotated(hasBlob, at) => RotatedRunsOn(s, hasBlob, at);
      case Settled(outcome) => SettledRunsOn(s, outcome);
      case Final(hasText, at) => FinalRunsOn(s, hasText, at);
      case Finished(hasBlob, at) => FinishedRunsOn(s, hasBlob, at);
      case Sent => ReportRunsOn(s.(sending := false, flushing := false), Stopped);
      case Waited => ReportRunsOn(s.(waiting := false, flushing := false), Stopped);
      case Closed =>
        ClosedRunsOn(s);
        ReportRunsOn(OnClosed(s), s.closing.value.reason);
    }
  }

  lemma OpenedRunsOn(s: State, ok: bool)
    requires !s.stopped
    ensures !OnOpened(s, ok).stopped
  {
  }

  lemma FiredRunsOn(s: State, at: int)
    requires !s.stopped
    ensures !OnFired(s, at).stopped
  {
  }

  lemma RotatedRunsOn(s: State, hasBlob: bool, at: int)
    requires !s.stopped && s.rotating.Some?
    ensures !OnRotated(s, hasBlob, at).stopped
  {
  }

  lemma SettledRunsOn(s: State, outcome: Outcome)
    requires !s.stopped && s.inFlight > 0 && outcome != WasRefused
    ensures !OnSettled(s, outcome).stopped
  {
  }

  lemma FinalRunsOn(s: State, hasText: bool, at: int)
    requires !s.stopped
    ensures !OnFinalText(s, hasText, at).stopped
  {
  }

  lemma FinishedRunsOn(s: State, hasBlob: bool, at: int)
    requires !s.stopped && s.finishing.Some?
    ensures !OnFinished(s, hasBlob, at).stopped
  {
  }

  lemma ClosedRunsOn(s: State)
    requires !s.stopped && s.closing.Some?
    ensures !OnClosed(s).stopped
  {
  }

  lemma ReportRunsOn(s: State, reason: Reason)
    requires !s.stopped
    ensures !Report(s, reason).stopped
  {
  }

  lemma OpenedOwned(late: bool, s: State, ok: bool)
    requires OwnedSince(late, s) && s.opening
    ensures OwnedSince(late, OnOpened(s, ok))
  {
  }

  lemma FiredOwned(late: bool, s: State, at: int)
    requires OwnedSince(late, s)
    ensures OwnedSince(late, OnFired(s, at))
  {
  }

  lemma RotatedOwned(late: bool, s: State, hasBlob: bool, at: int)
    requires OwnedSince(late, s) && s.rotating.Some?
    ensures OwnedSince(late, OnRotated(s, hasBlob, at))
  {
  }

  lemma FinalOwned(late: bool, s: State, hasText: bool, at: int)
    requires OwnedSince(late, s)
    ensures OwnedSince(late, OnFinalText(s, hasText, at))
  {
  }

  lemma FinishedOwned(late: bool, s: State, hasBlob: bool, at: int)
    requires OwnedSince(late, s) && s.finishing.Some? && !Releasing(s)
    ensures OwnedSince(late, OnFinished(s, hasBlob, at))
  {
  }

  lemma ClosedOwned(late: bool, s: State)
    requires OwnedSince(late, s) && s.closing.Some? && s.finishing.None?
    ensures OwnedSince(late, OnClosed(s))
  {
  }

  lemma ReportOwned(late: bool, s: State, reason: Reason)
    requires OwnedSince(late, s)
    ensures OwnedSince(late, Report(s, reason))
  {
  }

  /** Settling an upload and the end of a flush leave a stopped loop's microphone alone; nothing halts it again. */
  lemma SettledOwned(late: bool, s: State, outcome: Outcome)
    requires OwnedSince(late, s) && s.inFlight > 0
    ensures OwnedSince(late, OnSettled(s, outcome))
  {
  }

  lemma GapOwned(late: bool, s: State)
    requires OwnedSince(late, s)
    ensures OwnedSince(late, Halted(s.(givingUp := false), Unavailable))
  {
  }

  lemma SentOwned(late: bool, s: State)
    requires OwnedSince(late, s)
    ensures OwnedSince(late, s.(sending := false, flushing := false))
  {
  }

  lemma WaitedOwned(late: bool, s: State)
    requires OwnedSince(late, s)
    ensures OwnedSince(late, s.(waiting := false, flushing := false))
  {
  }

  lemma AlreadyStopped(late: bool, s: State, flush: bool)
    requires OwnedSince(late, s)
    ensures OnStop(s, flush) == s
  {
  }

  lemma StepKeepsOwned(late: bool, s: State, e: Event)
    requires OwnedSince(late, s) && Promises(s)
    ensures OwnedSince(late, Step(s, e))
  {
    hide OwnedSince, Promises, Report, Halted, OnOpened, OnFired, OnRotated, OnSettled, OnFinalText, OnStop,
      OnFinished, OnClosed;
    if Enabled(s, e) {
      match e
      case Opened(ok) => OpenedOwned(late, s, ok);
      case Fired(at) => FiredOwned(late, s, at);
      case Rotated(hasBlob, at) => RotatedOwned(late, s, hasBlob, at);
      case Final(hasText, at) => FinalOwned(late, s, hasText, at);
      case Finished(hasBlob, at) =>
        OneEnding(s);
        FinishedOwned(late, s, hasBlob, at);
      case Closed =>
        OneEnding(s);
        ClosedOwned(late, s);
        ReportOwned(late, OnClosed(s), s.closing.value.reason);
      case GapReported => GapOwned(late, s);
      case Settled(outcome) => SettledOwned(late, s, outcome);
      case Stop(flush) => AlreadyStopped(late, s, flush);
      case Sent =>
        SentOwned(late, s);
        ReportOwned(late, s.(sending := false, flushing := false), Stopped);
      case Waited =>
        WaitedOwned(late, s);
        ReportOwned(late, s.(waiting := false, flushing := false), Stopped);
    }
  }

  lemma OneEnding(s: State)
    requires Promises(s)
    ensures s.finishing.None? || s.closing.None?
  {
  }

  lemma {:induction false} OwnedSinceTheStop(late: bool, s: State, events: seq<Event>)
    requires OwnedSince(late, s) && Invariant(s)
    ensures OwnedSince(late, Play(s, events)) && Invariant(Play(s, events))
  {
    hide Step, OwnedSince, Invariant;
    if events != [] {
      var before := Play(s, events[..|events| - 1]);
      OwnedSinceTheStop(late, s, events[..|events| - 1]);
      StepKeepsInvariant(before, events[|events| - 1]);
      InvariantGivesPromises(before);
      StepKeepsOwned(late, before, events[|events| - 1]);
    }
  }

  /** At rest the loop holds the microphone exactly if it was still being opened when the loop stopped, and did open. */
  lemma RestReleasesMicrophone(s: State, e: Event, events: seq<Event>)
    requires Invariant(s) && Stops(s, e)
    ensures var t := Play(Step(s, e), events); AtRest(t) ==> (t.held <==> s.opening && t.mic)
  {
    hide Play, Step, Invariant;
    InvariantGivesPromises(s);
    StoppingOwns(s, e);
    StepKeepsInvariant(s, e);
    OwnedSinceTheStop(s.opening, Step(s, e), events);
  }

  /** A stop leaves the microphone to be released for good exactly if it was not being opened. */
  lemma MicrophoneIsKeptIff(s: State, e: Event)
    requires Invariant(s) && Stops(s, e)
    ensures CanKeepMicrophone(Step(s, e)) <==> s.opening
  {
    hide Step, Invariant, Play;
    InvariantGivesPromises(s);
    if s.opening {
      OpensAfterTheStop(s, e);
    } else {
      forall events | AtRest(Play(Step(s, e), events)) ensures !Play(Step(s, e), events).held {
        RestReleasesMicrophone(s, e, events);
      }
    }
  }

  lemma OpensAfterTheStop(s: State, e: Event)
    requires Promises(s) && Stops(s, e) && s.opening
    ensures CanKeepMicrophone(Step(s, e))
  {
    hide Step;
    var t := Step(s, e);
    StillOpening(s, e);
    if t.closing.Some? {
      PlayOne(t, Closed);
      PlayNext(t, [Closed], Opened(true));
      ClosedStillOpening(t);
      OpensAtRest(Step(t, Closed));
    } else {
      PlayOne(t, Opened(true));
      OpensAtRest(t);
    }
  }

  lemma StillOpening(s: State, e: Event)
    requires Promises(s) && Stops(s, e) && s.opening
    ensures var t := Step(s, e); t.opening && t.stopped && !t.flushing && t.finishing.None?
  {
    if e == GapReported {
      HaltLeavesOpening(s.(givingUp := false), Unavailable);
    } else if e == Settled(WasRefused) {
      HaltLeavesOpening(s.(inFlight := s.inFlight - 1), Refused);
    } else if e.Stop? {
      StopLeavesOpening(s, e.flush);
    } else {
      OthersDoNotStop(s, e);
      hide Step;
    }
  }

  lemma HaltLeavesOpening(s: State, reason: Reason)
    requires s.opening && !s.flushing && s.finishing.None?
    ensures var t := Halted(s, reason); t.opening && !t.flushing && t.finishing.None?
  {
  }

  lemma StopLeavesOpening(s: State, flush: bool)
    requires Promises(s) && !s.stopped && s.opening
    ensures var t := OnStop(s, flush); t.opening && t.stopped && !t.flushing && t.finishing.None?
  {
  }

  lemma ClosedStillOpening(t: State)
    requires t.opening && t.stopped && !t.flushing && t.finishing.None? && t.closing.Some?
    ensures var u := Step(t, Closed); u.opening && AtRest(u)
  {
  }

  lemma OpensAtRest(t: State)
    requires t.opening && AtRest(t)
    ensures var u := Step(t, Opened(true)); AtRest(u) && u.held
  {
  }

  /** A stop while the microphone is opening: the end is reported, and then the microphone opens and stays open. */
  lemma MicrophoneOpensAfterTheEnd()
    ensures var t := Play(Begin(false, true, 0), [Stop(false), Closed, Opened(true)]);
      AtRest(t) && t.reports == [Stopped] && t.held
  {
    var s := Begin(false, true, 0);
    var halted := s.(stopped := true, closing := Some(Closing(Stopped, false)));
    var reported := s.(stopped := true, reports := [Stopped]);
    assert Step(s, Stop(false)) == halted;
    assert Step(halted, Closed) == reported;
    OpensAtRest(reported);
    PlayOne(s, Stop(false));
    PlayNext(s, [Stop(false)], Closed);
    PlayNext(s, [Stop(false), Closed], Opened(true));
    hide Play;
    assert [Stop(false)] + [Closed] == [Stop(false), Closed];
    assert [Stop(false), Closed] + [Opened(true)] == [Stop(false), Closed, Opened(true)];
    assert Step(reported, Opened(true)).reports == [Stopped];
  }
}
