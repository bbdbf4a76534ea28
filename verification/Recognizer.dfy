/** The speech recogniser of one turn: banking what is heard across sessions the browser ends by itself. */
module Recognizer {
  import opened Words

  datatype Heard = Heard(transcript: string, isFinal: bool)

  /** What the browser and the caller do, at the times they do it. */
  datatype Event =
    | Started(at: int)
    | Result(heard: seq<Heard>, at: int)
    | Fault(reason: string)
    | Ended(at: int, restarts: bool)
    | Stopped

  /** What the caller is told. */
  datatype Call = Interim(text: string) | Final(text: string) | End | Error(reason: string) | Dead | Silence

  const SILENCE_PROMPT_MS := 60000
  const MAX_CONSECUTIVE_RESTARTS := 20

  datatype State = State(
    committed: string, finalBuf: string, interimBuf: string,
    finishing: bool, dead: bool, lastSpeechAt: int, restarts: nat)

  /** A quiet moment, or our own stop completing: reported as errors, but no fault. */
  predicate IsHarmless(reason: string) { reason == "no-speech" || reason == "aborted" }

  function FinalText(heard: seq<Heard>): string {
    if heard == [] then ""
    else
      var last := heard[|heard| - 1];
      if last.isFinal then FinalText(heard[..|heard| - 1]) + last.transcript + " " else FinalText(heard[..|heard| - 1])
  }

  function InterimText(heard: seq<Heard>): string {
    if heard == [] then ""
    else
      var last := heard[|heard| - 1];
      if last.isFinal then InterimText(heard[..|heard| - 1]) else InterimText(heard[..|heard| - 1]) + last.transcript
  }

  function Collected(s: State): string { Join(s.committed, s.finalBuf, s.interimBuf) }

  /** Everything heard so far, banked for the next session. */
  function Banked(s: State): State { s.(committed := Collected(s), finalBuf := "", interimBuf := "") }

  predicate MayRestart(s: State, at: int) {
    at - s.lastSpeechAt < SILENCE_PROMPT_MS && s.restarts < MAX_CONSECUTIVE_RESTARTS
  }

  function Step(s: State, e: Event): (State, seq<Call>) {
    match e
    case Started(at) => (State("", "", "", false, false, at, 0), [])
    case Result(heard, at) =>
      var t := s.(finalBuf := s.finalBuf + FinalText(heard), interimBuf := InterimText(heard), lastSpeechAt := at,
        restarts := 0);
      (t, [Interim(Collected(t))])
    case Fault(reason) => if IsHarmless(reason) then (s, []) else (s.(dead := true), [Error(reason), Dead])
    case Ended(at, restarts) =>
      if s.finishing || s.dead then
        (State("", "", "", false, s.dead, s.lastSpeechAt, s.restarts), [Final(Collected(s)), End])
      else if MayRestart(s, at) && restarts then (Banked(s).(restarts := s.restarts + 1), [])
      else
        var count := if MayRestart(s, at) then s.restarts + 1 else s.restarts;
        var t := if MayRestart(s, at) then Banked(Banked(s)) else Banked(s);
        var dead := count >= MAX_CONSECUTIVE_RESTARTS;
        (t.(restarts := count, dead := dead), if dead then [Dead] else [Silence])
    case Stopped => (s.(finishing := true), [])
  }

  const IDLE := State("", "", "", false, false, 0, 0)

  function Play(events: seq<Event>): State {
    if events == [] then IDLE else Step(Play(events[..|events| - 1]), events[|events| - 1]).0
  }

  function CallsAt(events: seq<Event>, i: nat): seq<Call>
    requires i < |events|
  {
    Step(Play(events[..i]), events[i]).1
  }

  // ----- the recogniser itself -----

  class SpeechRecognizer {
    var committed: string
    var finalBuf: string
    var interimBuf: string
    var finishing: bool
    var dead: bool
    var lastSpeechAt: int
    var restarts: nat

    function View(): State
      reads this
    {
      State(committed, finalBuf, interimBuf, finishing, dead, lastSpeechAt, restarts)
    }

    constructor ()
      ensures View() == IDLE
    {
      committed, finalBuf, interimBuf := "", "", "";
      finishing, dead, lastSpeechAt, restarts := false, false, 0, 0;
    }

    method OnResult(heard: seq<Heard>, at: int) returns (calls: seq<Call>)
      modifies this
      ensures (View(), calls) == Step(old(View()), Result(heard, at))
    {
      var interim := "";
      for i := 0 to |heard|
        invariant finalBuf == old(finalBuf) + FinalText(heard[..i]) && interim == InterimText(heard[..i])
        invariant View() == old(View()).(finalBuf := finalBuf)
      {
        assert heard[..i + 1][..i] == heard[..i];
        if heard[i].isFinal { finalBuf := finalBuf + heard[i].transcript + " "; }
        else { interim := interim + heard[i].transcript; }
      }
      assert heard[..|heard|] == heard;
      interimBuf := interim;
      lastSpeechAt := at;
      restarts := 0;
      return [Interim(Collected(View()))];
    }

    method OnError(reason: string) returns (calls: seq<Call>)
      modifies this
      ensures (View(), calls) == Step(old(View()), Fault(reason))
    {
      if reason == "no-speech" { return []; }
      if reason == "aborted" { return []; }
      dead := true;
      return [Error(reason), Dead];
    }

    method OnEnd(at: int, restartWorks: bool) returns (calls: seq<Call>)
      modifies this
      ensures (View(), calls) == Step(old(View()), Ended(at, restartWorks))
    {
      if !finishing && !dead {
        if at - lastSpeechAt < SILENCE_PROMPT_MS && restarts < MAX_CONSECUTIVE_RESTARTS {
          committed := Join(committed, finalBuf, interimBuf);
          finalBuf := "";
          interimBuf := "";
          restarts := restarts + 1;
          if restartWorks { return []; }
        }
        committed := Join(committed, finalBuf, interimBuf);
        finalBuf := "";
        interimBuf := "";
        dead := restarts >= MAX_CONSECUTIVE_RESTARTS;
        return if dead then [Dead] else [Silence];
      }
      var text := Join(committed, finalBuf, interimBuf);
      committed, finalBuf, interimBuf := "", "", "";
      finishing := false;
      return [Final(text), End];
    }

    method Start(at: int)
      modifies this
      ensures View() == Step(old(View()), Started(at)).0
    {
      committed, finalBuf, interimBuf := "", "", "";
      finishing, dead, restarts, lastSpeechAt := false, false, 0, at;
    }

    method Stop()
      modifies this
      ensures View() == Step(old(View()), Stopped).0
    {
      finishing := true;
    }

    method Text() returns (text: string)
      ensures text == Collected(View())
      ensures WordsOf(text) == WordsOf(committed) + WordsOf(finalBuf) + WordsOf(interimBuf)
    {
      hide Join, WordsOf;
      WordsOfJoin(committed, finalBuf, interimBuf);
      text := Join(committed, finalBuf, interimBuf);
    }
  }

  // ----- what was said -----

  /** The words of the finalised transcripts of one result, in order. */
  function FinalWords(heard: seq<Heard>): seq<string> {
    if heard == [] then []
    else FinalWords(heard[..|heard| - 1]) + if heard[|heard| - 1].isFinal then WordsOf(heard[|heard| - 1].transcript)
        else []
  }

  /** Whether the last event closes the turn: an end that follows a stop or a fault. */
  predicate Closes(events: seq<Event>) {
    && events != [] && events[|events| - 1].Ended?
    && (Play(events[..|events| - 1]).finishing || Play(events[..|events| - 1]).dead)
  }

  /** The transcripts not finalised, one after the other. */
  function Unfinished(heard: seq<Heard>): string {
    if heard == [] then "" else (if heard[0].isFinal then "" else heard[0].transcript) + Unfinished(heard[1..])
  }

  lemma {:induction false} InterimIsUnfinished(heard: seq<Heard>)
    ensures InterimText(heard) == Unfinished(heard)
    decreases heard
  {
    if heard != [] {
      var n := |heard| - 1;
      InterimIsUnfinished(heard[..n]);
      UnfinishedNext(heard);
    }
  }

  lemma {:induction false} UnfinishedNext(heard: seq<Heard>)
    requires heard != []
    ensures var n := |heard| - 1;
      Unfinished(heard) == Unfinished(heard[..n]) + if heard[n].isFinal then "" else heard[n].transcript
    decreases heard
  {
    var n := |heard| - 1;
    if n > 0 {
      UnfinishedNext(heard[1..]);
      assert heard[1..][..n - 1] == heard[..n][1..];
      assert heard[1..][n - 1] == heard[n];
    }
  }

  /** What the session running has heard but not finalised. */
  function Pending(events: seq<Event>): string {
    if events == [] then ""
    else
      match events[|events| - 1]
      case Result(heard, _) => Unfinished(heard)
      case Started(_) => ""
      case Ended(_, _) => ""
      case _ => Pending(events[..|events| - 1])
  }

  /** What the turn has said: each finalised transcript, and at each session's end what it had not finalised. */
  function Said(events: seq<Event>): seq<string> {
    if events == [] then []
    else
      var before, n := events[..|events| - 1], |events| - 1;
      match events[n]
      case Result(heard, _) => Said(before) + FinalWords(heard)
      case Started(_) => []
      case Ended(_, _) => if Closes(events) then [] else Said(before) + WordsOf(Pending(before))
      case _ => Said(before)
  }

  /** The finalised transcripts alone. */
  function Finalised(events: seq<Event>): seq<string> {
    if events == [] then []
    else
      var before, n := events[..|events| - 1], |events| - 1;
      match events[n]
      case Result(heard, _) => Finalised(before) + FinalWords(heard)
      case Started(_) => []
      case Ended(_, _) => if Closes(events) then [] else Finalised(before)
      case _ => Finalised(before)
  }

  lemma FinalNext(heard: seq<Heard>)
    requires heard != []
    ensures var before, last := heard[..|heard| - 1], heard[|heard| - 1];
      && FinalText(heard) == (if last.isFinal then FinalText(before) + last.transcript + " " else FinalText(before))
      && FinalWords(heard) == FinalWords(before) + (if last.isFinal then WordsOf(last.transcript) else [])
  {
    hide WordsOf;
  }

  /** Nothing in the text can run into what is added after it. */
  predicate IsSettled(text: string) { text == "" || IsSpace(text[|text| - 1]) }

  lemma {:induction false} FinalTextHasItsWords(buf: string, heard: seq<Heard>)
    requires IsSettled(buf)
    ensures WordsOf(buf + FinalText(heard)) == WordsOf(buf) + FinalWords(heard)
    ensures IsSettled(buf + FinalText(heard))
  {
    hide WordsOf, IsSettled;
    if heard == [] {
      assert buf + FinalText(heard) == buf;
    } else {
      hide FinalText, FinalWords;
      var last, before := heard[|heard| - 1], FinalText(heard[..|heard| - 1]);
      FinalTextHasItsWords(buf, heard[..|heard| - 1]);
      FinalNext(heard);
      if last.isFinal {
        Appended(buf, before, last.transcript);
        AfterSpace(buf + before, last.transcript);
        SettledBySpace(buf + before + last.transcript);
      }
    }
  }

  lemma SettledBySpace(text: string)
    ensures IsSettled(text + " ")
  {
  }

  lemma Appended(buf: string, text: string, more: string)
    ensures buf + (text + more + " ") == (buf + text) + more + " "
  {
  }

  /** After white space, or at the start, a text and the space after it add just its words. */
  lemma AfterSpace(a: string, b: string)
    requires IsSettled(a)
    ensures WordsOf(a + b + " ") == WordsOf(a) + WordsOf(b)
  {
    hide WordsOf;
    WordsApart(a + b, "");
    assert a + b + " " + "" == a + b + " ";
    WordsNext("", ' ');
    if a == "" {
      assert a + b == b;
    } else {
      AfterAnySpace(a, b);
    }
  }

  lemma {:induction false} AfterAnySpace(a: string, b: string)
    requires a != "" && IsSpace(a[|a| - 1])
    ensures WordsOf(a + b) == WordsOf(a) + WordsOf(b)
    decreases b
  {
    hide WordsOf, Grow;
    if b == "" {
      assert a + b == a;
      WordsNext("", ' ');
    } else {
      var before, c := b[..|b| - 1], b[|b| - 1];
      AfterAnySpace(a, before);
      WordsAreWords(before);
      assert b == before + [c] && a + b == (a + before) + [c];
      WordsNext(before, c);
      WordsNext(a + before, c);
      assert EndsInWord(a + before) <==> EndsInWord(before);
      GrowApart(WordsOf(a), WordsOf(before), EndsInWord(before), c);
    }
  }

  /** The buffers hold the words of the turn so far. */
  ghost predicate HoldsWhatWasSaid(events: seq<Event>) {
    var s := Play(events);
    && WordsOf(s.committed) + WordsOf(s.finalBuf) == Said(events)
    && s.interimBuf == Pending(events)
    && IsSettled(s.finalBuf)
  }

  lemma {:induction false} EveryRunHoldsWhatWasSaid(events: seq<Event>)
    ensures HoldsWhatWasSaid(events)
  {
    hide WordsOf;
    if events == [] {
      WordsNext("", ' ');
    } else {
      EveryRunHoldsWhatWasSaid(events[..|events| - 1]);
      StepHoldsWhatWasSaid(events);
    }
  }

  lemma BankedWords(s: State)
    ensures WordsOf(Banked(s).committed) + WordsOf(Banked(s).finalBuf) ==
            WordsOf(s.committed) + WordsOf(s.finalBuf) + WordsOf(s.interimBuf)
    ensures WordsOf(Banked(Banked(s)).committed) == WordsOf(Banked(s).committed)
  {
    hide WordsOf, Join;
    WordsNext("", ' ');
    WordsOfJoin(s.committed, s.finalBuf, s.interimBuf);
    WordsOfJoin(Banked(s).committed, "", "");
  }

  lemma HearingHolds(events: seq<Event>)
    requires events != [] && HoldsWhatWasSaid(events[..|events| - 1]) && events[|events| - 1].Result?
    ensures HoldsWhatWasSaid(events)
  {
    hide WordsOf, Join, Closes, FinalText, FinalWords, InterimText, IsSettled;
    var s := Play(events[..|events| - 1]);
    FinalTextHasItsWords(s.finalBuf, events[|events| - 1].heard);
    InterimIsUnfinished(events[|events| - 1].heard);
  }

  lemma EndingHolds(events: seq<Event>)
    requires events != [] && HoldsWhatWasSaid(events[..|events| - 1]) && events[|events| - 1].Ended?
    ensures HoldsWhatWasSaid(events)
  {
    hide WordsOf, Join;
    WordsNext("", ' ');
    BankedWords(Play(events[..|events| - 1]));
  }

  lemma StepHoldsWhatWasSaid(events: seq<Event>)
    requires events != [] && HoldsWhatWasSaid(events[..|events| - 1])
    ensures HoldsWhatWasSaid(events)
  {
    hide WordsOf, Join;
    var before, e := events[..|events| - 1], events[|events| - 1];
    var s := Play(before);
    WordsNext("", ' ');
    match e {
      case Result(heard, _) => HearingHolds(events);
      case Ended(_, _) => EndingHolds(events);
      case _ =>
    }
  }

  /** The text on show at any moment is everything said since the turn began, and what the session has not finalised. */
  lemma TextIsEverythingHeard(events: seq<Event>)
    ensures WordsOf(Collected(Play(events))) == Said(events) + WordsOf(Pending(events))
  {
    hide WordsOf, Said, Pending, Join;
    EveryRunHoldsWhatWasSaid(events);
    var s := Play(events);
    WordsOfJoin(s.committed, s.finalBuf, s.interimBuf);
  }

  /** The text handed over when the turn closes is everything said since the turn began, once and in order. */
  lemma FinalIsEverythingSaid(events: seq<Event>, i: nat, text: string)
    requires i < |events| && Final(text) in CallsAt(events, i)
    ensures Closes(events[..i + 1])
    ensures WordsOf(text) == Said(events[..i]) + WordsOf(Pending(events[..i]))
  {
    hide WordsOf, Said, Pending, Join;
    assert events[..i + 1][..i] == events[..i];
    EveryRunHoldsWhatWasSaid(events[..i]);
    var s := Play(events[..i]);
    WordsOfJoin(s.committed, s.finalBuf, s.interimBuf);
  }

  /** xs can be read in ys from left to right, skipping words. */
  predicate IsSubsequence(xs: seq<string>, ys: seq<string>) {
    if xs == [] then true
    else if ys == [] then false
    else
      || IsSubsequence(xs, ys[..|ys| - 1])
      || (xs[|xs| - 1] == ys[|ys| - 1] && IsSubsequence(xs[..|xs| - 1], ys[..|ys| - 1]))
  }

  lemma {:induction false} SubsequenceGrows(xs: seq<string>, ys: seq<string>, more: seq<string>)
    requires IsSubsequence(xs, ys)
    ensures IsSubsequence(xs, ys + more) && IsSubsequence(xs + more, ys + more)
  {
    if more == [] {
      assert ys + more == ys && xs + more == xs;
    } else {
      var before, last := more[..|more| - 1], more[|more| - 1];
      SubsequenceGrows(xs, ys, before);
      SubsequenceByOne(xs, ys + before, last);
      SubsequenceByOne(xs + before, ys + before, last);
      assert ys + more == ys + before + [last] && xs + more == xs + before + [last];
    }
  }

  lemma SubsequenceByOne(xs: seq<string>, ys: seq<string>, w: string)
    requires IsSubsequence(xs, ys)
    ensures IsSubsequence(xs, ys + [w]) && IsSubsequence(xs + [w], ys + [w])
  {
    assert (ys + [w])[..|ys|] == ys && (xs + [w])[..|xs|] == xs;
  }

  /** No session ends with something heard that it did not finalise. */
  ghost predicate NothingLeftOver(events: seq<Event>) {
    forall i :: 0 <= i < |events| && events[i].Ended? ==> WordsOf(Pending(events[..i])) == []
  }

  /**
   * Every finalised transcript is in what was said, in order; and nothing
   * else is unless a session left something over.
   */
  lemma {:induction false} FinalisedIsSaid(events: seq<Event>)
    ensures IsSubsequence(Finalised(events), Said(events))
    ensures NothingLeftOver(events) ==> Said(events) == Finalised(events)
  {
    if events != [] {
      hide IsSubsequence, WordsOf, Pending, Play;
      var before, n := events[..|events| - 1], |events| - 1;
      FinalisedIsSaid(before);
      if NothingLeftOver(events) { LeftOverBefore(events); }
      match events[n] {
        case Result(heard, _) => SubsequenceGrows(Finalised(before), Said(before), FinalWords(heard));
        case Ended(_, _) => SubsequenceGrows(Finalised(before), Said(before), WordsOf(Pending(before)));
        case _ =>
      }
      NothingIsSubsequence(Said(events));
    }
    NothingIsSubsequence([]);
  }

  lemma NothingIsSubsequence(ys: seq<string>)
    ensures IsSubsequence([], ys)
  {
  }

  lemma LeftOverBefore(events: seq<Event>)
    requires events != [] && NothingLeftOver(events)
    ensures NothingLeftOver(events[..|events| - 1])
    ensures events[|events| - 1].Ended? ==> WordsOf(Pending(events[..|events| - 1])) == []
  {
    hide WordsOf, Pending;
    var before := events[..|events| - 1];
    forall i | 0 <= i < |before| && before[i].Ended? ensures WordsOf(Pending(before[..i])) == [] {
      assert before[..i] == events[..i];
    }
  }

  // ----- what the events alone say -----

  /** Someone stopped the turn, and no session has ended and no turn begun since. */
  predicate StopStands(events: seq<Event>) {
    if events == [] then false
    else
      match events[|events| - 1]
      case Stopped => true
      case Started(_) => false
      case Ended(_, _) => false
      case _ => StopStands(events[..|events| - 1])
  }

  /** When the turn began, or something was last heard in it. */
  function LastHeard(events: seq<Event>): int {
    if events == [] then 0
    else
      match events[|events| - 1]
      case Started(at) => at
      case Result(_, at) => at
      case _ => LastHeard(events[..|events| - 1])
  }

  /** Nobody stopped the turn, and nothing broke it. */
  predicate IsOpen(events: seq<Event>)
    decreases |events|, 1
  {
    !StopStands(events) && !FaultStands(events)
  }

  /** An end is answered by a new session: heard from less than a minute ago, and tried under twenty times since. */
  predicate TriesAgain(events: seq<Event>, at: int)
    decreases |events|, 2
  {
    IsOpen(events) && at - LastHeard(events) < 60000 && Tried(events) < 20
  }

  /** The new sessions tried since something was last heard, or the turn began. */
  function Tried(events: seq<Event>): nat
    decreases |events|, 0
  {
    if events == [] then 0
    else
      var before := events[..|events| - 1];
      match events[|events| - 1]
      case Started(_) => 0
      case Result(_, _) => 0
      case Ended(at, _) => if TriesAgain(before, at) then Tried(before) + 1 else Tried(before)
      case _ => Tried(before)
  }

  /** An end of an open turn to which no new session can be had, with twenty tried. */
  predicate GivesUp(events: seq<Event>, at: int, restarts: bool)
    decreases |events|, 3
  {
    && IsOpen(events) && !(TriesAgain(events, at) && restarts)
    && Tried(events) + (if TriesAgain(events, at) then 1 else 0) >= 20
  }

  /** The event is a fault: one reported that is neither a pause nor our own stop, or an end that gives up. */
  predicate IsFault(before: seq<Event>, e: Event)
    decreases |before|, 4
  {
    match e
    case Fault(reason) => reason != "no-speech" && reason != "aborted"
    case Ended(at, restarts) => GivesUp(before, at, restarts)
    case _ => false
  }

  /** There was a fault since the turn began. */
  predicate FaultStands(events: seq<Event>)
    decreases |events|, 0
  {
    events != [] &&
    var before, e := events[..|events| - 1], events[|events| - 1];
    !e.Started? && (FaultStands(before) || IsFault(before, e))
  }

  ghost predicate FaultedAt(events: seq<Event>, j: nat)
    requires j < |events|
  {
    IsFault(events[..j], events[j]) && forall k :: j < k < |events| ==> !events[k].Started?
  }

  /** A fault stands exactly if some event since the last start is one. */
  lemma {:induction false} FaultStandsIff(events: seq<Event>)
    ensures FaultStands(events) <==> exists j :: 0 <= j < |events| && FaultedAt(events, j)
  {
    if events != [] {
      hide IsFault;
      var n := |events| - 1;
      FaultStandsIff(events[..n]);
      forall j: nat | j < n ensures FaultedAt(events, j) <==> FaultedAt(events[..n], j) && !events[n].Started? {
        assert events[..n][..j] == events[..j];
      }
      NoStartIsFault(events[..n], events[n]);
      if FaultStands(events) && !FaultStands(events[..n]) { assert FaultedAt(events, n); }
      if FaultStands(events[..n]) && !events[n].Started? {
        var j :| 0 <= j < n && FaultedAt(events[..n], j);
        assert FaultedAt(events, j);
      }
      if j :| 0 <= j < |events| && FaultedAt(events, j) {
        if j < n { assert FaultedAt(events[..n], j); }
      }
    }
  }

  lemma NoStartIsFault(before: seq<Event>, e: Event)
    ensures e.Started? ==> !IsFault(before, e)
  {
  }

  ghost predicate Remembers(s: State, events: seq<Event>) {
    && (s.finishing <==> StopStands(events)) && (s.dead <==> FaultStands(events))
    && s.restarts == Tried(events) && s.lastSpeechAt == LastHeard(events)
  }

  /** Over every run the recogniser's flags, its count and its clock are those the events tell. */
  lemma {:induction false} EveryRunRemembers(events: seq<Event>)
    ensures Remembers(Play(events), events)
  {
    if events != [] {
      EveryRunRemembers(events[..|events| - 1]);
      hide Remembers;
      EventRemembers(Play(events[..|events| - 1]), events);
    }
  }

  lemma EventRemembers(s: State, events: seq<Event>)
    requires events != [] && Remembers(s, events[..|events| - 1])
    ensures Remembers(Step(s, events[|events| - 1]).0, events)
  {
    hide Join, Collected, FinalText, InterimText;
    var before, e := events[..|events| - 1], events[|events| - 1];
    match e
    case Ended(at, restarts) =>
      assert MayRestart(s, at) && IsOpen(before) <==> TriesAgain(before, at);
      assert IsFault(before, e) <==> GivesUp(before, at, restarts);
      assert IsOpen(before) <==> !s.finishing && !s.dead;
    case Started(at) =>
    case Result(heard, at) => assert !IsFault(before, e);
    case Fault(reason) => assert IsHarmless(reason) <==> !IsFault(before, e);
    case Stopped => assert !IsFault(before, e);
  }

  // ----- when the turn closes, and what else is called -----

  /** The turn closes exactly at an end that follows a stop or a fault: never because of silence. */
  lemma OnlyStopOrFaultCloses(events: seq<Event>, i: nat)
    requires i < |events|
    ensures (exists text :: Final(text) in CallsAt(events, i)) <==>
            events[i].Ended? && (StopStands(events[..i]) || FaultStands(events[..i]))
  {
    hide Join, StopStands, FaultStands;
    EveryRunRemembers(events[..i]);
    if Play(events[..i]).finishing || Play(events[..i]).dead {
      if events[i].Ended? { assert CallsAt(events, i)[0] == Final(Collected(Play(events[..i]))); }
    }
  }

  /**
   * An end of an open turn never closes it. A pause restarts: within a minute of the last speech and with fewer than
   * twenty restarts since, nothing is called when the browser starts again; else the caller is told of the silence, or,
   * with twenty tried, that capture is dead. What was heard is kept in each case, and only in the last is the turn not
   * open any more.
   */
  lemma EndOfOpenTurn(events: seq<Event>, i: nat)
    requires i < |events| && events[i].Ended? && IsOpen(events[..i])
    ensures var at, works := events[i].at, events[i].restarts;
      var pause := at - LastHeard(events[..i]) < 60000 && Tried(events[..i]) < 20;
      && (pause && works ==> CallsAt(events, i) == [])
      && (!(pause && works) ==>
            CallsAt(events, i) == if Tried(events[..i]) + (if pause then 1 else 0) >= 20 then [Dead] else [Silence])
      && (FaultStands(events[..i + 1]) <==> CallsAt(events, i) == [Dead])
      && !StopStands(events[..i + 1])
      && Said(events[..i + 1]) == Said(events[..i]) + WordsOf(Pending(events[..i]))
  {
    hide Join, WordsOf, Pending, Said;
    var before := events[..i];
    EveryRunRemembers(before);
    EveryRunRemembers(events[..i + 1]);
    assert events[..i + 1][..i] == before;
    SaidAtEnd(events[..i + 1]);
    assert IsFault(before, events[i]) <==> GivesUp(before, events[i].at, events[i].restarts);
  }

  lemma SaidAtEnd(events: seq<Event>)
    requires events != [] && events[|events| - 1].Ended? && IsOpen(events[..|events| - 1])
    ensures var before := events[..|events| - 1]; Said(events) == Said(before) + WordsOf(Pending(before))
  {
    hide WordsOf, Pending, StopStands, FaultStands;
    EveryRunRemembers(events[..|events| - 1]);
  }

  /** What the other events call: results show the text, faults are passed on, pauses and our own stops say nothing. */
  lemma OtherCalls(events: seq<Event>, i: nat)
    requires i < |events| && !events[i].Ended?
    ensures match events[i]
      case Fault(reason) =>
        CallsAt(events, i) == if reason == "no-speech" || reason == "aborted" then [] else [Error(reason), Dead]
      case Result(_, _) => CallsAt(events, i) == [Interim(Collected(Play(events[..i + 1])))]
      case _ => CallsAt(events, i) == []
  {
    hide Join;
    assert events[..i + 1][..i] == events[..i];
  }

  /** At the end of a closed turn the text is handed over, and the turn is over: once, with nothing kept. */
  lemma EndOfClosedTurn(events: seq<Event>, i: nat)
    requires i < |events| && events[i].Ended? && !IsOpen(events[..i])
    ensures CallsAt(events, i) == [Final(Collected(Play(events[..i]))), End]
    ensures Said(events[..i + 1]) == [] && Pending(events[..i + 1]) == ""
    ensures !StopStands(events[..i + 1]) && (FaultStands(events[..i + 1]) <==> FaultStands(events[..i]))
  {
    hide Join, WordsOf, LastHeard, Tried;
    var before := events[..i];
    assert events[..i + 1][..i] == before;
    EveryRunRemembers(before);
    assert IsFault(before, events[i]) <==> GivesUp(before, events[i].at, events[i].restarts);
  }

  // ----- how often it restarts -----

  /** The sessions begun by themselves since the last result or start. */
  function RestartsSinceHeard(events: seq<Event>): nat {
    if events == [] then 0
    else
      var before, n := events[..|events| - 1], |events| - 1;
      match events[n]
      case Result(_, _) => 0
      case Started(_) => 0
      case Ended(_, _) => RestartsSinceHeard(before) + if CallsAt(events, n) == [] then 1 else 0
      case _ => RestartsSinceHeard(before)
  }

  /** A dead microphone is not restarted for ever. */
  lemma {:induction false} RestartsAreBounded(events: seq<Event>)
    ensures RestartsSinceHeard(events) <= Play(events).restarts <= MAX_CONSECUTIVE_RESTARTS
  {
    if events != [] {
      hide Join;
      RestartsAreBounded(events[..|events| - 1]);
    }
  }
}
