/** The job description as one text: taken apart into lines, synced, and put together again. */
module JdText {
  import opened JdSection

  predicate IsNewline(text: string, i: nat) { i < |text| && text[i] == '\n' }

  /** A newline with a carriage return before it. */
  predicate IsPair(text: string, i: nat) { IsNewline(text, i) && i > 0 && text[i - 1] == '\r' }

  /** The line ending of the text: a pair if it holds one. */
  function Eol(text: string): string {
    if exists i :: 0 <= i < |text| && IsPair(text, i) then "\r\n" else "\n"
  }

  /** The line that ends where a newline begins: without its carriage return, if it has one. */
  function Chomp(line: string): string {
    if line != "" && line[|line| - 1] == '\r' then line[..|line| - 1] else line
  }

  /** The lines of the first n characters, the last one still open. */
  function Split(text: string): (lines: seq<Line>)
    ensures lines != []
  {
    if text == "" then [""]
    else
      var n := |text| - 1;
      var before := Split(text[..n]);
      var open := before[|before| - 1];
      if text[n] == '\n' then before[..|before| - 1] + [Chomp(open), ""]
      else before[..|before| - 1] + [open + [text[n]]]
  }

  function Join(lines: seq<Line>, eol: string): string {
    if lines == [] then ""
    else if |lines| == 1 then lines[0]
    else Join(lines[..|lines| - 1], eol) + eol + lines[|lines| - 1]
  }

  /** The number of newlines standing alone. */
  function LoneNewlines(text: string): nat {
    if text == "" then 0
    else
      var n := |text| - 1;
      LoneNewlines(text[..n]) + if IsNewline(text, n) && !IsPair(text, n) then 1 else 0
  }

  function Pairs(text: string): nat {
    if text == "" then 0
    else
      var n := |text| - 1;
      Pairs(text[..n]) + if IsPair(text, n) then 1 else 0
  }

  // ----- taking apart and putting together -----

  lemma JoinLast(init: seq<Line>, a: Line, b: string, eol: string)
    ensures Join(init + [a + b], eol) == Join(init + [a], eol) + b
  {
    assert (init + [a + b])[..|init|] == init == (init + [a])[..|init|];
    if init != [] {
      assert Join(init, eol) + eol + (a + b) == Join(init, eol) + eol + a + b;
    }
  }

  lemma JoinNext(init: seq<Line>, a: Line, eol: string)
    requires init != []
    ensures Join(init + [a], eol) == Join(init, eol) + eol + a
  {
    assert (init + [a])[..|init|] == init;
  }

  /** The line still open is what follows the last newline. */
  lemma {:induction false} OpenLineIsSuffix(text: string)
    ensures var open := Split(text)[|Split(text)| - 1];
      && |open| <= |text| && text[|text| - |open|..] == open
      && (|open| < |text| ==> text[|text| - |open| - 1] == '\n')
    decreases text
  {
    if text != "" {
      var n := |text| - 1;
      OpenLineIsSuffix(text[..n]);
      var open := Split(text[..n])[|Split(text[..n])| - 1];
      if text[n] != '\n' {
        assert text[n - |open|..] == text[..n][n - |open|..] + [text[n]];
      }
    }
  }

  /** A newline is half of a pair exactly if the line before it ends in a carriage return. */
  lemma PairIsChomped(text: string)
    requires text != "" && text[|text| - 1] == '\n'
    ensures var n := |text| - 1;
      var open := Split(text[..n])[|Split(text[..n])| - 1];
      IsPair(text, n) <==> open != "" && open[|open| - 1] == '\r'
  {
    var n := |text| - 1;
    OpenLineIsSuffix(text[..n]);
    var open := Split(text[..n])[|Split(text[..n])| - 1];
    if open != "" {
      assert text[..n][n - |open|..][|open| - 1] == text[n - 1];
    }
  }

  /** One more character, as the lines see it. */
  lemma JoinOfNext(text: string, eol: string)
    requires text != "" && (eol == "\n" || eol == "\r\n")
    ensures var n := |text| - 1;
      var before, after := Join(Split(text[..n]), eol), Join(Split(text), eol);
      if text[n] != '\n' then after == before + [text[n]]
      else if !IsPair(text, n) then after == before + eol
      else if eol == "\r\n" then after == before + "\n"
      else |after| == |before|
  {
    hide Join, IsPair;
    var n := |text| - 1;
    var lines := Split(text[..n]);
    var init, open := lines[..|lines| - 1], lines[|lines| - 1];
    assert lines == init + [open];
    if text[n] != '\n' {
      JoinLast(init, open, [text[n]], eol);
    } else {
      PairIsChomped(text);
      assert init + [Chomp(open), ""] == init + [Chomp(open)] + [""];
      JoinNext(init + [Chomp(open)], "", eol);
      if IsPair(text, n) {
        assert open == Chomp(open) + "\r";
        JoinLast(init, Chomp(open), "\r", eol);
      }
    }
  }

  lemma LoneOfNext(text: string)
    requires text != ""
    ensures var n := |text| - 1;
      LoneNewlines(text) == LoneNewlines(text[..n]) + (if text[n] == '\n' && !IsPair(text, n) then 1 else 0)
  {
  }

  lemma PairsOfNext(text: string)
    requires text != ""
    ensures var n := |text| - 1; Pairs(text) == Pairs(text[..n]) + (if IsPair(text, n) then 1 else 0)
  {
  }

  /** Joining by pairs gives the text, but for a carriage return at each newline standing alone. */
  lemma {:induction false} JoinByPairs(text: string)
    ensures |Join(Split(text), "\r\n")| == |text| + LoneNewlines(text)
    ensures LoneNewlines(text) == 0 ==> Join(Split(text), "\r\n") == text
    decreases text
  {
    if text != "" {
      hide Split, Join, LoneNewlines, IsPair;
      var front := text[..|text| - 1];
      JoinByPairs(front);
      JoinOfNext(text, "\r\n");
      LoneOfNext(text);
      PairsStep(text, Join(Split(front), "\r\n"), Join(Split(text), "\r\n"), LoneNewlines(front));
    }
  }

  /** One more character, once the text before it is joined by pairs. */
  lemma PairsStep(text: string, before: string, after: string, lone: nat)
    requires text != "" && |before| == |text| - 1 + lone && (lone == 0 ==> before == text[..|text| - 1])
    requires var n := |text| - 1;
      after == if text[n] != '\n' then before + [text[n]] else if !IsPair(text, n) then before + "\r\n"
               else before + "\n"
    ensures var more := lone + if text[|text| - 1] == '\n' && !IsPair(text, |text| - 1) then 1 else 0;
      |after| == |text| + more && (more == 0 ==> after == text)
  {
    hide IsPair;
    assert text == text[..|text| - 1] + [text[|text| - 1]];
  }

  /** Joining by newlines gives the text, but for the carriage return of each pair. */
  lemma {:induction false} JoinByNewlines(text: string)
    ensures |Join(Split(text), "\n")| + Pairs(text) == |text|
    ensures Pairs(text) == 0 ==> Join(Split(text), "\n") == text
    decreases text
  {
    if text != "" {
      hide Split, Join, Pairs, IsPair;
      var front := text[..|text| - 1];
      JoinByNewlines(front);
      JoinOfNext(text, "\n");
      PairsOfNext(text);
      PairEndsInNewline(text);
      NewlinesStep(text, Join(Split(front), "\n"), Join(Split(text), "\n"), Pairs(front));
    }
  }

  /** One more character, once the text before it is joined by newlines. */
  lemma NewlinesStep(text: string, before: string, after: string, pairs: nat)
    requires text != "" && |before| + pairs == |text| - 1 && (pairs == 0 ==> before == text[..|text| - 1])
    requires IsPair(text, |text| - 1) ==> text[|text| - 1] == '\n'
    requires var n := |text| - 1;
      if IsPair(text, n) then |after| == |before| else after == before + [text[n]]
    ensures var more := pairs + if IsPair(text, |text| - 1) then 1 else 0;
      |after| + more == |text| && (more == 0 ==> after == text)
  {
    hide IsPair;
    assert text == text[..|text| - 1] + [text[|text| - 1]];
  }

  lemma PairEndsInNewline(text: string)
    requires text != ""
    ensures IsPair(text, |text| - 1) ==> text[|text| - 1] == '\n'
  {
  }

  lemma {:induction false} NoPairs(text: string)
    requires forall i :: 0 <= i < |text| ==> !IsPair(text, i)
    ensures Pairs(text) == 0
    decreases text
  {
    if text != "" {
      var n := |text| - 1;
      forall i | 0 <= i < n ensures !IsPair(text[..n], i) {
        assert !IsPair(text, i);
      }
      NoPairs(text[..n]);
    }
  }

  lemma {:induction false} PairIsCounted(text: string, i: nat)
    requires IsPair(text, i)
    ensures Pairs(text) > 0
    decreases text
  {
    var n := |text| - 1;
    if i < n { PairIsCounted(text[..n], i); }
  }

  /** A text is joined by pairs exactly if it holds one. */
  lemma EolIs(text: string)
    ensures Eol(text) == if Pairs(text) > 0 then "\r\n" else "\n"
  {
    hide Pairs, IsPair;
    if i :| 0 <= i < |text| && IsPair(text, i) {
      PairIsCounted(text, i);
    } else {
      NoPairs(text);
    }
  }

  // ----- syncing the text -----

  predicate IsOneLine(line: Line) { '\n' !in line }

  predicate AreLines(lines: seq<Line>) { forall i :: 0 <= i < |lines| ==> IsOneLine(lines[i]) }

  lemma {:induction false} SplitAppend(text: string, s: string)
    requires IsOneLine(s)
    ensures var lines := Split(text); Split(text + s) == lines[..|lines| - 1] + [lines[|lines| - 1] + s]
    decreases s
  {
    var lines := Split(text);
    if s == "" {
      assert text + s == text && lines[|lines| - 1] + s == lines[|lines| - 1];
    } else {
      var m := |s| - 1;
      assert s == s[..m] + [s[m]];
      SplitAppend(text, s[..m]);
      assert (text + s)[..|text + s| - 1] == text + s[..m];
      assert lines[|lines| - 1] + s == lines[|lines| - 1] + s[..m] + [s[m]];
    }
  }

  lemma SplitNewline(text: string)
    ensures var lines := Split(text); Split(text + "\n") == lines[..|lines| - 1] + [Chomp(lines[|lines| - 1]), ""]
  {
    assert (text + "\n")[..|text|] == text;
  }

  /** A line as it reads once the ending follows it: a newline takes a carriage return before it for its own. */
  function Ended(line: Line, eol: string): Line { if eol == "\n" then Chomp(line) else line }

  lemma SplitEol(text: string, eol: string)
    requires eol == "\n" || eol == "\r\n"
    ensures var lines := Split(text); Split(text + eol) == lines[..|lines| - 1] + [Ended(lines[|lines| - 1], eol), ""]
  {
    hide Split;
    if eol == "\n" {
      SplitNewline(text);
    } else {
      SplitAppend(text, "\r");
      SplitNewline(text + "\r");
      assert text + eol == text + "\r" + "\n";
    }
  }

  /** Lines as they are read back from the text they make. */
  function ReadBack(lines: seq<Line>, eol: string): (r: seq<Line>)
    ensures |r| == |lines|
    ensures forall i :: 0 <= i < |lines| ==> r[i] == if i < |lines| - 1 then Ended(lines[i], eol) else lines[i]
  {
    seq(|lines|, i requires 0 <= i < |lines| => if i < |lines| - 1 then Ended(lines[i], eol) else lines[i])
  }

  lemma {:induction false} SplitOfJoin(lines: seq<Line>, eol: string)
    requires lines != [] && AreLines(lines) && (eol == "\n" || eol == "\r\n")
    ensures Split(Join(lines, eol)) == ReadBack(lines, eol)
    decreases lines
  {
    var n := |lines| - 1;
    hide Split, Join, Ended, IsOneLine;
    if n == 0 {
      assert lines == [lines[0]];
      OneLineText(lines[0], eol);
    } else {
      hide ReadBack;
      SplitOfJoin(lines[..n], eol);
      assert lines == lines[..n] + [lines[n]];
      JoinNext(lines[..n], lines[n], eol);
      LineReadBack(Join(lines[..n], eol), lines[..n], lines[n], eol);
    }
  }

  lemma OneLineText(line: Line, eol: string)
    requires IsOneLine(line)
    ensures Split(Join([line], eol)) == ReadBack([line], eol)
  {
    SplitAppend("", line);
    assert "" + line == line;
  }

  /** One more line after the text's last. */
  lemma LineReadBack(text: string, lines: seq<Line>, last: Line, eol: string)
    requires lines != [] && Split(text) == ReadBack(lines, eol) && IsOneLine(last) && (eol == "\n" || eol == "\r\n")
    ensures Split(text + eol + last) == ReadBack(lines + [last], eol)
  {
    hide Split, Ended, ReadBack, IsOneLine;
    ReadBackGrows(lines, last, eol);
    SplitEol(text, eol);
    SplitAppend(text + eol, last);
    assert "" + last == last;
  }

  lemma ReadBackGrows(lines: seq<Line>, last: Line, eol: string)
    requires lines != []
    ensures var read, n := ReadBack(lines, eol), |lines| - 1;
      read[n] == lines[n] && ReadBack(lines + [last], eol) == read[..n] + [Ended(read[n], eol), last]
  {
    hide Ended;
  }

  lemma {:induction false} SplitGivesLines(text: string)
    ensures AreLines(Split(text))
    decreases text
  {
    if text != "" { SplitGivesLines(text[..|text| - 1]); }
  }

  function SyncText(rd: Reader, jd: string, stack: seq<StackItem>): string {
    var r := Sync(rd, Split(jd), stack);
    if r.kind == Unchanged then jd else Join(r.lines, Eol(jd))
  }

  /** A stack whose wording stays on one line. */
  ghost predicate OneLine(rd: Reader, stack: seq<StackItem>) {
    forall item :: item in stack ==> IsOneLine(item.name) && IsOneLine(rd.levelPhrase(item.level))
  }

  lemma RenderedAreLines(rd: Reader, stack: seq<StackItem>)
    requires OneLine(rd, stack)
    ensures AreLines(Render(rd, stack))
  {
    hide ItemLine;
    forall i | 0 <= i < |Render(rd, stack)| ensures IsOneLine(Render(rd, stack)[i]) {
      if i > 0 {
        assert stack[i - 1] in stack;
        ItemIsOneLine(rd, stack[i - 1]);
      }
    }
  }

  lemma ItemIsOneLine(rd: Reader, item: StackItem)
    requires IsOneLine(item.name) && IsOneLine(rd.levelPhrase(item.level))
    ensures IsOneLine(ItemLine(rd, item))
  {
  }

  lemma SyncedAreLines(rd: Reader, lines: seq<Line>, stack: seq<StackItem>)
    requires OneLine(rd, stack) && AreLines(lines)
    ensures AreLines(Sync(rd, lines, stack).lines)
  {
    hide Sync, Render, IsOneLine, IsSection;
    var e := OutsideSurvives(rd, lines, stack);
    RenderedAreLines(rd, stack);
    PutAreLines(rd, lines, stack, Sync(rd, lines, stack).kind, e);
    var after := Sync(rd, lines, stack).lines;
    forall i | 0 <= i < |after| ensures IsOneLine(after[i]) {
      if i < |e.head| {
        assert after[i] == lines[i];
      } else if i < |e.head + e.put| {
        assert after[i] == e.put[i - |e.head|];
      } else {
        assert after[i] == lines[i - |e.put| + |e.cut|];
      }
    }
  }

  lemma PutAreLines(rd: Reader, lines: seq<Line>, stack: seq<StackItem>, kind: Kind, e: Edit)
    requires AreLines(Render(rd, stack)) && Allowed(rd, lines, stack, kind, e)
    ensures AreLines(e.put)
  {
    hide Render, IsSection;
  }

  // ----- syncing it twice -----

  predicate ReadsAlike(rd: Reader, a: Line, b: Line) {
    rd.heading(a) == rd.heading(b) && rd.isBullet(a) == rd.isBullet(b) && rd.trim(a) == rd.trim(b)
  }

  /** A carriage return at the end of a line is white space to every expression. */
  ghost predicate IgnoresReturns(rd: Reader) { forall line: Line :: ReadsAlike(rd, line, line + "\r") }

  lemma PlainReaderIgnoresReturns()
    ensures IgnoresReturns(PlainReader())
  {
    forall line: Line ensures Stripped(line + "\r") == Stripped(line) {
      assert (line + "\r")[..|line|] == line;
    }
  }

  ghost predicate AllAlike(rd: Reader, a: seq<Line>, b: seq<Line>) {
    |a| == |b| && forall i :: 0 <= i < |a| ==> ReadsAlike(rd, a[i], b[i])
  }

  lemma EndedReadsAlike(rd: Reader, line: Line, eol: string)
    requires IgnoresReturns(rd)
    ensures ReadsAlike(rd, line, Ended(line, eol))
  {
    if line != "" && line[|line| - 1] == '\r' {
      assert line == Chomp(line) + "\r";
      assert ReadsAlike(rd, Chomp(line), Chomp(line) + "\r");
    }
  }

  lemma AlikeSections(rd: Reader, a: seq<Line>, b: seq<Line>)
    requires AllAlike(rd, a, b)
    ensures SectionOf(rd, a) == SectionOf(rd, b)
  {
    hide SectionOf;
    forall i: nat ensures IsBulletAt(rd, a, i) == IsBulletAt(rd, b, i) && OpensAt(rd, a, i) == OpensAt(rd, b, i) {
      if i < |a| { assert ReadsAlike(rd, a[i], b[i]); }
      if i + 1 < |a| { assert ReadsAlike(rd, a[i + 1], b[i + 1]); }
    }
    var s, t := SectionOf(rd, a), SectionOf(rd, b);
    if s.Some? {
      AlikeSection(rd, a, b, s.value);
      SectionIsUnique(rd, b, s.value);
    }
  }

  lemma AlikeSection(rd: Reader, a: seq<Line>, b: seq<Line>, s: Section)
    requires AllAlike(rd, a, b) && IsSection(rd, a, s)
    requires forall i: nat :: IsBulletAt(rd, a, i) == IsBulletAt(rd, b, i) && OpensAt(rd, a, i) == OpensAt(rd, b, i)
    ensures IsSection(rd, b, s)
  {
    assert ReadsAlike(rd, a[s.start], b[s.start]);
    forall i | s.start < i < s.end ensures rd.isBullet(b[i]) {
      assert ReadsAlike(rd, a[i], b[i]);
    }
  }

  lemma {:induction false} AlikeLastText(rd: Reader, a: seq<Line>, b: seq<Line>)
    requires AllAlike(rd, a, b)
    ensures LastText(rd, a) == LastText(rd, b)
  {
    if a != [] {
      assert ReadsAlike(rd, a[|a| - 1], b[|b| - 1]);
      AlikeLastText(rd, a[..|a| - 1], b[..|b| - 1]);
    }
  }

  /** Texts that read alike are edited alike. */
  lemma AlikeSyncs(rd: Reader, a: seq<Line>, b: seq<Line>, stack: seq<StackItem>)
    requires AllAlike(rd, a, b) && stack != []
    ensures Sync(rd, a, stack).kind == Sync(rd, b, stack).kind
    ensures |Sync(rd, a, stack).lines| == |Sync(rd, b, stack).lines|
  {
    hide SectionOf, LastText, Render;
    AlikeSections(rd, a, b);
    AlikeLastText(rd, a, b);
    var section := SectionOf(rd, a);
    if section.Some? {
      var s := section.value;
      SectionFits(rd, a, s);
      forall i | s.start <= i < s.end ensures rd.trim(a[i]) == rd.trim(b[i]) {
        assert ReadsAlike(rd, a[i], b[i]);
      }
    }
  }

  lemma ReadBackIsAlike(rd: Reader, lines: seq<Line>, eol: string)
    requires IgnoresReturns(rd)
    ensures AllAlike(rd, lines, ReadBack(lines, eol))
  {
    hide IgnoresReturns;
    forall i | 0 <= i < |lines| ensures ReadsAlike(rd, lines[i], ReadBack(lines, eol)[i]) {
      EndedReadsAlike(rd, lines[i], eol);
    }
  }

  lemma ChangedHasLines(rd: Reader, lines: seq<Line>, stack: seq<StackItem>)
    requires stack != [] && Sync(rd, lines, stack).kind != Unchanged
    ensures Sync(rd, lines, stack).lines != []
  {
  }

  /** What a text that a sync has changed is read as next time. */
  lemma ChangedTextIsReadBack(rd: Reader, jd: string, stack: seq<StackItem>)
    requires stack != [] && OneLine(rd, stack) && Sync(rd, Split(jd), stack).kind != Unchanged
    ensures Split(SyncText(rd, jd, stack)) == ReadBack(Sync(rd, Split(jd), stack).lines, Eol(jd))
  {
    hide Sync, Split, Join, ReadBack, OneLine;
    SplitGivesLines(jd);
    SyncedAreLines(rd, Split(jd), stack);
    ChangedHasLines(rd, Split(jd), stack);
    SplitOfJoin(Sync(rd, Split(jd), stack).lines, Eol(jd));
  }

  /** Syncing the text again leaves it as it is, exactly if the section was not inline over bullets. */
  lemma SyncingTextTwice(rd: Reader, jd: string, stack: seq<StackItem>)
    requires Sound(rd) && IgnoresReturns(rd) && stack != [] && OneLine(rd, stack)
    ensures SyncText(rd, SyncText(rd, jd, stack), stack) == SyncText(rd, jd, stack) <==>
            !InlineOverBullets(rd, Split(jd))
  {
    hide Sync, Split, Join, OneLine, InlineOverBullets, IgnoresReturns, Sound, AllAlike;
    var r := Sync(rd, Split(jd), stack);
    SyncingTwice(rd, Split(jd), stack);
    if r.kind == Unchanged {
      UnchangedIsNotInline(rd, Split(jd), stack);
    } else {
      var text := SyncText(rd, jd, stack);
      ChangedTextIsReadBack(rd, jd, stack);
      ReadBackIsAlike(rd, r.lines, Eol(jd));
      AlikeSyncs(rd, r.lines, Split(text), stack);
      if InlineOverBullets(rd, Split(jd)) {
        InlineIsReplacedAgain(rd, Split(jd), stack);
        ChangedTextIsReadBack(rd, text, stack);
        assert |Split(SyncText(rd, text, stack))| < |Split(text)|;
      }
    }
  }

  lemma UnchangedIsNotInline(rd: Reader, lines: seq<Line>, stack: seq<StackItem>)
    requires stack != [] && Sync(rd, lines, stack).kind == Unchanged
    ensures !InlineOverBullets(rd, lines) && Sync(rd, lines, stack).lines == lines
  {
    hide SectionOf;
    RenderLength(rd, stack);
  }
}
