/** Which bytes of a job description an edit leaves alone. */
module JdBytes {
  import opened JdSection
  import opened JdText

  /** Where line n of the text starts; the end of the text for the line after the last. */
  function LineStart(text: string, n: nat): (p: nat)
    requires n <= |Split(text)|
    ensures p <= |text|
    decreases text
  {
    if n == 0 || text == "" then 0
    else if n < |Split(text[..|text| - 1])| then LineStart(text[..|text| - 1], n)
    else |text|
  }

  /** Where line n - 1 of the text ends, before its line ending. */
  function LineEnd(text: string, n: nat): (p: nat)
    requires n < |Split(text)|
    ensures p <= |text|
  {
    var start := LineStart(text, n);
    if n == 0 || start == 0 then 0 else if IsPair(text, start - 1) then start - 2 else start - 1
  }

  lemma SplitNext(text: string)
    requires text != ""
    ensures var before, c := Split(text[..|text| - 1]), text[|text| - 1];
      Split(text) ==
      if c == '\n' then before[..|before| - 1] + [Chomp(before[|before| - 1]), ""]
      else before[..|before| - 1] + [before[|before| - 1] + [c]]
  {
  }

  /** Before the start of a line stand the lines before it, and an empty one just begun. */
  lemma {:induction false} LinesBefore(text: string, n: nat)
    requires n < |Split(text)|
    ensures Split(text[..LineStart(text, n)]) == Split(text)[..n] + [""]
    decreases text
  {
    hide Split;
    if n == 0 {
      assert text[..0] == "" && Split(text)[..0] == [];
      SplitOfNothing();
    } else if text == "" {
      SplitOfNothing();
    } else {
      SplitNext(text);
      var before := text[..|text| - 1];
      if n < |Split(before)| {
        LinesBefore(before, n);
        assert before[..LineStart(before, n)] == text[..LineStart(text, n)];
        assert Split(before)[..n] == Split(text)[..n];
      } else {
        assert text[..|text|] == text;
        assert Split(text) == Split(text)[..n] + [Split(text)[n]];
      }
    }
  }

  lemma SplitOfNothing()
    ensures Split("") == [""]
  {
  }

  /** From the start of a line on stand that line and those after it. */
  lemma {:induction false} LinesAfter(text: string, n: nat)
    requires n < |Split(text)|
    ensures Split(text[LineStart(text, n)..]) == Split(text)[n..]
    decreases text
  {
    hide Split;
    if n == 0 || text == "" {
      SplitOfNothing();
      assert text[0..] == text;
    } else {
      SplitNext(text);
      var before := text[..|text| - 1];
      if n < |Split(before)| {
        LinesAfter(before, n);
        var rest := text[LineStart(text, n)..];
        assert rest[..|rest| - 1] == before[LineStart(before, n)..];
        SplitNext(rest);
      } else {
        SplitOfNothing();
        assert text[|text|..] == "";
      }
    }
  }

  lemma {:induction false} LineFollowsNewline(text: string, n: nat)
    requires 0 < n < |Split(text)|
    ensures LineStart(text, n) > 0 && text[LineStart(text, n) - 1] == '\n'
    decreases text
  {
    hide Split;
    if text == "" {
      SplitOfNothing();
    } else {
      SplitNext(text);
      if n < |Split(text[..|text| - 1])| { LineFollowsNewline(text[..|text| - 1], n); }
    }
  }

  /** Up to the end of a line stand that line and those before it. */
  lemma LinesUpTo(text: string, n: nat)
    requires 0 < n < |Split(text)|
    ensures Split(text[..LineEnd(text, n)]) == Split(text)[..n]
  {
    hide Split, LineStart, Chomp;
    LineFollowsNewline(text, n);
    LinesBefore(text, n);
    var start := LineStart(text, n);
    OpenedLines(text[..start], Split(text)[..n]);
    if IsPair(text, start - 1) {
      assert text[..start][..start - 2] == text[..start - 2];
    } else {
      assert text[..start][..start - 1] == text[..start - 1];
    }
  }

  /** A text that has just begun an empty line, without the ending before it. */
  lemma OpenedLines(text: string, lines: seq<Line>)
    requires text != "" && text[|text| - 1] == '\n' && Split(text) == lines + [""]
    ensures Split(text[..if IsPair(text, |text| - 1) then |text| - 2 else |text| - 1]) == lines
  {
    hide Split, Chomp;
    var u := text[..|text| - 1];
    assert text == u + "\n";
    SplitNewline(u);
    PairIsChomped(text);
    var read := Split(u);
    var all := Split(text);
    assert lines == all[..|all| - 1] == read[..|read| - 1] + [Chomp(read[|read| - 1])];
    if IsPair(text, |text| - 1) {
      var v := text[..|text| - 2];
      assert u == v + "\r";
      SplitAppend(v, "\r");
      ChompOfReturn(Split(v)[|Split(v)| - 1]);
    } else {
      ChompOfOther(read[|read| - 1]);
      assert read == read[..|read| - 1] + [read[|read| - 1]];
    }
  }

  lemma ChompOfOther(line: Line)
    requires line == "" || line[|line| - 1] != '\r'
    ensures Chomp(line) == line
  {
  }

  lemma ChompOfReturn(line: Line)
    ensures Chomp(line + "\r") == line
  {
  }

  // ----- joining in parts -----

  lemma {:induction false} JoinOfBoth(a: seq<Line>, b: seq<Line>, eol: string)
    requires b != []
    ensures Join(a + b, eol) == Join(a + [""], eol) + Join(b, eol)
    decreases b
  {
    hide Join;
    var n := |b| - 1;
    if n == 0 {
      assert b == [b[0]] && "" + b[0] == b[0];
      JoinLast(a, "", b[0], eol);
      JoinOfOne(b[0], eol);
    } else {
      assert b == b[..n] + [b[n]] && a + b == a + b[..n] + [b[n]];
      JoinOfBoth(a, b[..n], eol);
      JoinNext(a + b[..n], b[n], eol);
      JoinNext(b[..n], b[n], eol);
    }
  }

  lemma JoinOfOne(line: Line, eol: string)
    ensures Join([line], eol) == line && Join([], eol) == ""
  {
  }

  // ----- the edit in bytes -----

  /** Where the bytes before the edit end. */
  function KeptBefore(jd: string, e: Edit): (p: nat)
    requires e.Before() == Split(jd)
    ensures p <= |jd|
  {
    if e.tail != [] then LineStart(jd, |e.head|)
    else if e.cut == [] then |jd|
    else if e.put == [] then LineEnd(jd, |e.head|)
    else LineStart(jd, |e.head|)
  }

  /** Where the bytes after the edit begin. */
  function KeptAfter(jd: string, e: Edit): (q: nat)
    requires e.Before() == Split(jd)
    ensures q <= |jd|
  {
    if e.tail == [] then |jd| else LineStart(jd, |e.head| + |e.cut|)
  }

  /**
   * What the edit puts between them: its lines, each with the ending
   * that sets it off from what follows or precedes.
   */
  function NewText(e: Edit, eol: string): string {
    if e.tail != [] then Join(e.put + [""], eol)
    else (if e.cut == [] then eol else "") + Join(e.put, eol)
  }

  /** The edited text, read as the lines before, the new text and the lines after. */
  lemma EditedText(jd: string, e: Edit, eol: string)
    requires e.Before() == Split(jd) && (e.tail == [] && e.cut == [] ==> e.put != [])
    ensures Join(e.After(), eol) ==
            Join(Split(jd[..KeptBefore(jd, e)]), eol) + NewText(e, eol) + Join(Split(jd[KeptAfter(jd, e)..]), eol)
  {
    hide Split, Join, LineStart, LineEnd;
    var h := |e.head|;
    SplitOfNothing();
    JoinOfOne("", eol);
    assert jd[|jd|..] == "" && jd[..|jd|] == jd && jd[..0] == "";
    assert Split(jd)[..h] == e.head;
    if e.tail != [] {
      LinesBefore(jd, h);
      LinesAfter(jd, h + |e.cut|);
      assert Split(jd)[h + |e.cut|..] == e.tail;
      JoinOfBoth(e.head + e.put, e.tail, eol);
      JoinOfBoth(e.head, e.put + [""], eol);
      assert e.head + e.put + [""] == e.head + (e.put + [""]);
    } else if e.cut == [] {
      assert e.head == Split(jd) && e.After() == e.head + e.put;
      JoinOfBoth(e.head, e.put, eol);
      JoinNext(e.head, "", eol);
    } else if e.put == [] {
      assert e.After() == e.head;
      if h > 0 { LinesUpTo(jd, h); } else { NothingBefore(jd); }
    } else {
      LinesBefore(jd, h);
      assert e.After() == e.head + e.put;
      JoinOfBoth(e.head, e.put, eol);
    }
  }

  lemma NothingBefore(jd: string)
    ensures LineStart(jd, 0) == 0 && LineEnd(jd, 0) == 0
  {
  }

  /**
   * A stretch of the text comes through splitting and joining exactly if
   * it has no lone newline, or the text no pair.
   */
  lemma StretchComesThrough(jd: string, from: nat, to: nat)
    requires from <= to <= |jd|
    ensures var part := jd[from..to];
      && (Eol(jd) == "\n" ==> Join(Split(part), Eol(jd)) == part)
      && (Eol(jd) != "\n" ==> |Join(Split(part), Eol(jd))| == |part| + LoneNewlines(part))
      && (Eol(jd) != "\n" && LoneNewlines(part) == 0 ==> Join(Split(part), Eol(jd)) == part)
  {
    hide Split, Join, LoneNewlines, Pairs;
    var part := jd[from..to];
    JoinByPairs(part);
    JoinByNewlines(part);
    if Eol(jd) == "\n" {
      forall i | 0 <= i < |part| ensures !IsPair(part, i) { assert !IsPair(jd, from + i); }
      NoPairs(part);
    }
  }

  /** Whether the edited text is the bytes before the edit, the new text, and the bytes after it. */
  predicate OutsideComesThrough(jd: string, e: Edit, edited: string)
    requires e.Before() == Split(jd)
  {
    edited == jd[..KeptBefore(jd, e)] + NewText(e, Eol(jd)) + jd[KeptAfter(jd, e)..]
  }

  /** A newline outside the edit stands alone in a text that has a pair somewhere. */
  predicate MixedOutside(jd: string, e: Edit)
    requires e.Before() == Split(jd)
  {
    Pairs(jd) > 0 && LoneNewlines(jd[..KeptBefore(jd, e)]) + LoneNewlines(jd[KeptAfter(jd, e)..]) > 0
  }

  /** Everything outside the edit comes through byte for byte, exactly if no newline out there is of the other kind. */
  lemma BytesOutsideSurviveExactly(rd: Reader, jd: string, stack: seq<StackItem>) returns (e: Edit)
    ensures e.Before() == Split(jd) && Allowed(rd, Split(jd), stack, Sync(rd, Split(jd), stack).kind, e)
    ensures Sync(rd, Split(jd), stack).kind == Unchanged ==> SyncText(rd, jd, stack) == jd
    ensures Sync(rd, Split(jd), stack).kind != Unchanged ==>
              (OutsideComesThrough(jd, e, SyncText(rd, jd, stack)) <==> !MixedOutside(jd, e))
  {
    hide Sync, Split, Join, LoneNewlines, KeptBefore, KeptAfter, NewText, Eol, Allowed, Pairs;
    EolIs(jd);
    var kind, eol := Sync(rd, Split(jd), stack).kind, Eol(jd);
    e := OutsideSurvives(rd, Split(jd), stack);
    if kind != Unchanged {
      SomethingIsEdited(rd, Split(jd), stack, kind, e);
      EditedText(jd, e, eol);
      var p, q := KeptBefore(jd, e), KeptAfter(jd, e);
      StretchComesThrough(jd, 0, p);
      StretchComesThrough(jd, q, |jd|);
      assert jd[0..p] == jd[..p] && jd[q..|jd|] == jd[q..];
    }
  }

  lemma SomethingIsEdited(rd: Reader, lines: seq<Line>, stack: seq<StackItem>, kind: Kind, e: Edit)
    requires Allowed(rd, lines, stack, kind, e) && kind != Unchanged
    ensures e.cut == [] ==> e.put != []
  {
    RenderLength(rd, stack);
  }

  // ----- a text that does not come through -----

  /** The first newline stands alone and the second is half of a pair: appending the section rewrites the first. */
  lemma MixedEndingsExample()
    ensures var rd, jd, stack := PlainReader(), "A\nB\r\nC", [StackItem("Go", 1, true)];
      Sync(rd, Split(jd), stack).kind == Inserted && "A\r\n" <= SyncText(rd, jd, stack)
  {
    hide Split, Join, PlainReader, Stripped, ItemLine;
    PlainReads("A");
    PlainReads("B");
    PlainReads("C");
    var rd, jd, stack, lines := PlainReader(), "A\nB\r\nC", [StackItem("Go", 1, true)], ["A", "B", "C"];
    MixedSplit();
    assert IsPair(jd, 4);
    assert forall k: nat :: !OpensAt(rd, lines, k);
    assert LastText(rd, lines) == 3 && lines[..3] == lines;
    var after := lines + [""] + Render(rd, stack);
    assert Sync(rd, lines, stack).lines == after;
    assert after == ["A"] + after[1..];
    JoinOfBoth(["A"], after[1..], "\r\n");
    JoinOfOne("A", "\r\n");
    JoinNext(["A"], "", "\r\n");
    assert ["A"] + [""] == ["A", ""];
    assert "A" + "\r\n" + "" == "A\r\n";
  }

  lemma MixedSplit()
    ensures Split("A\nB\r\nC") == ["A", "B", "C"]
  {
    hide Split;
    SplitOfNothing();
    Appends("", [""], "A", ["A"], "A");
    SplitEol("A", "\n");
    assert "A" + "\n" == "A\n";
    Appends("A\n", ["A", ""], "B", ["A", "B"], "A\nB");
    SplitEol("A\nB", "\r\n");
    assert "A\nB" + "\r\n" == "A\nB\r\n";
    Appends("A\nB\r\n", ["A", "B", ""], "C", ["A", "B", "C"], "A\nB\r\nC");
  }

  lemma Appends(text: string, lines: seq<Line>, s: string, more: seq<Line>, longer: string)
    requires Split(text) == lines && lines[|lines| - 1] == "" && IsOneLine(s)
    requires more == lines[..|lines| - 1] + [s] && longer == text + s
    ensures Split(longer) == more
  {
    hide Split;
    SplitAppend(text, s);
    assert "" + s == s;
  }
}
