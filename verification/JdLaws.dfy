/** When a job description is edited, and what exactly comes of it, in terms of its lines. */
module JdLaws {
  import opened Numbers
  import opened JdSection

  /** A line that opens the section, as the reader sees it. */
  predicate Opening(rd: Reader, lines: seq<Line>, i: nat) {
    && i < |lines|
    && (|| rd.heading(lines[i]) in {WithColon, Inline}
        || (rd.heading(lines[i]) == Bare && i + 1 < |lines| && rd.isBullet(lines[i + 1])))
  }

  ghost predicate HasSection(rd: Reader, lines: seq<Line>) { exists i: nat :: Opening(rd, lines, i) }

  /** The section is the first line that opens one, and the unbroken bullets under it unless its list is inline. */
  lemma SectionIs(rd: Reader, lines: seq<Line>)
    ensures SectionOf(rd, lines).Some? <==> HasSection(rd, lines)
    ensures SectionOf(rd, lines).Some? ==>
              var s := SectionOf(rd, lines).value;
              && s.start < s.end <= |lines| && Opening(rd, lines, s.start)
              && (forall i: nat :: Opening(rd, lines, i) ==> s.start <= i)
              && (rd.heading(lines[s.start]) == Inline ==> s.end == s.start + 1)
              && (rd.heading(lines[s.start]) != Inline ==> s.end == |lines| || !rd.isBullet(lines[s.end]))
              && (forall i :: s.start < i < s.end ==> rd.isBullet(lines[i]))
  {
    hide SectionOf;
    forall i: nat ensures Opening(rd, lines, i) <==> OpensAt(rd, lines, i) {}
    if HasSection(rd, lines) {
      var i: nat :| Opening(rd, lines, i);
    }
    if SectionOf(rd, lines).Some? {
      var s := SectionOf(rd, lines).value;
      assert IsSection(rd, lines, s);
      assert !IsBulletAt(rd, lines, s.end) ==> s.end == |lines| || !rd.isBullet(lines[s.end]);
    }
  }

  /** The lines of the section read as the stack would be written, white space at their ends aside. */
  ghost predicate ShowsTheStack(rd: Reader, lines: seq<Line>, s: Section, stack: seq<StackItem>)
    requires s.start < s.end <= |lines|
  {
    && s.end - s.start == 1 + |stack| && rd.trim(lines[s.start]) == rd.trim(TITLE)
    && forall i :: 0 <= i < |stack| ==> rd.trim(lines[s.start + 1 + i]) == rd.trim(ItemLine(rd, stack[i]))
  }

  /** Each kind of edit is made exactly when it is called for. */
  lemma KindIs(rd: Reader, lines: seq<Line>, stack: seq<StackItem>)
    ensures var found, kind := SectionOf(rd, lines), Sync(rd, lines, stack).kind;
      && (kind == Inserted <==> found.None? && stack != [])
      && (kind == Removed <==> found.Some? && stack == [])
      && (kind == Replaced <==> found.Some? && stack != [] && !ShowsTheStack(rd, lines, found.value, stack))
      && (kind == Unchanged ==> Sync(rd, lines, stack).lines == lines)
  {
    hide SectionOf, ItemLine, IsSection;
    var found := SectionOf(rd, lines);
    if found.Some? {
      SectionFits(rd, lines, found.value);
      if stack != [] { SameIffShows(rd, lines, found.value, stack); }
    }
  }

  lemma SameIffShows(rd: Reader, lines: seq<Line>, s: Section, stack: seq<StackItem>)
    requires s.start < s.end <= |lines|
    ensures Same(rd, lines[s.start..s.end], Render(rd, stack)) <==> ShowsTheStack(rd, lines, s, stack)
  {
    var a, b := lines[s.start..s.end], Render(rd, stack);
    Rendered(rd, stack);
    assert forall i :: 0 <= i < |a| ==> a[i] == lines[s.start + i];
    hide Render, ItemLine;
    if Same(rd, a, b) {
      forall i | 0 <= i < |stack| ensures rd.trim(lines[s.start + 1 + i]) == rd.trim(ItemLine(rd, stack[i])) {
        ItemsMatch(rd, a, b, stack, i);
      }
    }
  }

  lemma ItemsMatch(rd: Reader, a: seq<Line>, b: seq<Line>, stack: seq<StackItem>, i: nat)
    requires Same(rd, a, b) && i < |stack| && |b| == 1 + |stack| && b[1 + i] == ItemLine(rd, stack[i])
    ensures |a| == 1 + |stack| && rd.trim(a[1 + i]) == rd.trim(ItemLine(rd, stack[i]))
  {
    hide ItemLine;
  }

  lemma Rendered(rd: Reader, stack: seq<StackItem>)
    ensures var b := Render(rd, stack);
      |b| == 1 + |stack| && b[0] == TITLE && forall k :: 0 < k < |b| ==> b[k] == ItemLine(rd, stack[k - 1])
  {
    hide ItemLine;
  }

  /** A new section stands one blank line below the last line with text, and ends the document. */
  lemma InsertedBelowTheText(rd: Reader, lines: seq<Line>, stack: seq<StackItem>)
    requires Sync(rd, lines, stack).kind == Inserted
    ensures exists n: nat :: InsertedAfter(rd, lines, stack, n)
  {
    hide SectionOf, ItemLine;
    var n := LastText(rd, lines);
    assert lines[..n] == [] <==> n == 0;
    assert InsertedAfter(rd, lines, stack, n) by {
      var r := Sync(rd, lines, stack).lines;
      assert r == (if n == 0 then [] else lines[..n] + [""]) + Render(rd, stack);
    }
  }

  ghost predicate InsertedAfter(rd: Reader, lines: seq<Line>, stack: seq<StackItem>, n: nat) {
    && n <= |lines| && (n > 0 ==> rd.trim(lines[n - 1]) != "")
    && (forall i :: n <= i < |lines| ==> rd.trim(lines[i]) == "")
    && Sync(rd, lines, stack).lines == (if n == 0 then [] else lines[..n] + [""]) + Render(rd, stack)
  }

  /** A removed section takes the blank line under it along exactly if another one stands above it. */
  lemma RemovedWithItsBlank(rd: Reader, lines: seq<Line>, stack: seq<StackItem>)
    requires Sync(rd, lines, stack).kind == Removed
    ensures SectionOf(rd, lines).Some?
    ensures var s := SectionOf(rd, lines).value;
      && s.start < s.end <= |lines|
      && var blanks := 0 < s.start && s.end < |lines| && rd.trim(lines[s.start - 1]) == "" == rd.trim(lines[s.end]);
         Sync(rd, lines, stack).lines == lines[..s.start] + lines[if blanks then s.end + 1 else s.end..]
  {
    hide SectionOf, IsSection;
    SectionFits(rd, lines, SectionOf(rd, lines).value);
  }

  // ----- the wording -----

  /** The section as it is written, on one stack: name, phrase and need of each technology, in the stack's order. */
  lemma WordingExample()
    ensures var stack := [StackItem("Go", 1, true), StackItem("Go", 2, false)];
      var lines := Sync(PlainReader(), [], stack).lines;
      && |lines| == 3 && lines[0] == "Tech stack"
      && lines[1] == "- Go: used (required)" && lines[2] == "- Go: used (nice to have)"
  {
    var rd, stack := PlainReader(), [StackItem("Go", 1, true), StackItem("Go", 2, false)];
    RequiredItem(stack[0]);
    OptionalItem(stack[1]);
    hide ItemLine, PlainReader;
    Rendered(rd, stack);
    WrittenAlone(rd, stack);
  }

  lemma RequiredItem(item: StackItem)
    requires item.name == "Go" && item.required
    ensures ItemLine(PlainReader(), item) == "- Go: used (required)"
  {
    Worded(item, "Go", " (required)");
    FirstWords();
    hide ItemLine, PlainReader;
    Required();
  }

  lemma OptionalItem(item: StackItem)
    requires item.name == "Go" && !item.required
    ensures ItemLine(PlainReader(), item) == "- Go: used (nice to have)"
  {
    Worded(item, "Go", " (nice to have)");
    FirstWords();
    hide ItemLine, PlainReader;
    NiceToHave();
  }

  lemma Worded(item: StackItem, name: string, need: string)
    requires item.name == name && need == (if item.required then " (required)" else " (nice to have)")
    ensures ItemLine(PlainReader(), item) == "- " + name + ": " + "used" + need
  {
  }

  lemma FirstWords()
    ensures "- " + "Go" + ": " + "used" == "- Go: used"
  {
  }

  lemma Required()
    ensures "- Go: used" + " (required)" == "- Go: used (required)"
  {
  }

  lemma NiceToHave()
    ensures "- Go: used" + " (nice to have)" == "- Go: used (nice to have)"
  {
  }

  /** An empty document becomes the section alone. */
  lemma WrittenAlone(rd: Reader, stack: seq<StackItem>)
    requires stack != []
    ensures Sync(rd, [], stack).lines == Render(rd, stack)
  {
    hide Render;
  }

  /** A bare heading over no bullet, or a sentence about the stack, is no section; with a colon it is one. */
  lemma HeadingsExample()
    ensures var rd := PlainReader();
      && SectionOf(rd, ["Tech stack", "We hire."]).None? && SectionOf(rd, ["Tech stack is modern", "- Go"]).None?
      && SectionOf(rd, ["Tech stack:", "We hire."]) == Some(Section(0, 1))
      && SectionOf(rd, ["Hello", "Tech stack", "- Go", "- Vue", "Bye", "- Rust"]) == Some(Section(1, 4))
      && SectionOf(rd, ["Tech stack: Go", "- Vue"]) == Some(Section(0, 1))
  {
    hide PlainReader, SectionOf, PlainHeading, IsSection;
    var rd := PlainReader();
    Readings();
    OtherReadings();
    OpensNowhere(rd, ["Tech stack", "We hire."]);
    OpensNowhere(rd, ["Tech stack is modern", "- Go"]);
    OnOneLine(rd, "Tech stack:", "We hire.");
    OnOneLine(rd, "Tech stack: Go", "- Vue");
    OverTwoBullets(rd, ["Hello", "Tech stack", "- Go", "- Vue", "Bye", "- Rust"]);
  }

  lemma OpensNowhere(rd: Reader, lines: seq<Line>)
    requires |lines| == 2 && rd.heading(lines[0]) in {NotHeading, Bare} && rd.heading(lines[1]) == NotHeading
    requires rd.heading(lines[0]) == Bare ==> !rd.isBullet(lines[1])
    ensures SectionOf(rd, lines).None?
  {
    hide SectionOf;
  }

  lemma OnOneLine(rd: Reader, first: Line, second: Line)
    requires rd.heading(first) == Inline || (rd.heading(first) == WithColon && !rd.isBullet(second))
    ensures SectionOf(rd, [first, second]) == Some(Section(0, 1))
  {
    hide SectionOf;
    SectionIsUnique(rd, [first, second], Section(0, 1));
  }

  lemma OverTwoBullets(rd: Reader, lines: seq<Line>)
    requires |lines| == 6 && rd.heading(lines[0]) == NotHeading && rd.heading(lines[1]) == Bare
    requires rd.isBullet(lines[2]) && rd.isBullet(lines[3]) && !rd.isBullet(lines[4])
    ensures SectionOf(rd, lines) == Some(Section(1, 4))
  {
    hide SectionOf;
    SectionIsUnique(rd, lines, Section(1, 4));
  }

  lemma Readings()
    ensures var rd := PlainReader();
      && rd.heading("Hello") == rd.heading("We hire.") == rd.heading("- Go") == NotHeading
      && !rd.isBullet("We hire.") && !rd.isBullet("Bye") && rd.isBullet("- Go") && rd.isBullet("- Vue")
  {
    hide PlainReader;
    PlainReads("Hello");
    PlainReads("We hire.");
    PlainReads("Bye");
    PlainReads("- Go");
    PlainReads("- Vue");
    assert "- " + "Go" == "- Go" && "- " + "Vue" == "- Vue" && TITLE[0] == 'T';
    assert "We hire."[0] == 'W' && "Bye"[0] == 'B' && "- "[0] == '-';
  }

  lemma OtherReadings()
    ensures var rd := PlainReader();
      && rd.heading("Tech stack") == Bare && rd.heading("Tech stack:") == WithColon
      && rd.heading("Tech stack: Go") == Inline && rd.heading("Tech stack is modern") == NotHeading
  {
    hide PlainReader;
    PlainReads("Tech stack");
    PlainReads("Tech stack:");
    PlainReads("Tech stack: Go");
    PlainReads("Tech stack is modern");
    assert TITLE + ":" == "Tech stack:" && (TITLE + ": ") + "Go" == "Tech stack: Go";
    var prose, opening := "Tech stack is modern", TITLE + ": ";
    assert prose[10] == ' ' && opening[10] == ':' && |"Tech stack: Go"| == 14;
  }
}
