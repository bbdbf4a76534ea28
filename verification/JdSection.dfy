/** Keeping the "Tech stack" section of a job description equal to the role's stack. */
module JdSection {
  import opened Numbers

  type Line = string

  /** How a line reads as the section's heading: bare, with a colon, or with its list on the same line. */
  datatype Heading = NotHeading | Bare | WithColon | Inline

  datatype StackItem = StackItem(name: string, level: nat, required: bool)

  /** The regular expressions and wording the editor is built from. */
  datatype Reader = Reader(
    heading: Line -> Heading,
    isBullet: Line -> bool,
    trim: Line -> Line,
    levelPhrase: nat -> string)

  const TITLE: Line := "Tech stack"

  function ItemLine(rd: Reader, item: StackItem): Line {
    "- " + item.name + ": " + rd.levelPhrase(item.level) + (if item.required then " (required)" else " (nice to have)")
  }

  function ItemLines(rd: Reader, stack: seq<StackItem>): (r: seq<Line>)
    ensures |r| == |stack|
    ensures forall i :: 0 <= i < |stack| ==> r[i] == ItemLine(rd, stack[i])
  {
    seq(|stack|, i requires 0 <= i < |stack| => ItemLine(rd, stack[i]))
  }

  function Render(rd: Reader, stack: seq<StackItem>): seq<Line> { [TITLE] + ItemLines(rd, stack) }

  predicate IsBlank(rd: Reader, line: Line) { rd.trim(line) == "" }

  /** What is true of the expressions: the rendered lines read as a heading and bullets, a blank line as neither. */
  ghost predicate Sound(rd: Reader) {
    && rd.heading(TITLE) == Bare && !rd.isBullet(TITLE)
    && (forall item :: rd.isBullet(ItemLine(rd, item)))
    && rd.trim("") == "" && rd.heading("") == NotHeading
    && (forall line :: IsBlank(rd, line) ==> !rd.isBullet(line))
  }

  // ----- finding the section -----

  datatype Section = Section(start: nat, end: nat)

  predicate IsBulletAt(rd: Reader, lines: seq<Line>, i: nat) { i < |lines| && rd.isBullet(lines[i]) }

  /** A heading with a colon, or a bare one over a bullet, opens the section. */
  predicate OpensAt(rd: Reader, lines: seq<Line>, i: nat) {
    && i < |lines|
    && match rd.heading(lines[i])
       case NotHeading => false
       case Bare => IsBulletAt(rd, lines, i + 1)
       case WithColon => true
       case Inline => true
  }

  /** The section: from the first line that opens one, over the bullets under it unless it is inline. */
  ghost predicate IsSection(rd: Reader, lines: seq<Line>, s: Section) {
    && s.start < s.end <= |lines| && OpensAt(rd, lines, s.start)
    && (forall i: nat :: i < s.start ==> !OpensAt(rd, lines, i))
    && (rd.heading(lines[s.start]) == Inline ==> s.end == s.start + 1)
    && (rd.heading(lines[s.start]) != Inline ==> !IsBulletAt(rd, lines, s.end))
    && (forall i :: s.start < i < s.end ==> rd.isBullet(lines[i]))
  }

  function BulletsEnd(rd: Reader, lines: seq<Line>, i: nat): (r: nat)
    requires i <= |lines|
    ensures i <= r <= |lines| && !IsBulletAt(rd, lines, r)
    ensures forall k :: i <= k < r ==> rd.isBullet(lines[k])
    decreases |lines| - i
  {
    if IsBulletAt(rd, lines, i) then BulletsEnd(rd, lines, i + 1) else i
  }

  function SectionFrom(rd: Reader, lines: seq<Line>, i: nat): (r: Option<Section>)
    requires i <= |lines|
    requires forall k: nat :: k < i ==> !OpensAt(rd, lines, k)
    ensures r.Some? ==> IsSection(rd, lines, r.value)
    ensures r.None? ==> forall k: nat :: !OpensAt(rd, lines, k)
    decreases |lines| - i
  {
    if i == |lines| then None
    else if OpensAt(rd, lines, i) then
      Some(Section(i, if rd.heading(lines[i]) == Inline then i + 1 else BulletsEnd(rd, lines, i + 1)))
    else SectionFrom(rd, lines, i + 1)
  }

  function SectionOf(rd: Reader, lines: seq<Line>): (r: Option<Section>)
    ensures r.Some? ==> IsSection(rd, lines, r.value)
    ensures r.None? ==> forall k: nat :: !OpensAt(rd, lines, k)
  {
    SectionFrom(rd, lines, 0)
  }

  /** There is at most one section to find, so the search can only give that one. */
  lemma SectionIsUnique(rd: Reader, lines: seq<Line>, s: Section)
    requires IsSection(rd, lines, s)
    ensures SectionOf(rd, lines) == Some(s)
  {
    var t := SectionOf(rd, lines).value;
    NotShorter(rd, lines, s, t);
    NotShorter(rd, lines, t, s);
  }

  lemma NotShorter(rd: Reader, lines: seq<Line>, s: Section, t: Section)
    requires IsSection(rd, lines, s) && IsSection(rd, lines, t)
    ensures s.start == t.start && s.end <= t.end
  {
  }

  method FindTechStackSection(rd: Reader, lines: seq<Line>) returns (r: Option<Section>)
    ensures r == SectionOf(rd, lines)
  {
    for i := 0 to |lines|
      invariant forall k: nat :: k < i ==> !OpensAt(rd, lines, k)
    {
      hide SectionOf;
      var heading := rd.heading(lines[i]);
      if heading != NotHeading {
        if heading == Inline {
          SectionIsUnique(rd, lines, Section(i, i + 1));
          return Some(Section(i, i + 1));
        }
        if heading == WithColon || IsBulletAt(rd, lines, i + 1) {
          var end := i + 1;
          while end < |lines| && rd.isBullet(lines[end])
            invariant i < end <= |lines|
            invariant forall k :: i < k < end ==> rd.isBullet(lines[k])
          {
            end := end + 1;
          }
          SectionIsUnique(rd, lines, Section(i, end));
          return Some(Section(i, end));
        }
      }
    }
    return None;
  }

  // ----- rewriting it -----

  datatype Kind = Unchanged | Inserted | Replaced | Removed

  datatype Synced = Synced(lines: seq<Line>, kind: Kind)

  predicate Same(rd: Reader, a: seq<Line>, b: seq<Line>) {
    |a| == |b| && forall i :: 0 <= i < |a| ==> rd.trim(a[i]) == rd.trim(b[i])
  }

  /** The number of lines up to the last one that is not blank. */
  function LastText(rd: Reader, lines: seq<Line>): (n: nat)
    ensures n <= |lines|
    ensures forall i :: n <= i < |lines| ==> IsBlank(rd, lines[i])
    ensures n > 0 ==> !IsBlank(rd, lines[n - 1])
  {
    if lines == [] then 0
    else if IsBlank(rd, lines[|lines| - 1]) then LastText(rd, lines[..|lines| - 1])
    else |lines|
  }

  /** Whether removing lines s would make two blank lines meet. */
  predicate BlanksMeet(rd: Reader, lines: seq<Line>, s: Section)
    requires s.start <= s.end <= |lines|
  {
    s.end < |lines| && IsBlank(rd, lines[s.end]) && s.start > 0 && IsBlank(rd, lines[s.start - 1])
  }

  function Sync(rd: Reader, lines: seq<Line>, stack: seq<StackItem>): Synced {
    match SectionOf(rd, lines)
    case None =>
      if stack == [] then Synced(lines, Unchanged)
      else
        var kept := lines[..LastText(rd, lines)];
        Synced(kept + (if kept == [] then [] else [""]) + Render(rd, stack), Inserted)
    case Some(s) =>
      if stack == [] then
        Synced(lines[..s.start] + lines[if BlanksMeet(rd, lines, s) then s.end + 1 else s.end..], Removed)
      else if Same(rd, lines[s.start..s.end], Render(rd, stack)) then Synced(lines, Unchanged)
      else Synced(lines[..s.start] + Render(rd, stack) + lines[s.end..], Replaced)
  }

  lemma LastTextBefore(rd: Reader, lines: seq<Line>, last: nat)
    requires last <= |lines|
    ensures last > 0 && IsBlank(rd, lines[last - 1]) ==> LastText(rd, lines[..last]) == LastText(rd, lines[..last - 1])
    ensures last == 0 || !IsBlank(rd, lines[last - 1]) ==> LastText(rd, lines[..last]) == last
    ensures lines[..|lines|] == lines
  {
    if last > 0 { assert lines[..last][..last - 1] == lines[..last - 1]; }
  }

  method SyncJdTechStack(rd: Reader, lines: seq<Line>, stack: seq<StackItem>) returns (r: Synced)
    ensures r == Sync(rd, lines, stack)
  {
    hide SectionOf, Render, IsSection, LastText, Sync, Same;
    var section := FindTechStackSection(rd, lines);
    var after := if stack == [] then [] else Render(rd, stack);
    if section.None? {
      SyncInserts(rd, lines, stack);
      if stack == [] { return Synced(lines, Unchanged); }
      var last := |lines|;
      while last > 0 && IsBlank(rd, lines[last - 1])
        invariant 0 <= last <= |lines|
        invariant LastText(rd, lines[..last]) == LastText(rd, lines)
      {
        LastTextBefore(rd, lines, last);
        last := last - 1;
      }
      LastTextBefore(rd, lines, last);
      var kept := lines[..last];
      return Synced(kept + (if kept == [] then [] else [""]) + after, Inserted);
    }
    var s := section.value;
    SyncEdits(rd, lines, stack, s);
    if Same(rd, lines[s.start..s.end], after) { return Synced(lines, Unchanged); }
    var head, tail := lines[..s.start], lines[s.end..];
    if after == [] && tail != [] && IsBlank(rd, tail[0]) && head != [] && IsBlank(rd, head[|head| - 1]) {
      tail := tail[1..];
    }
    return Synced(head + after + tail, if after == [] then Removed else Replaced);
  }

  lemma SyncInserts(rd: Reader, lines: seq<Line>, stack: seq<StackItem>)
    requires SectionOf(rd, lines).None?
    ensures var kept := lines[..LastText(rd, lines)];
      Sync(rd, lines, stack) ==
      if stack == [] then Synced(lines, Unchanged)
          else Synced(kept + (if kept == [] then [] else [""]) + Render(rd, stack), Inserted)
  {
    hide SectionOf, Render, LastText;
  }

  lemma SyncEdits(rd: Reader, lines: seq<Line>, stack: seq<StackItem>, s: Section)
    requires SectionOf(rd, lines) == Some(s)
    ensures s.start < s.end <= |lines|
    ensures var after, tail := if stack == [] then [] else Render(rd, stack), lines[s.end..];
      && (after == [] <==> stack == [])
      && Sync(rd, lines, stack) ==
         if Same(rd, lines[s.start..s.end], after) then Synced(lines, Unchanged)
         else if stack == [] then
           Synced(lines[..s.start] + after + (if BlanksMeet(rd, lines, s) then tail[1..] else tail), Removed)
         else Synced(lines[..s.start] + after + tail, Replaced)
  {
    hide SectionOf, Render;
    RenderLength(rd, stack);
    if BlanksMeet(rd, lines, s) { assert lines[s.end..][1..] == lines[s.end + 1..]; }
  }

  // ----- what an edit leaves alone -----

  /** An edit as one stretch of lines, cut, making way for another, put. */
  datatype Edit = Edit(head: seq<Line>, cut: seq<Line>, put: seq<Line>, tail: seq<Line>) {
    function Before(): seq<Line> { head + cut + tail }
    function After(): seq<Line> { head + put + tail }
  }

  /**
   * What an edit of each kind may take out and put in: nothing; blank lines at the end for the new section; the
   * section for the new one; or the section, with one blank line after it at most, for nothing.
   */
  ghost predicate Allowed(rd: Reader, lines: seq<Line>, stack: seq<StackItem>, kind: Kind, e: Edit) {
    var from, to := |e.head|, |e.head| + |e.cut|;
    match kind
    case Unchanged => e.cut == e.put == []
    case Inserted =>
      && (forall i :: 0 <= i < |e.cut| ==> IsBlank(rd, e.cut[i]))
      && e.put == (if e.head == [] then [] else [""]) + Render(rd, stack) && e.tail == []
    case Replaced => IsSection(rd, lines, Section(from, to)) && e.put == Render(rd, stack)
    case Removed =>
      && e.put == []
      && (|| IsSection(rd, lines, Section(from, to))
          || (e.cut != [] && IsSection(rd, lines, Section(from, to - 1)) && IsBlank(rd, e.cut[|e.cut| - 1])))
  }

  /** Every line outside the stretch an edit may touch comes through, in order. */
  lemma OutsideSurvives(rd: Reader, lines: seq<Line>, stack: seq<StackItem>) returns (e: Edit)
    ensures e.Before() == lines && e.After() == Sync(rd, lines, stack).lines
    ensures Allowed(rd, lines, stack, Sync(rd, lines, stack).kind, e)
  {
    hide SectionOf, LastText, Render, IsSection, Same, Allowed, BlanksMeet;
    var section, r := SectionOf(rd, lines), Sync(rd, lines, stack);
    match r.kind
    case Unchanged =>
      e := Edit([], [], [], lines);
      NothingIsAllowed(rd, lines, stack, e);
    case Inserted => e := InsertionSurvives(rd, lines, stack);
    case Replaced => e := ReplacementSurvives(rd, lines, stack, section.value);
    case Removed => e := RemovalSurvives(rd, lines, stack, section.value);
  }

  lemma NothingIsAllowed(rd: Reader, lines: seq<Line>, stack: seq<StackItem>, e: Edit)
    requires e == Edit([], [], [], lines)
    ensures Allowed(rd, lines, stack, Unchanged, e) && e.Before() == lines && e.After() == lines
  {
  }

  lemma InsertionSurvives(rd: Reader, lines: seq<Line>, stack: seq<StackItem>) returns (e: Edit)
    ensures e.Before() == lines && Allowed(rd, lines, stack, Inserted, e)
    ensures var kept := lines[..LastText(rd, lines)];
      e.After() == kept + (if kept == [] then [] else [""]) + Render(rd, stack)
  {
    hide LastText, Render;
    var n := LastText(rd, lines);
    e := Edit(lines[..n], lines[n..], (if lines[..n] == [] then [] else [""]) + Render(rd, stack), []);
  }

  lemma ReplacementSurvives(rd: Reader, lines: seq<Line>, stack: seq<StackItem>, s: Section) returns (e: Edit)
    requires IsSection(rd, lines, s)
    ensures s.start < s.end <= |lines|
    ensures e.Before() == lines && Allowed(rd, lines, stack, Replaced, e)
    ensures e.After() == lines[..s.start] + Render(rd, stack) + lines[s.end..]
  {
    hide IsSection, Render;
    SectionFits(rd, lines, s);
    e := Edit(lines[..s.start], lines[s.start..s.end], Render(rd, stack), lines[s.end..]);
  }

  lemma SectionFits(rd: Reader, lines: seq<Line>, s: Section)
    requires IsSection(rd, lines, s)
    ensures s.start < s.end <= |lines|
  {
  }

  lemma RemovalSurvives(rd: Reader, lines: seq<Line>, stack: seq<StackItem>, s: Section) returns (e: Edit)
    requires IsSection(rd, lines, s)
    ensures s.start < s.end <= |lines|
    ensures e.Before() == lines && Allowed(rd, lines, stack, Removed, e)
    ensures e.After() == lines[..s.start] + lines[if BlanksMeet(rd, lines, s) then s.end + 1 else s.end..]
  {
    hide IsSection, Render;
    SectionFits(rd, lines, s);
    var end := if BlanksMeet(rd, lines, s) then s.end + 1 else s.end;
    e := Edit(lines[..s.start], lines[s.start..end], [], lines[end..]);
  }

  // ----- syncing twice -----

  /** The section the editor has written, with the bullets that happen to follow it. */
  lemma WrittenSection(rd: Reader, head: seq<Line>, stack: seq<StackItem>, tail: seq<Line>)
    requires Sound(rd) && stack != []
    requires forall i: nat :: i < |head| ==> !OpensAt(rd, head + Render(rd, stack) + tail, i)
    ensures IsSection(rd, head + Render(rd, stack) + tail,
                      Section(|head|, |head| + 1 + |stack| + BulletsEnd(rd, tail, 0)))
  {
    hide BulletsEnd;
    var lines, body, n := head + Render(rd, stack) + tail, Render(rd, stack), BulletsEnd(rd, tail, 0);
    assert lines[|head|] == TITLE;
    assert lines[|head| + 1] == body[1];
    var end := |head| + |body| + n;
    forall i | |head| < i < end ensures rd.isBullet(lines[i]) {
      if i < |head| + |body| {
        assert lines[i] == body[i - |head|] == ItemLine(rd, stack[i - |head| - 1]);
      } else {
        assert lines[i] == tail[i - |head| - |body|];
      }
    }
    if end < |lines| { assert lines[end] == tail[n]; }
  }

  /** Nothing before the place the section is written to opens a section. */
  lemma HeadStaysQuiet(rd: Reader, lines: seq<Line>, head: seq<Line>, rest: seq<Line>, i: nat)
    requires i < |head| <= |lines| && head == lines[..|head|] && !OpensAt(rd, lines, i)
    requires !IsBulletAt(rd, rest, 0)
    ensures !OpensAt(rd, head + rest, i)
  {
    assert (head + rest)[i] == lines[i];
    if i + 1 < |head| {
      assert (head + rest)[i + 1] == lines[i + 1];
    } else if rest != [] {
      assert (head + rest)[i + 1] == rest[0];
    }
  }

  /** An inline section with bullets right under it: they are not part of what gets replaced. */
  predicate InlineOverBullets(rd: Reader, lines: seq<Line>) {
    var s := SectionOf(rd, lines);
    s.Some? && rd.heading(lines[s.value.start]) == Inline && IsBulletAt(rd, lines, s.value.end)
  }

  lemma UnchangedIfSame(rd: Reader, lines: seq<Line>, stack: seq<StackItem>, s: Section)
    requires stack != [] && IsSection(rd, lines, s) && lines[s.start..s.end] == Render(rd, stack)
    ensures Sync(rd, lines, stack) == Synced(lines, Unchanged)
  {
    hide IsSection;
    SectionIsUnique(rd, lines, s);
  }

  lemma InsertedOnce(rd: Reader, lines: seq<Line>, stack: seq<StackItem>)
    requires Sound(rd) && stack != [] && SectionOf(rd, lines).None?
    ensures var r := Sync(rd, lines, stack); Sync(rd, r.lines, stack) == Synced(r.lines, Unchanged)
  {
    hide SectionOf, LastText, Render, OpensAt, IsSection;
    var kept := lines[..LastText(rd, lines)];
    var head := kept + if kept == [] then [] else [""];
    var after := Sync(rd, lines, stack).lines;
    assert after == head + Render(rd, stack) + [];
    forall i: nat | i < |head| ensures !OpensAt(rd, after, i) {
      if i < |kept| {
        BlankIsNoBullet(rd, stack);
        assert after == kept + ([""] + Render(rd, stack));
        HeadStaysQuiet(rd, lines, kept, [""] + Render(rd, stack), i);
      } else {
        BlankOpensNothing(rd, after, i);
      }
    }
    WrittenSection(rd, head, stack, []);
    assert after[|head|..|head| + 1 + |stack|] == Render(rd, stack) by { RenderLength(rd, stack); }
    UnchangedIfSame(rd, after, stack, Section(|head|, |head| + 1 + |stack|));
  }

  lemma RenderLength(rd: Reader, stack: seq<StackItem>)
    ensures |Render(rd, stack)| == 1 + |stack| && Render(rd, stack)[0] == TITLE
  {
  }

  lemma BlankIsNoBullet(rd: Reader, stack: seq<StackItem>)
    requires Sound(rd)
    ensures !IsBulletAt(rd, [""] + Render(rd, stack), 0)
  {
    assert IsBlank(rd, "");
  }

  lemma BlankOpensNothing(rd: Reader, lines: seq<Line>, i: nat)
    requires Sound(rd) && i < |lines| && lines[i] == ""
    ensures !OpensAt(rd, lines, i)
  {
  }

  /** The document after a replacement, and where its section sits. */
  lemma ReplacedHead(rd: Reader, lines: seq<Line>, stack: seq<StackItem>, s: Section, i: nat)
    requires Sound(rd) && IsSection(rd, lines, s) && i < s.start
    ensures !OpensAt(rd, lines[..s.start] + Render(rd, stack) + lines[s.end..], i)
  {
    hide Render;
    RenderLength(rd, stack);
    var rest := Render(rd, stack) + lines[s.end..];
    assert lines[..s.start] + Render(rd, stack) + lines[s.end..] == lines[..s.start] + rest;
    assert rest[0] == TITLE;
    HeadStaysQuiet(rd, lines, lines[..s.start], rest, i);
  }

  lemma ReplacedOnce(rd: Reader, lines: seq<Line>, stack: seq<StackItem>)
    requires Sound(rd) && stack != [] && SectionOf(rd, lines).Some? && !InlineOverBullets(rd, lines)
    ensures var r := Sync(rd, lines, stack); Sync(rd, r.lines, stack) == Synced(r.lines, Unchanged)
  {
    hide SectionOf, Render, OpensAt;
    var s := SectionOf(rd, lines).value;
    var r := Sync(rd, lines, stack);
    if r.kind == Replaced {
      var head, tail := lines[..s.start], lines[s.end..];
      forall i: nat | i < |head| ensures !OpensAt(rd, r.lines, i) {
        ReplacedHead(rd, lines, stack, s, i);
      }
      WrittenSection(rd, head, stack, tail);
      assert !IsBulletAt(rd, tail, 0);
      RenderLength(rd, stack);
      assert r.lines[|head|..|head| + 1 + |stack|] == Render(rd, stack);
      UnchangedIfSame(rd, r.lines, stack, Section(|head|, |head| + 1 + |stack|));
    }
  }

  /** After a section inline over bullets, the bullets left behind join the section and the next sync takes them out. */
  lemma InlineIsReplacedAgain(rd: Reader, lines: seq<Line>, stack: seq<StackItem>)
    requires Sound(rd) && stack != [] && InlineOverBullets(rd, lines)
    ensures var r := Sync(rd, lines, stack);
      var again := Sync(rd, r.lines, stack);
      && again.kind == Replaced && |again.lines| < |r.lines|
      && !InlineOverBullets(rd, r.lines) && SectionOf(rd, r.lines).Some?
  {
    hide SectionOf, Render, OpensAt;
    RenderLength(rd, stack);
    var s := SectionOf(rd, lines).value;
    var r := Sync(rd, lines, stack);
    assert r.kind == Replaced;
    var head, tail := lines[..s.start], lines[s.end..];
    forall i: nat | i < |head| ensures !OpensAt(rd, r.lines, i) {
      ReplacedHead(rd, lines, stack, s, i);
    }
    var t := Section(|head|, |head| + 1 + |stack| + BulletsEnd(rd, tail, 0));
    assert r.lines == head + Render(rd, stack) + tail;
    WrittenSection(rd, head, stack, tail);
    SectionIsUnique(rd, r.lines, t);
    assert r.lines[t.start] == TITLE;
    assert tail[0] == lines[s.end];
  }

  /** Syncing again changes nothing, exactly if the section replaced was not inline over bullets. */
  lemma SyncingTwice(rd: Reader, lines: seq<Line>, stack: seq<StackItem>)
    requires Sound(rd) && stack != []
    ensures var r := Sync(rd, lines, stack);
      Sync(rd, r.lines, stack) == Synced(r.lines, Unchanged) <==> !InlineOverBullets(rd, lines)
  {
    hide SectionOf, Render, OpensAt, IsSection, Sync;
    if InlineOverBullets(rd, lines) {
      InlineIsReplacedAgain(rd, lines, stack);
    } else if SectionOf(rd, lines).Some? {
      ReplacedOnce(rd, lines, stack);
    } else {
      InsertedOnce(rd, lines, stack);
    }
  }

  /** Two syncs always settle the document. */
  lemma SyncingSettles(rd: Reader, lines: seq<Line>, stack: seq<StackItem>)
    requires Sound(rd) && stack != []
    ensures var twice := Sync(rd, Sync(rd, lines, stack).lines, stack);
      Sync(rd, twice.lines, stack) == Synced(twice.lines, Unchanged)
  {
    hide SectionOf, Render, OpensAt, IsSection, Sync;
    SyncingTwice(rd, lines, stack);
    if InlineOverBullets(rd, lines) {
      InlineIsReplacedAgain(rd, lines, stack);
      ReplacedOnce(rd, Sync(rd, lines, stack).lines, stack);
    }
  }

  /** Once a sync changes nothing, the section reads as the stack, white space at the ends of lines aside. */
  lemma SettledShowsTheStack(rd: Reader, lines: seq<Line>, stack: seq<StackItem>)
    requires stack != [] && Sync(rd, lines, stack).kind == Unchanged
    ensures var s := SectionOf(rd, lines); s.Some? && Same(rd, lines[s.value.start..s.value.end], Render(rd, stack))
  {
  }

  /** After a sync the section reads as the stack, unless bullets were left under an inline one. */
  lemma SyncedShowsTheStack(rd: Reader, lines: seq<Line>, stack: seq<StackItem>)
    requires Sound(rd) && stack != [] && !InlineOverBullets(rd, lines)
    ensures var after := Sync(rd, lines, stack).lines;
      var s := SectionOf(rd, after);
      s.Some? && Same(rd, after[s.value.start..s.value.end], Render(rd, stack))
  {
    hide SectionOf, Render, Sync, Sound, InlineOverBullets, Same;
    SyncingTwice(rd, lines, stack);
    SettledShowsTheStack(rd, Sync(rd, lines, stack).lines, stack);
  }

  // ----- a reader, and a text that does not settle at once -----

  function PlainHeading(line: Line): Heading {
    if line == TITLE then Bare
    else if line == TITLE + ":" then WithColon
    else if TITLE + ": " < line then Inline
    else NotHeading
  }

  /** The line without the carriage returns at its end. */
  function Stripped(line: Line): Line {
    if line != "" && line[|line| - 1] == '\r' then Stripped(line[..|line| - 1]) else line
  }

  /** The plainest reader: one spelling of the heading, one kind of bullet, one kind of white space. */
  function PlainReader(): Reader {
    Reader((line: Line) => PlainHeading(Stripped(line)), (line: Line) => "- " < Stripped(line), Stripped,
        (level: nat) => "used")
  }

  lemma PlainReaderIsSound()
    ensures Sound(PlainReader())
  {
    var rd := PlainReader();
    assert Stripped(TITLE) == TITLE && Stripped("") == "";
    assert rd.heading(TITLE) == PlainHeading(TITLE) && rd.heading("") == PlainHeading("");
    assert TITLE[0] != "- "[0];
    forall item ensures rd.isBullet(ItemLine(rd, item)) {
      PlainItemIsBullet(item);
    }
  }

  lemma PlainItemIsBullet(item: StackItem)
    ensures PlainReader().isBullet(ItemLine(PlainReader(), item))
  {
    hide ItemLine, Stripped;
    var line := ItemLine(PlainReader(), item);
    ItemStartsWithDash(PlainReader(), item);
    ItemEndsInBracket(PlainReader(), item);
    NothingToStrip(line);
  }

  lemma ItemStartsWithDash(rd: Reader, item: StackItem)
    ensures "- " < ItemLine(rd, item)
  {
    var rest := item.name + ": " + rd.levelPhrase(item.level)
      + (if item.required then " (required)" else " (nice to have)");
    assert ItemLine(rd, item) == "- " + rest;
    hide ItemLine;
  }

  lemma ItemEndsInBracket(rd: Reader, item: StackItem)
    ensures var line := ItemLine(rd, item); line != "" && line[|line| - 1] == ')'
  {
    var front := "- " + item.name + ": " + rd.levelPhrase(item.level);
    var end := if item.required then " (required)" else " (nice to have)";
    assert ItemLine(rd, item) == front + end;
    hide ItemLine;
    assert end != "" && end[|end| - 1] == ')';
  }

  lemma NothingToStrip(line: Line)
    requires line != "" && line[|line| - 1] != '\r'
    ensures Stripped(line) == line
  {
  }

  lemma PlainReads(line: Line)
    requires line != "" && line[|line| - 1] != '\r'
    ensures var rd := PlainReader();
      rd.heading(line) == PlainHeading(line) && (rd.isBullet(line) <==> "- " < line) && rd.trim(line) == line
  {
  }

  /** An inline section over a bullet: the second sync takes the bullet out. */
  lemma InlineOverBulletsExample()
    ensures var rd, lines, stack := PlainReader(), ["Tech stack: React", "- Node"], [StackItem("Go", 1, true)];
      var once := Sync(rd, lines, stack).lines;
      && Sound(rd) && InlineOverBullets(rd, lines)
      && once == [TITLE, ItemLine(rd, stack[0]), "- Node"] && Sync(rd, once, stack).lines != once
  {
    hide PlainReader, ItemLine, SectionOf, Sound;
    var rd, lines, stack := PlainReader(), ["Tech stack: React", "- Node"], [StackItem("Go", 1, true)];
    PlainReaderIsSound();
    PlainReads(lines[0]);
    PlainReads(lines[1]);
    assert (TITLE + ": ") + "React" == lines[0] && "- " + "Node" == lines[1];
    assert PlainHeading(lines[0]) == Inline;
    SectionIsUnique(rd, lines, Section(0, 1));
    InlineIsReplacedAgain(rd, lines, stack);
  }
}
