/** Finding the JSON value in a reply that may have prose, fences and stray brackets around it. */
module Peers {
  import opened Numbers
  import opened Json
  import W = Words

  // ----- the bracket scanner -----

  datatype Scan = Scan(depth: int, inString: bool, escaped: bool)

  function Closing(open: char): char { if open == '{' then '}' else ']' }

  predicate IsOpening(c: char) { c == '{' || c == '[' }

  function Next(s: Scan, c: char, open: char): Scan {
    if s.inString then
      if s.escaped then s.(escaped := false)
      else if c == '\\' then s.(escaped := true)
      else if c == '"' then s.(inString := false)
      else s
    else if c == '"' then s.(inString := true)
    else if c == open then s.(depth := s.depth + 1)
    else if c == Closing(open) then s.(depth := s.depth - 1)
    else s
  }

  function Run(s: Scan, text: string, open: char): Scan
    decreases text
  {
    if text == "" then s else Run(Next(s, text[0], open), text[1..], open)
  }

  /** The character brings the scan back to depth 0, outside any string. */
  predicate Closes(s: Scan, c: char, open: char) {
    !s.inString && c == Closing(open) && c != open && s.depth == 1
  }

  /** No character of the text closes the scan. */
  predicate Quiet(s: Scan, text: string, open: char)
    decreases text
  {
    text == "" || (!Closes(s, text[0], open) && Quiet(Next(s, text[0], open), text[1..], open))
  }

  const START := Scan(0, false, false)

  /** Where the bracket at `start` is closed: the first place the scan returns to depth 0. */
  ghost predicate ClosedAt(text: string, start: nat, end: nat) {
    && start <= end < |text|
    && Quiet(START, text[start..end], text[start])
    && Closes(Run(START, text[start..end], text[start]), text[end], text[start])
  }

  method MatchingClose(text: string, start: nat) returns (end: Option<nat>)
    requires start < |text| && IsOpening(text[start])
    ensures end.Some? ==> ClosedAt(text, start, end.value)
    ensures end.None? ==> forall e: nat :: !ClosedAt(text, start, e)
  {
    var open := text[start];
    var close := if open == '{' then '}' else ']';
    var depth, inString, escaped := 0, false, false;
    for i := start to |text|
      invariant Run(START, text[start..i], open) == Scan(depth, inString, escaped)
      invariant Quiet(START, text[start..i], open)
    {
      hide Run, Quiet;
      var c := text[i];
      ghost var before := Scan(depth, inString, escaped);
      ScanNext(text, start, i, open);
      if inString {
        if escaped { escaped := false; }
        else if c == '\\' { escaped := true; }
        else if c == '"' { inString := false; }
      } else if c == '"' {
        inString := true;
      } else if c == open {
        depth := depth + 1;
      } else if c == close {
        depth := depth - 1;
        if depth == 0 { return Some(i); }
      }
      assert Scan(depth, inString, escaped) == Next(before, c, open);
    }
    assert text[start..|text|] == text[start..];
    forall e: nat ensures !ClosedAt(text, start, e) {
      if start <= e < |text| { QuietAll(text, start, e, open); }
    }
    return None;
  }

  lemma {:induction false} RunOfBoth(s: Scan, a: string, b: string, open: char)
    ensures Run(s, a + b, open) == Run(Run(s, a, open), b, open)
    ensures Quiet(s, a + b, open) <==> Quiet(s, a, open) && Quiet(Run(s, a, open), b, open)
    decreases a
  {
    if a == "" {
      assert a + b == b;
    } else {
      RunOfBoth(Next(s, a[0], open), a[1..], b, open);
      assert (a + b)[1..] == a[1..] + b;
    }
  }

  lemma RunOfOne(s: Scan, c: char, open: char)
    ensures Run(s, [c], open) == Next(s, c, open)
    ensures Quiet(s, [c], open) <==> !Closes(s, c, open)
  {
    assert [c][1..] == "";
  }

  lemma ScanNext(text: string, start: nat, i: nat, open: char)
    requires start <= i < |text|
    ensures var before := Run(START, text[start..i], open);
      && Run(START, text[start..i + 1], open) == Next(before, text[i], open)
      && (Quiet(START, text[start..i + 1], open) <==>
          Quiet(START, text[start..i], open) && !Closes(before, text[i], open))
  {
    assert text[start..i + 1] == text[start..i] + [text[i]];
    RunOfBoth(START, text[start..i], [text[i]], open);
    RunOfOne(Run(START, text[start..i], open), text[i], open);
  }

  lemma QuietAll(text: string, start: nat, e: nat, open: char)
    requires start <= e < |text| && Quiet(START, text[start..], open)
    ensures !Closes(Run(START, text[start..e], open), text[e], open)
  {
    assert text[start..] == text[start..e + 1] + text[e + 1..];
    RunOfBoth(START, text[start..e + 1], text[e + 1..], open);
    ScanNext(text, start, e, open);
  }

  /** A bracket is closed in one place at most. */
  lemma ClosedOnce(text: string, start: nat, e: nat, f: nat)
    requires ClosedAt(text, start, e) && ClosedAt(text, start, f)
    ensures e == f
  {
    NotClosedEarlier(text, start, e, f);
    NotClosedEarlier(text, start, f, e);
  }

  lemma NotClosedEarlier(text: string, start: nat, e: nat, f: nat)
    requires ClosedAt(text, start, e) && ClosedAt(text, start, f)
    ensures e >= f
  {
    if e < f {
      ScanNext(text, start, e, text[start]);
      assert text[start..f] == text[start..e + 1] + text[e + 1..f];
      RunOfBoth(START, text[start..e + 1], text[e + 1..f], text[start]);
    }
  }

  // ----- texts the scanner passes over -----

  /** The text is read from depth d back to depth d without closing anything. */
  predicate Passes(d: int, text: string, open: char) {
    Quiet(Scan(d, false, false), text, open) && Run(Scan(d, false, false), text, open) == Scan(d, false, false)
  }

  lemma PassesBoth(d: int, a: string, b: string, open: char)
    requires Passes(d, a, open) && Passes(d, b, open)
    ensures Passes(d, a + b, open)
  {
    hide Run, Quiet;
    RunOfBoth(Scan(d, false, false), a, b, open);
  }

  /** The characters the scanner reacts to outside strings. */
  predicate IsPlain(text: string, open: char) {
    forall c :: c in text ==> c != '"' && c != open && c != Closing(open)
  }

  lemma PlainPasses(d: int, text: string, open: char)
    requires IsPlain(text, open)
    ensures Passes(d, text, open)
  {
    forall i | 0 <= i < |text| ensures text[i] != '"' && text[i] != open && text[i] != Closing(open) {
      assert text[i] in text;
    }
    EachPasses(d, text, open);
  }

  lemma {:induction false} EachPasses(d: int, text: string, open: char)
    requires forall i :: 0 <= i < |text| ==> text[i] != '"' && text[i] != open && text[i] != Closing(open)
    ensures Passes(d, text, open)
    decreases text
  {
    if text != "" { EachPasses(d, text[1..], open); }
  }

  /** Inside a string, whole pieces are passed over whatever they hold. */
  lemma {:induction false} PiecesPass(d: int, pieces: seq<Piece>, open: char)
    requires ValidString(pieces)
    ensures var s := Scan(d, true, false); Quiet(s, PiecesText(pieces), open) && Run(s, PiecesText(pieces), open) == s
  {
    var s := Scan(d, true, false);
    if pieces != [] {
      hide Run, Quiet;
      assert pieces[0] in pieces;
      PiecePasses(d, pieces[0], open);
      PiecesPass(d, pieces[1..], open);
      RunOfBoth(s, PieceText(pieces[0]), PiecesText(pieces[1..]), open);
    }
  }

  lemma PiecePasses(d: int, p: Piece, open: char)
    requires ValidPiece(p)
    ensures var s := Scan(d, true, false); Quiet(s, PieceText(p), open) && Run(s, PieceText(p), open) == s
  {
    var s := Scan(d, true, false);
    match p {
      case Plain(c) => RunOfOne(s, c, open);
      case Escape(c) => EscapePasses(d, c, open);
      case Unicode(hex) => UnicodePasses(d, hex, open);
    }
  }

  lemma UnicodePasses(d: int, hex: string, open: char)
    requires ValidPiece(Piece.Unicode(hex))
    ensures var s := Scan(d, true, false); Quiet(s, "\\u" + hex, open) && Run(s, "\\u" + hex, open) == s
  {
    hide Run, Quiet;
    var s := Scan(d, true, false);
    EscapePasses(d, 'u', open);
    forall i | 0 <= i < |hex| ensures hex[i] != '"' && hex[i] != '\\' {
      assert hex[i] in hex;
    }
    HexPasses(d, hex, open);
    assert "\\u" == ['\\', 'u'];
    RunOfBoth(s, "\\u", hex, open);
  }

  lemma EscapePasses(d: int, c: char, open: char)
    ensures var s := Scan(d, true, false); Quiet(s, ['\\', c], open) && Run(s, ['\\', c], open) == s
  {
    var s := Scan(d, true, false);
    RunOfOne(s, '\\', open);
    RunOfOne(s.(escaped := true), c, open);
    assert ['\\', c] == ['\\'] + [c];
    RunOfBoth(s, ['\\'], [c], open);
  }

  lemma {:induction false} HexPasses(d: int, hex: string, open: char)
    requires forall i :: 0 <= i < |hex| ==> hex[i] != '"' && hex[i] != '\\'
    ensures var s := Scan(d, true, false); Quiet(s, hex, open) && Run(s, hex, open) == s
    decreases hex
  {
    if hex != "" {
      HexPasses(d, hex[1..], open);
    }
  }

  lemma StringPasses(d: int, pieces: seq<Piece>, open: char)
    requires ValidString(pieces) && IsOpening(open)
    ensures Passes(d, StringText(pieces), open)
  {
    hide Run, Quiet;
    var outside, inside := Scan(d, false, false), Scan(d, true, false);
    PiecesPass(d, pieces, open);
    RunOfOne(outside, '"', open);
    RunOfOne(inside, '"', open);
    RunOfBoth(outside, "\"", PiecesText(pieces), open);
    RunOfBoth(outside, "\"" + PiecesText(pieces), "\"", open);
  }

  /** A bracketed text passes if what is inside does, one level deeper. */
  lemma BracketsPass(d: int, inner: string, bracket: char, open: char)
    requires d >= 1 && IsOpening(bracket) && IsOpening(open)
    requires Passes(d, inner, open) && Passes(d + 1, inner, open)
    ensures Passes(d, [bracket] + inner + [Closing(bracket)], open)
  {
    hide Run, Quiet;
    var deep := if bracket == open then d + 1 else d;
    RunOfOne(Scan(d, false, false), bracket, open);
    RunOfOne(Scan(deep, false, false), Closing(bracket), open);
    RunOfBoth(Scan(d, false, false), [bracket], inner, open);
    RunOfBoth(Scan(d, false, false), [bracket] + inner, [Closing(bracket)], open);
  }

  lemma BlanksPass(d: int, text: string, open: char)
    requires Only(text, BLANKS) && IsOpening(open)
    ensures Passes(d, text, open)
  {
    PlainPasses(d, text, open);
  }

  lemma DigitsPass(d: int, text: string, open: char)
    requires ValidDigits(text) && IsOpening(open)
    ensures Passes(d, text, open)
  {
    hide Passes;
    PlainPasses(d, text, open);
  }

  lemma FractionPasses(d: int, n: Numeral, open: char)
    requires ValidNumeral(n) && IsOpening(open)
    ensures Passes(d, FractionText(n), open)
  {
    hide Passes;
    if n.fraction.Some? {
      DigitsPass(d, n.fraction.value, open);
      PlainPasses(d, ".", open);
      PassesBoth(d, ".", n.fraction.value, open);
    } else {
      PlainPasses(d, "", open);
    }
  }

  lemma ExponentPasses(d: int, n: Numeral, open: char)
    requires ValidNumeral(n) && IsOpening(open)
    ensures Passes(d, ExponentText(n), open)
  {
    hide Passes;
    if n.exponent.Some? {
      var e := n.exponent.value;
      PlainPasses(d, [e.letter], open);
      PlainPasses(d, e.sign, open);
      DigitsPass(d, e.digits, open);
      PassesBoth(d, [e.letter], e.sign, open);
      PassesBoth(d, [e.letter] + e.sign, e.digits, open);
    } else {
      PlainPasses(d, "", open);
    }
  }

  lemma NumeralPasses(d: int, n: Numeral, open: char)
    requires ValidNumeral(n) && IsOpening(open)
    ensures Passes(d, NumeralText(n), open)
  {
    hide Passes, FractionText, ExponentText;
    PlainPasses(d, SignText(n), open);
    DigitsPass(d, n.whole, open);
    FractionPasses(d, n, open);
    ExponentPasses(d, n, open);
    PassesBoth(d, SignText(n), n.whole, open);
    PassesBoth(d, FractionText(n), ExponentText(n), open);
    PassesBoth(d, SignText(n) + n.whole, FractionText(n) + ExponentText(n), open);
  }

  /** Every value of the grammar passes at every depth of at least one, whichever bracket is being matched. */
  lemma {:induction false} ValuePasses(d: int, v: Value, open: char)
    requires d >= 1 && Valid(v) && IsOpening(open)
    ensures Passes(d, Text(v), open)
    decreases v
  {
    hide Passes;
    match v
    case Literal(name) => PlainPasses(d, name, open);
    case Number(n) => NumeralPasses(d, n, open);
    case Str(pieces) => StringPasses(d, pieces, open);
    case Array(blank, items) =>
      ArrayInside(d, blank, items, open);
      ArrayInside(d + 1, blank, items, open);
      BracketsPass(d, blank + ItemsText(items), '[', open);
    case Object(blank, members) =>
      ObjectInside(d, blank, members, open);
      ObjectInside(d + 1, blank, members, open);
      BracketsPass(d, blank + MembersText(members), '{', open);
  }

  lemma ArrayInside(d: int, blank: string, items: Items, open: char)
    requires d >= 1 && Only(blank, BLANKS) && ValidItems(items) && IsOpening(open)
    ensures Passes(d, blank + ItemsText(items), open)
    decreases items, 1
  {
    hide Passes;
    BlanksPass(d, blank, open);
    ItemsPass(d, items, open);
    PassesBoth(d, blank, ItemsText(items), open);
  }

  lemma ObjectInside(d: int, blank: string, members: Members, open: char)
    requires d >= 1 && Only(blank, BLANKS) && ValidMembers(members) && IsOpening(open)
    ensures Passes(d, blank + MembersText(members), open)
    decreases members, 1
  {
    hide Passes;
    BlanksPass(d, blank, open);
    MembersPass(d, members, open);
    PassesBoth(d, blank, MembersText(members), open);
  }

  lemma {:induction false} ItemsPass(d: int, items: Items, open: char)
    requires d >= 1 && ValidItems(items) && IsOpening(open)
    ensures Passes(d, ItemsText(items), open)
    decreases items, 0
  {
    hide Passes;
    match items
    case NoItems => PlainPasses(d, "", open);
    case Item(before, v, after, rest) =>
      BlanksPass(d, before, open);
      ValuePasses(d, v, open);
      BlanksPass(d, after, open);
      PassesBoth(d, before, Text(v), open);
      PassesBoth(d, before + Text(v), after, open);
      PlainPasses(d, if rest.NoItems? then "" else ",", open);
      if rest.NoItems? {
        PassesBoth(d, before + Text(v) + after, "", open);
      } else {
        ItemsPass(d, rest, open);
        PassesBoth(d, ",", ItemsText(rest), open);
        PassesBoth(d, before + Text(v) + after, "," + ItemsText(rest), open);
      }
  }

  lemma {:induction false} MembersPass(d: int, members: Members, open: char)
    requires d >= 1 && ValidMembers(members) && IsOpening(open)
    ensures Passes(d, MembersText(members), open)
    decreases members, 0
  {
    hide Passes;
    match members
    case NoMembers => PlainPasses(d, "", open);
    case Member(before, name, beforeColon, afterColon, v, after, rest) =>
      var head := before + StringText(name) + (beforeColon + ":" + afterColon) + Text(v) + after;
      MemberPasses(d, before, name, beforeColon, afterColon, open);
      ValuePasses(d, v, open);
      BlanksPass(d, after, open);
      PassesBoth(d, before + StringText(name) + (beforeColon + ":" + afterColon), Text(v), open);
      PassesBoth(d, before + StringText(name) + (beforeColon + ":" + afterColon) + Text(v), after, open);
      PlainPasses(d, if rest.NoMembers? then "" else ",", open);
      if rest.NoMembers? {
        PassesBoth(d, head, "", open);
      } else {
        MembersPass(d, rest, open);
        PassesBoth(d, ",", MembersText(rest), open);
        PassesBoth(d, head, "," + MembersText(rest), open);
      }
  }

  lemma MemberPasses(d: int, before: string, name: seq<Piece>, beforeColon: string, afterColon: string, open: char)
    requires Only(before, BLANKS) && ValidString(name) && Only(beforeColon, BLANKS) && Only(afterColon, BLANKS)
    requires IsOpening(open)
    ensures Passes(d, before + StringText(name) + (beforeColon + ":" + afterColon), open)
  {
    BlanksPass(d, before, open);
    StringPasses(d, name, open);
    PassesBoth(d, before, StringText(name), open);
    PlainPasses(d, beforeColon + ":" + afterColon, open);
    PassesBoth(d, before + StringText(name), beforeColon + ":" + afterColon, open);
  }

  function Opening(v: Value): char
    requires IsContainer(v)
  {
    if v.Object? then '{' else '['
  }

  /** What stands between the brackets. */
  function Inner(v: Value): string
    requires IsContainer(v)
  {
    if v.Object? then v.blank + MembersText(v.members) else v.blank + ItemsText(v.items)
  }

  /** An array or object closes at its own last character: whatever precedes and follows it. */
  lemma ContainerClosesAtItsEnd(before: string, v: Value, after: string)
    requires Valid(v) && IsContainer(v)
    ensures ClosedAt(before + Text(v) + after, |before|, |before| + |Text(v)| - 1)
  {
    var open, text := Opening(v), before + Text(v) + after;
    assert Text(v) == [open] + Inner(v) + [Closing(open)];
    assert text[|before|] == open;
    assert text[|before|..|before| + |Text(v)| - 1] == [open] + Inner(v);
    OpensAndStaysOpen(v);
  }

  lemma OpensAndStaysOpen(v: Value)
    requires Valid(v) && IsContainer(v)
    ensures Quiet(START, [Opening(v)] + Inner(v), Opening(v))
    ensures Run(START, [Opening(v)] + Inner(v), Opening(v)) == Scan(1, false, false)
  {
    hide Run, Quiet;
    var open := Opening(v);
    if v.Object? {
      ObjectInside(1, v.blank, v.members, open);
    } else {
      ArrayInside(1, v.blank, v.items, open);
    }
    RunOfOne(START, open, open);
    RunOfBoth(START, [open], Inner(v), open);
  }

  /** Between the two brackets of a match the depth never returns to zero; at the second it does. */
  lemma MatchIsBalanced(text: string, start: nat, end: nat, i: nat)
    requires start < |text| && IsOpening(text[start]) && ClosedAt(text, start, end) && start < i <= end
    ensures Run(START, text[start..i], text[start]).depth > 0
    ensures Run(START, text[start..end + 1], text[start]) == START
    decreases i
  {
    hide Run, Quiet;
    var open := text[start];
    ScanNext(text, start, end, open);
    QuietPrefix(text, start, i, end, open);
    if i == start + 1 {
      assert text[start..i] == [open];
      RunOfOne(START, open, open);
    } else {
      MatchIsBalanced(text, start, end, i - 1);
      ScanNext(text, start, i - 1, open);
    }
    StringsEnd(text, start, end, open);
  }

  lemma QuietPrefix(text: string, start: nat, i: nat, end: nat, open: char)
    requires start <= i <= end <= |text| && Quiet(START, text[start..end], open)
    ensures Quiet(START, text[start..i], open)
  {
    assert text[start..end] == text[start..i] + text[i..end];
    RunOfBoth(START, text[start..i], text[i..end], open);
  }

  lemma StringsEnd(text: string, start: nat, end: nat, open: char)
    requires start <= end <= |text|
    ensures Run(START, text[start..end], open).escaped ==> Run(START, text[start..end], open).inString
  {
    hide Run, Quiet;
    if start == end {
      assert text[start..end] == "";
      EmptyRun(START, open);
    } else {
      StringsEnd(text, start, end - 1, open);
      ScanNext(text, start, end - 1, open);
    }
  }

  lemma EmptyRun(s: Scan, open: char)
    ensures Run(s, "", open) == s
  {
  }

  // ----- the first value that parses -----

  type Parser<!V> = string -> Option<V>

  /** A value starts at i: a bracket, closed at e, and the text between parses to it. */
  ghost predicate ValueAt<V>(text: string, parse: Parser<V>, i: nat, e: nat, value: V) {
    i < |text| && IsOpening(text[i]) && ClosedAt(text, i, e) && parse(text[i..e + 1]) == Some(value)
  }

  /** No value starts before position n. */
  ghost predicate NoValueBefore<V(!new)>(text: string, parse: Parser<V>, n: nat) {
    forall i: nat, e: nat, value: V :: i < n ==> !ValueAt(text, parse, i, e, value)
  }

  /** The value of the text: the one that starts first. */
  ghost predicate IsFirstValue<V(!new)>(text: string, parse: Parser<V>, value: V) {
    exists i: nat, e: nat :: ValueAt(text, parse, i, e, value) && NoValueBefore(text, parse, i)
  }

  method FirstBalancedValue<V(!new)>(text: string, parse: Parser<V>) returns (r: Option<V>)
    ensures r.Some? ==> IsFirstValue(text, parse, r.value)
    ensures r.None? ==> NoValueBefore(text, parse, |text|)
  {
    for i := 0 to |text|
      invariant NoValueBefore(text, parse, i)
    {
      hide ClosedAt;
      var c := text[i];
      if c == '{' || c == '[' {
        var end := MatchingClose(text, i);
        if end.Some? {
          ClosedOnlyThere(text, i, end.value);
          ClosedInside(text, i, end.value);
          r := parse(text[i..end.value + 1]);
          if r.Some? {
            assert ValueAt(text, parse, i, end.value, r.value);
            return;
          }
        }
      }
    }
    return None;
  }

  lemma ClosedInside(text: string, start: nat, end: nat)
    requires ClosedAt(text, start, end)
    ensures start <= end < |text|
  {
  }

  lemma ClosedOnlyThere(text: string, start: nat, end: nat)
    requires ClosedAt(text, start, end)
    ensures forall e: nat :: ClosedAt(text, start, e) ==> e == end
  {
    forall e: nat | ClosedAt(text, start, e) ensures e == end { ClosedOnce(text, start, e, end); }
  }

  lemma FirstValueIsUnique<V(!new)>(text: string, parse: Parser<V>, v: V, w: V)
    requires IsFirstValue(text, parse, v) && IsFirstValue(text, parse, w)
    ensures v == w
  {
    hide ClosedAt;
    var i: nat, e: nat :| ValueAt(text, parse, i, e, v) && NoValueBefore(text, parse, i);
    var j: nat, f: nat :| ValueAt(text, parse, j, f, w) && NoValueBefore(text, parse, j);
    assert i == j;
    ClosedOnce(text, i, e, f);
  }

  /** A value after a preamble without brackets is the first one, whatever follows it. */
  lemma ValueIsFirst<V(!new)>(preamble: string, v: Value, after: string, parse: Parser<V>)
    requires Valid(v) && IsContainer(v) && parse(Text(v)).Some?
    requires forall c :: c in preamble ==> !IsOpening(c)
    ensures IsFirstValue(preamble + Text(v) + after, parse, parse(Text(v)).value)
  {
    hide ClosedAt;
    var text, i, e := preamble + Text(v) + after, |preamble|, |preamble| + |Text(v)| - 1;
    ContainerClosesAtItsEnd(preamble, v, after);
    assert text[i..e + 1] == Text(v);
    assert text[i] == Text(v)[0];
    assert ValueAt(text, parse, i, e, parse(Text(v)).value);
    forall k: nat | k < i ensures !IsOpening(text[k]) {
      assert text[k] == preamble[k];
    }
  }

  // ----- fenced blocks -----

  const FENCE := "```"

  predicate FenceAt(text: string, i: nat) { i + 3 <= |text| && text[i..i + 3] == FENCE }

  /** The first fence at or after `from`. */
  function FindFence(text: string, from: nat): (r: Option<nat>)
    ensures r.Some? ==> from <= r.value && FenceAt(text, r.value)
    ensures r.Some? ==> forall k: nat :: from <= k < r.value ==> !FenceAt(text, k)
    ensures r.None? ==> forall k: nat :: from <= k ==> !FenceAt(text, k)
    decreases |text| - from
  {
    if from >= |text| then None
    else if FenceAt(text, from) then Some(from)
    else FindFence(text, from + 1)
  }

  predicate IsLetter(c: char) { 'a' <= c <= 'z' || 'A' <= c <= 'Z' }

  /** The first position at or after `from` whose character is not of the kind. */
  function Skip(text: string, from: nat, kind: char -> bool): (r: nat)
    requires from <= |text|
    ensures from <= r <= |text|
    ensures forall k :: from <= k < r ==> kind(text[k])
    ensures r < |text| ==> !kind(text[r])
    decreases |text| - from
  {
    if from < |text| && kind(text[from]) then Skip(text, from + 1, kind) else from
  }

  /** Where the body of a block opened at i begins: after a language name and white space. */
  function BodyStart(text: string, i: nat): (r: nat)
    requires i + 3 <= |text|
    ensures i + 3 <= r <= |text|
  {
    Skip(text, Skip(text, i + 3, IsLetter), W.IsSpace)
  }

  /** The bodies of the fenced blocks from position `from` on. */
  function Blocks(text: string, from: nat): seq<string>
    decreases |text| - from
  {
    var open := FindFence(text, from);
    if open.None? then []
    else
      var start := BodyStart(text, open.value);
      var close := FindFence(text, start);
      if close.None? then [] else [text[start..close.value]] + Blocks(text, close.value + 3)
  }

  lemma BlocksFrom(text: string, from: nat)
    ensures var open := FindFence(text, from);
      if open.None? then Blocks(text, from) == []
      else
        var start := BodyStart(text, open.value);
        var close := FindFence(text, start);
        Blocks(text, from) == if close.None? then [] else [text[start..close.value]] + Blocks(text, close.value + 3)
  {
  }

  lemma FenceFits(text: string, i: nat)
    requires FenceAt(text, i)
    ensures i + 3 <= |text|
  {
  }

  method FencedBlocks(text: string) returns (blocks: seq<string>)
    ensures blocks == Blocks(text, 0)
  {
    hide Blocks, FindFence, BodyStart, FenceAt;
    blocks := [];
    var from := 0;
    while true
      invariant blocks + Blocks(text, from) == Blocks(text, 0)
      decreases |text| - from
    {
      BlocksFrom(text, from);
      var open := FindFence(text, from);
      if open.None? { return; }
      FenceFits(text, open.value);
      var start := BodyStart(text, open.value);
      var close := FindFence(text, start);
      if close.None? { return; }
      FenceFits(text, close.value);
      assert blocks + Blocks(text, from) == (blocks + [text[start..close.value]]) + Blocks(text, close.value + 3);
      blocks, from := blocks + [text[start..close.value]], close.value + 3;
    }
  }

  // ----- the whole extraction -----

  /** The reply's value: that of the first fenced block holding one, or of the whole text when none does. */
  ghost predicate Extracts<V(!new)>(text: string, parse: Parser<V>, r: Option<V>) {
    var blocks := Blocks(text, 0);
    if exists k :: IsFirstBlockWithValue(blocks, parse, k) then
      r.Some? && exists k :: IsFirstBlockWithValue(blocks, parse, k) && IsFirstValue(blocks[k], parse, r.value)
    else if r.Some? then IsFirstValue(text, parse, r.value)
    else NoValueBefore(text, parse, |text|)
  }

  ghost predicate IsFirstBlockWithValue<V(!new)>(blocks: seq<string>, parse: Parser<V>, k: int) {
    && 0 <= k < |blocks| && !NoValueBefore(blocks[k], parse, |blocks[k]|)
    && forall j :: 0 <= j < k ==> NoValueBefore(blocks[j], parse, |blocks[j]|)
  }

  /** The first n blocks hold no value. */
  ghost predicate NoBlockBefore<V(!new)>(blocks: seq<string>, parse: Parser<V>, n: nat)
    requires n <= |blocks|
  {
    forall j :: 0 <= j < n ==> NoValueBefore(blocks[j], parse, |blocks[j]|)
  }

  method ExtractJson<V(!new)>(raw: string, stripAnsi: string -> string, parse: Parser<V>) returns (r: Option<V>)
    ensures raw == "" ==> r == None
    ensures raw != "" ==> Extracts(stripAnsi(raw), parse, r)
  {
    hide NoBlockBefore, NoValueBefore, IsFirstValue, Blocks, Extracts;
    if raw == "" { return None; }
    var text := stripAnsi(raw);
    var blocks := FencedBlocks(text);
    NoBlockYet(blocks, parse);
    for k := 0 to |blocks|
      invariant NoBlockBefore(blocks, parse, k)
    {
      r := FirstBalancedValue(blocks[k], parse);
      if r.Some? {
        BlockGives(text, parse, k, r);
        return;
      }
      NotThisBlock(blocks, parse, k);
    }
    r := FirstBalancedValue(text, parse);
    TextGives(text, parse, r);
  }

  lemma NoBlockYet<V(!new)>(blocks: seq<string>, parse: Parser<V>)
    ensures NoBlockBefore(blocks, parse, 0)
  {
  }

  lemma NotThisBlock<V(!new)>(blocks: seq<string>, parse: Parser<V>, k: nat)
    requires k < |blocks| && NoBlockBefore(blocks, parse, k) && NoValueBefore(blocks[k], parse, |blocks[k]|)
    ensures NoBlockBefore(blocks, parse, k + 1)
  {
    hide NoValueBefore;
  }

  lemma BlockGives<V(!new)>(text: string, parse: Parser<V>, k: nat, r: Option<V>)
    requires k < |Blocks(text, 0)| && NoBlockBefore(Blocks(text, 0), parse, k)
    requires r.Some? && IsFirstValue(Blocks(text, 0)[k], parse, r.value)
    ensures Extracts(text, parse, r)
  {
    hide NoValueBefore, IsFirstValue, Blocks;
    HasValue(Blocks(text, 0)[k], parse, r.value);
    assert IsFirstBlockWithValue(Blocks(text, 0), parse, k);
  }

  lemma TextGives<V(!new)>(text: string, parse: Parser<V>, r: Option<V>)
    requires NoBlockBefore(Blocks(text, 0), parse, |Blocks(text, 0)|)
    requires if r.Some? then IsFirstValue(text, parse, r.value) else NoValueBefore(text, parse, |text|)
    ensures Extracts(text, parse, r)
  {
    hide NoValueBefore, IsFirstValue, Blocks;
  }

  lemma HasValue<V(!new)>(text: string, parse: Parser<V>, value: V)
    requires IsFirstValue(text, parse, value)
    ensures !NoValueBefore(text, parse, |text|)
  {
    hide ClosedAt;
    var i: nat, e: nat :| ValueAt(text, parse, i, e, value) && NoValueBefore(text, parse, i);
  }

  /** A reply without a fence is read as a whole. */
  lemma NoFenceNoBlocks(text: string)
    requires forall i: nat :: !FenceAt(text, i)
    ensures Blocks(text, 0) == []
  {
  }

  /** A fence-free reply whose preamble has no bracket gives back its value, whatever follows. */
  lemma PlainReplyIsRecovered<V(!new)>(preamble: string, v: Value, after: string, parse: Parser<V>, r: Option<V>)
    requires Valid(v) && IsContainer(v) && parse(Text(v)).Some?
    requires forall c :: c in preamble ==> !IsOpening(c)
    requires forall i: nat :: !FenceAt(preamble + Text(v) + after, i)
    requires Extracts(preamble + Text(v) + after, parse, r)
    ensures r == parse(Text(v))
  {
    hide Blocks, NoValueBefore, IsFirstValue, FenceAt;
    var text, value := preamble + Text(v) + after, parse(Text(v)).value;
    NoFenceNoBlocks(text);
    ValueIsFirst(preamble, v, after, parse);
    HasValue(text, parse, value);
    if r.Some? { FirstValueIsUnique(text, parse, r.value, value); }
  }

  // ----- fenced replies -----

  /** Text that neither holds a fence nor ends in a backtick, so that a fence after it starts right there. */
  predicate KeepsFencesApart(text: string) {
    (forall i: nat :: i < |text| ==> !FenceAt(text, i)) && (text != "" ==> text[|text| - 1] != '`')
  }

  lemma NextFence(before: string, text: string, rest: string)
    requires KeepsFencesApart(text)
    ensures FindFence(before + text + FENCE + rest, |before|) == Some(|before + text|)
  {
    var all, from, at := before + text + FENCE + rest, |before|, |before + text|;
    assert all[at..at + 3] == FENCE;
    forall k: nat | from <= k < at ensures !FenceAt(all, k) {
      if k + 3 <= at {
        assert all[k..k + 3] == text[k - from..k - from + 3];
        assert !FenceAt(text, k - from);
      } else {
        assert all[k..k + 3][at - 1 - k] == all[at - 1] == text[|text| - 1];
        assert FENCE[at - 1 - k] == '`';
      }
    }
    assert FenceAt(all, at);
    var r := FindFence(all, from);
    assert r.Some? && !(r.value < at);
  }

  /** The body of a block starts right after its language name and white space. */
  lemma BodyStartsAt(before: string, language: string, space: string, body: string)
    requires forall i :: 0 <= i < |language| ==> IsLetter(language[i])
    requires forall i :: 0 <= i < |space| ==> W.IsSpace(space[i])
    requires body != "" && !IsLetter(body[0]) && !W.IsSpace(body[0])
    ensures BodyStart(before + FENCE + language + space + body, |before|) == |before + FENCE + language + space|
  {
    var text := before + FENCE + language + space + body;
    SkipTo(text, |before| + 3, |before + FENCE + language|, IsLetter);
    SkipTo(text, |before + FENCE + language|, |before + FENCE + language + space|, W.IsSpace);
  }

  lemma SkipTo(text: string, from: nat, to: nat, kind: char -> bool)
    requires from <= to < |text| && (forall k :: from <= k < to ==> kind(text[k])) && !kind(text[to])
    ensures Skip(text, from, kind) == to
  {
  }

  /** Cut at its first fence, a text leaves a front that keeps fences apart. */
  lemma UpToFence(text: string, i: nat) returns (front: string, rest: string)
    requires FenceAt(text, i)
    ensures text == front + FENCE + rest && KeepsFencesApart(front)
  {
    hide FindFence;
    var first := FindFence(text, 0).value;
    front, rest := text[..first], text[first + 3..];
    assert text[first..first + 3] == FENCE;
    assert text == text[..first] + text[first..first + 3] + text[first + 3..];
    NoFenceBefore(text, first);
  }

  lemma NoFenceBefore(text: string, first: nat)
    requires FenceAt(text, first) && forall k: nat :: k < first ==> !FenceAt(text, k)
    ensures KeepsFencesApart(text[..first])
  {
    var front := text[..first];
    forall k: nat | k < |front| ensures !FenceAt(front, k) {
      assert !FenceAt(text, k);
      if k + 3 <= |front| { assert text[k..k + 3] == front[k..k + 3]; }
    }
    if front != "" && front[|front| - 1] == '`' { FenceComesSooner(text, first - 1); }
  }

  lemma FenceComesSooner(text: string, i: nat)
    requires FenceAt(text, i + 1) && text[i] == '`'
    ensures FenceAt(text, i)
  {
    var fence := text[i + 1..i + 4];
    assert fence[0] == text[i + 1] && fence[1] == text[i + 2];
    assert text[i..i + 3] == [text[i], text[i + 1], text[i + 2]];
  }

  lemma FencesStayApart(a: string, b: string)
    requires KeepsFencesApart(a) && KeepsFencesApart(b)
    ensures KeepsFencesApart(a + b)
  {
    var text, n := a + b, |a|;
    forall k: nat | k < |text| ensures !FenceAt(text, k) {
      if k + 3 <= n {
        assert text[k..k + 3] == a[k..k + 3] && !FenceAt(a, k);
      } else if k >= n {
        if k + 3 <= |text| { assert text[k..k + 3] == b[k - n..k - n + 3]; }
        assert !FenceAt(b, k - n);
      } else if k + 3 <= |text| {
        assert text[k..k + 3][n - 1 - k] == a[n - 1] && FENCE[n - 1 - k] == '`';
      }
    }
  }

  lemma NoBackticks(text: string)
    requires forall i :: 0 <= i < |text| ==> text[i] != '`'
    ensures KeepsFencesApart(text)
  {
    forall k: nat | k < |text| ensures !FenceAt(text, k) {
      if k + 3 <= |text| { assert text[k..k + 3][0] == text[k]; }
    }
  }

  /** The text of the value holds no fence, in none of its strings. */
  predicate HoldsNoFence(v: Value) { forall k: nat :: k < |Text(v)| ==> !FenceAt(Text(v), k) }

  lemma ValueKeepsFencesApart(v: Value)
    requires IsContainer(v) && HoldsNoFence(v)
    ensures KeepsFencesApart(Text(v))
  {
    assert Text(v)[|Text(v)| - 1] == Closing(Opening(v));
  }

  /**
   * A fenced value that holds no fence itself wins over anything in the preamble and is given back exactly, whatever
   * follows it, in the block and after it.
   */
  lemma FencedReplyIsRecovered<V(!new)>(preamble: string, language: string, space: string, v: Value, after: string,
                                        rest: string, parse: Parser<V>, r: Option<V>)
    requires Valid(v) && IsContainer(v) && parse(Text(v)).Some?
    requires KeepsFencesApart(preamble) && HoldsNoFence(v)
    requires forall i :: 0 <= i < |language| ==> IsLetter(language[i])
    requires forall i :: 0 <= i < |space| ==> W.IsSpace(space[i])
    requires Extracts(preamble + FENCE + language + space + Text(v) + after + FENCE + rest, parse, r)
    ensures r == parse(Text(v))
  {
    hide NoValueBefore, IsFirstValue, Skip, BodyStart, KeepsFencesApart, Blocks, FindFence, Extracts, Text;
    var tail := after + FENCE + rest;
    assert tail[|after|..|after| + 3] == FENCE;
    assert FenceAt(tail, |after|);
    var front, behind := UpToFence(tail, |after|);
    var body, value := Text(v) + front, parse(Text(v)).value;
    ValueKeepsFencesApart(v);
    FencesStayApart(Text(v), front);
    StartsWithBracket(v, front);
    var text := preamble + FENCE + language + space + Text(v) + after + FENCE + rest;
    AroundValue(preamble + FENCE + language + space, Text(v), after, FENCE, rest, front, behind);
    FirstBlockIs(preamble, language, space, body, behind);
    assert "" + Text(v) + front == body;
    ValueIsFirst("", v, front, parse);
    FirstBlockIsRead(text, parse, r, value);
  }

  lemma AroundValue(head: string, value: string, after: string, fence: string, rest: string, front: string,
                    behind: string)
    requires after + fence + rest == front + fence + behind
    ensures head + value + after + fence + rest == head + (value + front) + fence + behind
  {
    assert head + value + after + fence + rest == head + value + (after + fence + rest);
    assert head + (value + front) + fence + behind == head + value + (front + fence + behind);
  }

  /** The value of the first block, if it holds one, is what is read. */
  lemma FirstBlockIsRead<V(!new)>(text: string, parse: Parser<V>, r: Option<V>, value: V)
    requires Blocks(text, 0) != [] && IsFirstValue(Blocks(text, 0)[0], parse, value) && Extracts(text, parse, r)
    ensures r == Some(value)
  {
    hide NoValueBefore, IsFirstValue, Blocks;
    var blocks := Blocks(text, 0);
    HasValue(blocks[0], parse, value);
    assert IsFirstBlockWithValue(blocks, parse, 0);
    var k :| IsFirstBlockWithValue(blocks, parse, k) && IsFirstValue(blocks[k], parse, r.value);
    assert k == 0;
    FirstValueIsUnique(blocks[0], parse, r.value, value);
  }

  lemma FirstBlockIs(preamble: string, language: string, space: string, body: string, rest: string)
    requires KeepsFencesApart(preamble) && KeepsFencesApart(body) && body != "" && IsOpening(body[0])
    requires forall i :: 0 <= i < |language| ==> IsLetter(language[i])
    requires forall i :: 0 <= i < |space| ==> W.IsSpace(space[i])
    ensures var blocks := Blocks(preamble + FENCE + language + space + body + FENCE + rest, 0);
      blocks != [] && blocks[0] == body
  {
    hide FenceAt, Skip, BodyStart, KeepsFencesApart, Blocks, FindFence;
    var head, text := preamble + FENCE + language + space, preamble + FENCE + language + space + body + FENCE + rest;
    Regrouped(preamble, language, space, body, rest);
    NextFence("", preamble, language + space + body + FENCE + rest);
    BodyStartsAt(preamble, language, space, body + (FENCE + rest));
    NextFence(head, body, rest);
    assert text[|head|..|head + body|] == body;
    BlocksFrom(text, 0);
  }

  lemma StartsWithBracket(v: Value, after: string)
    requires IsContainer(v)
    ensures var body := Text(v) + after; body != "" && IsOpening(body[0])
  {
    assert Text(v)[0] == Opening(v);
  }

  lemma Regrouped(preamble: string, language: string, space: string, body: string, rest: string)
    ensures var text := preamble + FENCE + language + space + body + FENCE + rest;
      && text == "" + preamble + FENCE + (language + space + body + FENCE + rest)
      && text == preamble + FENCE + language + space + (body + (FENCE + rest))
  {
  }

  /** No fenced block of the text holds a value, or the first that does holds this one first. */
  ghost predicate BlocksAgree<V(!new)>(text: string, parse: Parser<V>, value: V) {
    forall k :: IsFirstBlockWithValue(Blocks(text, 0), parse, k) ==> IsFirstValue(Blocks(text, 0)[k], parse, value)
  }

  /**
   * After a preamble without brackets, fenced or not, a value is given back exactly if no fenced block of the reply
   * holds another one before it.
   */
  lemma ReplyIsRecoveredIff<V(!new)>(preamble: string, v: Value, after: string, parse: Parser<V>, r: Option<V>)
    requires Valid(v) && IsContainer(v) && parse(Text(v)).Some?
    requires forall c :: c in preamble ==> !IsOpening(c)
    requires Extracts(preamble + Text(v) + after, parse, r)
    ensures r == parse(Text(v)) <==> BlocksAgree(preamble + Text(v) + after, parse, parse(Text(v)).value)
  {
    hide Blocks, NoValueBefore, IsFirstValue, Text;
    var text, value := preamble + Text(v) + after, parse(Text(v)).value;
    var blocks := Blocks(text, 0);
    ValueIsFirst(preamble, v, after, parse);
    HasValue(text, parse, value);
    if exists k :: IsFirstBlockWithValue(blocks, parse, k) {
      var k :| IsFirstBlockWithValue(blocks, parse, k) && IsFirstValue(blocks[k], parse, r.value);
      forall j | IsFirstBlockWithValue(blocks, parse, j) ensures j == k { OneFirstBlock(blocks, parse, j, k); }
      if IsFirstValue(blocks[k], parse, value) { FirstValueIsUnique(blocks[k], parse, r.value, value); }
    } else {
      if r.Some? { FirstValueIsUnique(text, parse, r.value, value); }
    }
  }

  lemma OneFirstBlock<V(!new)>(blocks: seq<string>, parse: Parser<V>, j: int, k: int)
    requires IsFirstBlockWithValue(blocks, parse, j) && IsFirstBlockWithValue(blocks, parse, k)
    ensures j == k
  {
    hide NoValueBefore;
  }

  // ----- a fenced value that is not given back -----

  /** An object of two members: a container under "a", and under "b" a string of three backticks. */
  function Quoting(inner: Value): Value {
    Object("", Member("", [Plain('a')], "", "", inner, "",
        Member("", [Plain('b')], "", "", Str([Plain('`'), Plain('`'), Plain('`')]), "", NoMembers)))
  }

  /** A member's name and colon, with no white space around them. */
  function NameOf(c: char): string { "" + StringText([Plain(c)]) + ("" + ":" + "") }

  function UpToInner(): string { "{" + NameOf('a') }

  function BehindInner(): string { "," + NameOf('b') + "\"" }

  lemma QuotingText(inner: Value)
    ensures Text(Quoting(inner)) == UpToInner() + Text(inner) + BehindInner() + FENCE + ("\"" + "}")
  {
    var backticks := Str([Plain('`'), Plain('`'), Plain('`')]);
    var second := Member("", [Plain('b')], "", "", backticks, "", NoMembers);
    var first := Member("", [Plain('a')], "", "", inner, "", second);
    BackticksText();
    LastMember('b', backticks);
    NextMember('a', inner, second);
    assert Text(Object("", first)) == "{" + ("" + MembersText(first)) + "}";
    hide Text, MembersText, StringText, NameOf;
    Reassociated("{", NameOf('a'), Text(inner), ",", NameOf('b'), "\"", FENCE, "}");
  }

  lemma Reassociated(open: string, a: string, t: string, comma: string, b: string, quote: string, f: string,
                     close: string)
    ensures open + ("" + (a + t + (comma + (b + (quote + f + quote))))) + close ==
            (open + a) + t + (comma + b + quote) + f + (quote + close)
  {
  }

  lemma LastMember(name: char, v: Value)
    ensures MembersText(Member("", [Plain(name)], "", "", v, "", NoMembers)) == NameOf(name) + Text(v)
  {
    hide StringText;
  }

  lemma NextMember(name: char, v: Value, rest: Members)
    requires rest != NoMembers
    ensures MembersText(Member("", [Plain(name)], "", "", v, "", rest)) ==
            NameOf(name) + Text(v) + ("," + MembersText(rest))
  {
    hide StringText;
  }

  lemma BackticksText()
    ensures Text(Str([Plain('`'), Plain('`'), Plain('`')])) == "\"" + FENCE + "\""
  {
    var three := [Plain('`'), Plain('`'), Plain('`')];
    assert three[1..] == [Plain('`'), Plain('`')] && three[1..][1..] == [Plain('`')];
    assert PiecesText([Plain('`')]) == "`" && PiecesText([Plain('`'), Plain('`')]) == "``";
  }

  /** Cut inside its string, the object is never closed, and the inner container is the first value. */
  lemma CutObjectGivesInner<V(!new)>(inner: Value, parse: Parser<V>)
    requires Valid(inner) && IsContainer(inner) && parse(Text(inner)).Some?
    ensures IsFirstValue(UpToInner() + Text(inner) + BehindInner(), parse, parse(Text(inner)).value)
  {
    hide Text, ClosedAt, BehindInner, NameOf;
    NameText('a');
    var text, i := UpToInner() + Text(inner) + BehindInner(), |UpToInner()|;
    var e := i + |Text(inner)| - 1;
    ContainerClosesAtItsEnd(UpToInner(), inner, BehindInner());
    ClosedInside(text, i, e);
    StartsWithBracket(inner, "");
    assert Text(inner) + "" == Text(inner);
    assert text[i..e + 1] == Text(inner) && text[i] == Text(inner)[0];
    assert ValueAt(text, parse, i, e, parse(Text(inner)).value);
    forall k: nat, f: nat, w: V | k < i ensures !ValueAt(text, parse, k, f, w) {
      assert text[k] == UpToInner()[k];
      CutObjectStaysOpen(inner, f);
    }
  }

  lemma CutObjectStaysOpen(inner: Value, e: nat)
    requires Valid(inner) && IsContainer(inner)
    ensures !ClosedAt(UpToInner() + Text(inner) + BehindInner(), 0, e)
  {
    hide Run, Quiet, Text;
    hide NameOf;
    var text, deep := UpToInner() + Text(inner) + BehindInner(), Scan(1, false, false);
    var passed := NameOf('a') + Text(inner) + "," + NameOf('b');
    FrontPasses(inner);
    RunOfOne(START, '{', '{');
    RunOfBoth(START, "{", passed, '{');
    RunOfOne(deep, '"', '{');
    RunOfBoth(START, "{" + passed, "\"", '{');
    assert text == "{" + passed + "\"" && text[0..] == text;
    if ClosedAt(text, 0, e) { QuietAll(text, 0, e, '{'); }
  }

  lemma FrontPasses(inner: Value)
    requires Valid(inner) && IsContainer(inner)
    ensures Passes(1, NameOf('a') + Text(inner) + "," + NameOf('b'), '{')
  {
    hide Passes, Text;
    MemberPasses(1, "", [Plain('a')], "", "", '{');
    MemberPasses(1, "", [Plain('b')], "", "", '{');
    ValuePasses(1, inner, '{');
    PlainPasses(1, ",", '{');
    assert Passes(1, NameOf('a'), '{') && Passes(1, NameOf('b'), '{');
    hide NameOf;
    PassesBoth(1, NameOf('a'), Text(inner), '{');
    PassesBoth(1, NameOf('a') + Text(inner), ",", '{');
    PassesBoth(1, NameOf('a') + Text(inner) + ",", NameOf('b'), '{');
  }

  lemma NameText(c: char)
    ensures NameOf(c) == ['"', c, '"', ':']
  {
    assert PiecesText([Plain(c)]) == [c];
  }

  /**
   * A fenced object with three backticks in one of its strings: the block is cut short there, and the container before
   * them is given back in its place. With [1] inside: the reply's object has "a" and "b", and what is read is [1].
   */
  lemma FencedQuoteIsCutShort<V(!new)>(language: string, space: string, inner: Value, after: string,
                                       parse: Parser<V>, r: Option<V>)
    requires Valid(inner) && IsContainer(inner) && HoldsNoFence(inner) && parse(Text(inner)).Some?
    requires forall i :: 0 <= i < |language| ==> IsLetter(language[i])
    requires forall i :: 0 <= i < |space| ==> W.IsSpace(space[i])
    requires Extracts(FENCE + language + space + Text(Quoting(inner)) + after + FENCE, parse, r)
    ensures Valid(Quoting(inner)) && r == parse(Text(inner))
  {
    QuotingIsValid(inner);
    hide Text, Skip, BodyStart, KeepsFencesApart, Blocks, FindFence, Extracts, IsFirstValue, UpToInner, BehindInner,
      HoldsNoFence, Quoting, Valid, IsOpening;
    var body, end := UpToInner() + Text(inner) + BehindInner(), "\"" + "}";
    var text := FENCE + language + space + Text(Quoting(inner)) + after + FENCE;
    QuotingText(inner);
    InTheBlock(FENCE, language, space, body, end, after);
    BodyOpens(inner);
    NoBackticks("");
    CutObjectKeepsFencesApart(inner);
    FirstBlockIs("", language, space, body, end + after + FENCE);
    CutObjectGivesInner(inner, parse);
    FirstBlockIsRead(text, parse, r, parse(Text(inner)).value);
  }

  lemma InTheBlock(f: string, language: string, space: string, body: string, end: string, after: string)
    ensures f + language + space + (body + f + end) + after + f ==
            "" + f + language + space + body + f + (end + after + f)
  {
  }

  lemma QuotingIsValid(inner: Value)
    requires Valid(inner)
    ensures Valid(Quoting(inner))
  {
    var backticks := Str([Plain('`'), Plain('`'), Plain('`')]);
    assert Valid(backticks);
    assert ValidMembers(Member("", [Plain('b')], "", "", backticks, "", NoMembers));
  }

  lemma BodyOpens(inner: Value)
    ensures var body := UpToInner() + Text(inner) + BehindInner(); body != "" && IsOpening(body[0])
  {
    hide NameOf, Text;
  }

  lemma CutObjectKeepsFencesApart(inner: Value)
    requires IsContainer(inner) && HoldsNoFence(inner)
    ensures KeepsFencesApart(UpToInner() + Text(inner) + BehindInner())
  {
    NameText('a');
    NameText('b');
    hide Text, KeepsFencesApart, HoldsNoFence, NameOf;
    NoBackticks(UpToInner());
    NoBackticks(BehindInner());
    ValueKeepsFencesApart(inner);
    FencesStayApart(UpToInner(), Text(inner));
    FencesStayApart(UpToInner() + Text(inner), BehindInner());
  }

  /** The array of the number 1. */
  const JUST_ONE := Array("", Item("", Number(Numeral(false, "1", None, None)), "", NoItems))

  lemma JustOneText()
    ensures Text(JUST_ONE) == "[1]"
  {
    assert ItemsText(Item("", Number(Numeral(false, "1", None, None)), "", NoItems)) == "1";
  }

  lemma AroundInner()
    ensures UpToInner() == "{\"a\":" && BehindInner() == ",\"b\":\""
  {
    NameText('a');
    NameText('b');
    hide NameOf;
  }

  lemma JustOneHoldsNoFence()
    ensures HoldsNoFence(JUST_ONE)
  {
    JustOneText();
    hide Text;
    forall k: nat | k < |Text(JUST_ONE)| ensures !FenceAt(Text(JUST_ONE), k) {
      if k + 3 <= |Text(JUST_ONE)| { assert Text(JUST_ONE)[k..k + 3][0] == Text(JUST_ONE)[k]; }
    }
  }

  /** The reply's object has [1] under "a" and three backticks under "b"; what is read is [1]. */
  lemma FencedReplyCutShort<V(!new)>(parse: Parser<V>, r: Option<V>)
    requires parse("[1]").Some?
    requires Extracts(
      FENCE + "json" + "\n" + ("{\"a\":" + "[1]" + ",\"b\":\"" + FENCE + ("\"" + "}")) + "\n" + FENCE, parse, r)
    ensures r == parse("[1]")
  {
    hide Extracts, Text, HoldsNoFence, UpToInner, BehindInner;
    QuotingText(JUST_ONE);
    JustOneText();
    AroundInner();
    JustOneHoldsNoFence();
    assert Valid(JUST_ONE);
    assert W.IsSpace('\n');
    FencedQuoteIsCutShort("json", "\n", JUST_ONE, "\n", parse, r);
  }
}
