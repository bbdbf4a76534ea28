/** Text as the words in it: what joining, collapsing white space and trimming leave unchanged. */
module Words {

  /** White space as a regular expression of the language reads it. */
  predicate IsSpace(c: char) {
    c in " \t\n\r" || c == 11 as char || c == 12 as char || c == 0xA0 as char || c == 0x1680 as char
    || 0x2000 as char <= c <= 0x200A as char || c == 0x2028 as char || c == 0x2029 as char || c == 0x202F as char
    || c == 0x205F as char || c == 0x3000 as char || c == 0xFEFF as char
  }

  predicate IsWord(w: string) { w != "" && forall i :: 0 <= i < |w| ==> !IsSpace(w[i]) }

  predicate EndsInWord(s: string) { s != "" && !IsSpace(s[|s| - 1]) }

  /** The words after one more character, which continues the last word if it is glued to it. */
  function Grow(words: seq<string>, glued: bool, c: char): seq<string> {
    if IsSpace(c) then words
    else if glued && words != [] then words[..|words| - 1] + [words[|words| - 1] + [c]]
    else words + [[c]]
  }

  /** The words of a text: its longest stretches without white space. */
  function WordsOf(s: string): seq<string> {
    if s == "" then [] else Grow(WordsOf(s[..|s| - 1]), EndsInWord(s[..|s| - 1]), s[|s| - 1])
  }

  lemma WordsNext(s: string, c: char)
    ensures WordsOf(s + [c]) == Grow(WordsOf(s), EndsInWord(s), c)
    ensures EndsInWord(s + [c]) <==> !IsSpace(c)
    ensures WordsOf("") == []
  {
    assert (s + [c])[..|s|] == s;
  }

  /** The words, one space apart. */
  function Spaced(words: seq<string>): string {
    if words == [] then ""
    else if |words| == 1 then words[0]
    else Spaced(words[..|words| - 1]) + " " + words[|words| - 1]
  }

  /** `parts.join(' ')` with white space collapsed and trimmed. */
  function Join(a: string, b: string, c: string): string { Spaced(WordsOf(a + " " + b + " " + c)) }

  lemma {:induction false} WordsAreWords(s: string)
    ensures forall w :: w in WordsOf(s) ==> IsWord(w)
    ensures EndsInWord(s) ==> WordsOf(s) != []
    decreases s
  {
    hide WordsOf, IsSpace;
    if s == "" {
      WordsNext("", ' ');
    } else {
      var before, c := s[..|s| - 1], s[|s| - 1];
      assert s == before + [c];
      WordsAreWords(before);
      WordsNext(before, c);
      GrowsByWords(WordsOf(before), EndsInWord(before), c);
    }
  }

  lemma GrowsByWords(words: seq<string>, glued: bool, c: char)
    requires forall w :: w in words ==> IsWord(w)
    ensures forall w :: w in Grow(words, glued, c) ==> IsWord(w)
    ensures !IsSpace(c) ==> Grow(words, glued, c) != []
  {
    hide IsSpace;
    if words != [] { assert words[|words| - 1] in words; }
  }

  lemma GrowApart(a: seq<string>, b: seq<string>, glued: bool, c: char)
    requires glued ==> b != []
    ensures Grow(a + b, glued, c) == a + Grow(b, glued, c)
  {
  }

  /** Words on either side of a space are words of the whole. */
  lemma {:induction false} WordsApart(a: string, b: string)
    ensures WordsOf(a + " " + b) == WordsOf(a) + WordsOf(b)
    decreases b
  {
    hide WordsOf, Grow;
    if b == "" {
      assert a + " " + b == a + [' '];
      WordsNext(a, ' ');
      GrowBySpace(WordsOf(a), EndsInWord(a));
    } else {
      var before, c := b[..|b| - 1], b[|b| - 1];
      WordsApart(a, before);
      WordsAreWords(before);
      assert b == before + [c] && a + " " + b == (a + " " + before) + [c];
      WordsNext(before, c);
      WordsNext(a + " " + before, c);
      assert EndsInWord(a + " " + before) == EndsInWord(before);
      GrowApart(WordsOf(a), WordsOf(before), EndsInWord(before), c);
    }
  }

  lemma GrowBySpace(words: seq<string>, glued: bool)
    ensures Grow(words, glued, ' ') == words
  {
  }

  lemma {:induction false} WordIsItsWords(w: string)
    requires IsWord(w)
    ensures WordsOf(w) == [w]
    decreases w
  {
    hide WordsOf, IsSpace;
    var before, c := w[..|w| - 1], w[|w| - 1];
    assert w == before + [c];
    WordsNext(before, c);
    if before != "" { WordIsItsWords(before); }
  }

  lemma {:induction false} WordsOfSpaced(words: seq<string>)
    requires forall w :: w in words ==> IsWord(w)
    ensures WordsOf(Spaced(words)) == words
  {
    hide WordsOf;
    if words == [] {
      WordsNext("", ' ');
    } else {
      var n := |words| - 1;
      assert words[n] in words && words == words[..n] + [words[n]];
      WordIsItsWords(words[n]);
      if n > 0 {
        WordsOfSpaced(words[..n]);
        WordsApart(Spaced(words[..n]), words[n]);
      }
    }
  }

  /** Joining keeps the words of its parts, in order, and adds none. */
  lemma WordsOfJoin(a: string, b: string, c: string)
    ensures WordsOf(Join(a, b, c)) == WordsOf(a) + WordsOf(b) + WordsOf(c)
  {
    hide WordsOf, Spaced;
    WordsApart(a, b);
    WordsApart(a + " " + b, c);
    WordsAreWords(a + " " + b + " " + c);
    WordsOfSpaced(WordsOf(a + " " + b + " " + c));
  }
}
