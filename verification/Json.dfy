/** JSON texts as section 2 to section 7 of RFC 8259 allow them, whitespace included. */
module Json {
  import opened Numbers

  /** A character of a string, as written: itself, a short escape, or four hexadecimal digits (section 7). */
  datatype Piece = Plain(c: char) | Escape(c: char) | Unicode(hex: string)

  datatype Exponent = Exponent(letter: char, sign: string, digits: string)

  /** Section 6. */
  datatype Numeral = Numeral(negative: bool, whole: string, fraction: Option<string>, exponent: Option<Exponent>)

  /** A value with the whitespace it is written with (sections 3 to 5). */
  datatype Value =
    | Literal(name: string)
    | Number(numeral: Numeral)
    | Str(pieces: seq<Piece>)
    | Array(blank: string, items: Items)
    | Object(blank: string, members: Members)

  datatype Items = NoItems | Item(before: string, value: Value, after: string, rest: Items)

  datatype Members =
    | NoMembers
    | Member(before: string, name: seq<Piece>, beforeColon: string, afterColon: string, value: Value, after: string,
        rest: Members)

  // ----- which of them are texts of the grammar -----

  predicate Only(s: string, chars: string) { forall c :: c in s ==> c in chars }

  const BLANKS := " \t\n\r"
  const DIGITS := "0123456789"

  predicate ValidPiece(p: Piece) {
    match p
    case Plain(c) => c >= ' ' && c != '"' && c != '\\'
    case Escape(c) => c in "\"\\/bfnrt"
    case Unicode(hex) => |hex| == 4 && Only(hex, "0123456789abcdefABCDEF")
  }

  predicate ValidString(pieces: seq<Piece>) { forall p :: p in pieces ==> ValidPiece(p) }

  predicate ValidDigits(s: string) { s != "" && Only(s, DIGITS) }

  predicate ValidNumeral(n: Numeral) {
    && ValidDigits(n.whole) && (|n.whole| > 1 ==> n.whole[0] != '0')
    && (n.fraction.Some? ==> ValidDigits(n.fraction.value))
    && (n.exponent.Some? ==>
        && n.exponent.value.letter in "eE" && n.exponent.value.sign in {"", "+", "-"}
        && ValidDigits(n.exponent.value.digits))
  }

  predicate Valid(v: Value) {
    match v
    case Literal(name) => name in {"true", "false", "null"}
    case Number(n) => ValidNumeral(n)
    case Str(pieces) => ValidString(pieces)
    case Array(blank, items) => Only(blank, BLANKS) && ValidItems(items)
    case Object(blank, members) => Only(blank, BLANKS) && ValidMembers(members)
  }

  predicate ValidItems(items: Items) {
    match items
    case NoItems => true
    case Item(before, v, after, rest) => Only(before, BLANKS) && Valid(v) && Only(after, BLANKS) && ValidItems(rest)
  }

  predicate ValidMembers(members: Members) {
    match members
    case NoMembers => true
    case Member(before, name, beforeColon, afterColon, v, after, rest) =>
      && Only(before, BLANKS) && ValidString(name) && Only(beforeColon, BLANKS) && Only(afterColon, BLANKS)
      && Valid(v) && Only(after, BLANKS) && ValidMembers(rest)
  }

  predicate IsContainer(v: Value) { v.Array? || v.Object? }

  // ----- how they are written -----

  function PieceText(p: Piece): string {
    match p
    case Plain(c) => [c]
    case Escape(c) => ['\\', c]
    case Unicode(hex) => "\\u" + hex
  }

  function PiecesText(pieces: seq<Piece>): string {
    if pieces == [] then "" else PieceText(pieces[0]) + PiecesText(pieces[1..])
  }

  function StringText(pieces: seq<Piece>): string { "\"" + PiecesText(pieces) + "\"" }

  function SignText(n: Numeral): string { if n.negative then "-" else "" }

  function FractionText(n: Numeral): string { if n.fraction.Some? then "." + n.fraction.value else "" }

  function ExponentText(n: Numeral): string {
    if n.exponent.Some? then [n.exponent.value.letter] + n.exponent.value.sign + n.exponent.value.digits else ""
  }

  function NumeralText(n: Numeral): string {
    (SignText(n) + n.whole) + (FractionText(n) + ExponentText(n))
  }

  function Text(v: Value): string {
    match v
    case Literal(name) => name
    case Number(n) => NumeralText(n)
    case Str(pieces) => StringText(pieces)
    case Array(blank, items) => "[" + (blank + ItemsText(items)) + "]"
    case Object(blank, members) => "{" + (blank + MembersText(members)) + "}"
  }

  function ItemsText(items: Items): string {
    match items
    case NoItems => ""
    case Item(before, v, after, rest) =>
      before + Text(v) + after + if rest.NoItems? then "" else "," + ItemsText(rest)
  }

  function MembersText(members: Members): string {
    match members
    case NoMembers => ""
    case Member(before, name, beforeColon, afterColon, v, after, rest) =>
      before + StringText(name) + (beforeColon + ":" + afterColon) + Text(v) + after
      + if rest.NoMembers? then "" else "," + MembersText(rest)
  }
}
