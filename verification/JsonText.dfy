/**
 * The texts of RFC 8259 with every choice they leave open: white space, the
 * escapes of a string and the case of their digits, and the form of a number.
 */
module JsonText {
  import opened Bytes
  import opened JsonNumber
  import opened JsonModel
  import opened JsonGrammar
  import opened JsonUnicode

  /** Section 2: the four white space characters. */
  predicate Blank(s: bytes) {
    forall i :: 0 <= i < |s| ==> s[i] in {0x20, 0x09, 0x0A, 0x0D}
  }

  // ----- Strings, section 7 ---------------------------------------------------------------------------

  /** The two-character escapes: the letter behind the backslash and what it stands for. */
  const SHORT_ESCAPES: seq<(byte, byte)> :=
    [(0x22, 0x22), (0x5C, 0x5C), (0x2F, 0x2F), (0x62, 0x08), (0x66, 0x0C), (0x6E, 0x0A), (0x72, 0x0D), (0x74, 0x09)]

  /** A byte of a string as it is, a two-character escape, or a character written as one or two UTF-16 units. */
  datatype Piece = Plain(b: byte) | Short(k: nat) | Unicode(cp: nat, high: bytes, low: bytes)

  predicate IsPiece(p: Piece) {
    match p
    case Plain(b) => b >= 0x20 && b != 0x22 && b != 0x5C
    case Short(k) => k < |SHORT_ESCAPES|
    case Unicode(cp, high, low) =>
      if cp < 0x10000 then IsScalar(cp) && SpellsUnit(high, cp) && low == []
      else
        && cp <= 0x10FFFF
        && SpellsUnit(high, 0xD800 + (cp - 0x10000) / 0x400) && SpellsUnit(low, 0xDC00 + (cp - 0x10000) % 0x400)
  }

  predicate ArePieces(s: seq<Piece>) {
    forall i :: 0 <= i < |s| ==> IsPiece(s[i])
  }

  function WritePiece(p: Piece): bytes
    requires IsPiece(p)
  {
    match p
    case Plain(b) => [b]
    case Short(k) => [0x5C, SHORT_ESCAPES[k].0]
    case Unicode(cp, high, low) => [0x5C, 0x75] + high + if cp < 0x10000 then [] else [0x5C, 0x75] + low
  }

  function PieceMeaning(p: Piece): bytes
    requires IsPiece(p)
  {
    match p
    case Plain(b) => [b]
    case Short(k) => [SHORT_ESCAPES[k].1]
    case Unicode(cp, _, _) => Utf8(cp)
  }

  function WritePieces(s: seq<Piece>): bytes
    requires ArePieces(s)
  {
    if s == [] then [] else WritePiece(s[0]) + WritePieces(s[1..])
  }

  function PiecesMeaning(s: seq<Piece>): bytes
    requires ArePieces(s)
  {
    if s == [] then [] else PieceMeaning(s[0]) + PiecesMeaning(s[1..])
  }

  function WriteString(s: seq<Piece>): bytes
    requires ArePieces(s)
  {
    [0x22] + WritePieces(s) + [0x22]
  }

  /** A string becomes a C string, which an escaped NUL character ends. */
  function StringMeaning(s: seq<Piece>): bytes
    requires ArePieces(s)
  {
    CString(PiecesMeaning(s))
  }

  // ----- Values, sections 3 to 5 ------------------------------------------------------------------------

  datatype Syntax =
    | NullText
    | FalseText
    | TrueText
    | NumberOf(n: NumberText)
    | StringOf(s: seq<Piece>)
    | ArrayOf(blank: bytes, elements: seq<Element>)
    | ObjectOf(blank: bytes, pairs: seq<Pair>)

  /** An element and the white space around it. */
  datatype Element = Element(before: bytes, value: Syntax, after: bytes)

  datatype Pair = Pair(before: bytes, key: seq<Piece>, beforeColon: bytes, afterColon: bytes, value: Syntax,
                       after: bytes)

  predicate IsText(t: Syntax)
    decreases t
  {
    match t
    case NullText | FalseText | TrueText => true
    case NumberOf(n) => IsNumber(n)
    case StringOf(s) => ArePieces(s)
    case ArrayOf(blank, elements) => Blank(blank) && forall i :: 0 <= i < |elements| ==> IsElement(elements[i])
    case ObjectOf(blank, pairs) => Blank(blank) && forall i :: 0 <= i < |pairs| ==> IsPair(pairs[i])
  }

  predicate IsElement(e: Element)
    decreases e
  {
    Blank(e.before) && IsText(e.value) && Blank(e.after)
  }

  predicate IsPair(p: Pair)
    decreases p
  {
    && Blank(p.before) && ArePieces(p.key) && Blank(p.beforeColon)
    && Blank(p.afterColon) && IsText(p.value) && Blank(p.after)
  }

  function Comma(last: bool): bytes {
    if last then [] else [0x2C]
  }

  /** The text; white space inside an empty array or object is `blank`. */
  function Write(t: Syntax): bytes
    requires IsText(t)
    decreases t
  {
    match t
    case NullText => [0x6E, 0x75, 0x6C, 0x6C]
    case FalseText => [0x66, 0x61, 0x6C, 0x73, 0x65]
    case TrueText => [0x74, 0x72, 0x75, 0x65]
    case NumberOf(n) => WriteNumber(n)
    case StringOf(s) => WriteString(s)
    case ArrayOf(blank, elements) =>
      [0x5B] + (if elements == [] then blank else WriteElements(elements, 0)) + [0x5D]
    case ObjectOf(blank, pairs) =>
      [0x7B] + (if pairs == [] then blank else WritePairs(pairs, 0)) + [0x7D]
  }

  function WriteElements(elements: seq<Element>, i: nat): bytes
    requires i <= |elements| && forall k :: 0 <= k < |elements| ==> IsElement(elements[k])
    decreases elements, |elements| - i
  {
    if i == |elements| then []
    else
      var e := elements[i];
      assert IsElement(e);
      e.before + Write(e.value) + e.after + Comma(i + 1 == |elements|) + WriteElements(elements, i + 1)
  }

  function WritePairs(pairs: seq<Pair>, i: nat): bytes
    requires i <= |pairs| && forall k :: 0 <= k < |pairs| ==> IsPair(pairs[k])
    decreases pairs, |pairs| - i
  {
    if i == |pairs| then []
    else
      var p := pairs[i];
      assert IsPair(p);
      p.before + WriteString(p.key) + p.beforeColon + [0x3A] + p.afterColon + Write(p.value) + p.after
      + Comma(i + 1 == |pairs|) + WritePairs(pairs, i + 1)
  }

  /** The value a text stands for. */
  function Meaning(lib: NumberLib, t: Syntax): Json
    requires IsText(t)
    decreases t
  {
    match t
    case NullText => Null
    case FalseText => False
    case TrueText => True
    case NumberOf(n) => Number(lib.read(WriteNumber(n)))
    case StringOf(s) => Text(StringMeaning(s))
    case ArrayOf(_, elements) => Array(ElementsMeaning(lib, elements, 0))
    case ObjectOf(_, pairs) => Object(PairsMeaning(lib, pairs, 0))
  }

  function ElementsMeaning(lib: NumberLib, elements: seq<Element>, i: nat): seq<Json>
    requires i <= |elements| && forall k :: 0 <= k < |elements| ==> IsElement(elements[k])
    decreases elements, |elements| - i
  {
    if i == |elements| then []
    else
      assert IsElement(elements[i]);
      [Meaning(lib, elements[i].value)] + ElementsMeaning(lib, elements, i + 1)
  }

  function PairsMeaning(lib: NumberLib, pairs: seq<Pair>, i: nat): seq<Member>
    requires i <= |pairs| && forall k :: 0 <= k < |pairs| ==> IsPair(pairs[k])
    decreases pairs, |pairs| - i
  {
    if i == |pairs| then []
    else
      assert IsPair(pairs[i]);
      [Member(StringMeaning(pairs[i].key), Meaning(lib, pairs[i].value))] + PairsMeaning(lib, pairs, i + 1)
  }

  // ----- The limits of the parser ------------------------------------------------------------------------

  const MAX_DEPTH := 1000
  const MAX_NUMBER := 63

  /** With `room` more levels of nesting, and numbers of at most 63 characters. */
  predicate Fits(t: Syntax, room: nat)
    requires IsText(t)
    decreases t
  {
    match t
    case NumberOf(n) => |WriteNumber(n)| <= MAX_NUMBER
    case ArrayOf(_, elements) => room > 0 && ElementsFit(elements, 0, room - 1)
    case ObjectOf(_, pairs) => room > 0 && PairsFit(pairs, 0, room - 1)
    case _ => true
  }

  predicate ElementsFit(elements: seq<Element>, i: nat, room: nat)
    requires i <= |elements| && forall k :: 0 <= k < |elements| ==> IsElement(elements[k])
    decreases elements, |elements| - i
  {
    i < |elements| ==>
      assert IsElement(elements[i]);
      Fits(elements[i].value, room) && ElementsFit(elements, i + 1, room)
  }

  predicate PairsFit(pairs: seq<Pair>, i: nat, room: nat)
    requires i <= |pairs| && forall k :: 0 <= k < |pairs| ==> IsPair(pairs[k])
    decreases pairs, |pairs| - i
  {
    i < |pairs| ==>
      assert IsPair(pairs[i]);
      Fits(pairs[i].value, room) && PairsFit(pairs, i + 1, room)
  }
}
