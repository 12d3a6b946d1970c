/** The language cJSON's parser accepts, as functions of the input and an offset into it. */
module JsonGrammar {
  import opened Bytes
  import opened JsonModel

  const NESTING_LIMIT: nat := 1000

  /** A parse either fails or yields a value and the offset after it. */
  datatype Parsed<+T> = Fail | Ok(value: T, next: nat)

  /** The input of every parse: a text and its terminator. */
  predicate Terminated(c: bytes) {
    |c| > 0 && c[|c| - 1] == NUL
  }

  /** First byte at or after `o` that is not white space, or the end of the input. */
  function BlankEnd(c: bytes, o: nat): (r: nat)
    requires o <= |c|
    ensures o <= r <= |c|
    decreases |c| - o
  {
    if o < |c| && c[o] <= 32 then BlankEnd(c, o + 1) else o
  }

  lemma {:induction false} BlankEndIsFirst(c: bytes, o: nat)
    requires o <= |c|
    ensures forall k :: o <= k < BlankEnd(c, o) ==> c[k] <= 32
    ensures BlankEnd(c, o) < |c| ==> c[BlankEnd(c, o)] > 32
    decreases |c| - o
  {
    if o < |c| && c[o] <= 32 {
      BlankEndIsFirst(c, o + 1);
    }
  }

  /** buffer_skip_whitespace: at the end of the input it steps back onto the terminator. */
  function SkipBlanks(c: bytes, o: nat): (r: nat)
    requires Terminated(c) && o <= |c|
    ensures r < |c|
    ensures o < |c| ==> o <= r
  {
    var r := BlankEnd(c, o);
    if r == |c| then r - 1 else r
  }

  /** parse_number looks at no more than this many bytes. */
  const NUMBER_MAX: nat := 63

  /** End of the run of number bytes at `o`, at most `limit` of them. */
  function NumberRun(c: bytes, o: nat, limit: nat): (r: nat)
    requires o <= |c|
    ensures o <= r <= |c| && r <= o + limit
    decreases limit
  {
    if limit > 0 && o < |c| && IsNumberByte(c[o]) then NumberRun(c, o + 1, limit - 1) else o
  }

  lemma {:induction false} NumberRunBytes(c: bytes, o: nat, limit: nat, k: nat)
    requires o <= |c| && o <= k < NumberRun(c, o, limit)
    ensures IsNumberByte(c[k])
    decreases limit
  {
    if k > o {
      NumberRunBytes(c, o + 1, limit - 1, k);
    }
  }

  /** A number ends before the terminator. */
  lemma NumberEndsInside(c: bytes, o: nat, end: nat)
    requires Terminated(c) && o < |c| && 0 < end <= NumberRun(c, o, NUMBER_MAX) - o
    ensures o + end < |c|
  {
    hide NumberRun;
    NumberRunBytes(c, o, NUMBER_MAX, o + end - 1);
  }

  function ParseNumber(lib: NumberLib, c: bytes, o: nat): (p: Parsed<Json>)
    requires Terminated(c) && o < |c|
    ensures p.Ok? ==> o < p.next < |c|
  {
    var run := c[o..NumberRun(c, o, NUMBER_MAX)];
    var end := StrtodEnd(run);
    if end == 0 then Fail
    else
      NumberEndsInside(c, o, end);
      Ok(Number(lib.read(run[..end])), o + end)
  }

  function HexValue(b: byte): (r: Option<nat>)
    ensures r.Some? ==> r.value < 16
  {
    if 48 <= b <= 57 then Some(b - 48)
    else if 65 <= b <= 70 then Some(b - 55)
    else if 97 <= b <= 102 then Some(b - 87)
    else None
  }

  predicate IsHex4(c: bytes, i: nat)
    requires i + 4 <= |c|
  {
    HexValue(c[i]).Some? && HexValue(c[i + 1]).Some? && HexValue(c[i + 2]).Some? && HexValue(c[i + 3]).Some?
  }

  /** parse_hex4: zero when one of the four digits is invalid. */
  function Hex4(c: bytes, i: nat): (v: nat)
    requires i + 4 <= |c|
    ensures v < 0x10000
    ensures v != 0 ==> IsHex4(c, i)
  {
    if IsHex4(c, i) then
      FourDigits(HexValue(c[i]).value, HexValue(c[i + 1]).value, HexValue(c[i + 2]).value, HexValue(c[i + 3]).value)
    else 0
  }

  function FourDigits(a: nat, b: nat, d: nat, e: nat): (v: nat)
    requires a < 16 && b < 16 && d < 16 && e < 16
    ensures v < 0x10000
  {
    ((a * 16 + b) * 16 + d) * 16 + e
  }

  /** The UTF-8 form of a code point, section 3 of RFC 3629. */
  function Utf8(cp: nat): (r: bytes)
    requires cp <= 0x10FFFF
  {
    if cp < 0x80 then [cp]
    else if cp < 0x800 then [0xC0 + cp / 64, 0x80 + cp % 64]
    else if cp < 0x10000 then [0xE0 + cp / 4096, 0x80 + cp / 64 % 64, 0x80 + cp % 64]
    else [0xF0 + cp / 262144, 0x80 + cp / 4096 % 64, 0x80 + cp / 64 % 64, 0x80 + cp % 64]
  }

  /** One `\uXXXX` escape, or two that form a surrogate pair: bytes consumed and code point. */
  datatype Literal = Literal(length: nat, codepoint: nat)

  predicate IsHighSurrogate(v: nat) { 0xD800 <= v <= 0xDBFF }

  predicate IsLowSurrogate(v: nat) { 0xDC00 <= v <= 0xDFFF }

  /** The code point of a surrogate pair, section 2.1 of RFC 2781. */
  function PairValue(high: nat, low: nat): (cp: nat)
    requires IsHighSurrogate(high) && IsLowSurrogate(low)
    ensures 0x10000 <= cp <= 0x10FFFF
  {
    0x10000 + (high - 0xD800) * 0x400 + (low - 0xDC00)
  }

  function ReadLiteral(c: bytes, p: nat, end: nat): (r: Option<Literal>)
    requires p <= end <= |c|
    ensures r.Some? ==> p + r.value.length <= end && r.value.codepoint <= 0x10FFFF
    ensures r.Some? ==> r.value.length == 6 || r.value.length == 12
  {
    if end - p < 6 then None
    else
      var first := Hex4(c, p + 2);
      if IsLowSurrogate(first) then None
      else if IsHighSurrogate(first) then
        if end - (p + 6) < 6 || c[p + 6] != BACKSLASH || c[p + 7] != LOWER_U then None
        else
          var second := Hex4(c, p + 8);
          if !IsLowSurrogate(second) then None
          else Some(Literal(12, PairValue(first, second)))
      else Some(Literal(6, first))
  }

  /** What a one-letter escape stands for. */
  function Unescape(b: byte): Option<byte> {
    if b == 98 then Some(8)
    else if b == 102 then Some(12)
    else if b == 110 then Some(10)
    else if b == 114 then Some(13)
    else if b == 116 then Some(9)
    else if b == QUOTE || b == BACKSLASH || b == 47 then Some(b)
    else None
  }

  /** The first pass of parse_string: where the string that starts at `i` is closed. */
  function ClosingQuote(c: bytes, i: nat): (r: Option<nat>)
    ensures r.Some? ==> i <= r.value < |c| && c[r.value] == QUOTE
    decreases |c| - i
  {
    if i >= |c| then None
    else if c[i] == QUOTE then Some(i)
    else if c[i] == BACKSLASH then ClosingQuote(c, i + 2)
    else ClosingQuote(c, i + 1)
  }

  /** Puts `head` in front of a decoded rest. */
  function Prepend(head: bytes, rest: Option<bytes>): Option<bytes> {
    if rest.Some? then Some(head + rest.value) else None
  }

  /** The second pass of parse_string: the bytes between `p` and the closing quote, decoded. */
  function Decode(c: bytes, p: nat, end: nat): (r: Option<bytes>)
    requires end < |c|
    decreases |c| - p
  {
    if p >= end then Some([])
    else if c[p] != BACKSLASH then Prepend([c[p]], Decode(c, p + 1, end))
    else if c[p + 1] == LOWER_U then
      match ReadLiteral(c, p, end)
      case None => None
      case Some(l) => Prepend(Utf8(l.codepoint), Decode(c, p + l.length, end))
    else
      match Unescape(c[p + 1])
      case None => None
      case Some(b) => Prepend([b], Decode(c, p + 2, end))
  }

  /** A string literal; its value is what C string functions see of the decoded bytes. */
  function ParseString(c: bytes, o: nat): (p: Parsed<bytes>)
    requires Terminated(c) && o < |c|
    ensures p.Ok? ==> o < p.next < |c| && NulFree(p.value)
  {
    if c[o] != QUOTE then Fail
    else
      match ClosingQuote(c, o + 1)
      case None => Fail
      case Some(end) =>
        match Decode(c, o + 1, end)
        case None => Fail
        case Some(s) => Ok(CString(s), end + 1)
  }

  function ParseValue(lib: NumberLib, c: bytes, o: nat, depth: nat): (p: Parsed<Json>)
    requires Terminated(c) && o < |c|
    ensures p.Ok? ==> o < p.next < |c|
    decreases |c| - o, 1
  {
    if At(c, o, NULL_TEXT) then AtByte(c, o, NULL_TEXT, 3); Ok(Null, o + 4)
    else if At(c, o, FALSE_TEXT) then AtByte(c, o, FALSE_TEXT, 4); Ok(False, o + 5)
    else if At(c, o, TRUE_TEXT) then AtByte(c, o, TRUE_TEXT, 3); Ok(True, o + 4)
    else if c[o] == QUOTE then
      match ParseString(c, o)
      case Fail => Fail
      case Ok(s, next) => Ok(Text(s), next)
    else if c[o] == MINUS || IsDigit(c[o]) then ParseNumber(lib, c, o)
    else if c[o] == LBRACKET then ParseArray(lib, c, o, depth)
    else if c[o] == LBRACE then ParseObject(lib, c, o, depth)
    else Fail
  }

  function ParseArray(lib: NumberLib, c: bytes, o: nat, depth: nat): (p: Parsed<Json>)
    requires Terminated(c) && o < |c| && c[o] == LBRACKET
    ensures p.Ok? ==> o < p.next < |c|
    decreases |c| - o, 0
  {
    if depth >= NESTING_LIMIT then Fail
    else
      var first := SkipBlanks(c, o + 1);
      if c[first] == RBRACKET then Ok(Array([]), first + 1)
      else
        match ParseItems(lib, c, first, depth + 1)
        case Fail => Fail
        case Ok(items, next) => Ok(Array(items), next)
  }

  /** One or more comma separated values and the closing bracket. */
  function ParseItems(lib: NumberLib, c: bytes, o: nat, depth: nat): (p: Parsed<seq<Json>>)
    requires Terminated(c) && o < |c|
    ensures p.Ok? ==> o < p.next < |c| && |p.value| > 0
    decreases |c| - o, 2
  {
    match ParseValue(lib, c, SkipBlanks(c, o), depth)
    case Fail => Fail
    case Ok(v, after) =>
      var next := SkipBlanks(c, after);
      if c[next] == COMMA then
        match ParseItems(lib, c, next + 1, depth)
        case Fail => Fail
        case Ok(rest, end) => Ok([v] + rest, end)
      else if c[next] == RBRACKET then Ok([v], next + 1)
      else Fail
  }

  function ParseObject(lib: NumberLib, c: bytes, o: nat, depth: nat): (p: Parsed<Json>)
    requires Terminated(c) && o < |c| && c[o] == LBRACE
    ensures p.Ok? ==> o < p.next < |c|
    decreases |c| - o, 0
  {
    if depth >= NESTING_LIMIT then Fail
    else
      var first := SkipBlanks(c, o + 1);
      if c[first] == RBRACE then Ok(Object([]), first + 1)
      else
        match ParseMembers(lib, c, first, depth + 1)
        case Fail => Fail
        case Ok(members, next) => Ok(Object(members), next)
  }

  /** A key, a colon and a value. */
  function ParseMember(lib: NumberLib, c: bytes, o: nat, depth: nat): (p: Parsed<Member>)
    requires Terminated(c) && o < |c|
    ensures p.Ok? ==> o < p.next < |c|
    decreases |c| - o, 2
  {
    match ParseString(c, SkipBlanks(c, o))
    case Fail => Fail
    case Ok(key, after) =>
      var colon := SkipBlanks(c, after);
      if c[colon] != COLON then Fail
      else
        match ParseValue(lib, c, SkipBlanks(c, colon + 1), depth)
        case Fail => Fail
        case Ok(v, next) => Ok(Member(key, v), next)
  }

  /** One or more comma separated members and the closing brace. */
  function ParseMembers(lib: NumberLib, c: bytes, o: nat, depth: nat): (p: Parsed<seq<Member>>)
    requires Terminated(c) && o < |c|
    ensures p.Ok? ==> o < p.next < |c| && |p.value| > 0
    decreases |c| - o, 3
  {
    match ParseMember(lib, c, o, depth)
    case Fail => Fail
    case Ok(m, after) =>
      var next := SkipBlanks(c, after);
      if c[next] == COMMA then
        match ParseMembers(lib, c, next + 1, depth)
        case Fail => Fail
        case Ok(rest, end) => Ok([m] + rest, end)
      else if c[next] == RBRACE then Ok([m], next + 1)
      else Fail
  }

  /** The bytes of a UTF-8 byte order mark. */
  const BOM: bytes := [0xEF, 0xBB, 0xBF]

  /** Where the first value of a document starts. */
  function DocumentStart(c: bytes): (o: nat)
    requires Terminated(c)
    ensures o < |c|
  {
    SkipBlanks(c, if 4 < |c| && At(c, 0, BOM) then 3 else 0)
  }

  /** cJSON_ParseWithOpts on a C string; `strict` asks that nothing follows the value. */
  function ParseDocument(lib: NumberLib, text: bytes, strict: bool): Option<Json> {
    var c := CString(text) + [NUL];
    match ParseValue(lib, c, DocumentStart(c), 0)
    case Fail => None
    case Ok(v, next) => if strict && c[SkipBlanks(c, next)] != NUL then None else Some(v)
  }

  /** Where a parse that succeeds has come to; a strict one has come to the end. */
  function DocumentEnd(lib: NumberLib, text: bytes, strict: bool): (end: nat)
    requires ParseDocument(lib, text, strict).Some?
    ensures end <= |CString(text)| && (strict ==> end == |CString(text)|)
  {
    var c := CString(text) + [NUL];
    var next := ParseValue(lib, c, DocumentStart(c), 0).next;
    if strict then SkipBlanks(c, next) else next
  }
}
