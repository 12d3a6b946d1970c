/** JSON items and the text cJSON prints for them. */
module JsonModel {
  import opened Bytes
  import opened JsonNumber

  const QUOTE: byte := 34
  const PLUS: byte := 43
  const COMMA: byte := 44
  const MINUS: byte := 45
  const DOT: byte := 46
  const COLON: byte := 58
  const LBRACKET: byte := 91
  const BACKSLASH: byte := 92
  const RBRACKET: byte := 93
  const LOWER_U: byte := 117
  const LBRACE: byte := 123
  const RBRACE: byte := 125
  const TAB: byte := 9
  const NEWLINE: byte := 10
  const SPACE: byte := 32

  const NULL_TEXT: bytes := [110, 117, 108, 108]
  const FALSE_TEXT: bytes := [102, 97, 108, 115, 101]
  const TRUE_TEXT: bytes := [116, 114, 117, 101]

  /** A C double, identified by its bit pattern. */
  type Double = int

  datatype Json =
    | Null
    | False
    | True
    | Number(d: Double)
    | Text(s: bytes)
    | Array(items: seq<Json>)
    | Object(members: seq<Member>)

  datatype Member = Member(key: bytes, value: Json)

  /**
   * The number routines of the C library: whether a double is finite, how
   * `%1.15g` and `%1.17g` print it, and the double `strtod` reads from a text.
   */
  datatype NumberLib = NumberLib(finite: Double -> bool,
                                 print15: Double -> bytes,
                                 print17: Double -> bytes,
                                 read: bytes -> Double)
  {
    /**
     * What the C standard promises: finite doubles print as JSON numbers that fit
     * print_number's buffer, and seventeen digits identify a double.
     */
    ghost predicate Valid() {
      forall d :: finite(d) ==>
                    IsNumeral(print15(d)) && IsNumeral(print17(d)) && read(print17(d)) == d
    }

    /** The numeral print_number chooses for a finite double. */
    function Numeral(d: Double): bytes {
      if read(print15(d)) == d then print15(d) else print17(d)
    }
  }

  predicate IsDigit(b: byte) { 48 <= b <= 57 }

  /** The bytes parse_number copies for strtod. */
  predicate IsNumberByte(b: byte) {
    IsDigit(b) || b == PLUS || b == MINUS || b == 101 || b == 69 || b == DOT
  }

  /** End of the run of digits that starts at `i`. */
  function DigitsEnd(t: bytes, i: nat): (k: nat)
    requires i <= |t|
    ensures i <= k <= |t|
    decreases |t| - i
  {
    if i < |t| && IsDigit(t[i]) then DigitsEnd(t, i + 1) else i
  }

  /** How much of `t` strtod consumes: the longest decimal floating literal, or nothing. */
  function StrtodEnd(t: bytes): (k: nat)
    ensures k <= |t|
  {
    var sign := if t != [] && (t[0] == PLUS || t[0] == MINUS) then 1 else 0;
    var whole := DigitsEnd(t, sign);
    var mantissa := if whole < |t| && t[whole] == DOT then DigitsEnd(t, whole + 1) else whole;
    if whole == sign && mantissa <= whole + 1 then 0
    else if mantissa < |t| && (t[mantissa] == 101 || t[mantissa] == 69) then
      var first := if mantissa + 1 < |t| && (t[mantissa + 1] == PLUS || t[mantissa + 1] == MINUS)
                   then mantissa + 2 else mantissa + 1;
      var end := DigitsEnd(t, first);
      if end > first then end else mantissa
    else mantissa
  }

  /** A number of RFC 8259 that fits the buffer of print_number. */
  ghost predicate IsNumeral(t: bytes) {
    |t| <= 25 && exists n: NumberText :: IsNumber(n) && WriteNumber(n) == t
  }

  function HexDigit(v: nat): (b: byte)
    requires v < 16
  {
    if v < 10 then 48 + v else 87 + v
  }

  /** The bytes print_string_ptr writes for one byte of a string. */
  function EscapeByte(b: byte): (r: bytes)
    ensures NulFree(r) || b == NUL
  {
    if b == QUOTE || b == BACKSLASH then [BACKSLASH, b]
    else if b == 8 then [BACKSLASH, 98]
    else if b == 12 then [BACKSLASH, 102]
    else if b == NEWLINE then [BACKSLASH, 110]
    else if b == 13 then [BACKSLASH, 114]
    else if b == TAB then [BACKSLASH, 116]
    else if b < 32 then [BACKSLASH, LOWER_U, 48, 48, HexDigit(b / 16), HexDigit(b % 16)]
    else [b]
  }

  function Escape(s: bytes): bytes {
    if s == [] then [] else EscapeByte(s[0]) + Escape(s[1..])
  }

  function Quoted(s: bytes): bytes {
    [QUOTE] + Escape(s) + [QUOTE]
  }

  function Tabs(n: nat): bytes {
    seq(n, _ => TAB)
  }

  /** The text of an item printed at nesting depth `depth`. */
  function Render(lib: NumberLib, j: Json, fmt: bool, depth: nat): bytes
    decreases j
  {
    match j
    case Null => NULL_TEXT
    case False => FALSE_TEXT
    case True => TRUE_TEXT
    case Number(d) => if lib.finite(d) then lib.Numeral(d) else NULL_TEXT
    case Text(s) => Quoted(s)
    case Array(items) =>
      [LBRACKET] + RenderItems(lib, items, 0, fmt, depth + 1) + [RBRACKET]
    case Object(members) =>
      OpenBrace(fmt) + RenderMembers(lib, members, 0, fmt, depth + 1) + CloseBrace(fmt, depth)
  }

  function OpenBrace(fmt: bool): bytes {
    if fmt then [LBRACE, NEWLINE] else [LBRACE]
  }

  function CloseBrace(fmt: bool, depth: nat): bytes {
    (if fmt then Tabs(depth) else []) + [RBRACE]
  }

  function ItemSeparator(fmt: bool): bytes {
    if fmt then [COMMA, SPACE] else [COMMA]
  }

  /** The elements of an array from index `i` on. */
  function RenderItems(lib: NumberLib, items: seq<Json>, i: nat, fmt: bool, depth: nat): bytes
    requires i <= |items|
    decreases items, |items| - i
  {
    if i == |items| then []
    else Render(lib, items[i], fmt, depth)
         + (if i + 1 < |items| then ItemSeparator(fmt) else [])
         + RenderItems(lib, items, i + 1, fmt, depth)
  }

  /** What stands between a key and its value. */
  function KeySeparator(fmt: bool): bytes {
    if fmt then [COLON, TAB] else [COLON]
  }

  /** What ends a member: a comma unless it is the last one, a newline when formatted. */
  function MemberEnd(fmt: bool, last: bool): bytes {
    (if last then [] else [COMMA]) + (if fmt then [NEWLINE] else [])
  }

  /** The members of an object from index `i` on. */
  function RenderMembers(lib: NumberLib, members: seq<Member>, i: nat, fmt: bool, depth: nat): bytes
    requires i <= |members|
    decreases members, |members| - i
  {
    if i == |members| then []
    else (if fmt then Tabs(depth) else [])
         + Quoted(members[i].key)
         + KeySeparator(fmt)
         + Render(lib, members[i].value, fmt, depth)
         + MemberEnd(fmt, i + 1 == |members|)
         + RenderMembers(lib, members, i + 1, fmt, depth)
  }

  /** Every string and key of the item is a C string. */
  predicate Clean(j: Json)
    decreases j
  {
    match j
    case Text(s) => NulFree(s)
    case Array(items) => forall i :: 0 <= i < |items| ==> Clean(items[i])
    case Object(members) =>
      forall i :: 0 <= i < |members| ==> NulFree(members[i].key) && Clean(members[i].value)
    case _ => true
  }

  /** How many arrays and objects are nested in each other. */
  function Height(j: Json): nat
    decreases j
  {
    match j
    case Array(items) => 1 + ItemsHeight(items, 0)
    case Object(members) => 1 + MembersHeight(members, 0)
    case _ => 0
  }

  function Max(a: nat, b: nat): nat { if a < b then b else a }

  function ItemsHeight(items: seq<Json>, i: nat): nat
    requires i <= |items|
    decreases items, |items| - i
  {
    if i == |items| then 0 else Max(Height(items[i]), ItemsHeight(items, i + 1))
  }

  function MembersHeight(members: seq<Member>, i: nat): nat
    requires i <= |members|
    decreases members, |members| - i
  {
    if i == |members| then 0 else Max(Height(members[i].value), MembersHeight(members, i + 1))
  }

  /** The item with every number that is not finite replaced by null. */
  function Printable(lib: NumberLib, j: Json): Json
    decreases j
  {
    match j
    case Number(d) => if lib.finite(d) then j else Null
    case Array(items) => Array(PrintableItems(lib, items, 0))
    case Object(members) => Object(PrintableMembers(lib, members, 0))
    case _ => j
  }

  function PrintableItems(lib: NumberLib, items: seq<Json>, i: nat): seq<Json>
    requires i <= |items|
    decreases items, |items| - i
  {
    if i == |items| then []
    else [Printable(lib, items[i])] + PrintableItems(lib, items, i + 1)
  }

  function PrintableMembers(lib: NumberLib, members: seq<Member>, i: nat): seq<Member>
    requires i <= |members|
    decreases members, |members| - i
  {
    if i == |members| then []
    else [Member(members[i].key, Printable(lib, members[i].value))] + PrintableMembers(lib, members, i + 1)
  }

  /** Every number in the item is finite. */
  predicate Finite(lib: NumberLib, j: Json)
    decreases j
  {
    match j
    case Number(d) => lib.finite(d)
    case Array(items) => forall i :: 0 <= i < |items| ==> Finite(lib, items[i])
    case Object(members) => forall i :: 0 <= i < |members| ==> Finite(lib, members[i].value)
    case _ => true
  }
}
