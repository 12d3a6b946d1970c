/** cJSON's parser reads every text of RFC 8259 within its limits, and reads what it means. */
module JsonAccepts {
  import opened Bytes
  import opened JsonNumber
  import opened JsonModel
  import opened JsonGrammar
  import opened JsonUnicode
  import opened JsonText

  // ----- White space ---------------------------------------------------------

  /** Skipping from `o` stops at `a` when only blanks lie between and `a` is no blank. */
  lemma SkipTo(c: bytes, o: nat, a: nat)
    requires Terminated(c) && o <= a < |c|
    requires forall k :: o <= k < a ==> c[k] <= 32
    requires c[a] > 32
    ensures SkipBlanks(c, o) == a
  {
    hide BlankEnd;
    BlankEndIsFirst(c, o);
    var r := BlankEnd(c, o);
    assert a <= r;
    assert r <= a;
  }

  lemma BlankAt(c: bytes, o: nat, s: bytes)
    requires At(c, o, s) && Blank(s)
    ensures forall k :: o <= k < o + |s| ==> c[k] <= 32 && !IsNumberByte(c[k])
  {
    forall k | o <= k < o + |s|
      ensures c[k] <= 32 && !IsNumberByte(c[k])
    {
      AtByte(c, o, s, k - o);
    }
  }

  // ----- Numbers -------------------------------------------------------------

  lemma {:induction false} NumberRunIs(c: bytes, o: nat, k: nat, limit: nat)
    requires o + k < |c| && k <= limit
    requires forall i :: o <= i < o + k ==> IsNumberByte(c[i])
    requires k == limit || !IsNumberByte(c[o + k])
    ensures NumberRun(c, o, limit) == o + k
    decreases k
  {
    if k > 0 {
      NumberRunIs(c, o + 1, k - 1, limit - 1);
    }
  }

  lemma {:induction false} DigitsEndIs(t: bytes, i: nat, k: nat)
    requires i <= k <= |t| && (forall j :: i <= j < k ==> IsDigit(t[j])) && (k < |t| ==> !IsDigit(t[k]))
    ensures DigitsEnd(t, i) == k
    decreases k - i
  {
    if i < k { DigitsEndIs(t, i + 1, k); }
  }

  lemma NumberBytes(n: NumberText)
    requires IsNumber(n)
    ensures var t := WriteNumber(n);
            && t != [] && (t[0] == MINUS || IsDigit(t[0]))
            && forall i :: 0 <= i < |t| ==> IsNumberByte(t[i])
  {
    var sign := SignText(if n.minus then Some(true) else None);
    assert forall i :: 0 <= i < |sign| ==> IsNumberByte(sign[i]);
    assert forall i :: 0 <= i < |n.whole| ==> IsNumberByte(n.whole[i]);
    ExponentBytes(n.exp);
    FractionBytes(n.frac);
    assert WriteNumber(n)[|sign|] == n.whole[0];
  }

  lemma FractionBytes(frac: Option<bytes>)
    requires frac.Some? ==> Digits(frac.value)
    ensures forall i :: 0 <= i < |FractionText(frac)| ==> IsNumberByte(FractionText(frac)[i])
  {
  }

  lemma ExponentBytes(exp: Option<Exponent>)
    requires exp.Some? ==> Digits(exp.value.digits)
    ensures forall i :: 0 <= i < |ExponentText(exp)| ==> IsNumberByte(ExponentText(exp)[i])
  {
  }

  function Minus(n: NumberText): bytes {
    SignText(if n.minus then Some(true) else None)
  }

  /** The parts of a number, character by character. */
  lemma NumberParts(n: NumberText)
    ensures var t, w, f, e := WriteNumber(n), |Minus(n)|, FractionText(n.frac), ExponentText(n.exp);
            var m := w + |n.whole|;
            && |t| == m + |f| + |e|
            && (forall j :: 0 <= j < w ==> t[j] == Minus(n)[j])
            && (forall j :: w <= j < m ==> t[j] == n.whole[j - w])
            && (forall j :: m <= j < m + |f| ==> t[j] == f[j - m])
            && (forall j :: m + |f| <= j < |t| ==> t[j] == e[j - m - |f|])
  {
  }

  lemma WholeEnds(n: NumberText)
    requires IsNumber(n)
    ensures var t, w := WriteNumber(n), |Minus(n)|;
            w == (if t != [] && (t[0] == PLUS || t[0] == MINUS) then 1 else 0) && DigitsEnd(t, w) == w + |n.whole|
  {
    hide WriteNumber;
    hide DigitsEnd;
    NumberParts(n);
    DigitsEndIs(WriteNumber(n), |Minus(n)|, |Minus(n)| + |n.whole|);
  }

  lemma FractionEnds(n: NumberText)
    requires IsNumber(n)
    ensures var t, m := WriteNumber(n), |Minus(n)| + |n.whole|;
            (if m < |t| && t[m] == DOT then DigitsEnd(t, m + 1) else m) == m + |FractionText(n.frac)|
  {
    hide WriteNumber;
    hide DigitsEnd;
    NumberParts(n);
    var m := |Minus(n)| + |n.whole|;
    if n.frac.Some? {
      DigitsEndIs(WriteNumber(n), m + 1, m + |FractionText(n.frac)|);
    }
  }

  lemma ExponentEnds(n: NumberText)
    requires IsNumber(n) && n.exp.Some?
    ensures var t, x := WriteNumber(n), |Minus(n)| + |n.whole| + |FractionText(n.frac)|;
            && x < |t| && (t[x] == 101 || t[x] == 69)
            && var first := if x + 1 < |t| && (t[x + 1] == PLUS || t[x + 1] == MINUS) then x + 2 else x + 1;
               first < |t| && DigitsEnd(t, first) == |t|
  {
    hide WriteNumber;
    hide DigitsEnd;
    hide FractionText;
    hide ExponentText;
    hide Digits;
    NumberParts(n);
    ExponentParts(n.exp.value);
    var t, x := WriteNumber(n), |Minus(n)| + |n.whole| + |FractionText(n.frac)|;
    var e, first := ExponentText(n.exp), |t| - |n.exp.value.digits|;
    assert t[x] == e[0] && t[x + 1] == e[1];
    forall j | first <= j < |t| ensures IsDigit(t[j]) {
      assert t[j] == e[j - x];
    }
    DigitsEndIs(t, first, |t|);
  }

  lemma ExponentParts(exp: Exponent)
    requires Digits(exp.digits)
    ensures var e, first := ExponentText(Some(exp)), if exp.minus.Some? then 2 else 1;
            && |e| == first + |exp.digits| > first && (e[0] == 101 || e[0] == 69)
            && (exp.minus.Some? <==> e[1] == PLUS || e[1] == MINUS)
            && forall j :: first <= j < |e| ==> IsDigit(e[j])
  {
    var e, first := ExponentText(Some(exp)), if exp.minus.Some? then 2 else 1;
    assert forall j :: first <= j < |e| ==> e[j] == exp.digits[j - first];
  }

  lemma NumberLength(n: NumberText)
    requires IsNumber(n)
    ensures |WriteNumber(n)| == |Minus(n)| + |n.whole| + |FractionText(n.frac)| + |ExponentText(n.exp)|
    ensures |n.whole| > 0 && (n.exp.None? ==> |ExponentText(n.exp)| == 0)
  {
  }

  /** strtod consumes a JSON number whole. */
  lemma NumberIsWhole(n: NumberText)
    requires IsNumber(n)
    ensures StrtodEnd(WriteNumber(n)) == |WriteNumber(n)|
  {
    hide WriteNumber;
    hide DigitsEnd;
    hide FractionText;
    hide ExponentText;
    hide Minus;
    hide IsNumber;
    NumberLength(n);
    WholeEnds(n);
    FractionEnds(n);
    if n.exp.Some? { ExponentEnds(n); }
  }

  /** A number of at most 63 characters is read whole; of a longer one a part is left behind. */
  lemma NumberAccepted(lib: NumberLib, c: bytes, o: nat, n: NumberText)
    requires Terminated(c) && IsNumber(n)
    requires At(c, o, WriteNumber(n)) && o + |WriteNumber(n)| < |c| && !IsNumberByte(c[o + |WriteNumber(n)|])
    ensures var p := ParseNumber(lib, c, o);
            if |WriteNumber(n)| <= MAX_NUMBER then p == Ok(Number(lib.read(WriteNumber(n))), o + |WriteNumber(n)|)
            else p.Fail? || (p.next < o + |WriteNumber(n)| && IsNumberByte(c[p.next]))
  {
    hide NumberRun;
    hide StrtodEnd;
    hide WriteNumber;
    var t := WriteNumber(n);
    NumberBytes(n);
    NumberIsWhole(n);
    forall i | o <= i < o + |t|
      ensures IsNumberByte(c[i])
    {
      AtByte(c, o, t, i - o);
    }
    NumberRunIs(c, o, if |t| <= MAX_NUMBER then |t| else MAX_NUMBER, NUMBER_MAX);
    assert t[..|t|] == t;
  }

  // ----- Strings -------------------------------------------------------------

  /** The digits of an escape are neither quote nor backslash. */
  lemma UnitSkipped(c: bytes, o: nat, s: bytes, v: nat)
    requires At(c, o, [BACKSLASH, LOWER_U] + s) && SpellsUnit(s, v) && o + 6 <= |c|
    ensures c[o] == BACKSLASH && c[o + 1] == LOWER_U && Hex4(c, o + 2) == v
    ensures ClosingQuote(c, o) == ClosingQuote(c, o + 6)
  {
    hide Hex4;
    AtSplit(c, o, [BACKSLASH, LOWER_U], s);
    AtByte(c, o, [BACKSLASH, LOWER_U], 0);
    AtByte(c, o, [BACKSLASH, LOWER_U], 1);
    AtByte(c, o + 2, s, 0);
    AtByte(c, o + 2, s, 1);
    AtByte(c, o + 2, s, 2);
    AtByte(c, o + 2, s, 3);
    SpelledReads(c, o + 2, v);
    DigitIsPlain(s[0], v / 0x1000);
    DigitIsPlain(s[1], v / 0x100 % 0x10);
    DigitIsPlain(s[2], v / 0x10 % 0x10);
    DigitIsPlain(s[3], v % 0x10);
    assert ClosingQuote(c, o) == ClosingQuote(c, o + 2) == ClosingQuote(c, o + 3);
    assert ClosingQuote(c, o + 3) == ClosingQuote(c, o + 4) == ClosingQuote(c, o + 5);
  }

  lemma DigitIsPlain(b: byte, digit: nat)
    requires Spells(b, digit)
    ensures b != QUOTE && b != BACKSLASH
  {
  }

  /** Every character, escaped as RFC 8259 allows with digits in either case, decodes to its UTF-8 form. */
  lemma EscapedCharacterDecodes(c: bytes, o: nat, end: nat, cp: nat, high: bytes, low: bytes)
    requires var p := Unicode(cp, high, low);
             IsPiece(p) && At(c, o, WritePiece(p)) && o + |WritePiece(p)| <= end < |c|
    ensures var n := |WritePiece(Unicode(cp, high, low))|;
            && ClosingQuote(c, o) == ClosingQuote(c, o + n)
            && Decode(c, o, end) == Prepend(Utf8(cp), Decode(c, o + n, end))
  {
    hide Hex4;
    hide Utf8;
    hide SpellsUnit;
    hide At;
    hide ClosingQuote;
    var unit := [BACKSLASH, LOWER_U] + high;
    UnitLengths(high, low);
    if cp < 0x10000 {
      assert unit + [] == unit;
      UnitSkipped(c, o, high, cp);
    } else {
      var second := [BACKSLASH, LOWER_U] + low;
      AtSplit(c, o, unit, second);
      PairDecodes(c, o, end, cp, high, low);
    }
  }

  lemma PairDecodes(c: bytes, o: nat, end: nat, cp: nat, high: bytes, low: bytes)
    requires 0x10000 <= cp <= 0x10FFFF && o + 12 <= end < |c|
    requires SpellsUnit(high, 0xD800 + (cp - 0x10000) / 0x400) && SpellsUnit(low, 0xDC00 + (cp - 0x10000) % 0x400)
    requires At(c, o, [BACKSLASH, LOWER_U] + high) && At(c, o + 6, [BACKSLASH, LOWER_U] + low)
    ensures ClosingQuote(c, o) == ClosingQuote(c, o + 12)
    ensures Decode(c, o, end) == Prepend(Utf8(cp), Decode(c, o + 12, end))
  {
    hide Hex4;
    hide Utf8;
    hide SpellsUnit;
    hide At;
    hide ClosingQuote;
    hide PairValue;
    var a, b := 0xD800 + (cp - 0x10000) / 0x400, 0xDC00 + (cp - 0x10000) % 0x400;
    UnitSkipped(c, o, high, a);
    UnitSkipped(c, o + 6, low, b);
    PairOf(cp);
    assert ReadLiteral(c, o, end) == Some(Literal(12, cp));
  }

  lemma PairOf(cp: nat)
    requires 0x10000 <= cp <= 0x10FFFF
    ensures var a, b := 0xD800 + (cp - 0x10000) / 0x400, 0xDC00 + (cp - 0x10000) % 0x400;
            IsHighSurrogate(a) && IsLowSurrogate(b) && PairValue(a, b) == cp
  {
  }

  lemma UnitLengths(high: bytes, low: bytes)
    ensures forall v :: SpellsUnit(high, v) ==> |high| == 4
    ensures forall v :: SpellsUnit(low, v) ==> |low| == 4
  {
  }

  /** The escapes of section 7 of RFC 8259 with one letter, and no others. */
  lemma ShortEscapeDecodes(c: bytes, o: nat, k: nat, end: nat)
    requires k < |SHORT_ESCAPES| && o + 2 <= end < |c| && c[o] == 0x5C && c[o + 1] == SHORT_ESCAPES[k].0
    ensures ClosingQuote(c, o) == ClosingQuote(c, o + 2)
    ensures Decode(c, o, end) == Prepend([SHORT_ESCAPES[k].1], Decode(c, o + 2, end))
  {
    assert k in {0, 1, 2, 3, 4, 5, 6, 7};
  }

  lemma OtherEscapeFails(c: bytes, o: nat, end: nat)
    requires o < end < |c| && c[o] == 0x5C && c[o + 1] != 0x75
    requires forall k :: 0 <= k < |SHORT_ESCAPES| ==> c[o + 1] != SHORT_ESCAPES[k].0
    ensures Decode(c, o, end) == None
  {
    assert SHORT_ESCAPES[0].0 == 0x22 && SHORT_ESCAPES[1].0 == 0x5C && SHORT_ESCAPES[2].0 == 0x2F;
    assert SHORT_ESCAPES[3].0 == 0x62 && SHORT_ESCAPES[4].0 == 0x66 && SHORT_ESCAPES[5].0 == 0x6E;
    assert SHORT_ESCAPES[6].0 == 0x72 && SHORT_ESCAPES[7].0 == 0x74;
  }

  lemma PieceDecodes(c: bytes, o: nat, p: Piece, end: nat)
    requires IsPiece(p) && At(c, o, WritePiece(p)) && o + |WritePiece(p)| <= end < |c|
    ensures ClosingQuote(c, o) == ClosingQuote(c, o + |WritePiece(p)|)
    ensures Decode(c, o, end) == Prepend(PieceMeaning(p), Decode(c, o + |WritePiece(p)|, end))
  {
    match p
    case Plain(b) => AtByte(c, o, [b], 0);
    case Short(k) =>
      AtByte(c, o, WritePiece(p), 0);
      AtByte(c, o, WritePiece(p), 1);
      ShortEscapeDecodes(c, o, k, end);
    case Unicode(cp, high, low) => EscapedCharacterDecodes(c, o, end, cp, high, low);
  }

  lemma AtQuote(c: bytes, o: nat)
    requires o < |c| && c[o] == QUOTE
    ensures ClosingQuote(c, o) == Some(o) && Decode(c, o, o) == Some([])
  {
  }

  /** A string is closed where it ends and decodes to its meaning. */
  lemma {:induction false} PiecesDecode(c: bytes, o: nat, s: seq<Piece>)
    requires ArePieces(s) && At(c, o, WritePieces(s)) && o + |WritePieces(s)| < |c| && c[o + |WritePieces(s)|] == QUOTE
    ensures ClosingQuote(c, o) == Some(o + |WritePieces(s)|)
    ensures Decode(c, o, o + |WritePieces(s)|) == Some(PiecesMeaning(s))
    decreases |s|
  {
    hide Decode;
    hide ClosingQuote;
    hide WritePiece;
    hide PieceMeaning;
    hide IsPiece;
    hide At;
    if s == [] {
      AtQuote(c, o);
    } else {
      var w := WritePiece(s[0]);
      AtSplit(c, o, w, WritePieces(s[1..]));
      PieceDecodes(c, o, s[0], o + |WritePieces(s)|);
      PiecesDecode(c, o + |w|, s[1..]);
    }
  }

  lemma StringAccepted(c: bytes, o: nat, s: seq<Piece>)
    requires Terminated(c) && ArePieces(s) && At(c, o, WriteString(s)) && o + |WriteString(s)| < |c|
    ensures ParseString(c, o) == Ok(StringMeaning(s), o + |WriteString(s)|)
  {
    hide At;
    hide WritePieces;
    hide PiecesMeaning;
    hide Decode;
    hide ClosingQuote;
    hide CString;
    AtSplit(c, o, [QUOTE] + WritePieces(s), [QUOTE]);
    AtSplit(c, o, [QUOTE], WritePieces(s));
    AtByte(c, o, [QUOTE], 0);
    AtByte(c, o + 1 + |WritePieces(s)|, [QUOTE], 0);
    PiecesDecode(c, o + 1, s);
  }

  // ----- One value -----------------------------------------------------------

  /** The three literals start with their own letter. */
  lemma NotLiteral(c: bytes, o: nat)
    requires o < |c|
    ensures At(c, o, NULL_TEXT) ==> c[o] == 110
    ensures At(c, o, FALSE_TEXT) ==> c[o] == 102
    ensures At(c, o, TRUE_TEXT) ==> c[o] == 116
  {
    if At(c, o, NULL_TEXT) { AtByte(c, o, NULL_TEXT, 0); }
    if At(c, o, FALSE_TEXT) { AtByte(c, o, FALSE_TEXT, 0); }
    if At(c, o, TRUE_TEXT) { AtByte(c, o, TRUE_TEXT, 0); }
  }

  /** What does not start with the letter of a literal is none. */
  lemma ParseOther(lib: NumberLib, c: bytes, o: nat, depth: nat)
    requires Terminated(c) && o < |c| && c[o] !in {102, 110, 116} && c[o] != LBRACKET && c[o] != LBRACE
    ensures c[o] == QUOTE ==>
              ParseValue(lib, c, o, depth)
              == match ParseString(c, o) { case Fail => Fail case Ok(s, next) => Ok(Text(s), next) }
    ensures c[o] == MINUS || IsDigit(c[o]) ==> ParseValue(lib, c, o, depth) == ParseNumber(lib, c, o)
  {
    hide At;
    hide ParseArray;
    hide ParseObject;
    hide ParseString;
    hide ParseNumber;
    NotLiteral(c, o);
  }

  /** How an array follows from its elements. */
  lemma ArrayFromItems(lib: NumberLib, c: bytes, o: nat, depth: nat, first: nat)
    requires Terminated(c) && o < first < |c| && c[o] == LBRACKET
    requires SkipBlanks(c, o + 1) == first
    ensures ParseValue(lib, c, o, depth)
         == if depth >= NESTING_LIMIT then Fail
            else if c[first] == RBRACKET then Ok(Array([]), first + 1)
            else match ParseItems(lib, c, first, depth + 1)
                 case Fail => Fail
                 case Ok(items, next) => Ok(Array(items), next)
  {
    hide ParseItems;
    NotLiteral(c, o);
  }

  /** How the elements from one on follow from that one and from the rest. */
  lemma ItemsFromItem(lib: NumberLib, c: bytes, o: nat, depth: nat, a: nat, p: Parsed<Json>, next: nat)
    requires Terminated(c) && o < |c| && SkipBlanks(c, o) == a
    requires ParseValue(lib, c, a, depth) == p
    requires p.Ok? ==> p.next < |c| && SkipBlanks(c, p.next) == next
    ensures ParseItems(lib, c, o, depth)
         == match p
            case Fail => Fail
            case Ok(v, _) =>
              if c[next] == COMMA then
                match ParseItems(lib, c, next + 1, depth)
                case Fail => Fail
                case Ok(rest, end) => Ok([v] + rest, end)
              else if c[next] == RBRACKET then Ok([v], next + 1)
              else Fail
  {
    hide ParseValue;
  }

  /** How an object follows from its members. */
  lemma ObjectFromMembers(lib: NumberLib, c: bytes, o: nat, depth: nat, first: nat)
    requires Terminated(c) && o < first < |c| && c[o] == LBRACE
    requires SkipBlanks(c, o + 1) == first
    ensures ParseValue(lib, c, o, depth)
         == if depth >= NESTING_LIMIT then Fail
            else if c[first] == RBRACE then Ok(Object([]), first + 1)
            else match ParseMembers(lib, c, first, depth + 1)
                 case Fail => Fail
                 case Ok(members, next) => Ok(Object(members), next)
  {
    hide ParseMembers;
    NotLiteral(c, o);
  }

  /** How the members from one on follow from that one and from the rest. */
  lemma MembersFromMember(lib: NumberLib, c: bytes, o: nat, depth: nat, p: Parsed<Member>, next: nat)
    requires Terminated(c) && o < |c|
    requires ParseMember(lib, c, o, depth) == p
    requires p.Ok? ==> p.next < |c| && SkipBlanks(c, p.next) == next
    ensures ParseMembers(lib, c, o, depth)
         == match p
            case Fail => Fail
            case Ok(m, _) =>
              if c[next] == COMMA then
                match ParseMembers(lib, c, next + 1, depth)
                case Fail => Fail
                case Ok(rest, end) => Ok([m] + rest, end)
              else if c[next] == RBRACE then Ok([m], next + 1)
              else Fail
  {
    hide ParseMember;
  }

  /** How a member follows from its key and its value. */
  lemma MemberFromParts(lib: NumberLib, c: bytes, o: nat, depth: nat, q: nat, key: bytes, end: nat, colon: nat, v: nat)
    requires Terminated(c) && o < |c| && SkipBlanks(c, o) == q
    requires q < end < |c| && ParseString(c, q) == Ok(key, end)
    requires SkipBlanks(c, end) == colon && c[colon] == COLON && SkipBlanks(c, colon + 1) == v
    ensures ParseMember(lib, c, o, depth)
         == match ParseValue(lib, c, v, depth)
            case Fail => Fail
            case Ok(j, next) => Ok(Member(key, j), next)
  {
    hide ParseValue;
    hide ParseString;
  }

  // ----- Every text ----------------------------------------------------------

  /** Within the limits the parse gives the meaning and the end; otherwise it fails or stops inside a number. */
  predicate Accepted(lib: NumberLib, c: bytes, t: Syntax, room: nat, p: Parsed<Json>, end: nat)
    requires IsText(t) && end < |c|
  {
    if Fits(t, room) then p == Ok(Meaning(lib, t), end)
    else p.Fail? || (t.NumberOf? && p.next < end && IsNumberByte(c[p.next]))
  }

  /** A text starts with a visible ASCII character that closes nothing. */
  lemma WriteStart(t: Syntax)
    requires IsText(t)
    ensures |Write(t)| > 0 && 32 < Write(t)[0] < 128 && Write(t)[0] != RBRACKET && Write(t)[0] != RBRACE
  {
    hide WriteElements;
    hide WritePairs;
    hide WritePieces;
    if t.NumberOf? { NumberBytes(t.n); }
  }

  lemma LiteralAccepted(lib: NumberLib, c: bytes, o: nat, t: Syntax, depth: nat)
    requires Terminated(c) && (t.NullText? || t.FalseText? || t.TrueText?) && depth <= NESTING_LIMIT
    requires At(c, o, Write(t)) && o + |Write(t)| < |c|
    ensures Accepted(lib, c, t, NESTING_LIMIT - depth, ParseValue(lib, c, o, depth), o + |Write(t)|)
  {
    hide ParseArray;
    hide ParseObject;
    hide ParseString;
    hide ParseNumber;
    AtByte(c, o, Write(t), 0);
    NotLiteral(c, o);
  }

  lemma NumberTextAccepted(lib: NumberLib, c: bytes, o: nat, t: Syntax, depth: nat)
    requires Terminated(c) && t.NumberOf? && IsNumber(t.n) && depth <= NESTING_LIMIT
    requires At(c, o, Write(t)) && o + |Write(t)| < |c| && !IsNumberByte(c[o + |Write(t)|])
    ensures Accepted(lib, c, t, NESTING_LIMIT - depth, ParseValue(lib, c, o, depth), o + |Write(t)|)
  {
    hide ParseValue;
    hide ParseNumber;
    hide WriteNumber;
    NumberBytes(t.n);
    AtByte(c, o, WriteNumber(t.n), 0);
    ParseOther(lib, c, o, depth);
    NumberAccepted(lib, c, o, t.n);
  }

  lemma StringTextAccepted(lib: NumberLib, c: bytes, o: nat, t: Syntax, depth: nat)
    requires Terminated(c) && t.StringOf? && ArePieces(t.s) && depth <= NESTING_LIMIT
    requires At(c, o, Write(t)) && o + |Write(t)| < |c|
    ensures Accepted(lib, c, t, NESTING_LIMIT - depth, ParseValue(lib, c, o, depth), o + |Write(t)|)
  {
    hide ParseValue;
    hide ParseString;
    hide WritePieces;
    hide StringMeaning;
    AtByte(c, o, WriteString(t.s), 0);
    ParseOther(lib, c, o, depth);
    StringAccepted(c, o, t.s);
  }

  /** Every text, at any offset and depth. */
  lemma {:induction false} TextAccepted(lib: NumberLib, c: bytes, o: nat, t: Syntax, depth: nat)
    requires Terminated(c) && IsText(t) && depth <= NESTING_LIMIT
    requires At(c, o, Write(t)) && o + |Write(t)| < |c| && !IsNumberByte(c[o + |Write(t)|])
    ensures Accepted(lib, c, t, NESTING_LIMIT - depth, ParseValue(lib, c, o, depth), o + |Write(t)|)
    decreases t, 2
  {
    hide ParseValue;
    hide Accepted;
    match t
    case ArrayOf(_, _) => ArrayAccepted(lib, c, o, t, depth);
    case ObjectOf(_, _) => ObjectAccepted(lib, c, o, t, depth);
    case NumberOf(_) => NumberTextAccepted(lib, c, o, t, depth);
    case StringOf(_) => StringTextAccepted(lib, c, o, t, depth);
    case _ => LiteralAccepted(lib, c, o, t, depth);
  }

  /** A pair of brackets around `body`. */
  lemma Bracketed(c: bytes, o: nat, open: byte, body: bytes, close: byte)
    requires At(c, o, [open] + body + [close])
    ensures c[o] == open && At(c, o + 1, body) && o + 1 + |body| < |c| && c[o + 1 + |body|] == close
  {
    AtSplit(c, o, [open] + body, [close]);
    AtSplit(c, o, [open], body);
    AtByte(c, o, [open], 0);
    AtByte(c, o + 1 + |body|, [close], 0);
  }

  /** The parts of an element: where its value starts and ends, and what follows. */
  lemma ElementAt(c: bytes, b: nat, elements: seq<Element>, i: nat)
    requires i < |elements| && (forall k :: 0 <= k < |elements| ==> IsElement(elements[k]))
    requires At(c, b, WriteElements(elements, i))
    ensures IsElement(elements[i])
    ensures var e := elements[i];
            var a := b + |e.before|;
            var v := a + |Write(e.value)|;
            var d := v + |e.after|;
            && At(c, b, e.before) && At(c, a, Write(e.value)) && At(c, v, e.after)
            && At(c, d, Comma(i + 1 == |elements|))
            && At(c, d + |Comma(i + 1 == |elements|)|, WriteElements(elements, i + 1))
            && b + |WriteElements(elements, i)|
               == d + |Comma(i + 1 == |elements|)| + |WriteElements(elements, i + 1)|
            && (i + 1 == |elements| ==> WriteElements(elements, i + 1) == [])
  {
    hide At;
    hide Write;
    assert IsElement(elements[i]);
    var e := elements[i];
    var w, sep, rest := Write(e.value), Comma(i + 1 == |elements|), WriteElements(elements, i + 1);
    AtSplit(c, b, e.before + w + e.after + sep, rest);
    AtSplit(c, b, e.before + w + e.after, sep);
    AtSplit(c, b, e.before + w, e.after);
    AtSplit(c, b, e.before, w);
  }

  /** What an array is written as, what it means and when it fits. */
  lemma ArrayUnfold(lib: NumberLib, t: Syntax, room: nat)
    requires IsText(t) && t.ArrayOf?
    ensures Blank(t.blank) && forall k :: 0 <= k < |t.elements| ==> IsElement(t.elements[k])
    ensures Write(t) == [LBRACKET] + (if t.elements == [] then t.blank else WriteElements(t.elements, 0)) + [RBRACKET]
    ensures Meaning(lib, t) == Array(ElementsMeaning(lib, t.elements, 0))
    ensures Fits(t, room) <==> room > 0 && ElementsFit(t.elements, 0, room - 1)
    ensures t.elements == [] ==> ElementsMeaning(lib, t.elements, 0) == [] && (room > 0 ==> Fits(t, room))
  {
  }

  lemma ObjectUnfold(lib: NumberLib, t: Syntax, room: nat)
    requires IsText(t) && t.ObjectOf?
    ensures Blank(t.blank) && forall k :: 0 <= k < |t.pairs| ==> IsPair(t.pairs[k])
    ensures Write(t) == [LBRACE] + (if t.pairs == [] then t.blank else WritePairs(t.pairs, 0)) + [RBRACE]
    ensures Meaning(lib, t) == Object(PairsMeaning(lib, t.pairs, 0))
    ensures Fits(t, room) <==> room > 0 && PairsFit(t.pairs, 0, room - 1)
    ensures t.pairs == [] ==> PairsMeaning(lib, t.pairs, 0) == [] && (room > 0 ==> Fits(t, room))
  {
  }

  lemma {:induction false} ArrayAccepted(lib: NumberLib, c: bytes, o: nat, t: Syntax, depth: nat)
    requires Terminated(c) && IsText(t) && t.ArrayOf? && depth <= NESTING_LIMIT
    requires At(c, o, Write(t)) && o + |Write(t)| < |c|
    ensures Accepted(lib, c, t, NESTING_LIMIT - depth, ParseValue(lib, c, o, depth), o + |Write(t)|)
    decreases t, 1
  {
    hide At;
    hide ParseValue;
    hide ParseItems;
    hide Write;
    hide WriteElements;
    hide Meaning;
    hide ElementsMeaning;
    hide Fits;
    hide ElementsFit;
    hide SkipBlanks;
    hide IsText;
    var elements := t.elements;
    ArrayUnfold(lib, t, NESTING_LIMIT - depth);
    var body := if elements == [] then t.blank else WriteElements(elements, 0);
    Bracketed(c, o, LBRACKET, body, RBRACKET);
    if elements == [] {
      BlankAt(c, o + 1, t.blank);
      SkipTo(c, o + 1, o + 1 + |body|);
      ArrayFromItems(lib, c, o, depth, o + 1 + |body|);
    } else {
      ElementAt(c, o + 1, elements, 0);
      var first := o + 1 + |elements[0].before|;
      ElementStart(c, o + 1, elements, 0, o + 1);
      ArrayFromItems(lib, c, o, depth, first);
      if depth < NESTING_LIMIT {
        ElementsAccepted(lib, c, first, o + 1, elements, 0, depth + 1);
      }
    }
  }

  /** From anywhere in the white space before it, an element is found. */
  lemma ElementStart(c: bytes, b: nat, elements: seq<Element>, i: nat, o: nat)
    requires Terminated(c) && i < |elements| && (forall k :: 0 <= k < |elements| ==> IsElement(elements[k]))
    requires At(c, b, WriteElements(elements, i)) && b <= o <= b + |elements[i].before|
    ensures var a := b + |elements[i].before|;
            a < |c| && SkipBlanks(c, o) == a && c[a] > 32 && c[a] != RBRACKET
  {
    hide SkipBlanks;
    hide Write;
    hide WriteElements;
    ElementAt(c, b, elements, i);
    var e := elements[i];
    BlankAt(c, b, e.before);
    WriteStart(e.value);
    AtByte(c, b + |e.before|, Write(e.value), 0);
    SkipTo(c, o, b + |e.before|);
  }

  /** How the elements from one on unfold. */
  lemma ElementsUnfold(lib: NumberLib, elements: seq<Element>, i: nat, room: nat)
    requires i < |elements| && forall k :: 0 <= k < |elements| ==> IsElement(elements[k])
    ensures IsElement(elements[i])
    ensures ElementsMeaning(lib, elements, i)
         == [Meaning(lib, elements[i].value)] + ElementsMeaning(lib, elements, i + 1)
    ensures ElementsFit(elements, i, room) <==> Fits(elements[i].value, room) && ElementsFit(elements, i + 1, room)
    ensures i + 1 == |elements| ==>
              && ElementsMeaning(lib, elements, i) == [Meaning(lib, elements[i].value)]
              && ElementsFit(elements, i + 1, room)
  {
    assert IsElement(elements[i]);
  }

  lemma {:induction false} ElementsAccepted(lib: NumberLib, c: bytes, o: nat, b: nat, elements: seq<Element>, i: nat,
                                            depth: nat)
    requires Terminated(c) && depth <= NESTING_LIMIT
    requires i < |elements| && (forall k :: 0 <= k < |elements| ==> IsElement(elements[k]))
    requires At(c, b, WriteElements(elements, i)) && b <= o <= b + |elements[i].before|
    requires b + |WriteElements(elements, i)| < |c| && c[b + |WriteElements(elements, i)|] == RBRACKET
    ensures ParseItems(lib, c, o, depth)
         == if ElementsFit(elements, i, NESTING_LIMIT - depth)
            then Ok(ElementsMeaning(lib, elements, i), b + |WriteElements(elements, i)| + 1) else Fail
    decreases elements, |elements| - i
  {
    hide At;
    hide ParseValue;
    hide ParseItems;
    hide Write;
    hide WriteElements;
    hide Meaning;
    hide ElementsMeaning;
    hide Fits;
    hide ElementsFit;
    hide SkipBlanks;
    hide IsText;
    var e, room, last := elements[i], NESTING_LIMIT - depth, i + 1 == |elements|;
    ElementAt(c, b, elements, i);
    ElementStart(c, b, elements, i, o);
    ElementsUnfold(lib, elements, i, room);
    var a := b + |e.before|;
    var v := a + |Write(e.value)|;
    var d := v + |e.after|;
    AfterAt(c, v, e.after, last, RBRACKET);
    TextAccepted(lib, c, a, e.value, depth);
    var p := ParseValue(lib, c, a, depth);
    if Fits(e.value, room) {
      ItemsFromItem(lib, c, o, depth, a, p, d);
      if !last {
        ElementsAccepted(lib, c, d + 1, d + 1, elements, i + 1, depth);
      }
    } else if p.Ok? {
      SkipTo(c, p.next, p.next);
      ItemsFromItem(lib, c, o, depth, a, p, p.next);
    } else {
      ItemsFromItem(lib, c, o, depth, a, p, 0);
    }
  }

  /** Behind a value come white space and then a comma, or what closes the array or object. */
  lemma AfterAt(c: bytes, v: nat, after: bytes, last: bool, close: byte)
    requires Terminated(c) && At(c, v, after) && Blank(after) && At(c, v + |after|, Comma(last))
    requires last ==> v + |after| < |c| && c[v + |after|] == close
    requires close == RBRACKET || close == RBRACE
    ensures var d := v + |after|;
            && d < |c| && c[d] == (if last then close else COMMA)
            && SkipBlanks(c, v) == d && !IsNumberByte(c[v])
  {
    hide SkipBlanks;
    BlankAt(c, v, after);
    if !last { AtByte(c, v + |after|, [COMMA], 0); }
    SkipTo(c, v, v + |after|);
  }

  // ----- Objects -------------------------------------------------------------

  /** The offsets of the parts of a pair that is written at `b`. */
  datatype Places = Places(key: nat, keyEnd: nat, colon: nat, value: nat, valueEnd: nat, end: nat)

  function PlacesOf(p: Pair, b: nat): Places
    requires IsPair(p)
  {
    var key := b + |p.before|;
    var keyEnd := key + |WriteString(p.key)|;
    var colon := keyEnd + |p.beforeColon|;
    var value := colon + 1 + |p.afterColon|;
    var valueEnd := value + |Write(p.value)|;
    Places(key, keyEnd, colon, value, valueEnd, valueEnd + |p.after|)
  }

  predicate PairAt(c: bytes, b: nat, p: Pair)
    requires IsPair(p)
  {
    var at := PlacesOf(p, b);
    && At(c, b, p.before) && At(c, at.key, WriteString(p.key)) && At(c, at.keyEnd, p.beforeColon)
    && At(c, at.colon, [COLON]) && At(c, at.colon + 1, p.afterColon) && At(c, at.value, Write(p.value))
    && At(c, at.valueEnd, p.after)
  }

  lemma PairParts(c: bytes, b: nat, before: bytes, key: bytes, beforeColon: bytes, colon: bytes, afterColon: bytes,
                  value: bytes, after: bytes, comma: bytes, rest: bytes)
    requires At(c, b, before + key + beforeColon + colon + afterColon + value + after + comma + rest)
    ensures At(c, b, before) && At(c, b + |before|, key) && At(c, b + |before| + |key|, beforeColon)
    ensures var k := b + |before| + |key| + |beforeColon|;
            && At(c, k, colon) && At(c, k + |colon|, afterColon)
            && At(c, k + |colon| + |afterColon|, value)
            && At(c, k + |colon| + |afterColon| + |value|, after)
            && At(c, k + |colon| + |afterColon| + |value| + |after|, comma)
            && At(c, k + |colon| + |afterColon| + |value| + |after| + |comma|, rest)
  {
    hide At;
    var head := before + key + beforeColon + colon + afterColon;
    AtSplit(c, b, head + value + after + comma, rest);
    AtSplit(c, b, head + value + after, comma);
    AtSplit(c, b, head + value, after);
    AtSplit(c, b, head, value);
    AtSplit(c, b, before + key + beforeColon + colon, afterColon);
    AtSplit(c, b, before + key + beforeColon, colon);
    AtSplit(c, b, before + key, beforeColon);
    AtSplit(c, b, before, key);
  }

  lemma PairsAt(c: bytes, b: nat, pairs: seq<Pair>, i: nat)
    requires i < |pairs| && (forall k :: 0 <= k < |pairs| ==> IsPair(pairs[k]))
    requires At(c, b, WritePairs(pairs, i))
    ensures IsPair(pairs[i]) && PairAt(c, b, pairs[i])
    ensures var d := PlacesOf(pairs[i], b).end;
            && At(c, d, Comma(i + 1 == |pairs|))
            && At(c, d + |Comma(i + 1 == |pairs|)|, WritePairs(pairs, i + 1))
            && b + |WritePairs(pairs, i)| == d + |Comma(i + 1 == |pairs|)| + |WritePairs(pairs, i + 1)|
            && (i + 1 == |pairs| ==> WritePairs(pairs, i + 1) == [])
  {
    hide At;
    hide Write;
    hide WriteString;
    assert IsPair(pairs[i]);
    var p := pairs[i];
    PairParts(c, b, p.before, WriteString(p.key), p.beforeColon, [COLON], p.afterColon, Write(p.value), p.after,
              Comma(i + 1 == |pairs|), WritePairs(pairs, i + 1));
  }

  /** From anywhere in the white space before it, the key of a pair is found. */
  lemma KeyStart(c: bytes, b: nat, p: Pair, o: nat)
    requires Terminated(c) && IsPair(p) && PairAt(c, b, p) && b <= o <= b + |p.before|
    ensures var q := b + |p.before|;
            q < |c| && SkipBlanks(c, o) == q && c[q] == QUOTE
  {
    hide SkipBlanks;
    hide Write;
    hide WritePieces;
    BlankAt(c, b, p.before);
    AtByte(c, b + |p.before|, WriteString(p.key), 0);
    SkipTo(c, o, b + |p.before|);
  }

  /** The key of a pair, its colon and the start of its value. */
  lemma KeyAccepted(c: bytes, b: nat, p: Pair)
    requires Terminated(c) && IsPair(p) && PairAt(c, b, p)
    ensures var at := PlacesOf(p, b);
            && at.key < at.keyEnd < |c| && ParseString(c, at.key) == Ok(StringMeaning(p.key), at.keyEnd)
            && SkipBlanks(c, at.keyEnd) == at.colon && c[at.colon] == COLON
            && SkipBlanks(c, at.colon + 1) == at.value < |c|
  {
    hide SkipBlanks;
    hide ParseString;
    hide Write;
    hide WritePieces;
    hide StringMeaning;
    var at := PlacesOf(p, b);
    WriteStart(p.value);
    BlankAt(c, at.keyEnd, p.beforeColon);
    AtByte(c, at.colon, [COLON], 0);
    BlankAt(c, at.colon + 1, p.afterColon);
    AtByte(c, at.value, Write(p.value), 0);
    StringAccepted(c, at.key, p.key);
    SkipTo(c, at.keyEnd, at.colon);
    SkipTo(c, at.colon + 1, at.value);
  }

  lemma {:induction false} ObjectAccepted(lib: NumberLib, c: bytes, o: nat, t: Syntax, depth: nat)
    requires Terminated(c) && IsText(t) && t.ObjectOf? && depth <= NESTING_LIMIT
    requires At(c, o, Write(t)) && o + |Write(t)| < |c|
    ensures Accepted(lib, c, t, NESTING_LIMIT - depth, ParseValue(lib, c, o, depth), o + |Write(t)|)
    decreases t, 1
  {
    hide At;
    hide ParseValue;
    hide ParseMembers;
    hide Write;
    hide WritePairs;
    hide Meaning;
    hide PairsMeaning;
    hide Fits;
    hide PairsFit;
    hide SkipBlanks;
    hide PairAt;
    hide PlacesOf;
    hide IsPair;
    hide IsText;
    var pairs := t.pairs;
    ObjectUnfold(lib, t, NESTING_LIMIT - depth);
    var body := if pairs == [] then t.blank else WritePairs(pairs, 0);
    Bracketed(c, o, LBRACE, body, RBRACE);
    if pairs == [] {
      BlankAt(c, o + 1, t.blank);
      SkipTo(c, o + 1, o + 1 + |body|);
      ObjectFromMembers(lib, c, o, depth, o + 1 + |body|);
    } else {
      PairsAt(c, o + 1, pairs, 0);
      var first := o + 1 + |pairs[0].before|;
      KeyStart(c, o + 1, pairs[0], o + 1);
      ObjectFromMembers(lib, c, o, depth, first);
      if depth < NESTING_LIMIT {
        PairsAccepted(lib, c, first, o + 1, pairs, 0, depth + 1);
      }
    }
  }

  /** How the pairs from one on unfold. */
  lemma PairsUnfold(lib: NumberLib, pairs: seq<Pair>, i: nat, room: nat)
    requires i < |pairs| && forall k :: 0 <= k < |pairs| ==> IsPair(pairs[k])
    ensures IsPair(pairs[i])
    ensures PairsMeaning(lib, pairs, i)
         == [Member(StringMeaning(pairs[i].key), Meaning(lib, pairs[i].value))] + PairsMeaning(lib, pairs, i + 1)
    ensures PairsFit(pairs, i, room) <==> Fits(pairs[i].value, room) && PairsFit(pairs, i + 1, room)
    ensures i + 1 == |pairs| ==>
              && PairsMeaning(lib, pairs, i) == [Member(StringMeaning(pairs[i].key), Meaning(lib, pairs[i].value))]
              && PairsFit(pairs, i + 1, room)
  {
    assert IsPair(pairs[i]);
  }

  lemma {:induction false} PairsAccepted(lib: NumberLib, c: bytes, o: nat, b: nat, pairs: seq<Pair>, i: nat, depth: nat)
    requires Terminated(c) && depth <= NESTING_LIMIT
    requires i < |pairs| && (forall k :: 0 <= k < |pairs| ==> IsPair(pairs[k]))
    requires At(c, b, WritePairs(pairs, i)) && b <= o <= b + |pairs[i].before|
    requires b + |WritePairs(pairs, i)| < |c| && c[b + |WritePairs(pairs, i)|] == RBRACE
    ensures ParseMembers(lib, c, o, depth)
         == if PairsFit(pairs, i, NESTING_LIMIT - depth)
            then Ok(PairsMeaning(lib, pairs, i), b + |WritePairs(pairs, i)| + 1) else Fail
    decreases pairs, |pairs| - i
  {
    hide At;
    hide ParseValue;
    hide ParseMember;
    hide ParseMembers;
    hide ParseString;
    hide Write;
    hide WriteString;
    hide WritePairs;
    hide Meaning;
    hide StringMeaning;
    hide PairsMeaning;
    hide Fits;
    hide PairsFit;
    hide SkipBlanks;
    hide IsText;
    var e, room, last := pairs[i], NESTING_LIMIT - depth, i + 1 == |pairs|;
    PairsAt(c, b, pairs, i);
    KeyStart(c, b, e, o);
    KeyAccepted(c, b, e);
    PairsUnfold(lib, pairs, i, room);
    var at := PlacesOf(e, b);
    AfterAt(c, at.valueEnd, e.after, last, RBRACE);
    TextAccepted(lib, c, at.value, e.value, depth);
    var p := ParseValue(lib, c, at.value, depth);
    MemberFromParts(lib, c, o, depth, at.key, StringMeaning(e.key), at.keyEnd, at.colon, at.value);
    var m := ParseMember(lib, c, o, depth);
    if Fits(e.value, room) {
      MembersFromMember(lib, c, o, depth, m, at.end);
      if !last {
        PairsAccepted(lib, c, at.end + 1, at.end + 1, pairs, i + 1, depth);
      }
    } else if p.Ok? {
      SkipTo(c, p.next, p.next);
      MembersFromMember(lib, c, o, depth, m, p.next);
    } else {
      MembersFromMember(lib, c, o, depth, m, 0);
    }
  }

  // ----- Texts are C strings ---------------------------------------------------

  lemma NulFreeConcat(a: bytes, b: bytes)
    requires NulFree(a) && NulFree(b)
    ensures NulFree(a + b)
  {
  }

  lemma UnitNulFree(s: bytes, v: nat)
    requires SpellsUnit(s, v)
    ensures NulFree(s)
  {
    SpellsReads(s[0], v / 0x1000);
    SpellsReads(s[1], v / 0x100 % 0x10);
    SpellsReads(s[2], v / 0x10 % 0x10);
    SpellsReads(s[3], v % 0x10);
  }

  lemma PieceNulFree(p: Piece)
    requires IsPiece(p)
    ensures NulFree(WritePiece(p))
  {
    hide SpellsUnit;
    match p
    case Plain(_) =>
    case Short(k) => assert k in {0, 1, 2, 3, 4, 5, 6, 7};
    case Unicode(cp, high, low) =>
      if cp < 0x10000 {
        UnitNulFree(high, cp);
      } else {
        UnitNulFree(high, 0xD800 + (cp - 0x10000) / 0x400);
        UnitNulFree(low, 0xDC00 + (cp - 0x10000) % 0x400);
      }
  }

  lemma {:induction false} PiecesNulFree(s: seq<Piece>)
    requires ArePieces(s)
    ensures NulFree(WritePieces(s))
  {
    hide IsPiece;
    hide WritePiece;
    if s != [] {
      PieceNulFree(s[0]);
      PiecesNulFree(s[1..]);
    }
  }

  lemma StringNulFree(s: seq<Piece>)
    requires ArePieces(s)
    ensures NulFree(WriteString(s))
  {
    hide WritePieces;
    PiecesNulFree(s);
  }

  lemma {:induction false} WriteNulFree(t: Syntax)
    requires IsText(t)
    ensures NulFree(Write(t))
    decreases t, 0
  {
    hide WriteElements;
    hide WritePairs;
    hide WritePieces;
    hide WriteNumber;
    match t
    case NumberOf(n) => NumberBytes(n);
    case StringOf(s) => StringNulFree(s);
    case ArrayOf(_, elements) => ElementsNulFree(elements, 0);
    case ObjectOf(_, pairs) => PairsNulFree(pairs, 0);
    case _ =>
  }

  lemma {:induction false} ElementsNulFree(elements: seq<Element>, i: nat)
    requires i <= |elements| && forall k :: 0 <= k < |elements| ==> IsElement(elements[k])
    ensures NulFree(WriteElements(elements, i))
    decreases elements, |elements| - i
  {
    hide Write;
    if i < |elements| {
      assert IsElement(elements[i]);
      var e := elements[i];
      WriteNulFree(e.value);
      ElementsNulFree(elements, i + 1);
      NulFreeConcat(e.before, Write(e.value));
      NulFreeConcat(e.before + Write(e.value), e.after);
      NulFreeConcat(e.before + Write(e.value) + e.after, Comma(i + 1 == |elements|));
      NulFreeConcat(e.before + Write(e.value) + e.after + Comma(i + 1 == |elements|), WriteElements(elements, i + 1));
    }
  }

  lemma {:induction false} PairsNulFree(pairs: seq<Pair>, i: nat)
    requires i <= |pairs| && forall k :: 0 <= k < |pairs| ==> IsPair(pairs[k])
    ensures NulFree(WritePairs(pairs, i))
    decreases pairs, |pairs| - i
  {
    hide Write;
    hide WriteString;
    if i < |pairs| {
      assert IsPair(pairs[i]);
      var p := pairs[i];
      WriteNulFree(p.value);
      StringNulFree(p.key);
      PairsNulFree(pairs, i + 1);
      var head := p.before + WriteString(p.key) + p.beforeColon + [0x3A] + p.afterColon;
      NulFreeConcat(p.before, WriteString(p.key));
      NulFreeConcat(p.before + WriteString(p.key) + p.beforeColon, [0x3A]);
      NulFreeConcat(p.before + WriteString(p.key) + p.beforeColon + [0x3A], p.afterColon);
      NulFreeConcat(head, Write(p.value));
      NulFreeConcat(head + Write(p.value), p.after);
      NulFreeConcat(head + Write(p.value) + p.after, Comma(i + 1 == |pairs|));
      NulFreeConcat(head + Write(p.value) + p.after + Comma(i + 1 == |pairs|), WritePairs(pairs, i + 1));
    }
  }
}
