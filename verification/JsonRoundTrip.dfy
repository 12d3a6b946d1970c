/** The printed text of an item is a text of RFC 8259 that means the item, so the parser reads it back. */
module JsonRoundTrip {
  import opened Bytes
  import opened JsonNumber
  import opened JsonModel
  import opened JsonGrammar
  import opened JsonUnicode
  import opened JsonText
  import opened JsonAccepts

  // ----- Strings -------------------------------------------------------------

  /** How print_string_ptr writes a byte. */
  function PieceOf(b: byte): (p: Piece)
    ensures IsPiece(p)
  {
    if b == 0x22 then Short(0)
    else if b == 0x5C then Short(1)
    else if b == 0x08 then Short(3)
    else if b == 0x0C then Short(4)
    else if b == 0x0A then Short(5)
    else if b == 0x0D then Short(6)
    else if b == 0x09 then Short(7)
    else if b < 0x20 then
      SmallUnit(b);
      Unicode(b, [0x30, 0x30, HexDigit(b / 16), HexDigit(b % 16)], [])
    else Plain(b)
  }

  lemma SmallUnit(b: byte)
    requires b < 0x20
    ensures SpellsUnit([0x30, 0x30, HexDigit(b / 16), HexDigit(b % 16)], b)
  {
    assert LOWER_DIGITS[b % 16] == HexDigit(b % 16);
    assert LOWER_DIGITS[b / 16] == HexDigit(b / 16);
  }

  lemma PieceOfByte(b: byte)
    ensures WritePiece(PieceOf(b)) == EscapeByte(b) && PieceMeaning(PieceOf(b)) == [b]
  {
  }

  function PiecesOf(s: bytes): (r: seq<Piece>)
    ensures ArePieces(r)
  {
    if s == [] then [] else [PieceOf(s[0])] + PiecesOf(s[1..])
  }

  lemma {:induction false} PiecesOfString(s: bytes)
    ensures WritePieces(PiecesOf(s)) == Escape(s) && PiecesMeaning(PiecesOf(s)) == s
  {
    hide PieceOf;
    hide WritePiece;
    hide PieceMeaning;
    hide EscapeByte;
    hide IsPiece;
    if s != [] {
      PieceOfByte(s[0]);
      PiecesOfString(s[1..]);
      assert PiecesOf(s)[1..] == PiecesOf(s[1..]);
      assert s == [s[0]] + s[1..];
    }
  }

  lemma StringOfText(s: bytes)
    requires NulFree(s)
    ensures WriteString(PiecesOf(s)) == Quoted(s) && StringMeaning(PiecesOf(s)) == s
  {
    hide WritePieces;
    hide PiecesMeaning;
    hide Escape;
    PiecesOfString(s);
    CStringOfNulFree(s);
  }

  // ----- The text of an item --------------------------------------------------

  ghost function NumberOfNumeral(t: bytes): (n: NumberText)
    requires IsNumeral(t)
    ensures IsNumber(n) && WriteNumber(n) == t
  {
    var n: NumberText :| IsNumber(n) && WriteNumber(n) == t;
    n
  }

  /** White space that is printed only in formatted text. */
  function IfFormatted(fmt: bool, s: bytes): bytes {
    if fmt then s else []
  }

  lemma LineIsBlank(fmt: bool, n: nat)
    ensures Blank(IfFormatted(fmt, [NEWLINE] + Tabs(n)))
  {
  }

  /** The text print_value writes for an item at nesting depth `pd`. */
  ghost function SyntaxOf(lib: NumberLib, j: Json, fmt: bool, pd: nat): (t: Syntax)
    requires lib.Valid()
    ensures IsText(t)
    decreases j, 0
  {
    match j
    case Null => NullText
    case False => FalseText
    case True => TrueText
    case Number(d) => if lib.finite(d) then NumberOf(NumberOfNumeral(lib.Numeral(d))) else NullText
    case Text(s) => StringOf(PiecesOf(s))
    case Array(items) => ArrayOf([], ElementsOf(lib, items, fmt, pd + 1))
    case Object(members) =>
      LineIsBlank(fmt, pd);
      ObjectOf(IfFormatted(fmt, [NEWLINE] + Tabs(pd)), PairsOf(lib, members, fmt, pd + 1))
  }

  ghost function ElementsOf(lib: NumberLib, items: seq<Json>, fmt: bool, pd: nat): (r: seq<Element>)
    requires lib.Valid()
    ensures |r| == |items|
    ensures forall i :: 0 <= i < |r| ==> IsElement(r[i]) && r[i] == ElementOf(lib, items[i], i == 0, fmt, pd)
    decreases items
  {
    seq(|items|, i requires 0 <= i < |items| => ElementOf(lib, items[i], i == 0, fmt, pd))
  }

  ghost function ElementOf(lib: NumberLib, j: Json, first: bool, fmt: bool, pd: nat): (e: Element)
    requires lib.Valid()
    ensures IsElement(e)
    decreases j, 1
  {
    Element(if first then [] else IfFormatted(fmt, [SPACE]), SyntaxOf(lib, j, fmt, pd), [])
  }

  ghost function PairsOf(lib: NumberLib, members: seq<Member>, fmt: bool, pd: nat): (r: seq<Pair>)
    requires lib.Valid() && pd > 0
    ensures |r| == |members|
    ensures forall i :: 0 <= i < |r| ==>
              IsPair(r[i]) && r[i] == PairOf(lib, members[i], i + 1 == |members|, fmt, pd)
    decreases members
  {
    seq(|members|, i requires 0 <= i < |members| => PairOf(lib, members[i], i + 1 == |members|, fmt, pd))
  }

  ghost function PairOf(lib: NumberLib, m: Member, last: bool, fmt: bool, pd: nat): (p: Pair)
    requires lib.Valid() && pd > 0
    ensures IsPair(p)
    decreases m, 1
  {
    LineIsBlank(fmt, pd);
    LineIsBlank(fmt, pd - 1);
    Pair(IfFormatted(fmt, [NEWLINE] + Tabs(pd)), PiecesOf(m.key), [], IfFormatted(fmt, [TAB]),
         SyntaxOf(lib, m.value, fmt, pd), if last then IfFormatted(fmt, [NEWLINE] + Tabs(pd - 1)) else [])
  }

  // ----- What it is written as -------------------------------------------------

  /** The tabs in front of a member or of a closing brace. */
  function Indent(fmt: bool, n: nat): bytes {
    if fmt then Tabs(n) else []
  }

  /** What stands between an element and the next. */
  function AfterItem(fmt: bool, last: bool): bytes {
    if last then [] else ItemSeparator(fmt)
  }

  lemma ItemsSplit(lib: NumberLib, items: seq<Json>, i: nat, fmt: bool, pd: nat)
    requires i < |items|
    ensures RenderItems(lib, items, i, fmt, pd)
         == Render(lib, items[i], fmt, pd) + AfterItem(fmt, i + 1 == |items|)
            + RenderItems(lib, items, i + 1, fmt, pd)
    ensures i + 1 == |items| ==> RenderItems(lib, items, i + 1, fmt, pd) == []
  {
    hide Render;
  }

  lemma MembersSplit(lib: NumberLib, members: seq<Member>, i: nat, fmt: bool, pd: nat)
    requires i < |members|
    ensures RenderMembers(lib, members, i, fmt, pd)
         == Indent(fmt, pd) + Quoted(members[i].key) + KeySeparator(fmt) + Render(lib, members[i].value, fmt, pd)
            + MemberEnd(fmt, i + 1 == |members|) + RenderMembers(lib, members, i + 1, fmt, pd)
    ensures i + 1 == |members| ==> RenderMembers(lib, members, i + 1, fmt, pd) == []
  {
    hide Render;
    hide Quoted;
  }

  /** The printed text of an item is the text above. */
  lemma {:induction false} PrintedIsText(lib: NumberLib, j: Json, fmt: bool, pd: nat)
    requires lib.Valid() && Clean(j)
    ensures Write(SyntaxOf(lib, j, fmt, pd)) == Render(lib, j, fmt, pd)
    decreases j, 0
  {
    hide NumberLib.Valid;
    hide RenderItems;
    hide RenderMembers;
    hide WriteElements;
    hide WritePairs;
    hide WritePieces;
    hide PiecesOf;
    hide ElementsOf;
    hide PairsOf;
    match j
    case Number(d) => Finite15(lib, d);
    case Text(s) => StringOfText(s);
    case Array(items) =>
      if items != [] { ItemsWritten(lib, items, 0, fmt, pd + 1); }
      NoItems(lib, fmt, pd + 1);
    case Object(members) =>
      if members == [] {
        NoItems(lib, fmt, pd + 1);
      } else {
        MembersWritten(lib, members, 0, fmt, pd + 1);
        ObjectText(fmt, pd, RenderMembers(lib, members, 0, fmt, pd + 1));
      }
    case _ =>
  }

  lemma Finite15(lib: NumberLib, d: Double)
    requires lib.Valid()
    ensures lib.finite(d) ==> IsNumeral(lib.Numeral(d)) && lib.read(lib.Numeral(d)) == d
  {
  }

  lemma NoItems(lib: NumberLib, fmt: bool, pd: nat)
    ensures RenderItems(lib, [], 0, fmt, pd) == [] && RenderMembers(lib, [], 0, fmt, pd) == []
  {
  }

  lemma ObjectText(fmt: bool, pd: nat, body: bytes)
    ensures [LBRACE] + (IfFormatted(fmt, [NEWLINE]) + body + Indent(fmt, pd)) + [RBRACE]
         == OpenBrace(fmt) + body + CloseBrace(fmt, pd)
  {
  }

  lemma {:induction false} ItemsWritten(lib: NumberLib, items: seq<Json>, i: nat, fmt: bool, pd: nat)
    requires lib.Valid() && i < |items| && forall k :: 0 <= k < |items| ==> Clean(items[k])
    ensures WriteElements(ElementsOf(lib, items, fmt, pd), i)
         == (if i == 0 then [] else IfFormatted(fmt, [SPACE])) + RenderItems(lib, items, i, fmt, pd)
    decreases items, |items| - i
  {
    hide NumberLib.Valid;
    hide Clean;
    hide Write;
    hide Render;
    hide RenderItems;
    hide WriteElements;
    hide SyntaxOf;
    hide ElementsOf;
    var elements := ElementsOf(lib, items, fmt, pd);
    ItemsSplit(lib, items, i, fmt, pd);
    ElementWritten(elements, i);
    PrintedIsText(lib, items[i], fmt, pd);
    if i + 1 < |items| {
      ItemsWritten(lib, items, i + 1, fmt, pd);
    }
  }

  lemma ElementWritten(elements: seq<Element>, i: nat)
    requires i < |elements| && forall k :: 0 <= k < |elements| ==> IsElement(elements[k])
    ensures IsElement(elements[i])
    ensures var e := elements[i];
            WriteElements(elements, i)
            == e.before + Write(e.value) + e.after + Comma(i + 1 == |elements|) + WriteElements(elements, i + 1)
    ensures i + 1 == |elements| ==> WriteElements(elements, i + 1) == []
  {
    assert IsElement(elements[i]);
  }

  lemma PairWritten(pairs: seq<Pair>, i: nat)
    requires i < |pairs| && forall k :: 0 <= k < |pairs| ==> IsPair(pairs[k])
    ensures IsPair(pairs[i])
    ensures var p := pairs[i];
            WritePairs(pairs, i)
            == p.before + WriteString(p.key) + p.beforeColon + [0x3A] + p.afterColon + Write(p.value) + p.after
               + Comma(i + 1 == |pairs|) + WritePairs(pairs, i + 1)
    ensures i + 1 == |pairs| ==> WritePairs(pairs, i + 1) == []
  {
    assert IsPair(pairs[i]);
  }

  lemma {:induction false} MembersWritten(lib: NumberLib, members: seq<Member>, i: nat, fmt: bool, pd: nat)
    requires lib.Valid() && pd > 0 && i < |members|
    requires forall k :: 0 <= k < |members| ==> NulFree(members[k].key) && Clean(members[k].value)
    ensures WritePairs(PairsOf(lib, members, fmt, pd), i)
         == IfFormatted(fmt, [NEWLINE]) + RenderMembers(lib, members, i, fmt, pd) + Indent(fmt, pd - 1)
    decreases members, |members| - i
  {
    hide NumberLib.Valid;
    hide Clean;
    hide Write;
    hide WriteString;
    hide Quoted;
    hide Render;
    hide RenderMembers;
    hide WritePairs;
    hide SyntaxOf;
    hide PiecesOf;
    hide PairsOf;
    var pairs := PairsOf(lib, members, fmt, pd);
    MembersSplit(lib, members, i, fmt, pd);
    PairWritten(pairs, i);
    PrintedIsText(lib, members[i].value, fmt, pd);
    StringOfText(members[i].key);
    if i + 1 < |members| {
      MembersWritten(lib, members, i + 1, fmt, pd);
    }
    MemberText(fmt, pd, Quoted(members[i].key), Render(lib, members[i].value, fmt, pd), i + 1 == |members|,
               RenderMembers(lib, members, i + 1, fmt, pd));
  }

  /** The parts of a member, regrouped. */
  lemma MemberText(fmt: bool, pd: nat, key: bytes, value: bytes, last: bool, rest: bytes)
    requires pd > 0 && (last ==> rest == [])
    ensures IfFormatted(fmt, [NEWLINE] + Tabs(pd)) + key + [] + [COLON] + IfFormatted(fmt, [TAB]) + value
            + (if last then IfFormatted(fmt, [NEWLINE] + Tabs(pd - 1)) else []) + Comma(last)
            + (if last then [] else IfFormatted(fmt, [NEWLINE]) + rest + Indent(fmt, pd - 1))
         == IfFormatted(fmt, [NEWLINE])
            + (Indent(fmt, pd) + key + KeySeparator(fmt) + value + MemberEnd(fmt, last) + rest) + Indent(fmt, pd - 1)
  {
    hide Tabs;
    hide MemberEnd;
    var newline, tab := IfFormatted(fmt, [NEWLINE]), IfFormatted(fmt, [TAB]);
    var after := if last then IfFormatted(fmt, [NEWLINE] + Tabs(pd - 1)) else [];
    var more := if last then [] else IfFormatted(fmt, [NEWLINE]) + rest + Indent(fmt, pd - 1);
    assert IfFormatted(fmt, [NEWLINE] + Tabs(pd)) == newline + Indent(fmt, pd);
    assert KeySeparator(fmt) == [COLON] + tab;
    Regroup(newline, Indent(fmt, pd), key, [COLON], tab, value, after, Comma(last), more);
    RegroupBack(newline, Indent(fmt, pd) + key + KeySeparator(fmt) + value, MemberEnd(fmt, last), rest,
                Indent(fmt, pd - 1));
    MemberTail(fmt, pd, last, rest);
  }

  lemma MemberTail(fmt: bool, pd: nat, last: bool, rest: bytes)
    requires pd > 0 && (last ==> rest == [])
    ensures (if last then IfFormatted(fmt, [NEWLINE] + Tabs(pd - 1)) else []) + Comma(last)
            + (if last then [] else IfFormatted(fmt, [NEWLINE]) + rest + Indent(fmt, pd - 1))
         == MemberEnd(fmt, last) + rest + Indent(fmt, pd - 1)
  {
    hide Tabs;
  }

  lemma Regroup(newline: bytes, tabs: bytes, key: bytes, colon: bytes, tab: bytes, value: bytes, after: bytes,
                comma: bytes, more: bytes)
    ensures newline + tabs + key + [] + colon + tab + value + after + comma + more
         == newline + (tabs + key + (colon + tab) + value) + (after + comma + more)
  {
  }

  lemma RegroupBack(newline: bytes, head: bytes, end: bytes, rest: bytes, indent: bytes)
    ensures newline + (head + end + rest) + indent == newline + head + (end + rest + indent)
  {
  }

  /** No white space is written outside strings. */
  predicate Compact(t: Syntax)
    decreases t
  {
    match t
    case ArrayOf(blank, elements) =>
      && blank == []
      && forall i :: 0 <= i < |elements| ==>
           elements[i].before == elements[i].after == [] && Compact(elements[i].value)
    case ObjectOf(blank, pairs) =>
      && blank == []
      && forall i :: 0 <= i < |pairs| ==>
           && pairs[i].before == pairs[i].after == pairs[i].beforeColon == pairs[i].afterColon == []
           && Compact(pairs[i].value)
    case _ => true
  }

  lemma {:induction false} UnformattedIsCompact(lib: NumberLib, j: Json, pd: nat)
    requires lib.Valid()
    ensures Compact(SyntaxOf(lib, j, false, pd))
    decreases j
  {
    hide NumberLib.Valid;
    hide ElementsOf;
    hide PairsOf;
    match j
    case Array(items) =>
      forall i | 0 <= i < |items| ensures Compact(SyntaxOf(lib, items[i], false, pd + 1)) {
        UnformattedIsCompact(lib, items[i], pd + 1);
      }
    case Object(members) =>
      forall i | 0 <= i < |members| ensures Compact(SyntaxOf(lib, members[i].value, false, pd + 1)) {
        UnformattedIsCompact(lib, members[i].value, pd + 1);
      }
    case _ =>
  }

  // ----- What it means -----------------------------------------------------------

  /** It means the item, with null for numbers that are not finite, and it fits when the item is not nested too deep. */
  lemma {:induction false} PrintedMeans(lib: NumberLib, j: Json, fmt: bool, pd: nat, room: nat)
    requires lib.Valid() && Clean(j)
    ensures Meaning(lib, SyntaxOf(lib, j, fmt, pd)) == Printable(lib, j)
    ensures Fits(SyntaxOf(lib, j, fmt, pd), room) <==> Height(j) <= room
    decreases j, 0
  {
    hide NumberLib.Valid;
    hide ElementsOf;
    hide PairsOf;
    hide ElementsMeaning;
    hide PairsMeaning;
    hide ElementsFit;
    hide PairsFit;
    hide ItemsHeight;
    hide MembersHeight;
    hide PrintableItems;
    hide PrintableMembers;
    match j
    case Number(d) => Finite15(lib, d);
    case Text(s) => StringOfText(s);
    case Array(items) => ItemsMean(lib, items, 0, fmt, pd + 1, if room > 0 then room - 1 else 0);
    case Object(members) => MembersMean(lib, members, 0, fmt, pd + 1, if room > 0 then room - 1 else 0);
    case _ =>
  }

  lemma {:induction false} ItemsMean(lib: NumberLib, items: seq<Json>, i: nat, fmt: bool, pd: nat, room: nat)
    requires lib.Valid() && i <= |items| && forall k :: 0 <= k < |items| ==> Clean(items[k])
    ensures ElementsMeaning(lib, ElementsOf(lib, items, fmt, pd), i) == PrintableItems(lib, items, i)
    ensures ElementsFit(ElementsOf(lib, items, fmt, pd), i, room) <==> ItemsHeight(items, i) <= room
    decreases items, |items| - i
  {
    hide NumberLib.Valid;
    hide Clean;
    hide Meaning;
    hide Fits;
    hide Height;
    hide Printable;
    hide SyntaxOf;
    hide ElementsOf;
    if i < |items| {
      var elements := ElementsOf(lib, items, fmt, pd);
      ElementsUnfold(lib, elements, i, room);
      PrintedMeans(lib, items[i], fmt, pd, room);
      ItemsMean(lib, items, i + 1, fmt, pd, room);
    }
  }

  lemma {:induction false} MembersMean(lib: NumberLib, members: seq<Member>, i: nat, fmt: bool, pd: nat, room: nat)
    requires lib.Valid() && pd > 0 && i <= |members|
    requires forall k :: 0 <= k < |members| ==> NulFree(members[k].key) && Clean(members[k].value)
    ensures PairsMeaning(lib, PairsOf(lib, members, fmt, pd), i) == PrintableMembers(lib, members, i)
    ensures PairsFit(PairsOf(lib, members, fmt, pd), i, room) <==> MembersHeight(members, i) <= room
    decreases members, |members| - i
  {
    hide NumberLib.Valid;
    hide Clean;
    hide Meaning;
    hide StringMeaning;
    hide Fits;
    hide Height;
    hide Printable;
    hide SyntaxOf;
    hide PiecesOf;
    hide PairsOf;
    if i < |members| {
      var pairs := PairsOf(lib, members, fmt, pd);
      PairsUnfold(lib, pairs, i, room);
      StringOfText(members[i].key);
      PrintedMeans(lib, members[i].value, fmt, pd, room);
      MembersMean(lib, members, i + 1, fmt, pd, room);
    }
  }

  // ----- Reading it back -----------------------------------------------------------

  /** Printed values start with a byte that is not white space. */
  lemma RenderStart(lib: NumberLib, j: Json, fmt: bool, depth: nat)
    requires lib.Valid() && Clean(j)
    ensures |Render(lib, j, fmt, depth)| > 0 && 32 < Render(lib, j, fmt, depth)[0] < 128
  {
    hide Render;
    hide Write;
    hide SyntaxOf;
    PrintedIsText(lib, j, fmt, depth);
    WriteStart(SyntaxOf(lib, j, fmt, depth));
  }

  /** The offset and the value a printed value parses to, or failure when it is nested too deep. */
  ghost function Expected(lib: NumberLib, j: Json, end: nat, depth: nat): Parsed<Json> {
    if depth + Height(j) <= NESTING_LIMIT then Ok(Printable(lib, j), end) else Fail
  }

  /** A value printed at `o` and followed by something that is not part of a number. */
  ghost predicate Printed(lib: NumberLib, c: bytes, o: nat, j: Json, fmt: bool, pd: nat) {
    && At(c, o, Render(lib, j, fmt, pd))
    && o + |Render(lib, j, fmt, pd)| < |c|
    && !IsNumberByte(c[o + |Render(lib, j, fmt, pd)|])
  }

  lemma NotNested(j: Json)
    ensures j.Number? ==> Height(j) == 0
  {
  }

  lemma ValueRoundTrip(lib: NumberLib, c: bytes, o: nat, j: Json, fmt: bool, pd: nat, depth: nat)
    requires lib.Valid() && Terminated(c) && Clean(j)
    requires Printed(lib, c, o, j, fmt, pd) && depth <= NESTING_LIMIT
    ensures ParseValue(lib, c, o, depth) == Expected(lib, j, o + |Render(lib, j, fmt, pd)|, depth)
  {
    hide NumberLib.Valid;
    hide ParseValue;
    hide Render;
    hide Write;
    hide Meaning;
    hide Fits;
    hide Height;
    hide Printable;
    var t := SyntaxOf(lib, j, fmt, pd);
    PrintedIsText(lib, j, fmt, pd);
    PrintedMeans(lib, j, fmt, pd, NESTING_LIMIT - depth);
    TextAccepted(lib, c, o, t, depth);
    if t.NumberOf? { NotNested(j); }
  }
}
