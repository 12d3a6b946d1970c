/** What saving a configuration and loading it again promises. */
module JsonDocument {
  import opened Bytes
  import opened JsonModel
  import opened JsonGrammar
  import opened JsonText
  import opened JsonAccepts
  import opened JsonRoundTrip

  // ----- Printed text is a C string -------------------------------------------

  /** update_offset finds the end of what was printed because no NUL is in it. */
  lemma RenderNulFree(lib: NumberLib, j: Json, fmt: bool, depth: nat)
    requires lib.Valid() && Clean(j)
    ensures NulFree(Render(lib, j, fmt, depth))
  {
    hide Render;
    hide Write;
    hide SyntaxOf;
    PrintedIsText(lib, j, fmt, depth);
    WriteNulFree(SyntaxOf(lib, j, fmt, depth));
  }

  lemma QuotedNulFree(s: bytes)
    requires NulFree(s)
    ensures NulFree(Quoted(s))
  {
    StringOfText(s);
    StringNulFree(PiecesOf(s));
  }

  lemma NumeralNulFree(lib: NumberLib, d: Double)
    requires lib.Valid() && lib.finite(d)
    ensures NulFree(lib.Numeral(d)) && |lib.Numeral(d)| <= 25
  {
    NumberBytes(NumberOfNumeral(lib.Numeral(d)));
  }

  // ----- Numbers that survive printing ------------------------------------------

  lemma {:induction false} PrintableIff(lib: NumberLib, j: Json)
    ensures Printable(lib, j) == j <==> Finite(lib, j)
    decreases j
  {
    match j
    case Array(items) => PrintableItemsIff(lib, items, 0); assert items[0..] == items;
    case Object(members) => PrintableMembersIff(lib, members, 0); assert members[0..] == members;
    case _ =>
  }

  lemma {:induction false} PrintableItemsIff(lib: NumberLib, items: seq<Json>, i: nat)
    requires i <= |items|
    ensures PrintableItems(lib, items, i) == items[i..] <==> forall k :: i <= k < |items| ==> Finite(lib, items[k])
    decreases items, |items| - i
  {
    if i < |items| {
      PrintableIff(lib, items[i]);
      PrintableItemsIff(lib, items, i + 1);
      assert items[i..] == [items[i]] + items[i + 1..];
    }
  }

  lemma {:induction false} PrintableMembersIff(lib: NumberLib, members: seq<Member>, i: nat)
    requires i <= |members|
    ensures PrintableMembers(lib, members, i) == members[i..]
       <==> forall k :: i <= k < |members| ==> Finite(lib, members[k].value)
    decreases members, |members| - i
  {
    if i < |members| {
      PrintableIff(lib, members[i].value);
      PrintableMembersIff(lib, members, i + 1);
      assert members[i..] == [members[i]] + members[i + 1..];
    }
  }

  // ----- Printing, then parsing --------------------------------------------------

  /**
   * Parsing what was printed gives back the item, numbers that are not finite
   * become null, and nothing comes back when the item is nested too deep.
   */
  lemma PrintThenParse(lib: NumberLib, j: Json, fmt: bool, strict: bool)
    requires lib.Valid() && Clean(j)
    ensures ParseDocument(lib, Render(lib, j, fmt, 0), strict)
         == if Height(j) <= NESTING_LIMIT then Some(Printable(lib, j)) else None
  {
    hide Render;
    hide ParseValue;
    hide Height;
    hide Printable;
    hide NumberLib.Valid;
    hide Clean;
    hide CString;
    var r := Render(lib, j, fmt, 0);
    RenderNulFree(lib, j, fmt, 0);
    CStringOfNulFree(r);
    var c := r + [NUL];
    RenderStart(lib, j, fmt, 0);
    assert c[0] == r[0];
    NoMark(c);
    SkipTo(c, 0, 0);
    assert At(c, 0, r);
    ValueRoundTrip(lib, c, 0, j, fmt, 0, 0);
    assert SkipBlanks(c, |r|) == |r|;
  }

  /** An ASCII byte does not start a byte order mark. */
  lemma NoMark(c: bytes)
    requires |c| > 0 && c[0] < 128
    ensures !At(c, 0, BOM)
  {
    if At(c, 0, BOM) { AtByte(c, 0, BOM, 0); }
  }

  // ----- The texts of RFC 8259 ----------------------------------------------------

  /** A JSON text of section 2 of RFC 8259, with or without a byte order mark. */
  function DocumentText(mark: bool, before: bytes, t: Syntax, after: bytes): bytes
    requires IsText(t)
  {
    (if mark then [0xEF, 0xBB, 0xBF] else []) + before + Write(t) + after
  }

  function ValueStart(mark: bool, before: bytes): nat {
    (if mark then 3 else 0) + |before|
  }

  /**
   * Every JSON text within the limits of the parser (numbers of at most 63
   * characters, a nesting of at most 1000) is read as what it means, up to the end
   * of its value; and no other JSON text is read that far.
   */
  lemma JsonTextAccepted(lib: NumberLib, mark: bool, before: bytes, t: Syntax, after: bytes, strict: bool)
    requires Blank(before) && IsText(t) && Blank(after)
    ensures var text, end := DocumentText(mark, before, t, after), ValueStart(mark, before) + |Write(t)|;
            if Fits(t, MAX_DEPTH) then
              && ParseDocument(lib, text, strict) == Some(Meaning(lib, t))
              && DocumentEnd(lib, text, strict) == if strict then |text| else end
            else ParseDocument(lib, text, strict).Some? ==> DocumentEnd(lib, text, strict) < end
  {
    hide ParseValue;
    hide Write;
    hide Meaning;
    hide Fits;
    hide CString;
    hide SkipBlanks;
    hide At;
    var text, o := DocumentText(mark, before, t, after), ValueStart(mark, before);
    var c, end := text + [NUL], o + |Write(t)|;
    DocumentParts(mark, before, t, after);
    CStringOfNulFree(text);
    TextAccepted(lib, c, o, t, 0);
    var p := ParseValue(lib, c, o, 0);
    if strict && p.Ok? && p.next != end { SkipTo(c, p.next, p.next); }
  }

  lemma DocumentParts(mark: bool, before: bytes, t: Syntax, after: bytes)
    requires Blank(before) && IsText(t) && Blank(after)
    ensures var text, o := DocumentText(mark, before, t, after), ValueStart(mark, before);
            var c := text + [NUL];
            && NulFree(text) && DocumentStart(c) == o < |c| && At(c, o, Write(t)) && o + |Write(t)| < |c|
            && !IsNumberByte(c[o + |Write(t)|]) && SkipBlanks(c, o + |Write(t)|) == |text|
  {
    hide IsText;
    hide Blank;
    hide Write;
    hide At;
    hide SkipBlanks;
    var m: bytes := if mark then [0xEF, 0xBB, 0xBF] else [];
    var w, text, o := Write(t), DocumentText(mark, before, t, after), ValueStart(mark, before);
    var c := text + [NUL];
    WriteNulFree(t);
    FourParts(c, m, before, w, after);
    WriteStart(t);
    AtByte(c, o, w, 0);
    BlankAt(c, |m|, before);
    BlankAt(c, o + |w|, after);
    StartsAfterMark(c, mark);
    SkipTo(c, |m|, o);
    ToTerminator(c, o + |w|);
  }

  lemma FourParts(c: bytes, m: bytes, before: bytes, w: bytes, after: bytes)
    requires c == m + before + w + after + [NUL] && NulFree(m) && Blank(before) && NulFree(w) && Blank(after)
    ensures NulFree(m + before + w + after) && At(c, 0, m) && At(c, |m|, before) && At(c, |m| + |before|, w)
    ensures At(c, |m| + |before| + |w|, after)
  {
    hide At;
    NulFreeConcat(m, before);
    NulFreeConcat(m + before, w);
    NulFreeConcat(m + before + w, after);
    WholeAt(c, m + before + w + after + [NUL]);
    AtSplit(c, 0, m + before + w + after, [NUL]);
    AtSplit(c, 0, m + before + w, after);
    AtSplit(c, 0, m + before, w);
    AtSplit(c, 0, m, before);
  }

  lemma WholeAt(c: bytes, s: bytes)
    requires c == s
    ensures At(c, 0, s)
  {
  }

  lemma StartsAfterMark(c: bytes, mark: bool)
    requires Terminated(c) && (if mark then |c| > 4 && At(c, 0, [0xEF, 0xBB, 0xBF]) else c[0] < 128)
    ensures DocumentStart(c) == SkipBlanks(c, if mark then 3 else 0)
  {
    hide SkipBlanks;
    if !mark { NoMark(c); }
  }

  /** From blanks at the end of the input the parser steps back onto the terminator. */
  lemma ToTerminator(c: bytes, o: nat)
    requires Terminated(c) && o < |c| && forall k :: o <= k < |c| - 1 ==> c[k] <= 32
    ensures SkipBlanks(c, o) == |c| - 1
  {
    hide BlankEnd;
    BlankEndIsFirst(c, o);
  }

  /** The round trip is the identity exactly on finite items nested at most a thousand deep. */
  lemma RoundTripIff(lib: NumberLib, j: Json, fmt: bool, strict: bool)
    requires lib.Valid() && Clean(j)
    ensures ParseDocument(lib, Render(lib, j, fmt, 0), strict) == Some(j)
       <==> Height(j) <= NESTING_LIMIT && Finite(lib, j)
  {
    PrintThenParse(lib, j, fmt, strict);
    PrintableIff(lib, j);
  }

  /** Formatting changes the text but not what it parses to. */
  lemma FormattingIsIrrelevant(lib: NumberLib, j: Json, strict: bool)
    requires lib.Valid() && Clean(j)
    ensures ParseDocument(lib, Render(lib, j, true, 0), strict) == ParseDocument(lib, Render(lib, j, false, 0), strict)
  {
    PrintThenParse(lib, j, true, strict);
    PrintThenParse(lib, j, false, strict);
  }

  // ----- Parsing, then printing, then parsing --------------------------------------

  lemma ParsedScalarShape(lib: NumberLib, c: bytes, o: nat, depth: nat)
    requires Terminated(c) && o < |c| && c[o] != LBRACKET && c[o] != LBRACE
    ensures var p := ParseValue(lib, c, o, depth);
            p.Ok? ==> Clean(p.value) && Height(p.value) == 0
  {
    hide ParseArray;
    hide ParseObject;
  }

  /** Whatever parses has C strings only and respects the nesting limit. */
  lemma {:induction false} ParsedShape(lib: NumberLib, c: bytes, o: nat, depth: nat)
    requires Terminated(c) && o < |c| && depth <= NESTING_LIMIT
    ensures var p := ParseValue(lib, c, o, depth);
            p.Ok? ==> Clean(p.value) && depth + Height(p.value) <= NESTING_LIMIT
    decreases |c| - o, 1
  {
    hide ParseValue;
    hide ParseItems;
    hide ParseMembers;
    var first := SkipBlanks(c, o + 1);
    if c[o] == LBRACKET {
      ArrayFromItems(lib, c, o, depth, first);
      if depth < NESTING_LIMIT && c[first] != RBRACKET {
        ParsedItemsShape(lib, c, first, depth + 1);
      }
    } else if c[o] == LBRACE {
      ObjectFromMembers(lib, c, o, depth, first);
      if depth < NESTING_LIMIT && c[first] != RBRACE {
        ParsedMembersShape(lib, c, first, depth + 1);
      }
    } else {
      ParsedScalarShape(lib, c, o, depth);
    }
  }

  lemma {:induction false} ItemsHeightBound(items: seq<Json>, i: nat, h: nat)
    requires i <= |items| && forall k :: i <= k < |items| ==> Height(items[k]) <= h
    ensures ItemsHeight(items, i) <= h
    decreases |items| - i
  {
    hide Height;
    if i < |items| { ItemsHeightBound(items, i + 1, h); }
  }

  lemma {:induction false} MembersHeightBound(members: seq<Member>, i: nat, h: nat)
    requires i <= |members| && forall k :: i <= k < |members| ==> Height(members[k].value) <= h
    ensures MembersHeight(members, i) <= h
    decreases |members| - i
  {
    hide Height;
    if i < |members| { MembersHeightBound(members, i + 1, h); }
  }

  lemma {:induction false} ParsedItemsShape(lib: NumberLib, c: bytes, o: nat, depth: nat)
    requires Terminated(c) && o < |c| && depth <= NESTING_LIMIT
    ensures var p := ParseItems(lib, c, o, depth);
            p.Ok? ==>
              && (forall k :: 0 <= k < |p.value| ==> Clean(p.value[k]) && Height(p.value[k]) <= NESTING_LIMIT - depth)
              && ItemsHeight(p.value, 0) <= NESTING_LIMIT - depth
    decreases |c| - o, 2
  {
    hide ParseValue;
    hide ParseItems;
    hide Clean;
    hide Height;
    hide ItemsHeight;
    var a := SkipBlanks(c, o);
    ParsedShape(lib, c, a, depth);
    var p := ParseValue(lib, c, a, depth);
    if p.Ok? {
      var next := SkipBlanks(c, p.next);
      ItemsFromItem(lib, c, o, depth, a, p, next);
      if c[next] == COMMA {
        ParsedItemsShape(lib, c, next + 1, depth);
      }
      var r := ParseItems(lib, c, o, depth);
      if r.Ok? { ItemsHeightBound(r.value, 0, NESTING_LIMIT - depth); }
    } else {
      ItemsFromItem(lib, c, o, depth, a, p, 0);
    }
  }

  lemma {:induction false} ParsedMemberShape(lib: NumberLib, c: bytes, o: nat, depth: nat)
    requires Terminated(c) && o < |c| && depth <= NESTING_LIMIT
    ensures var p := ParseMember(lib, c, o, depth);
            p.Ok? ==> NulFree(p.value.key) && Clean(p.value.value) && depth + Height(p.value.value) <= NESTING_LIMIT
    decreases |c| - o, 2
  {
    hide ParseValue;
    var key := ParseString(c, SkipBlanks(c, o));
    if key.Ok? {
      var colon := SkipBlanks(c, key.next);
      if c[colon] == COLON {
        ParsedShape(lib, c, SkipBlanks(c, colon + 1), depth);
      }
    }
  }

  lemma {:induction false} ParsedMembersShape(lib: NumberLib, c: bytes, o: nat, depth: nat)
    requires Terminated(c) && o < |c| && depth <= NESTING_LIMIT
    ensures var p := ParseMembers(lib, c, o, depth);
            p.Ok? ==>
              && (forall k :: 0 <= k < |p.value| ==>
                    && NulFree(p.value[k].key) && Clean(p.value[k].value)
                    && Height(p.value[k].value) <= NESTING_LIMIT - depth)
              && MembersHeight(p.value, 0) <= NESTING_LIMIT - depth
    decreases |c| - o, 3
  {
    hide ParseMember;
    hide ParseMembers;
    hide Clean;
    hide Height;
    hide MembersHeight;
    ParsedMemberShape(lib, c, o, depth);
    var p := ParseMember(lib, c, o, depth);
    if p.Ok? {
      var next := SkipBlanks(c, p.next);
      MembersFromMember(lib, c, o, depth, p, next);
      if c[next] == COMMA {
        ParsedMembersShape(lib, c, next + 1, depth);
      }
      var r := ParseMembers(lib, c, o, depth);
      if r.Ok? { MembersHeightBound(r.value, 0, NESTING_LIMIT - depth); }
    } else {
      MembersFromMember(lib, c, o, depth, p, 0);
    }
  }

  /** A loaded document, saved and loaded again, is unchanged when its numbers are finite. */
  lemma ReloadIsStable(lib: NumberLib, text: bytes, strict: bool, fmt: bool)
    requires lib.Valid()
    ensures match ParseDocument(lib, text, strict)
            case None => true
            case Some(j) =>
              && Clean(j) && Height(j) <= NESTING_LIMIT
              && (ParseDocument(lib, Render(lib, j, fmt, 0), true) == Some(j) <==> Finite(lib, j))
  {
    hide ParseValue;
    hide Render;
    var c := CString(text) + [NUL];
    ParsedShape(lib, c, DocumentStart(c), 0);
    var r := ParseDocument(lib, text, strict);
    if r.Some? {
      RoundTripIff(lib, r.value, fmt, true);
    }
  }
}
