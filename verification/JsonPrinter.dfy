/** cJSON's printer: text written into a buffer that is reallocated when it is too small. */
module JsonPrinter {
  import opened Bytes
  import opened JsonModel
  import opened JsonRoundTrip
  import opened JsonDocument

  const INT_MAX: nat := 0x7FFF_FFFF

  // ----- Counting escapes ------------------------------------------------------------

  /** Additional bytes one byte of a string needs when it is escaped. */
  function ExtraBytes(b: byte): nat {
    if b == QUOTE || b == BACKSLASH || b == 8 || b == 12 || b == NEWLINE || b == 13 || b == TAB then 1
    else if b < 32 then 5
    else 0
  }

  /** The first pass of print_string_ptr: its escape_characters. */
  function ExtraLength(s: bytes): nat {
    if s == [] then 0 else ExtraLength(s[..|s| - 1]) + ExtraBytes(s[|s| - 1])
  }

  lemma {:induction false} EscapeAppend(s: bytes, b: byte)
    ensures Escape(s + [b]) == Escape(s) + EscapeByte(b)
    decreases |s|
  {
    if s != [] {
      assert (s + [b])[1..] == s[1..] + [b];
      EscapeAppend(s[1..], b);
    } else {
      assert [b][1..] == [];
    }
  }

  /** The counted length is the length that is written. */
  lemma {:induction false} CountedLength(s: bytes)
    ensures |Escape(s)| == |s| + ExtraLength(s)
    decreases |s|
  {
    if s != [] {
      var front, b := s[..|s| - 1], s[|s| - 1];
      assert s == front + [b];
      EscapeAppend(front, b);
      CountedLength(front);
    }
  }

  lemma {:induction false} NothingEscaped(s: bytes)
    requires ExtraLength(s) == 0
    ensures Escape(s) == s
    decreases |s|
  {
    if s != [] {
      var front, b := s[..|s| - 1], s[|s| - 1];
      assert s == front + [b];
      EscapeAppend(front, b);
      NothingEscaped(front);
    }
  }

  lemma {:induction false} EscapePrefix(s: bytes, i: nat)
    requires i < |s|
    ensures Escape(s[..i + 1]) == Escape(s[..i]) + EscapeByte(s[i])
    ensures |Escape(s[..i + 1])| <= |Escape(s)|
    decreases |s| - i
  {
    assert s[..i + 1] == s[..i] + [s[i]];
    EscapeAppend(s[..i], s[i]);
    if i + 1 < |s| {
      EscapePrefix(s, i + 1);
    } else {
      assert s[..i + 1] == s;
    }
  }

  /** `s` written into `b` at `pos`. */
  function Splice(b: bytes, pos: nat, s: bytes): (r: bytes)
    requires pos + |s| <= |b|
    ensures |r| == |b|
  {
    b[..pos] + s + b[pos + |s|..]
  }

  /** The letter of a two-character escape, or the byte itself. */
  function EscapeLetter(b: byte): byte {
    if b == 8 then 98 else if b == 12 then 102 else if b == NEWLINE then 110
    else if b == 13 then 114 else if b == TAB then 116 else b
  }

  lemma EscapeByLetter(b: byte)
    ensures EscapeByte(b)
         == if b > 31 && b != QUOTE && b != BACKSLASH then [b]
            else if b == QUOTE || b == BACKSLASH || EscapeLetter(b) != b then [BACKSLASH, EscapeLetter(b)]
            else [BACKSLASH, LOWER_U, 48, 48, HexDigit(b / 16), HexDigit(b % 16)]
  {
  }

  lemma Joined(before: bytes, open: bytes, inside: bytes, close: bytes)
    ensures before + open + inside + close == before + (open + inside + close)
  {
  }

  lemma BraceLengths(fmt: bool, depth: nat)
    ensures 1 <= |OpenBrace(fmt)| <= 2 && 1 <= |CloseBrace(fmt, depth)|
  {
  }

  lemma ItemsNone(lib: NumberLib, items: seq<Json>, fmt: bool, depth: nat)
    ensures RenderItems(lib, items, |items|, fmt, depth) == []
  {
  }

  lemma MembersNone(lib: NumberLib, members: seq<Member>, fmt: bool, depth: nat)
    ensures RenderMembers(lib, members, |members|, fmt, depth) == []
  {
  }

  // ----- The print buffer --------------------------------------------------------------

  class PrintBuffer {
    const lib: NumberLib
    const fmt: bool
    const noalloc: bool
    const hasRealloc: bool  // the hooks include realloc
    const reliable: bool    // the allocation hooks never fail
    var buffer: bytes
    var released: bool      // the buffer was given back after a failed allocation
    var offset: nat
    var depth: nat

    /** The text up to the offset is in place and the offset is inside the buffer. */
    ghost predicate Valid()
      reads this
    {
      && lib.Valid()
      && !released
      && |buffer| <= INT_MAX
      && (offset < |buffer| || (offset == 0 && buffer == []))
    }

    ghost function Printed(): bytes
      requires Valid()
      reads this
    {
      buffer[..offset]
    }

    /** How far the buffer can grow. */
    ghost function Capacity(): nat
      reads this
    {
      if noalloc then |buffer| else INT_MAX
    }

    /** Asking for `end` bytes succeeds exactly when they fit, unless memory runs out. */
    ghost predicate Fits(ok: bool, end: nat, capacity: nat)
      reads this
    {
      && (ok ==> end <= capacity)
      && (reliable || noalloc ==> ok == (end <= capacity))
    }

    /** `t` is in the buffer, terminated, and the offset stands somewhere in it. */
    ghost predicate Terminates(t: bytes)
      reads this`buffer, this`offset
    {
      |t| < |buffer| && buffer[..|t|] == t && buffer[|t|] == NUL && offset <= |t|
    }

    constructor (lib: NumberLib, size: nat, fmt: bool, noalloc: bool, hasRealloc: bool, reliable: bool)
      requires lib.Valid() && size <= INT_MAX
      ensures Valid() && Printed() == [] && |buffer| == size && offset == 0 && depth == 0
      ensures this.lib == lib && this.fmt == fmt && this.noalloc == noalloc && this.reliable == reliable
    {
      this.lib, this.fmt, this.noalloc := lib, fmt, noalloc;
      this.hasRealloc, this.reliable := hasRealloc, reliable;
      released, offset, depth := false, 0, 0;
      new;
      buffer := Uninitialised(size);
    }

    /** Memory whose contents nobody may rely on. */
    static method Uninitialised(size: nat) returns (m: bytes)
      ensures |m| == size
    {
      m := seq(size, _ => 0);
    }

    method Allocate() returns (ok: bool)
      ensures reliable ==> ok
    {
      ok := *;
      ok := ok || reliable;
    }

    /** ensure: room for `needed` more bytes and a terminator. */
    method Ensure(needed: nat) returns (ok: bool)
      requires Valid()
      modifies this`buffer, this`released
      ensures Fits(ok, offset + needed + 1, old(Capacity()))
      ensures ok ==> Valid() && offset + needed + 1 <= |buffer| && buffer[..offset] == old(buffer[..offset])
      ensures ok && noalloc ==> buffer == old(buffer)
    {
      if released { return false; }
      if |buffer| > 0 && offset >= |buffer| { return false; }
      if needed > INT_MAX { return false; }
      var total := needed + offset + 1;
      if total <= |buffer| { return true; }
      if noalloc { return false; }
      var newsize;
      if total > INT_MAX / 2 {
        if total > INT_MAX { return false; }
        newsize := INT_MAX;
      } else {
        newsize := total * 2;
      }
      ok := Allocate();
      if !ok {
        buffer, released := [], true;
        return;
      }
      var kept := buffer;
      if !hasRealloc && offset + 1 < |buffer| {
        kept := buffer[..offset + 1];
      }
      var tail := Uninitialised(newsize - |kept|);
      buffer := kept + tail;
    }

    /** update_offset: moves the offset to the end of the C string it stands in. */
    method UpdateOffset(ghost before: bytes, ghost last: bytes)
      requires Terminates(before + last) && |before| <= offset && NulFree(last)
      modifies this`offset
      ensures offset == |before + last|
    {
      var rest := buffer[offset..];
      ghost var t := before + last;
      ghost var n := |t| - offset;
      assert rest[..n] == buffer[..|t|][offset..] == t[offset..] == last[offset - |before|..];
      CStringAt(rest, n);
      offset := offset + |CString(rest)|;
    }

    /** Writes `s` at the offset, byte by byte. */
    method Write(s: bytes)
      requires offset + |s| <= |buffer|
      modifies this`buffer
      ensures buffer == Splice(old(buffer), offset, s)
    {
      var i := 0;
      while i < |s|
        invariant 0 <= i <= |s| && |buffer| == old(|buffer|)
        invariant buffer == Splice(old(buffer), offset, s[..i])
      {
        buffer := buffer[offset + i := s[i]];
        i := i + 1;
      }
      assert s[..|s|] == s;
    }

    /**
     * Reserves room for `s` and `slack` more bytes, writes `s` and moves the offset behind it.
     * A terminator the source writes here is overwritten before anything reads it.
     */
    method Append(s: bytes, slack: nat) returns (ok: bool)
      requires Valid()
      modifies this`buffer, this`released, this`offset
      ensures Fits(ok, old(offset) + |s| + slack + 1, old(Capacity()))
      ensures ok ==> Valid() && Printed() == old(Printed()) + s
      ensures ok && noalloc ==> |buffer| == old(|buffer|)
    {
      ok := Ensure(|s| + slack);
      if !ok { return; }
      Write(s);
      offset := offset + |s|;
    }

    /** Reserves room for `s` and its terminator and writes both; the offset stays. */
    method AppendTerminated(s: bytes) returns (ok: bool)
      requires Valid()
      modifies this`buffer, this`released
      ensures Fits(ok, offset + |s| + 2, old(Capacity()))
      ensures ok ==> Valid() && Terminates(old(Printed()) + s)
      ensures ok && noalloc ==> |buffer| == old(|buffer|)
    {
      ok := Ensure(|s| + 1);
      if !ok { return; }
      ghost var before := buffer;
      Write(s + [NUL]);
      assert buffer[..offset + |s|] == before[..offset] + s;
    }

    method PrintNumber(d: Double) returns (ok: bool)
      requires Valid()
      modifies this`buffer, this`released, this`offset
      ensures var r := Render(lib, Number(d), fmt, depth);
              && Fits(ok, old(offset) + |r| + 2, old(Capacity()))
              && (ok ==> Valid() && Terminates(old(Printed()) + r))
      ensures ok ==> old(offset) <= offset
      ensures ok && noalloc ==> |buffer| == old(|buffer|)
    {
      var numberText: bytes;
      if !lib.finite(d) {
        numberText := NULL_TEXT;
      } else {
        numberText := lib.print15(d);
        if lib.read(numberText) != d {
          numberText := lib.print17(d);
        }
      }
      assert |numberText| <= 25;
      if |numberText| > 25 { return false; }
      ok := AppendTerminated(numberText);
      if !ok { return; }
      offset := offset + |numberText|;
    }

    /** The two passes of print_string_ptr. */
    method PrintStringPtr(s: bytes) returns (ok: bool)
      requires Valid() && NulFree(s)
      modifies this`buffer, this`released
      ensures Fits(ok, offset + |Quoted(s)| + 2, old(Capacity()))
      ensures ok ==> Valid() && Terminates(old(Printed()) + Quoted(s))
      ensures ok && noalloc ==> |buffer| == old(|buffer|)
    {
      hide Escape;
      hide NumberLib.Valid;
      var escapeCharacters := CountEscapes(s);
      CountedLength(s);
      ok := Ensure(|s| + escapeCharacters + 3);
      if !ok { return; }
      WriteQuoted(s, escapeCharacters);
    }

    /** The writing half of print_string_ptr. */
    method WriteQuoted(s: bytes, escapeCharacters: nat)
      requires escapeCharacters == ExtraLength(s) && offset + |s| + escapeCharacters + 3 <= |buffer|
      modifies this`buffer
      ensures |buffer| == old(|buffer|) && Terminates(old(buffer[..offset]) + Quoted(s))
    {
      hide Escape;
      var outputLength := |s| + escapeCharacters;
      CountedLength(s);
      ghost var before := buffer[..offset];
      if escapeCharacters == 0 {
        NothingEscaped(s);
        Write([QUOTE] + s);
      } else {
        WriteEscaped(s, outputLength);
      }
      assert buffer[..offset + 1 + outputLength] == before + ([QUOTE] + Escape(s));
      ghost var middle := buffer;
      buffer := Splice(buffer, offset + outputLength + 1, [QUOTE, NUL]);
      assert buffer[..offset + outputLength + 2] == middle[..offset + 1 + outputLength] + [QUOTE];
      assert buffer[..offset + outputLength + 2] == before + Quoted(s);
    }

    method CountEscapes(s: bytes) returns (n: nat)
      ensures n == ExtraLength(s)
    {
      n := 0;
      for i := 0 to |s|
        invariant n == ExtraLength(s[..i])
      {
        assert s[..i + 1][..i] == s[..i];
        var b := s[i];
        if b == QUOTE || b == BACKSLASH || b == 8 || b == 12 || b == NEWLINE || b == 13 || b == TAB {
          n := n + 1;
        } else if b < 32 {
          n := n + 5;
        }
      }
      assert s[..|s|] == s;
    }

    /** The second pass: an opening quote and the escaped bytes. */
    method WriteEscaped(s: bytes, outputLength: nat)
      requires |Escape(s)| == outputLength && offset + outputLength + 3 <= |buffer|
      modifies this`buffer
      ensures |buffer| == old(|buffer|)
      ensures buffer[..offset + 1 + outputLength] == old(buffer[..offset]) + [QUOTE] + Escape(s)
    {
      hide EscapeByte;
      ghost var before := buffer[..offset];
      buffer := buffer[offset := QUOTE];
      var pointer := offset + 1;
      assert s[..0] == [];
      for i := 0 to |s|
        invariant |buffer| == old(|buffer|) && pointer == offset + 1 + |Escape(s[..i])| <= offset + 1 + outputLength
        invariant buffer[..pointer] == before + [QUOTE] + Escape(s[..i])
      {
        EscapePrefix(s, i);
        pointer := WriteByte(s[i], pointer);
      }
      assert s[..|s|] == s;
    }

    /** One byte of a string, escaped where it has to be. */
    method WriteByte(b: byte, pointer: nat) returns (next: nat)
      requires pointer + |EscapeByte(b)| < |buffer|
      modifies this`buffer
      ensures |buffer| == old(|buffer|)
      ensures next == pointer + |EscapeByte(b)|
      ensures buffer[..next] == old(buffer[..pointer]) + EscapeByte(b)
    {
      hide EscapeByte;
      hide EscapeLetter;
      hide HexDigit;
      EscapeByLetter(b);
      if b > 31 && b != QUOTE && b != BACKSLASH {
        buffer := buffer[pointer := b];
        return pointer + 1;
      }
      buffer := buffer[pointer := BACKSLASH];
      var letter := EscapeLetter(b);
      if b == QUOTE || b == BACKSLASH || letter != b {
        buffer := buffer[pointer + 1 := letter];
        return pointer + 2;
      }
      // sprintf writes a terminator behind the five characters
      buffer := Splice(buffer, pointer + 1, [LOWER_U, 48, 48, HexDigit(b / 16), HexDigit(b % 16), NUL]);
      return pointer + 6;
    }

    method PrintValue(j: Json) returns (ok: bool)
      requires Valid() && Clean(j)
      modifies this
      ensures var r := Render(lib, j, fmt, old(depth));
              && Fits(ok, old(offset) + |r| + 2, old(Capacity()))
              && (ok ==> Valid() && Terminates(old(Printed()) + r))
      ensures ok ==> depth == old(depth) && old(offset) <= offset
      ensures ok && noalloc ==> |buffer| == old(|buffer|)
      decreases j, 1
    {
      hide RenderItems;
      hide RenderMembers;
      hide NumberLib.Valid;
      hide Quoted;
      match j
      case Null => ok := AppendTerminated(NULL_TEXT);
      case False => ok := AppendTerminated(FALSE_TEXT);
      case True => ok := AppendTerminated(TRUE_TEXT);
      case Number(d) => ok := PrintNumber(d);
      case Text(s) => ok := PrintStringPtr(s);
      case Array(items) => ok := PrintArray(items);
      case Object(members) => ok := PrintObject(members);
    }

    method PrintArray(items: seq<Json>) returns (ok: bool)
      requires Valid() && (forall i :: 0 <= i < |items| ==> Clean(items[i]))
      modifies this
      ensures var r := [LBRACKET] + RenderItems(lib, items, 0, fmt, old(depth) + 1) + [RBRACKET];
              && Fits(ok, old(offset) + |r| + 2, old(Capacity()))
              && (ok ==> Valid() && Terminates(old(Printed()) + r))
      ensures ok ==> depth == old(depth) && old(offset) <= offset
      ensures ok && noalloc ==> |buffer| == old(|buffer|)
      decreases items
    {
      hide RenderItems;
      hide NumberLib.Valid;
      hide Clean;
      hide Terminates;
      ok := Append([LBRACKET], 0);
      if !ok { return; }
      depth := depth + 1;
      ok := PrintItems(items);
      if !ok { return; }
      assert Printed() + [RBRACKET]
          == old(Printed()) + ([LBRACKET] + RenderItems(lib, items, 0, fmt, depth) + [RBRACKET]);
      ok := AppendTerminated([RBRACKET]);
      if !ok { return; }
      depth := depth - 1;
    }

    /** The item loop of print_array. */
    method PrintItems(items: seq<Json>) returns (ok: bool)
      requires Valid() && (forall i :: 0 <= i < |items| ==> Clean(items[i]))
      modifies this
      ensures var r := RenderItems(lib, items, 0, fmt, old(depth));
              && (ok ==> Valid() && Printed() == old(Printed()) + r)
              && (!ok && (reliable || noalloc) ==> old(offset) + |r| + 2 > old(Capacity()))
      ensures ok ==> depth == old(depth) && old(offset) <= offset
      ensures ok && noalloc ==> |buffer| == old(|buffer|)
      decreases items, 0
    {
      hide Render;
      hide RenderItems;
      hide NumberLib.Valid;
      hide Clean;
      hide AfterItem;
      ok := true;
      ghost var whole := Printed() + RenderItems(lib, items, 0, fmt, depth);
      var i := 0;
      while i < |items|
        invariant 0 <= i <= |items| && ok && Valid() && depth == old(depth) && Capacity() == old(Capacity())
        invariant old(offset) <= offset
        invariant whole == Printed() + RenderItems(lib, items, i, fmt, depth)
      {
        ItemsSplit(lib, items, i, fmt, depth);
        ok := PrintItem(items[i], i + 1 == |items|);
        if !ok { return; }
        i := i + 1;
      }
      ItemsNone(lib, items, fmt, depth);
    }

    /** One round of the item loop of print_array. */
    method PrintItem(item: Json, last: bool) returns (ok: bool)
      requires Valid() && Clean(item)
      modifies this
      ensures var r := Render(lib, item, fmt, old(depth)) + AfterItem(fmt, last);
              && Fits(ok, old(offset) + |r| + 2, old(Capacity()))
              && (ok ==> Valid() && Printed() == old(Printed()) + r)
      ensures ok ==> depth == old(depth) && old(offset) <= offset
      ensures ok && noalloc ==> |buffer| == old(|buffer|)
      decreases item, 2
    {
      hide Render;
      hide NumberLib.Valid;
      hide Clean;
      ghost var before := Printed();
      ghost var v := Render(lib, item, fmt, depth);
      RenderNulFree(lib, item, fmt, depth);
      ok := PrintValue(item);
      if !ok { return; }
      UpdateOffset(before, v);
      if !last {
        ok := Append(ItemSeparator(fmt), 1);
      }
    }

    method PrintObject(members: seq<Member>) returns (ok: bool)
      requires Valid()
      requires forall i :: 0 <= i < |members| ==> NulFree(members[i].key) && Clean(members[i].value)
      modifies this
      ensures var inside := RenderMembers(lib, members, 0, fmt, old(depth) + 1);
              var r := OpenBrace(fmt) + inside + CloseBrace(fmt, old(depth));
              && Fits(ok, old(offset) + |r| + 2, old(Capacity()))
              && (ok ==> Valid() && Terminates(old(Printed()) + r))
      ensures ok ==> depth == old(depth) && old(offset) <= offset
      ensures ok && noalloc ==> |buffer| == old(|buffer|)
      decreases members
    {
      hide RenderMembers;
      hide NumberLib.Valid;
      hide Clean;
      hide Terminates;
      hide CloseBrace;
      hide OpenBrace;
      BraceLengths(fmt, depth);
      ok := Append(OpenBrace(fmt), 1);
      if !ok { return; }
      depth := depth + 1;
      ok := PrintMembers(members);
      if !ok { return; }
      Joined(old(Printed()), OpenBrace(fmt), RenderMembers(lib, members, 0, fmt, depth), CloseBrace(fmt, depth - 1));
      ok := AppendTerminated(CloseBrace(fmt, depth - 1));
      if !ok { return; }
      depth := depth - 1;
    }

    /** The member loop of print_object. */
    method PrintMembers(members: seq<Member>) returns (ok: bool)
      requires Valid()
      requires forall i :: 0 <= i < |members| ==> NulFree(members[i].key) && Clean(members[i].value)
      modifies this
      ensures var r := RenderMembers(lib, members, 0, fmt, old(depth));
              && (ok ==> Valid() && Printed() == old(Printed()) + r)
              && (!ok && (reliable || noalloc) ==> old(offset) + |r| + 2 > old(Capacity()))
      ensures ok ==> depth == old(depth) && old(offset) <= offset
      ensures ok && noalloc ==> |buffer| == old(|buffer|)
      decreases members, 0
    {
      hide Render;
      hide RenderMembers;
      hide NumberLib.Valid;
      hide Clean;
      hide Quoted;
      hide Indent;
      hide MemberEnd;
      hide KeySeparator;
      ok := true;
      ghost var whole := Printed() + RenderMembers(lib, members, 0, fmt, depth);
      var i := 0;
      while i < |members|
        invariant 0 <= i <= |members| && ok && Valid() && depth == old(depth) && Capacity() == old(Capacity())
        invariant old(offset) <= offset
        invariant whole == Printed() + RenderMembers(lib, members, i, fmt, depth)
      {
        MembersSplit(lib, members, i, fmt, depth);
        ok := PrintMember(members[i], i + 1 == |members|);
        if !ok { return; }
        i := i + 1;
      }
      MembersNone(lib, members, fmt, depth);
    }

    /** The indentation, the key and the colon of a member. */
    method PrintKey(key: bytes) returns (ok: bool)
      requires Valid() && NulFree(key)
      modifies this`buffer, this`released, this`offset
      ensures var r := Indent(fmt, depth) + Quoted(key) + KeySeparator(fmt);
              && (ok ==> Valid() && Printed() == old(Printed()) + r)
              && (!ok && (reliable || noalloc) ==> old(offset) + |r| + 1 > old(Capacity()))
      ensures ok && noalloc ==> |buffer| == old(|buffer|)
    {
      hide NumberLib.Valid;
      hide Quoted;
      ghost var start := Printed();
      if fmt {
        ok := Append(Tabs(depth), 0);
        if !ok { return; }
      }
      ghost var before := Printed();
      assert before == start + Indent(fmt, depth);
      QuotedNulFree(key);
      ok := PrintStringPtr(key);
      if !ok { return; }
      UpdateOffset(before, Quoted(key));
      assert Printed() == start + Indent(fmt, depth) + Quoted(key);
      ok := Append(KeySeparator(fmt), 0);
    }

    /** One round of the member loop of print_object. */
    method PrintMember(m: Member, last: bool) returns (ok: bool)
      requires Valid() && NulFree(m.key) && Clean(m.value)
      modifies this
      ensures var r := Indent(fmt, old(depth)) + Quoted(m.key) + KeySeparator(fmt)
                       + Render(lib, m.value, fmt, old(depth)) + MemberEnd(fmt, last);
              && Fits(ok, old(offset) + |r| + 2, old(Capacity()))
              && (ok ==> Valid() && Printed() == old(Printed()) + r)
      ensures ok ==> depth == old(depth) && old(offset) <= offset
      ensures ok && noalloc ==> |buffer| == old(|buffer|)
      decreases m
    {
      hide Render;
      hide NumberLib.Valid;
      hide Quoted;
      hide Clean;
      hide MemberEnd;
      hide KeySeparator;
      hide Indent;
      ghost var v := Render(lib, m.value, fmt, depth);
      ok := PrintKey(m.key);
      if !ok { return; }
      ghost var before := Printed();
      RenderNulFree(lib, m.value, fmt, depth);
      ok := PrintValue(m.value);
      if !ok { return; }
      UpdateOffset(before, v);
      ok := Append(MemberEnd(fmt, last), 1);
    }
  }

  const DEFAULT_BUFFER_SIZE := 256

  /** The bytes a printed tree occupies: the text and its terminator. */
  ghost function PrintedBytes(lib: NumberLib, j: Json, fmt: bool): bytes {
    Render(lib, j, fmt, 0) + [NUL]
  }

  /** Without realloc the text is copied to memory of its own and terminated again. */
  method CopyOut(text: bytes) returns (printed: bytes)
    requires text != [] && text[|text| - 1] == NUL
    ensures printed == text
  {
    printed := PrintBuffer.Uninitialised(|text|);
    printed := Splice(printed, 0, text);
    assert printed == text;
    printed := printed[|text| - 1 := NUL];
  }

  /**
   * print, behind cJSON_Print and cJSON_PrintUnformatted. With allocations that
   * never fail it gives up only on texts of more than INT_MAX - 2 bytes.
   */
  method Print(lib: NumberLib, j: Json, fmt: bool, hasRealloc: bool, reliable: bool) returns (r: Option<bytes>)
    requires lib.Valid() && Clean(j)
    ensures r.Some? ==> r.value == PrintedBytes(lib, j, fmt)
    ensures r.Some? ==> |r.value| < INT_MAX
    ensures reliable ==> (r.Some? <==> |PrintedBytes(lib, j, fmt)| < INT_MAX)
  {
    hide Render;
    hide NumberLib.Valid;
    hide Clean;
    var p := new PrintBuffer(lib, DEFAULT_BUFFER_SIZE, fmt, false, hasRealloc, reliable);
    var ok := p.Allocate();
    if !ok { return None; }
    ok := p.PrintValue(j);
    if !ok { return None; }
    RenderNulFree(lib, j, fmt, 0);
    p.UpdateOffset([], Render(lib, j, fmt, 0));
    ok := p.Allocate();
    if !ok { return None; }
    assert p.buffer[..p.offset + 1] == PrintedBytes(lib, j, fmt);
    if hasRealloc {
      return Some(p.buffer[..p.offset + 1]);
    }
    var printed := CopyOut(p.buffer[..p.offset + 1]);
    return Some(printed);
  }

  /** cJSON_PrintPreallocated succeeds exactly when the buffer has two bytes more than the text. */
  method PrintPreallocated(lib: NumberLib, j: Json, len: int, fmt: bool) returns (ok: bool, buffer: bytes)
    requires lib.Valid() && Clean(j) && len <= INT_MAX
    ensures ok <==> |Render(lib, j, fmt, 0)| + 2 <= len
    ensures ok ==> |buffer| == len && PrintedBytes(lib, j, fmt) <= buffer
  {
    hide Render;
    hide NumberLib.Valid;
    hide Clean;
    if len < 0 { return false, []; }
    var p := new PrintBuffer(lib, len, fmt, true, false, false);
    ok := p.PrintValue(j);
    buffer := p.buffer;
    ghost var r := Render(lib, j, fmt, 0);
    assert [] + r == r;
    if ok {
      assert r + [NUL] == buffer[..|r| + 1];
    }
  }
}
