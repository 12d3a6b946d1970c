/** cJSON's parser: an offset and a depth that move through the input. */
module JsonParser {
  import opened Bytes
  import opened JsonModel
  import opened JsonGrammar

  // ----- How much the decode pass of parse_string writes ----------------------------

  /** The byte at `k` is the second of an escape pair, in a scan that starts at `from`. */
  predicate Escaped(c: bytes, from: nat, k: nat)
    requires from <= k <= |c|
    decreases k
  {
    k > from && !Escaped(c, from, k - 1) && c[k - 1] == BACKSLASH
  }

  /** The number of escape pairs that start before `k`: the first pass's skipped_bytes. */
  function Escapes(c: bytes, from: nat, k: nat): nat
    requires from <= k <= |c|
    decreases k
  {
    if k == from then 0
    else Escapes(c, from, k - 1) + (if !Escaped(c, from, k - 1) && c[k - 1] == BACKSLASH then 1 else 0)
  }

  /** Two neighbouring bytes start at most one pair. */
  lemma PairBound(c: bytes, from: nat, k: nat)
    requires from <= k && k + 2 <= |c|
    ensures Escapes(c, from, k) <= Escapes(c, from, k + 2) <= Escapes(c, from, k) + 1
  {
    assert Escapes(c, from, k + 2) == Escapes(c, from, k + 1) + (if Escaped(c, from, k + 2) then 1 else 0);
    assert Escapes(c, from, k + 1) == Escapes(c, from, k) + (if Escaped(c, from, k + 1) then 1 else 0);
  }

  /** Bytes without a backslash start no pair. */
  lemma {:induction false} PlainBound(c: bytes, from: nat, k: nat, n: nat)
    requires from <= k && k + n <= |c|
    requires forall i :: k <= i < k + n ==> c[i] != BACKSLASH
    ensures Escapes(c, from, k + n) == Escapes(c, from, k)
    decreases n
  {
    if n > 0 { PlainBound(c, from, k, n - 1); }
  }

  lemma HexBound(c: bytes, from: nat, k: nat)
    requires from <= k && k + 6 <= |c|
    ensures Escapes(c, from, k + 6) <= Escapes(c, from, k) + 3
    ensures IsHex4(c, k + 2) ==> Escapes(c, from, k + 6) <= Escapes(c, from, k) + 1
  {
    PairBound(c, from, k);
    PairBound(c, from, k + 2);
    PairBound(c, from, k + 4);
    if IsHex4(c, k + 2) {
      PlainBound(c, from, k + 2, 4);
    }
  }

  /** A `\u` escape is at least as long as its UTF-8 form and the pairs counted in it. */
  lemma LiteralFits(c: bytes, from: nat, p: nat, end: nat)
    requires from <= p <= end <= |c|
    ensures match ReadLiteral(c, p, end)
            case None => true
            case Some(l) =>
              |Utf8(l.codepoint)| + Escapes(c, from, p + l.length) <= Escapes(c, from, p) + l.length
  {
    var r := ReadLiteral(c, p, end);
    if r.Some? {
      HexBound(c, from, p);
      if r.value.length == 12 {
        HexBound(c, from, p + 6);
      }
    }
  }

  /** How many bytes the decode pass may have written when it stands at `p`. */
  function Room(c: bytes, from: nat, p: nat, end: nat): int
    requires from <= p && from <= end <= |c|
  {
    var q := if p <= end then p else end;
    q - from - Escapes(c, from, q)
  }

  /** One step of the decode pass stays within the room, whatever the first pass saw there. */
  lemma StepFits(c: bytes, from: nat, p: nat, end: nat)
    requires from <= p < end < |c| && !Escaped(c, from, end)
    ensures c[p] != BACKSLASH ==> Room(c, from, p, end) + 1 == Room(c, from, p + 1, end)
    ensures c[p] == BACKSLASH ==> Room(c, from, p, end) + 1 <= Room(c, from, p + 2, end)
    ensures match ReadLiteral(c, p, end)
            case None => true
            case Some(l) => Room(c, from, p, end) + |Utf8(l.codepoint)| <= Room(c, from, p + l.length, end)
  {
    LiteralFits(c, from, p, end);
    if p + 2 <= end {
      PairBound(c, from, p);
    }
  }

  /** The room never exceeds what the first pass measured for the whole string. */
  lemma {:induction false} RoomBound(c: bytes, from: nat, p: nat, end: nat)
    requires from <= p && from <= end <= |c|
    ensures 0 <= Room(c, from, p, end) <= end - from - Escapes(c, from, end)
    decreases end
  {
    if p < end {
      RoomBound(c, from, p, end - 1);
    } else if from < end {
      RoomBound(c, from, p, end - 1);
    }
  }

  /** The decoded bytes fit what the first pass measured, even where the passes split escapes differently. */
  lemma {:induction false} DecodedFits(c: bytes, from: nat, p: nat, end: nat)
    requires from <= p && from <= end < |c| && !Escaped(c, from, end)
    ensures match Decode(c, p, end)
            case None => true
            case Some(s) => Room(c, from, p, end) + |s| <= end - from - Escapes(c, from, end)
    decreases |c| - p
  {
    hide ReadLiteral;
    if p < end {
      StepFits(c, from, p, end);
      if c[p] != BACKSLASH {
        DecodedFits(c, from, p + 1, end);
      } else if c[p + 1] == LOWER_U {
        var l := ReadLiteral(c, p, end);
        if l.Some? { DecodedFits(c, from, p + l.value.length, end); }
      } else {
        DecodedFits(c, from, p + 2, end);
      }
    }
  }

  /** The closing quote is not part of an escape pair. */
  lemma {:induction false} QuoteIsPlain(c: bytes, from: nat, i: nat)
    requires from <= i <= |c| && !Escaped(c, from, i)
    ensures match ClosingQuote(c, i)
            case None => true
            case Some(end) => !Escaped(c, from, end)
    decreases |c| - i
  {
    if i < |c| && c[i] != QUOTE {
      if c[i] != BACKSLASH {
        QuoteIsPlain(c, from, i + 1);
      } else if i + 2 <= |c| {
        QuoteIsPlain(c, from, i + 2);
      }
    }
  }

  /**
   * For every input: the length parse_string allocates after its first pass
   * holds everything its second pass writes, terminator included, with the
   * extra byte it adds to spare.
   */
  lemma AllocationSuffices(c: bytes, o: nat, end: nat, s: bytes)
    requires o < |c| && ClosingQuote(c, o + 1) == Some(end)
    requires Decode(c, o + 1, end) == Some(s)
    ensures |s| + 1 <= end - o - Escapes(c, o + 1, end)
  {
    QuoteIsPlain(c, o + 1, o + 1);
    DecodedFits(c, o + 1, o + 1, end);
  }

  // ----- Unicode -----------------------------------------------------------------------

  /** The first `n` hexadecimal digits at `i`. */
  function HexPrefix(c: bytes, i: nat, n: nat): nat
    requires i + n <= |c|
  {
    if n == 0 then 0
    else 16 * HexPrefix(c, i, n - 1) + (match HexValue(c[i + n - 1]) case Some(v) => v case None => 0)
  }

  lemma HexPrefixIsHex4(c: bytes, i: nat)
    requires i + 4 <= |c| && IsHex4(c, i)
    ensures HexPrefix(c, i, 4) == Hex4(c, i)
  {
    assert HexValue(c[i]).Some? && HexValue(c[i + 1]).Some? && HexValue(c[i + 2]).Some? && HexValue(c[i + 3]).Some?;
    assert HexPrefix(c, i, 4) == 16 * HexPrefix(c, i, 3) + HexValue(c[i + 3]).value;
    assert HexPrefix(c, i, 3) == 16 * HexPrefix(c, i, 2) + HexValue(c[i + 2]).value;
    assert HexPrefix(c, i, 2) == 16 * HexPrefix(c, i, 1) + HexValue(c[i + 1]).value;
    assert HexPrefix(c, i, 1) == HexValue(c[i]).value;
  }

  /** What Hex4 reads is said by JsonUnicode.SpelledReads. */
  method ParseHex4(c: bytes, i: nat) returns (h: nat)
    requires i + 4 <= |c|
    ensures h == Hex4(c, i)
  {
    h := 0;
    for k := 0 to 4
      invariant forall n :: i <= n < i + k ==> HexValue(c[n]).Some?
      invariant h == if k < 4 then 16 * HexPrefix(c, i, k) else HexPrefix(c, i, 4)
    {
      var b := c[i + k];
      if 48 <= b <= 57 {
        h := h + b - 48;
      } else if 65 <= b <= 70 {
        h := h + 10 + b - 65;
      } else if 97 <= b <= 102 {
        h := h + 10 + b - 97;
      } else {
        return 0;
      }
      if k < 3 {
        h := h * 16;
      }
    }
    HexPrefixIsHex4(c, i);
  }

  /** The code point after `n` shifts by six bits. */
  function Shifted(cp: nat, n: nat): nat {
    if n == 0 then cp else Shifted(cp, n - 1) / 64
  }

  /** The bytes of a UTF-8 form, last one first. */
  lemma Utf8Bytes(cp: nat)
    requires cp <= 0x10FFFF
    ensures var n := |Utf8(cp)|;
            && (forall k :: 0 < k < n ==> Utf8(cp)[k] == 0x80 + Shifted(cp, n - 1 - k) % 64)
            && n == Utf8Size(cp)
            && Utf8(cp)[0] == Shifted(cp, n - 1) + FirstByteMark(n)
  {
    hide Shifted;
    ShiftedStep(cp, 0);
    ShiftedStep(cp, 1);
    ShiftedStep(cp, 2);
    assert Shifted(cp, 2) == cp / 4096;
    assert Shifted(cp, 3) == cp / 262144;
  }

  /** The comparisons that choose the length of a UTF-8 form. */
  function Utf8Size(cp: nat): nat {
    if cp < 0x80 then 1 else if cp < 0x800 then 2 else if cp < 0x10000 then 3 else 4
  }

  lemma ShiftedStep(cp: nat, n: nat)
    ensures Shifted(cp, 0) == cp && Shifted(cp, n + 1) == Shifted(cp, n) / 64
  {
  }

  function FirstByteMark(n: nat): nat {
    if n <= 1 then 0 else if n == 2 then 0xC0 else if n == 3 then 0xE0 else 0xF0
  }

  /** The reading half of utf16_literal_to_utf8; the masks of the source are written as arithmetic. */
  method ReadUtf16Literal(c: bytes, p: nat, end: nat) returns (r: Option<Literal>)
    requires p <= end <= |c|
    ensures r == ReadLiteral(c, p, end)
  {
    hide Hex4;
    if end - p < 6 { return None; }
    var firstCode := ParseHex4(c, p + 2);
    if 0xDC00 <= firstCode <= 0xDFFF { return None; }
    if 0xD800 <= firstCode <= 0xDBFF {
      if end - (p + 6) < 6 { return None; }
      if c[p + 6] != BACKSLASH || c[p + 7] != LOWER_U { return None; }
      var secondCode := ParseHex4(c, p + 8);
      if secondCode < 0xDC00 || secondCode > 0xDFFF { return None; }
      return Some(Literal(12, 0x10000 + firstCode % 0x400 * 0x400 + secondCode % 0x400));
    }
    return Some(Literal(6, firstCode));
  }

  /** The encoding loop of utf16_literal_to_utf8, from the last byte to the first. */
  method WriteUtf8(codepoint: nat, output: array<byte>, pos: nat) returns (next: nat)
    requires codepoint <= 0x10FFFF && pos + |Utf8(codepoint)| <= output.Length
    modifies output
    ensures next == pos + |Utf8(codepoint)|
    ensures output[..next] == old(output[..pos]) + Utf8(codepoint)
  {
    hide Utf8;
    hide Shifted;
    ghost var u := Utf8(codepoint);
    Utf8Bytes(codepoint);
    ShiftedStep(codepoint, 0);
    var length, mark: byte;
    if codepoint < 0x80 {
      length, mark := 1, 0;
    } else if codepoint < 0x800 {
      length, mark := 2, 0xC0;
    } else if codepoint < 0x10000 {
      length, mark := 3, 0xE0;
    } else {
      length, mark := 4, 0xF0;
    }
    var cp := codepoint;
    var k: nat := length - 1;
    while k > 0
      invariant 0 <= k < length == |u|
      invariant cp == Shifted(codepoint, length - 1 - k)
      invariant output[..pos] == old(output[..pos])
      invariant forall i :: k < i < length ==> output[pos + i] == u[i]
    {
      ShiftedStep(codepoint, length - 1 - k);
      output[pos + k] := 0x80 + cp % 64;
      cp := cp / 64;
      k := k - 1;
    }
    output[pos] := if length > 1 then cp + mark else cp % 128;
    next := pos + length;
    assert output[pos..next] == u;
    assert output[..next] == output[..pos] + output[pos..next];
  }

  lemma NumberRunStep(c: bytes, o: nat, limit: nat)
    requires o <= |c|
    ensures NumberRun(c, o, limit)
         == if limit > 0 && o < |c| && IsNumberByte(c[o]) then NumberRun(c, o + 1, limit - 1) else o
  {
    hide IsNumberByte;
  }

  // ----- The parse buffer ----------------------------------------------------------------

  /** What was parsed before, in front of what is parsed next. */
  ghost function After<T>(before: seq<T>, p: Parsed<seq<T>>): Parsed<seq<T>> {
    match p
    case Fail => Fail
    case Ok(rest, next) => Ok(before + rest, next)
  }

  lemma PrependNothing(r: Option<bytes>)
    ensures Prepend([], r) == r
  {
    if r.Some? { assert [] + r.value == r.value; }
  }

  /** One step of the decode pass. */
  lemma DecodeStep(c: bytes, p: nat, end: nat)
    requires p < end < |c|
    ensures Decode(c, p, end)
         == if c[p] != BACKSLASH then Prepend([c[p]], Decode(c, p + 1, end))
            else if c[p + 1] == LOWER_U then
              match ReadLiteral(c, p, end)
              case None => None
              case Some(l) => Prepend(Utf8(l.codepoint), Decode(c, p + l.length, end))
            else
              match Unescape(c[p + 1])
              case None => None
              case Some(b) => Prepend([b], Decode(c, p + 2, end))
  {
  }

  lemma DecodeEnd(c: bytes, p: nat, end: nat, before: bytes)
    requires end <= p && end < |c|
    ensures Prepend(before, Decode(c, p, end)) == Some(before)
  {
    assert before + [] == before;
  }

  lemma PrependTwice(a: bytes, b: bytes, r: Option<bytes>)
    ensures Prepend(a, Prepend(b, r)) == Prepend(a + b, r)
    ensures Prepend(a, None) == None
  {
    if r.Some? { assert a + (b + r.value) == a + b + r.value; }
  }

  lemma AfterNothing<T>(p: Parsed<seq<T>>)
    ensures After([], p) == p
  {
    if p.Ok? { assert [] + p.value == p.value; }
  }

  /** One round of the element loop. */
  lemma ItemsStep(lib: NumberLib, c: bytes, o: nat, depth: nat, before: seq<Json>)
    requires Terminated(c) && o < |c|
    ensures After(before, JsonGrammar.ParseItems(lib, c, o, depth))
         == match JsonGrammar.ParseValue(lib, c, SkipBlanks(c, o), depth)
            case Fail => Fail
            case Ok(v, after) =>
              var next := SkipBlanks(c, after);
              if c[next] == COMMA then After(before + [v], JsonGrammar.ParseItems(lib, c, next + 1, depth))
              else if c[next] == RBRACKET then Ok(before + [v], next + 1)
              else Fail
  {
    hide JsonGrammar.ParseValue;
    hide SkipBlanks;
    var p := JsonGrammar.ParseValue(lib, c, SkipBlanks(c, o), depth);
    if p.Ok? {
      var next := SkipBlanks(c, p.next);
      if c[next] == COMMA {
        var rest := JsonGrammar.ParseItems(lib, c, next + 1, depth);
        if rest.Ok? { assert before + ([p.value] + rest.value) == before + [p.value] + rest.value; }
      }
    }
  }

  /** One round of the member loop. */
  lemma MembersStep(lib: NumberLib, c: bytes, o: nat, depth: nat, before: seq<Member>)
    requires Terminated(c) && o < |c|
    ensures After(before, JsonGrammar.ParseMembers(lib, c, o, depth))
         == match JsonGrammar.ParseMember(lib, c, o, depth)
            case Fail => Fail
            case Ok(m, after) =>
              var next := SkipBlanks(c, after);
              if c[next] == COMMA then After(before + [m], JsonGrammar.ParseMembers(lib, c, next + 1, depth))
              else if c[next] == RBRACE then Ok(before + [m], next + 1)
              else Fail
  {
    hide JsonGrammar.ParseMember;
    var p := JsonGrammar.ParseMember(lib, c, o, depth);
    if p.Ok? {
      var next := SkipBlanks(c, p.next);
      if c[next] == COMMA {
        var rest := JsonGrammar.ParseMembers(lib, c, next + 1, depth);
        if rest.Ok? { assert before + ([p.value] + rest.value) == before + [p.value] + rest.value; }
      }
    }
  }

  class ParseBuffer {
    const content: bytes
    const lib: NumberLib
    const reliable: bool  // the allocation hooks never fail
    var offset: nat
    var depth: nat

    ghost predicate Valid()
      reads this
    {
      Terminated(content) && offset <= |content|
    }

    constructor (content: bytes, lib: NumberLib, reliable: bool)
      requires Terminated(content)
      ensures Valid() && this.content == content && this.lib == lib && this.reliable == reliable
      ensures offset == 0 && depth == 0
    {
      this.content, this.lib, this.reliable := content, lib, reliable;
      offset, depth := 0, 0;
    }

    /** The allocation hook: unless it is reliable it may fail at any time. */
    method Allocate() returns (ok: bool)
      ensures reliable ==> ok
    {
      ok := *;
      ok := ok || reliable;
    }

    method SkipWhitespace()
      requires Valid()
      modifies this`offset
      ensures Valid() && offset == SkipBlanks(content, old(offset))
    {
      while offset < |content| && content[offset] <= 32
        invariant offset <= |content|
        invariant BlankEnd(content, offset) == BlankEnd(content, old(offset))
      {
        offset := offset + 1;
      }
      if offset == |content| {
        offset := offset - 1;
      }
    }

    method SkipBom()
      requires Valid() && offset == 0
      modifies this`offset
      ensures Valid() && offset == if 4 < |content| && At(content, 0, BOM) then 3 else 0
    {
      if offset + 4 < |content| && content[offset..offset + 3] == BOM {
        offset := offset + 3;
      }
    }

    /** Where a failed parse says it stopped, never behind the terminator. */
    function ErrorPosition(): (p: nat)
      requires Valid()
      reads this
      ensures p < |content|
    {
      if offset < |content| then offset else |content| - 1
    }

    /** Copies the bytes strtod gets to see into a local buffer. */
    method CopyNumber(limit: nat) returns (run: bytes)
      requires Valid() && offset < |content|
      ensures run == content[offset..NumberRun(content, offset, limit)]
    {
      hide IsNumberByte;
      hide NumberRun;
      var numberText := new byte[limit + 1];
      var i := 0;
      while i < limit && offset + i < |content| && IsNumberByte(content[offset + i])
        invariant 0 <= i <= limit && offset + i <= |content|
        invariant forall k :: 0 <= k < i ==> numberText[k] == content[offset + k]
        invariant NumberRun(content, offset, limit) == NumberRun(content, offset + i, limit - i)
      {
        NumberRunStep(content, offset + i, limit - i);
        numberText[i] := content[offset + i];
        i := i + 1;
      }
      NumberRunStep(content, offset + i, limit - i);
      run := numberText[..i];
    }

    method ParseNumber() returns (ok: bool, item: Json)
      requires Valid() && offset < |content|
      modifies this`offset
      ensures Valid()
      ensures match JsonGrammar.ParseNumber(lib, content, old(offset))
              case Fail => !ok
              case Ok(v, next) => ok && item == v && offset == next
    {
      hide StrtodEnd;
      hide NumberRun;
      var run := CopyNumber(NUMBER_MAX);
      var end := StrtodEnd(run);
      if end == 0 { return false, Null; }
      ok, item := true, Number(lib.read(run[..end]));
      offset := offset + end;
    }

    /** The first pass of parse_string: where it ends and how many pairs it skipped. */
    method MeasureString() returns (r: Option<(nat, nat)>)
      requires Valid() && offset < |content|
      ensures match ClosingQuote(content, offset + 1)
              case None => r == None
              case Some(end) => r == Some((end, Escapes(content, offset + 1, end)))
    {
      var start := offset + 1;
      var inputEnd, skipped := start, 0;
      while inputEnd < |content| && content[inputEnd] != QUOTE
        invariant start <= inputEnd <= |content| && !Escaped(content, start, inputEnd)
        invariant skipped == Escapes(content, start, inputEnd)
        invariant ClosingQuote(content, inputEnd) == ClosingQuote(content, start)
      {
        if content[inputEnd] == BACKSLASH {
          if inputEnd + 1 >= |content| { return None; }
          skipped := skipped + 1;
          inputEnd := inputEnd + 1;
        }
        inputEnd := inputEnd + 1;
      }
      if inputEnd >= |content| || content[inputEnd] != QUOTE { return None; }
      return Some((inputEnd, skipped));
    }

    /** The second pass of parse_string, into the block the first pass measured. */
    method DecodeInto(output: array<byte>, inputEnd: nat) returns (ok: bool, written: nat)
      requires Valid() && offset < inputEnd < |content| && !Escaped(content, offset + 1, inputEnd)
      requires output.Length == inputEnd - offset - Escapes(content, offset + 1, inputEnd) + 1
      modifies output
      ensures match Decode(content, offset + 1, inputEnd)
              case None => !ok
              case Some(s) => ok && written == |s| < output.Length && output[..written] == s
    {
      hide Decode;
      hide ReadLiteral;
      hide Utf8;
      hide Room;
      var start := offset + 1;
      var p: nat := start;
      RoomBound(content, start, start, inputEnd);
      written := 0;
      PrependNothing(Decode(content, start, inputEnd));
      assert output[..0] == [];
      while p < inputEnd
        invariant start <= p && 0 <= written <= Room(content, start, p, inputEnd) && written < output.Length
        invariant Decode(content, start, inputEnd) == Prepend(output[..written], Decode(content, p, inputEnd))
        decreases |content| - p
      {
        StepFits(content, start, p, inputEnd);
        DecodeStep(content, p, inputEnd);
        RoomBound(content, start, p + 1, inputEnd);
        RoomBound(content, start, p + 2, inputEnd);
        ghost var before := output[..written];
        if content[p] != BACKSLASH {
          PrependTwice(before, [content[p]], Decode(content, p + 1, inputEnd));
          output[written] := content[p];
          written, p := written + 1, p + 1;
          assert output[..written] == before + [content[p - 1]];
        } else if content[p + 1] == LOWER_U {
          var l := ReadUtf16Literal(content, p, inputEnd);
          if l == None { return false, written; }
          RoomBound(content, start, p + l.value.length, inputEnd);
          PrependTwice(before, Utf8(l.value.codepoint), Decode(content, p + l.value.length, inputEnd));
          written := WriteUtf8(l.value.codepoint, output, written);
          p := p + l.value.length;
        } else {
          var b := Unescape(content[p + 1]);
          if b == None { return false, written; }
          PrependTwice(before, [b.value], Decode(content, p + 2, inputEnd));
          output[written] := b.value;
          written, p := written + 1, p + 2;
          assert output[..written] == before + [b.value];
        }
      }
      RoomBound(content, start, p, inputEnd);
      DecodeEnd(content, p, inputEnd, output[..written]);
      ok := true;
    }

    method ParseString() returns (ok: bool, text: bytes)
      requires Valid() && offset < |content|
      modifies this`offset
      ensures Valid()
      ensures ok ==> JsonGrammar.ParseString(content, old(offset)) == Ok(text, offset)
      ensures !ok && reliable ==> JsonGrammar.ParseString(content, old(offset)) == Fail
    {
      hide Decode;
      if content[offset] != QUOTE { return false, []; }
      var measured := MeasureString();
      if measured == None { return false, []; }
      var (inputEnd, skipped) := measured.value;
      QuoteIsPlain(content, offset + 1, offset + 1);
      RoomBound(content, offset + 1, offset + 1, inputEnd);
      ok := Allocate();
      if !ok { return false, []; }
      var output := new byte[inputEnd - offset - skipped + 1];
      var written;
      ok, written := DecodeInto(output, inputEnd);
      if !ok { return false, []; }
      output[written] := NUL;
      ghost var decoded := output[..written];
      CStringIsPrefix(output[..], written);
      text := CString(output[..]);
      offset := inputEnd + 1;
    }

    method ParseValue() returns (ok: bool, item: Json)
      requires Valid() && offset < |content|
      modifies this
      ensures Valid()
      ensures ok ==> JsonGrammar.ParseValue(lib, content, old(offset), old(depth)) == Ok(item, offset)
      ensures ok ==> depth == old(depth)
      ensures !ok && reliable ==> JsonGrammar.ParseValue(lib, content, old(offset), old(depth)) == Fail
      decreases |content| - offset, 1
    {
      hide JsonGrammar.ParseArray;
      hide JsonGrammar.ParseObject;
      hide JsonGrammar.ParseString;
      hide JsonGrammar.ParseNumber;
      ok, item := false, Null;
      if offset + 4 <= |content| && content[offset..offset + 4] == NULL_TEXT {
        ok, item := true, Null;
        offset := offset + 4;
      } else if offset + 5 <= |content| && content[offset..offset + 5] == FALSE_TEXT {
        ok, item := true, False;
        offset := offset + 5;
      } else if offset + 4 <= |content| && content[offset..offset + 4] == TRUE_TEXT {
        ok, item := true, True;
        offset := offset + 4;
      } else if content[offset] == QUOTE {
        var text;
        ok, text := ParseString();
        item := Text(text);
      } else if content[offset] == MINUS || 48 <= content[offset] <= 57 {
        ok, item := ParseNumber();
      } else if content[offset] == LBRACKET {
        ok, item := ParseArray();
      } else if content[offset] == LBRACE {
        ok, item := ParseObject();
      }
    }

    method ParseArray() returns (ok: bool, item: Json)
      requires Valid() && offset < |content| && content[offset] == LBRACKET
      modifies this
      ensures Valid()
      ensures ok ==> JsonGrammar.ParseArray(lib, content, old(offset), old(depth)) == Ok(item, offset)
      ensures ok ==> depth == old(depth)
      ensures !ok && reliable ==> JsonGrammar.ParseArray(lib, content, old(offset), old(depth)) == Fail
      decreases |content| - offset, 0
    {
      hide JsonGrammar.ParseItems;
      hide SkipBlanks;
      ok, item := false, Null;
      if depth >= NESTING_LIMIT { return; }
      depth := depth + 1;
      offset := offset + 1;
      SkipWhitespace();
      if content[offset] == RBRACKET {
        depth := depth - 1;
        offset := offset + 1;
        return true, Array([]);
      }
      var items;
      ok, items := ParseItems();
      if !ok { return; }
      depth := depth - 1;
      item := Array(items);
    }

    /** The element loop of parse_array; the list of elements grows at its end. */
    method ParseItems() returns (ok: bool, items: seq<Json>)
      requires Valid() && 0 < offset < |content|
      modifies this
      ensures Valid()
      ensures ok ==> JsonGrammar.ParseItems(lib, content, old(offset), old(depth)) == Ok(items, offset)
      ensures ok ==> depth == old(depth)
      ensures !ok && reliable ==> JsonGrammar.ParseItems(lib, content, old(offset), old(depth)) == Fail
      decreases |content| - offset, 2
    {
      hide JsonGrammar.ParseValue;
      hide JsonGrammar.ParseItems;
      hide SkipBlanks;
      ok, items := false, [];
      offset := offset - 1;
      ghost var all := JsonGrammar.ParseItems(lib, content, old(offset), old(depth));
      AfterNothing(all);
      while true
        invariant Valid() && old(offset) <= offset + 1 < |content| && depth == old(depth) && !ok
        invariant all == After(items, JsonGrammar.ParseItems(lib, content, offset + 1, depth))
        decreases |content| - offset
      {
        var granted := Allocate();
        if !granted { return; }
        offset := offset + 1;
        ghost var before, from := items, offset;
        SkipWhitespace();
        ghost var p := JsonGrammar.ParseValue(lib, content, offset, depth);
        ItemsStep(lib, content, from, depth, before);
        var parsed, v := ParseValue();
        if !parsed { return; }
        items := items + [v];
        SkipWhitespace();
        if content[offset] != COMMA { break; }
      }
      if content[offset] != RBRACKET { return; }
      offset := offset + 1;
      ok := true;
    }

    method ParseObject() returns (ok: bool, item: Json)
      requires Valid() && offset < |content| && content[offset] == LBRACE
      modifies this
      ensures Valid()
      ensures ok ==> JsonGrammar.ParseObject(lib, content, old(offset), old(depth)) == Ok(item, offset)
      ensures ok ==> depth == old(depth)
      ensures !ok && reliable ==> JsonGrammar.ParseObject(lib, content, old(offset), old(depth)) == Fail
      decreases |content| - offset, 0
    {
      hide JsonGrammar.ParseMembers;
      ok, item := false, Null;
      if depth >= NESTING_LIMIT { return; }
      depth := depth + 1;
      offset := offset + 1;
      SkipWhitespace();
      if content[offset] == RBRACE {
        depth := depth - 1;
        offset := offset + 1;
        return true, Object([]);
      }
      var members;
      ok, members := ParseMembers();
      if !ok { return; }
      depth := depth - 1;
      item := Object(members);
    }

    /** The member loop of parse_object; the list of members grows at its end. */
    method ParseMembers() returns (ok: bool, members: seq<Member>)
      requires Valid() && 0 < offset < |content|
      modifies this
      ensures Valid()
      ensures ok ==> JsonGrammar.ParseMembers(lib, content, old(offset), old(depth)) == Ok(members, offset)
      ensures ok ==> depth == old(depth)
      ensures !ok && reliable ==> JsonGrammar.ParseMembers(lib, content, old(offset), old(depth)) == Fail
      decreases |content| - offset, 3
    {
      hide JsonGrammar.ParseMember;
      hide JsonGrammar.ParseMembers;
      ok, members := false, [];
      offset := offset - 1;
      ghost var all := JsonGrammar.ParseMembers(lib, content, old(offset), old(depth));
      AfterNothing(all);
      while true
        invariant Valid() && old(offset) <= offset + 1 < |content| && depth == old(depth) && !ok
        invariant all == After(members, JsonGrammar.ParseMembers(lib, content, offset + 1, depth))
        decreases |content| - offset
      {
        var granted := Allocate();
        if !granted { return; }
        offset := offset + 1;
        MembersStep(lib, content, offset, depth, members);
        var parsed, m := ParseMember();
        if !parsed { return; }
        members := members + [m];
        SkipWhitespace();
        if content[offset] != COMMA { break; }
      }
      if content[offset] != RBRACE { return; }
      offset := offset + 1;
      ok := true;
    }

    method ParseMember() returns (ok: bool, m: Member)
      requires Valid() && offset < |content|
      modifies this
      ensures Valid()
      ensures ok ==> JsonGrammar.ParseMember(lib, content, old(offset), old(depth)) == Ok(m, offset)
      ensures ok ==> depth == old(depth)
      ensures !ok && reliable ==> JsonGrammar.ParseMember(lib, content, old(offset), old(depth)) == Fail
      decreases |content| - offset, 2
    {
      hide JsonGrammar.ParseValue;
      hide JsonGrammar.ParseString;
      ok, m := false, Member([], Null);
      SkipWhitespace();
      var parsed, key := ParseString();
      if !parsed { return; }
      SkipWhitespace();
      if content[offset] != COLON { return; }
      offset := offset + 1;
      SkipWhitespace();
      var v;
      ok, v := ParseValue();
      m := Member(key, v);
    }
  }

  /** cJSON_ParseWithOpts; cJSON_Parse is the case that is not strict. */
  method ParseWithOpts(lib: NumberLib, text: bytes, strict: bool, reliable: bool)
    returns (r: Option<Json>, end: nat)
    ensures r.Some? || reliable ==> r == ParseDocument(lib, text, strict)
    ensures r.Some? ==> end == DocumentEnd(lib, text, strict)
    ensures end <= |CString(text)|
  {
    hide JsonGrammar.ParseValue;
    var buffer := new ParseBuffer(CString(text) + [NUL], lib, reliable);
    var granted := buffer.Allocate();
    if !granted { return None, buffer.ErrorPosition(); }
    buffer.SkipBom();
    buffer.SkipWhitespace();
    var ok, item := buffer.ParseValue();
    if !ok { return None, buffer.ErrorPosition(); }
    if strict {
      buffer.SkipWhitespace();
      if buffer.content[buffer.offset] != NUL { return None, buffer.ErrorPosition(); }
    }
    return Some(item), buffer.offset;
  }
}
