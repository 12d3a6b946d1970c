/** The `\u` escapes of RFC 8259 and the UTF-8 of RFC 3629. */
module JsonUnicode {
  import opened Bytes
  import opened JsonModel
  import opened JsonGrammar

  /** A code point that is not a surrogate. */
  predicate IsScalar(cp: nat) {
    cp <= 0x10FFFF && !(0xD800 <= cp <= 0xDFFF)
  }

  predicate IsTail(b: byte) { 0x80 <= b <= 0xBF }

  /** The six bits a continuation byte carries. */
  function TailBits(b: byte): nat
    requires IsTail(b)
  {
    b - 0x80
  }

  /** One character by the grammar of section 4 of RFC 3629, which admits no overlong forms. */
  function DecodeUtf8(b: bytes): Option<nat> {
    if |b| == 1 && b[0] <= 0x7F then Some(b[0])
    else if |b| == 2 && 0xC2 <= b[0] <= 0xDF && IsTail(b[1]) then
      var lead: nat := b[0] - 0xC0;
      Some(lead * 64 + TailBits(b[1]))
    else if |b| == 3 && 0xE0 <= b[0] <= 0xEF && IsTail(b[1]) && IsTail(b[2])
            && (b[0] == 0xE0 ==> b[1] >= 0xA0) && (b[0] == 0xED ==> b[1] <= 0x9F) then
      var lead: nat := b[0] - 0xE0;
      Some((lead * 64 + TailBits(b[1])) * 64 + TailBits(b[2]))
    else if |b| == 4 && 0xF0 <= b[0] <= 0xF4 && IsTail(b[1]) && IsTail(b[2]) && IsTail(b[3])
            && (b[0] == 0xF0 ==> b[1] >= 0x90) && (b[0] == 0xF4 ==> b[1] <= 0x8F) then
      var lead: nat := b[0] - 0xF0;
      Some(((lead * 64 + TailBits(b[1])) * 64 + TailBits(b[2])) * 64 + TailBits(b[3]))
    else None
  }

  /** What the parser writes for a code point is the one valid UTF-8 form of it. */
  lemma Utf8IsRfc3629(cp: nat)
    requires IsScalar(cp)
    ensures DecodeUtf8(Utf8(cp)) == Some(cp)
  {
    assert cp / 64 / 64 == cp / 4096;
    assert cp / 4096 / 64 == cp / 262144;
  }

  lemma Utf8IsUnique(b: bytes, cp: nat)
    requires DecodeUtf8(b) == Some(cp)
    ensures IsScalar(cp) && Utf8(cp) == b
  {
    if |b| == 2 {
      SixBits(b[0] - 0xC0, TailBits(b[1]));
    } else if |b| == 3 {
      TwoTails(b[0] - 0xE0, TailBits(b[1]), TailBits(b[2]));
    } else if |b| == 4 {
      ThreeTails(b[0] - 0xF0, TailBits(b[1]), TailBits(b[2]), TailBits(b[3]));
    }
  }

  lemma TwoTails(lead: nat, a: nat, b: nat)
    requires a < 64 && b < 64
    ensures var cp := (lead * 64 + a) * 64 + b;
            cp / 4096 == lead && cp / 64 % 64 == a && cp % 64 == b
  {
    SixBits(lead, a);
    SixBits(lead * 64 + a, b);
    var cp := (lead * 64 + a) * 64 + b;
    assert cp / 4096 == cp / 64 / 64;
  }

  lemma ThreeTails(lead: nat, a: nat, b: nat, d: nat)
    requires a < 64 && b < 64 && d < 64
    ensures var cp := ((lead * 64 + a) * 64 + b) * 64 + d;
            cp / 262144 == lead && cp / 4096 % 64 == a && cp / 64 % 64 == b && cp % 64 == d
  {
    SixBits((lead * 64 + a) * 64 + b, d);
    TwoTails(lead, a, b);
    var cp := ((lead * 64 + a) * 64 + b) * 64 + d;
    assert cp / 262144 == cp / 64 / 4096;
    assert cp / 4096 == cp / 64 / 64;
  }

  lemma SixBits(high: nat, low: nat)
    requires low < 64
    ensures (high * 64 + low) / 64 == high && (high * 64 + low) % 64 == low
  {
  }

  // ----- Hexadecimal digits in either case -------------------------------------------------------------

  const LOWER_DIGITS: bytes := [48, 49, 50, 51, 52, 53, 54, 55, 56, 57, 97, 98, 99, 100, 101, 102]
  const UPPER_DIGITS: bytes := [48, 49, 50, 51, 52, 53, 54, 55, 56, 57, 65, 66, 67, 68, 69, 70]

  /** One of the 22 characters that stand for a digit. */
  predicate Spells(b: byte, digit: nat) {
    digit < 16 && (b == LOWER_DIGITS[digit] || b == UPPER_DIGITS[digit])
  }

  /** Four digits of `v`, the highest first, each letter in either case. */
  predicate SpellsUnit(s: bytes, v: nat) {
    && |s| == 4 && v < 0x10000
    && Spells(s[0], v / 0x1000) && Spells(s[1], v / 0x100 % 0x10)
    && Spells(s[2], v / 0x10 % 0x10) && Spells(s[3], v % 0x10)
  }

  lemma SpellsReads(b: byte, digit: nat)
    ensures Spells(b, digit) <==> HexValue(b) == Some(digit)
  {
    if HexValue(b) == Some(digit) {
      assert LOWER_DIGITS[digit] == (if digit < 10 then 48 + digit else 87 + digit);
      assert UPPER_DIGITS[digit] == (if digit < 10 then 48 + digit else 55 + digit);
    }
  }

  lemma DigitsOf(v: nat)
    requires v < 0x10000
    ensures v / 0x1000 < 16 && FourDigits(v / 0x1000, v / 0x100 % 0x10, v / 0x10 % 0x10, v % 0x10) == v
  {
    assert v / 0x100 == v / 0x10 / 0x10 && v / 0x1000 == v / 0x10 / 0x10 / 0x10;
  }

  lemma DigitsBack(a: nat, b: nat, d: nat, e: nat)
    requires a < 16 && b < 16 && d < 16 && e < 16
    ensures var v := FourDigits(a, b, d, e);
            v / 0x1000 == a && v / 0x100 % 0x10 == b && v / 0x10 % 0x10 == d && v % 0x10 == e
  {
    var v := FourDigits(a, b, d, e);
    var h := (a * 16 + b) * 16 + d;
    assert v / 0x10 == h;
    assert v / 0x100 == h / 0x10 == a * 16 + b;
    assert v / 0x1000 == (a * 16 + b) / 0x10 == a;
  }

  /** parse_hex4 reads every spelling of a unit, and reads zero for anything else. */
  lemma SpelledReads(c: bytes, i: nat, v: nat)
    requires i + 4 <= |c|
    ensures SpellsUnit(c[i..i + 4], v) ==> Hex4(c, i) == v
    ensures Hex4(c, i) != 0 ==> SpellsUnit(c[i..i + 4], Hex4(c, i))
  {
    var s := c[i..i + 4];
    if SpellsUnit(s, v) {
      SpellsReads(s[0], v / 0x1000);
      SpellsReads(s[1], v / 0x100 % 0x10);
      SpellsReads(s[2], v / 0x10 % 0x10);
      SpellsReads(s[3], v % 0x10);
      DigitsOf(v);
    }
    if Hex4(c, i) != 0 {
      var a, b, d, e := HexValue(s[0]).value, HexValue(s[1]).value, HexValue(s[2]).value, HexValue(s[3]).value;
      SpellsReads(s[0], a);
      SpellsReads(s[1], b);
      SpellsReads(s[2], d);
      SpellsReads(s[3], e);
      DigitsBack(a, b, d, e);
    }
  }
}
