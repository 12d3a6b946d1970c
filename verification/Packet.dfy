/**
 * The variable-length integers of nc_packet.c, after section 16 of RFC 9000:
 * the two high bits of the first byte tell the length.
 */
module Packet {
  import opened Bytes

  const U64 := 0x1_0000_0000_0000_0000
  const U62 := 0x4000_0000_0000_0000

  // ----- Big-endian numbers ----------------------------------------------------------------------------

  function Pow256(n: nat): (r: nat)
    ensures r > 0
  {
    if n == 0 then 1 else 256 * Pow256(n - 1)
  }

  function BigEndian(v: nat, n: nat): (r: bytes)
    ensures |r| == n
  {
    if n == 0 then [] else BigEndian(v / 256, n - 1) + [v % 256]
  }

  function FromBigEndian(s: bytes): nat {
    if s == [] then 0 else FromBigEndian(s[..|s| - 1]) * 256 + s[|s| - 1]
  }

  lemma {:induction false} BigEndianValue(v: nat, n: nat)
    requires v < Pow256(n)
    ensures FromBigEndian(BigEndian(v, n)) == v
  {
    if n > 0 {
      BigEndianValue(v / 256, n - 1);
      var r := BigEndian(v / 256, n - 1);
      assert (r + [v % 256])[..n - 1] == r;
    }
  }

  lemma {:induction false} FromBigEndianCons(b: byte, s: bytes)
    ensures FromBigEndian([b] + s) == b * Pow256(|s|) + FromBigEndian(s)
  {
    if s != [] {
      FromBigEndianCons(b, s[..|s| - 1]);
      assert ([b] + s)[..|s|] == [b] + s[..|s| - 1];
      var p, f := Pow256(|s| - 1), FromBigEndian(s[..|s| - 1]);
      assert (b * p + f) * 256 == b * (256 * p) + f * 256;
    }
  }

  lemma {:induction false} FromBigEndianBound(s: bytes)
    ensures FromBigEndian(s) < Pow256(|s|)
  {
    if s != [] { FromBigEndianBound(s[..|s| - 1]); }
  }

  // ----- The encoding of RFC 9000 ------------------------------------------------------------------------

  /** The length a value is written with, as its two-bit logarithm; the format holds 62 bits at most. */
  function LengthBits(v: nat): nat {
    if v < 0x40 then 0 else if v < 0x4000 then 1 else if v < 0x4000_0000 then 2 else 3
  }

  function LengthOf(bits: nat): nat
    requires bits < 4
  {
    [1, 2, 4, 8][bits]
  }

  function Encode(v: nat): bytes
    requires v < U64
  {
    var bits := LengthBits(v);
    var s := BigEndian(v, LengthOf(bits));
    [s[0] % 64 + 64 * bits] + s[1..]
  }

  /** The value and the length of the integer that `s` starts with. */
  function Decode(s: bytes): Option<(nat, nat)> {
    if s == [] then None
    else
      var n := LengthOf(s[0] / 64);
      if |s| < n then None else Some((FromBigEndian([s[0] % 64] + s[1..n]), n))
  }

  lemma Powers()
    ensures Pow256(1) == 0x100 && Pow256(2) == 0x1_0000 && Pow256(3) == 0x100_0000 && Pow256(4) == 0x1_0000_0000
    ensures Pow256(0) == 1 && Pow256(7) == 0x100_0000_0000_0000 && Pow256(8) == U64
  {
    assert Pow256(4) == 256 * Pow256(3) && Pow256(3) == 256 * Pow256(2);
    assert Pow256(8) == 256 * Pow256(7) && Pow256(7) == 256 * Pow256(6);
    assert Pow256(6) == 256 * Pow256(5) && Pow256(5) == 256 * Pow256(4);
  }

  /** Clearing the two high bits of a number of n bytes takes off a multiple of 2^(8n-2). */
  lemma MaskedValue(v: nat, n: nat)
    requires n > 0 && v < Pow256(n)
    ensures var s := BigEndian(v, n);
            var m := FromBigEndian([s[0] % 64] + s[1..]);
            v == s[0] / 64 * (64 * Pow256(n - 1)) + m && m < 64 * Pow256(n - 1)
  {
    hide BigEndian;
    hide FromBigEndian;
    hide Pow256;
    var s := BigEndian(v, n);
    var p, rest := Pow256(n - 1), FromBigEndian(s[1..]);
    assert s == [s[0]] + s[1..];
    BigEndianValue(v, n);
    FromBigEndianCons(s[0], s[1..]);
    FromBigEndianCons(s[0] % 64, s[1..]);
    FromBigEndianBound(s[1..]);
    Split(s[0] / 64, s[0] % 64, p, rest);
  }

  lemma Split(q: nat, r: nat, p: nat, rest: nat)
    requires r < 64 && rest < p
    ensures (64 * q + r) * p + rest == q * (64 * p) + (r * p + rest)
    ensures r * p + rest < 64 * p
  {
    assert r * p <= 63 * p;
  }

  /** Reading what was written gives the value modulo 2^62 and the written length, whatever follows. */
  lemma RoundTrip(v: nat, suffix: bytes)
    requires v < U64
    ensures Decode(Encode(v) + suffix) == Some((v % U62, |Encode(v)|))
  {
    hide BigEndian;
    hide FromBigEndian;
    hide Pow256;
    var bits := LengthBits(v);
    var n := LengthOf(bits);
    var e := Encode(v);
    Powers();
    MaskedValue(v, n);
    LeadingBits(BigEndian(v, n)[0], bits);
    assert (e + suffix)[0] == e[0];
    assert (e + suffix)[1..n] == e[1..] == BigEndian(v, n)[1..];
  }

  lemma LeadingBits(b: byte, bits: nat)
    requires bits < 4
    ensures (b % 64 + 64 * bits) / 64 == bits && (b % 64 + 64 * bits) % 64 == b % 64
  {
  }

  /** No form that decodes to a value is shorter than the one it is written in. */
  lemma Shortest(s: bytes)
    requires Decode(s).Some?
    ensures var (v, n) := Decode(s).value; v < U62 && |Encode(v)| <= n
  {
    hide BigEndian;
    hide FromBigEndian;
    hide Pow256;
    hide Encode;
    var n := LengthOf(s[0] / 64);
    var p, f := Pow256(n - 1), FromBigEndian(s[1..n]);
    FromBigEndianCons(s[0] % 64, s[1..n]);
    FromBigEndianBound(s[1..n]);
    HeadBound(s[0] % 64, p, f);
    Powers();
    EncodeLength(FromBigEndian([s[0] % 64] + s[1..n]));
  }

  lemma HeadBound(head: nat, p: nat, rest: nat)
    requires head < 64 && rest < p
    ensures head * p + rest < 64 * p
  {
    assert 64 * p == head * p + (64 - head) * p;
    assert (64 - head) * p == p + (63 - head) * p;
  }

  lemma EncodeLength(v: nat)
    requires v < U64
    ensures |Encode(v)| == LengthOf(LengthBits(v))
  {
    hide BigEndian;
  }

  // ----- The code ------------------------------------------------------------------------------------------

  /** var_uint_write_forward: `buf` has room from `at` on; the result is the position behind the integer. */
  method VarUintWriteForward(buf: array<byte>, at: nat, val: nat) returns (next: nat)
    requires val < U64 && at + LengthOf(LengthBits(val)) <= buf.Length
    modifies buf
    ensures next == at + |Encode(val)| && buf[at..next] == Encode(val)
    ensures buf[..at] == old(buf[..at]) && buf[next..] == old(buf[next..])
  {
    hide Encode;
    hide Shifted;
    hide WithLength;
    var b7, b6, b5, b4 := Shifted(val, 0), Shifted(val, 1), Shifted(val, 2), Shifted(val, 3);
    var b3, b2, b1, b0 := Shifted(val, 4), Shifted(val, 5), Shifted(val, 6), Shifted(val, 7);
    EncodeBytes(val);
    if val < 0x40 {
      buf[at] := b7;
      next := at + 1;
    } else if val < 0x4000 {
      buf[at], buf[at + 1] := WithLength(b6, 1), b7;
      next := at + 2;
    } else if val < 0x4000_0000 {
      buf[at], buf[at + 1], buf[at + 2], buf[at + 3] := WithLength(b4, 2), b5, b6, b7;
      next := at + 4;
    } else {
      buf[at], buf[at + 1], buf[at + 2], buf[at + 3] := WithLength(b0, 3), b1, b2, b3;
      buf[at + 4], buf[at + 5], buf[at + 6], buf[at + 7] := b4, b5, b6, b7;
      next := at + 8;
    }
  }

  /** The low byte of the value shifted right by `k` bytes. */
  function Shifted(v: nat, k: nat): byte {
    if k == 0 then v % 256 else Shifted(v / 256, k - 1)
  }

  /** The length bits are set on a byte whose own two high bits are clear, or all three ones long. */
  function WithLength(b: byte, bits: nat): byte
    requires bits < 4
  {
    b % 64 + 64 * bits
  }

  lemma LowByte(v: nat)
    requires v < 0x40
    ensures Shifted(v, 0) == v == Shifted(v, 0) % 64
  {
  }

  /** The bytes of an encoded integer, by its length. */
  lemma EncodeBytes(v: nat)
    requires v < U64
    ensures var b := seq(8, k requires 0 <= k < 8 => Shifted(v, k));
            Encode(v) == match LengthBits(v)
                         case 0 => [b[0]]
                         case 1 => [WithLength(b[1], 1), b[0]]
                         case 2 => [WithLength(b[3], 2), b[2], b[1], b[0]]
                         case _ => [WithLength(b[7], 3), b[6], b[5], b[4], b[3], b[2], b[1], b[0]]
  {
    hide BigEndian;
    hide Shifted;
    BytesOf(v);
    if v < 0x40 { LowByte(v); }
  }

  lemma {:induction false} ByteOf(v: nat, n: nat, k: nat)
    requires k < n
    ensures BigEndian(v, n)[n - 1 - k] == Shifted(v, k)
  {
    if k > 0 {
      ByteOf(v / 256, n - 1, k - 1);
    }
  }

  lemma BytesOf(v: nat)
    ensures BigEndian(v, 1) == [Shifted(v, 0)]
    ensures BigEndian(v, 2) == [Shifted(v, 1), Shifted(v, 0)]
    ensures BigEndian(v, 4) == [Shifted(v, 3), Shifted(v, 2), Shifted(v, 1), Shifted(v, 0)]
    ensures BigEndian(v, 8) == [Shifted(v, 7), Shifted(v, 6), Shifted(v, 5), Shifted(v, 4),
                                Shifted(v, 3), Shifted(v, 2), Shifted(v, 1), Shifted(v, 0)]
  {
    hide BigEndian;
    hide Shifted;
    ByteOf(v, 1, 0);
    ByteOf(v, 2, 0);
    ByteOf(v, 2, 1);
    forall k: nat | k < 4 ensures BigEndian(v, 4)[3 - k] == Shifted(v, k) {
      ByteOf(v, 4, k);
    }
    forall k: nat | k < 8 ensures BigEndian(v, 8)[7 - k] == Shifted(v, k) {
      ByteOf(v, 8, k);
    }
  }

  /** var_uint_read on a buffer of at least one byte. */
  method VarUintRead(buf: bytes) returns (ok: bool, val: nat, len: nat)
    requires buf != []
    ensures ok <==> Decode(buf).Some?
    ensures ok ==> (val, len) == Decode(buf).value
    ensures !ok ==> val == len == 0
  {
    val, len := 0, 0;
    var b7: nat := buf[0] % 64;
    var lengthBits := buf[0] / 64;
    if |buf| < LengthOf(lengthBits) { return false, 0, 0; }
    ok := true;
    if lengthBits == 0 {
      val, len := b7, 1;
      Digits1(b7);
      assert [b7] + buf[1..1] == [b7];
    } else if lengthBits == 1 {
      var b6: nat := buf[1];
      val, len := b7 * 0x100 + b6, 2;
      Digits2(b7, buf[1]);
      assert [b7] + buf[1..2] == [b7, buf[1]];
    } else if lengthBits == 2 {
      var b6: nat, b5: nat, b4: nat := buf[1], buf[2], buf[3];
      val, len := b7 * 0x100_0000 + b6 * 0x1_0000 + b5 * 0x100 + b4, 4;
      Digits4(b7, buf[1], buf[2], buf[3]);
      assert [b7] + buf[1..4] == [b7, buf[1], buf[2], buf[3]];
    } else {
      var b6: nat, b5: nat, b4: nat := buf[1], buf[2], buf[3];
      var b3: nat, b2: nat, b1: nat, b0: nat := buf[4], buf[5], buf[6], buf[7];
      val := b7 * 0x100_0000_0000_0000 + b6 * 0x1_0000_0000_0000 + b5 * 0x100_0000_0000
             + b4 * 0x1_0000_0000 + b3 * 0x100_0000 + b2 * 0x1_0000 + b1 * 0x100 + b0;
      len := 8;
      Digits8(b7, buf[1], buf[2], buf[3], buf[4], buf[5], buf[6], buf[7]);
      assert [b7] + buf[1..8] == [b7, buf[1], buf[2], buf[3], buf[4], buf[5], buf[6], buf[7]];
    }
  }

  lemma Digits1(a: byte)
    ensures FromBigEndian([a]) == a
  {
  }

  lemma Digits2(a: byte, b: byte)
    ensures FromBigEndian([a, b]) == a * 0x100 + b
  {
    Digits1(a);
    assert [a, b][..1] == [a];
  }

  lemma Digits4(a: byte, b: byte, c: byte, d: byte)
    ensures FromBigEndian([a, b, c, d]) == a * 0x100_0000 + b * 0x1_0000 + c * 0x100 + d
  {
    Digits2(a, b);
    assert [a, b, c, d][..3] == [a, b, c] && [a, b, c][..2] == [a, b];
  }

  lemma Digits8(a: byte, b: byte, c: byte, d: byte, e: byte, f: byte, g: byte, h: byte)
    ensures FromBigEndian([a, b, c, d, e, f, g, h])
         == a as nat * 0x100_0000_0000_0000 + b as nat * 0x1_0000_0000_0000 + c as nat * 0x100_0000_0000
            + d as nat * 0x1_0000_0000 + e as nat * 0x100_0000 + f as nat * 0x1_0000 + g as nat * 0x100 + h as nat
  {
    hide FromBigEndian;
    var high: nat := FromBigEndian([a, b, c, d]);
    Digits4(a, b, c, d);
    Last([a, b, c, d], e);
    Last([a, b, c, d, e], f);
    Last([a, b, c, d, e, f], g);
    Last([a, b, c, d, e, f, g], h);
    assert [a, b, c, d] + [e] == [a, b, c, d, e] && [a, b, c, d, e] + [f] == [a, b, c, d, e, f];
    assert [a, b, c, d, e, f] + [g] == [a, b, c, d, e, f, g];
    assert [a, b, c, d, e, f, g] + [h] == [a, b, c, d, e, f, g, h];
  }

  lemma Last(s: bytes, b: byte)
    ensures FromBigEndian(s + [b]) == FromBigEndian(s) * 256 + b as nat
  {
    assert (s + [b])[..|s|] == s;
  }
}
