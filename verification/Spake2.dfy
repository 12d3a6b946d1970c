/**
 * The key exchange of nc_spake2.c: SPAKE2 after section 3.3 of RFC 9382 over
 * any group whose order kills every element, with the transcript the device
 * and the client hash.
 */
module Spake2 {
  import opened Bytes
  import opened Packet

  /** A group written additively, with an encoding of its elements. */
  datatype Group<!P(!new)> = Group(zero: P, add: (P, P) -> P, neg: P -> P, order: nat, encode: P -> bytes)

  ghost predicate IsGroup<P(!new)>(g: Group<P>) {
    && g.order > 0
    && (forall a, b :: g.add(a, b) == g.add(b, a))
    && (forall a, b, c :: g.add(g.add(a, b), c) == g.add(a, g.add(b, c)))
    && (forall a :: g.add(a, g.zero) == a)
    && (forall a :: g.add(a, g.neg(a)) == g.zero)
    && (forall a :: Mul(g, g.order, a) == g.zero)
  }

  /** `k` times the element `p`. */
  function Mul<P(!new)>(g: Group<P>, k: nat, p: P): P {
    if k == 0 then g.zero else g.add(Mul(g, k - 1, p), p)
  }

  function Sub<P(!new)>(g: Group<P>, a: P, b: P): P {
    g.add(a, g.neg(b))
  }

  // ----- Laws of multiples -------------------------------------------------------------------------------

  lemma Commutes<P(!new)>(g: Group<P>, a: P, b: P)
    requires IsGroup(g)
    ensures g.add(a, b) == g.add(b, a)
  {
  }

  lemma Associates<P(!new)>(g: Group<P>, a: P, b: P, c: P)
    requires IsGroup(g)
    ensures g.add(g.add(a, b), c) == g.add(a, g.add(b, c))
  {
  }

  lemma Neutral<P(!new)>(g: Group<P>, a: P)
    requires IsGroup(g)
    ensures g.add(a, g.zero) == a && g.add(g.zero, a) == a
  {
    assert g.add(g.zero, a) == g.add(a, g.zero);
  }

  lemma Inverse<P(!new)>(g: Group<P>, a: P)
    requires IsGroup(g)
    ensures g.add(a, g.neg(a)) == g.zero && g.add(g.neg(a), a) == g.zero
  {
    assert g.add(g.neg(a), a) == g.add(a, g.neg(a));
  }

  lemma OrderKills<P(!new)>(g: Group<P>, a: P)
    requires IsGroup(g)
    ensures g.order > 0 && Mul(g, g.order, a) == g.zero
  {
    hide Mul;
  }

  lemma {:induction false} MulZero<P(!new)>(g: Group<P>, k: nat)
    requires IsGroup(g)
    ensures Mul(g, k, g.zero) == g.zero
  {
    hide IsGroup;
    if k > 0 {
      MulZero(g, k - 1);
      Neutral(g, g.zero);
    }
  }

  lemma {:induction false} MulSum<P(!new)>(g: Group<P>, a: nat, b: nat, p: P)
    requires IsGroup(g)
    ensures Mul(g, a + b, p) == g.add(Mul(g, a, p), Mul(g, b, p))
  {
    hide IsGroup;
    if b == 0 {
      Neutral(g, Mul(g, a, p));
    } else {
      MulSum(g, a, b - 1, p);
      Associates(g, Mul(g, a, p), Mul(g, b - 1, p), p);
    }
  }

  lemma {:induction false} MulProduct<P(!new)>(g: Group<P>, a: nat, b: nat, p: P)
    requires IsGroup(g)
    ensures Mul(g, a * b, p) == Mul(g, a, Mul(g, b, p))
  {
    hide IsGroup;
    if a > 0 {
      MulProduct(g, a - 1, b, p);
      assert a * b == (a - 1) * b + b;
      MulSum(g, (a - 1) * b, b, p);
    }
  }

  lemma {:induction false} MulDistributes<P(!new)>(g: Group<P>, k: nat, p: P, q: P)
    requires IsGroup(g)
    ensures Mul(g, k, g.add(p, q)) == g.add(Mul(g, k, p), Mul(g, k, q))
  {
    hide IsGroup;
    if k == 0 {
      Neutral(g, g.zero);
    } else {
      MulDistributes(g, k - 1, p, q);
      Shuffle(g, Mul(g, k - 1, p), Mul(g, k - 1, q), p, q);
    }
  }

  lemma Shuffle<P(!new)>(g: Group<P>, a: P, b: P, c: P, d: P)
    requires IsGroup(g)
    ensures g.add(g.add(a, b), g.add(c, d)) == g.add(g.add(a, c), g.add(b, d))
  {
    hide IsGroup;
    Associates(g, a, b, g.add(c, d));
    Associates(g, b, c, d);
    Commutes(g, b, c);
    Associates(g, c, b, d);
    Associates(g, a, c, g.add(b, d));
  }

  /** What cancels an element is its negative. */
  lemma NegIsUnique<P(!new)>(g: Group<P>, a: P, b: P)
    requires IsGroup(g) && g.add(a, b) == g.zero
    ensures a == g.neg(b)
  {
    hide IsGroup;
    Associates(g, a, b, g.neg(b));
    Inverse(g, b);
    Neutral(g, a);
    Neutral(g, g.neg(b));
  }

  lemma MulNeg<P(!new)>(g: Group<P>, k: nat, p: P)
    requires IsGroup(g)
    ensures Mul(g, k, g.neg(p)) == g.neg(Mul(g, k, p))
  {
    hide IsGroup;
    hide Mul;
    MulDistributes(g, k, g.neg(p), p);
    Inverse(g, p);
    MulZero(g, k);
    NegIsUnique(g, Mul(g, k, g.neg(p)), Mul(g, k, p));
  }

  /** The remainder of a negative scalar, as the big number library gives it. */
  function MinusMod(k: nat, n: nat): (r: nat)
    requires n > 0
    ensures exists q: nat :: r + k == q * n
  {
    var minus: int := 0 - k;
    assert minus == minus / n * n + minus % n;
    var q: int := -(minus / n);
    assert q >= 0 && minus % n + k == q * n;
    minus % n
  }

  /** Reducing a negative scalar modulo the order of the group keeps the multiple. */
  lemma NegativeScalar<P(!new)>(g: Group<P>, k: nat, p: P)
    requires IsGroup(g) && g.order > 0
    ensures Mul(g, MinusMod(k, g.order), p) == g.neg(Mul(g, k, p))
  {
    hide IsGroup;
    hide Mul;
    hide MinusMod;
    var n := g.order;
    var r := MinusMod(k, n);
    var q: nat :| r + k == q * n;
    OrderKills(g, p);
    MulSum(g, r, k, p);
    MulProduct(g, q, n, p);
    MulZero(g, q);
    NegIsUnique(g, Mul(g, r, p), Mul(g, k, p));
  }

  lemma SubUndoesAdd<P(!new)>(g: Group<P>, a: P, b: P)
    requires IsGroup(g)
    ensures Sub(g, g.add(a, b), b) == a && Sub(g, g.add(b, a), b) == a
  {
    hide IsGroup;
    Associates(g, a, b, g.neg(b));
    Inverse(g, b);
    Neutral(g, a);
    Commutes(g, a, b);
  }

  // ----- The shared element --------------------------------------------------------------------------------

  /** The scalar form of the code is the subtraction of the protocol: y*T + (-w*y mod n)*M is y*(T - w*M). */
  lemma ScalarForm<P(!new)>(g: Group<P>, y: nat, w: nat, t: P, m: P)
    requires IsGroup(g) && g.order > 0
    ensures MulAdd(g, y, t, MinusMod(w * y, g.order), m) == Shared(g, y, w, t, m)
  {
    hide IsGroup;
    hide Mul;
    hide MinusMod;
    NegativeScalar(g, w * y, m);
    assert w * y == y * w;
    MulProduct(g, y, w, m);
    MulNeg(g, y, Mul(g, w, m));
    MulDistributes(g, y, t, g.neg(Mul(g, w, m)));
  }

  /** mbedtls_ecp_muladd */
  function MulAdd<P(!new)>(g: Group<P>, a: nat, p: P, b: nat, q: P): P {
    g.add(Mul(g, a, p), Mul(g, b, q))
  }

  /** Either side's element, from its own secret and what the other side sent, blinded with `w` times `blind`. */
  function Shared<P(!new)>(g: Group<P>, own: nat, w: nat, received: P, blind: P): P {
    Mul(g, own, Sub(g, received, Mul(g, w, blind)))
  }

  /** What the client sends: its public element blinded with the password. */
  function ClientMessage<P(!new)>(g: Group<P>, base: P, m: P, x: nat, w: nat): P {
    MulAdd(g, x, base, w, m)
  }

  /** What the device sends. */
  function DeviceMessage<P(!new)>(g: Group<P>, base: P, n: P, y: nat, w: nat): P {
    MulAdd(g, w, n, y, base)
  }

  /** With the same password both sides arrive at the same element, whatever their secrets. */
  lemma SameElement<P(!new)>(g: Group<P>, base: P, m: P, n: P, x: nat, y: nat, w: nat)
    requires IsGroup(g)
    ensures Shared(g, y, w, ClientMessage(g, base, m, x, w), m) == Mul(g, x * y, base)
    ensures Shared(g, x, w, DeviceMessage(g, base, n, y, w), n) == Mul(g, x * y, base)
  {
    hide IsGroup;
    hide Mul;
    SubUndoesAdd(g, Mul(g, x, base), Mul(g, w, m));
    SubUndoesAdd(g, Mul(g, y, base), Mul(g, w, n));
    MulProduct(g, y, x, base);
    MulProduct(g, x, y, base);
    assert x * y == y * x;
  }

  // ----- The transcript --------------------------------------------------------------------------------------

  /** A field behind its length in four bytes. */
  function Prefixed(field: bytes): bytes {
    BigEndian(|field|, 4) + field
  }

  function Transcript(fields: seq<bytes>): bytes {
    if fields == [] then [] else Transcript(fields[..|fields| - 1]) + Prefixed(fields[|fields| - 1])
  }

  predicate Fits(fields: seq<bytes>) {
    forall i :: 0 <= i < |fields| ==> |fields[i]| < 0x1_0000_0000
  }

  lemma {:induction false} TranscriptFront(fields: seq<bytes>)
    requires fields != []
    ensures Transcript(fields) == Prefixed(fields[0]) + Transcript(fields[1..])
  {
    hide Prefixed;
    hide Transcript;
    var n := |fields| - 1;
    Empty();
    Take(fields, n);
    assert fields[..n + 1] == fields;
    if n == 0 {
      assert fields[..0] == [] && fields[1..] == [];
    } else {
      TranscriptFront(fields[..n]);
      Take(fields[1..], n - 1);
      assert fields[..n][1..] == fields[1..][..n - 1] && fields[1..][..n] == fields[1..];
    }
  }

  lemma PrefixedIsPrefixFree(a: bytes, b: bytes, s: bytes, t: bytes)
    requires |a| < 0x1_0000_0000 && |b| < 0x1_0000_0000 && Prefixed(a) + s == Prefixed(b) + t
    ensures a == b && s == t
  {
    var left, right := Prefixed(a) + s, Prefixed(b) + t;
    assert left[..4] == BigEndian(|a|, 4) && right[..4] == BigEndian(|b|, 4);
    Powers();
    BigEndianValue(|a|, 4);
    BigEndianValue(|b|, 4);
    assert left[4..4 + |a|] == a && right[4..4 + |b|] == b;
    assert left[4 + |a|..] == s && right[4 + |b|..] == t;
  }

  /** Different fields never give the same transcript, even when their number differs. */
  lemma {:induction false} TranscriptInjective(a: seq<bytes>, b: seq<bytes>)
    requires Fits(a) && Fits(b) && Transcript(a) == Transcript(b)
    ensures a == b
  {
    if a != [] && b != [] {
      TranscriptFront(a);
      TranscriptFront(b);
      PrefixedIsPrefixFree(a[0], b[0], Transcript(a[1..]), Transcript(b[1..]));
      TranscriptInjective(a[1..], b[1..]);
      assert a == [a[0]] + a[1..] && b == [b[0]] + b[1..];
    } else if a != [] {
      TranscriptFront(a);
    } else if b != [] {
      TranscriptFront(b);
    }
  }

  /** The bytes of a number without leading zero bytes, as big numbers are written. */
  function MpiSize(v: nat): (n: nat)
    ensures v < Pow256(n)
  {
    if v == 0 then 0 else MpiSize(v / 256) + 1
  }

  function MpiBytes(v: nat): bytes {
    BigEndian(v, MpiSize(v))
  }

  /** The six fields that are hashed: both fingerprints, both messages, the shared element and the password scalar. */
  function Fields<P(!new)>(g: Group<P>, client: bytes, device: bytes, t: P, s: P, k: P, w: nat): seq<bytes> {
    [client, device, g.encode(t), g.encode(s), g.encode(k), MpiBytes(w)]
  }

  ghost predicate Injective<P(!new)>(encode: P -> bytes) {
    forall a, b :: encode(a) == encode(b) ==> a == b
  }

  /** Two hashed transcripts agree only if all six fields do. */
  lemma TranscriptBindsFields<P(!new)>(g: Group<P>, c1: bytes, d1: bytes, t1: P, s1: P, k1: P, w1: nat,
                                       c2: bytes, d2: bytes, t2: P, s2: P, k2: P, w2: nat)
    requires Injective(g.encode)
    requires var a := Fields(g, c1, d1, t1, s1, k1, w1);
             var b := Fields(g, c2, d2, t2, s2, k2, w2);
             Fits(a) && Fits(b) && Transcript(a) == Transcript(b)
    ensures c1 == c2 && d1 == d2 && t1 == t2 && s1 == s2 && k1 == k2 && w1 == w2
  {
    var a, b := Fields(g, c1, d1, t1, s1, k1, w1), Fields(g, c2, d2, t2, s2, k2, w2);
    TranscriptInjective(a, b);
    assert a[0] == b[0] && a[1] == b[1] && a[2] == b[2] && a[3] == b[3] && a[4] == b[4] && a[5] == b[5];
    BigEndianValue(w1, MpiSize(w1));
    BigEndianValue(w2, MpiSize(w2));
  }

  // ----- The code ------------------------------------------------------------------------------------------------

  const WRITE_BUFFER: nat := 256

  predicate Writable(fields: seq<bytes>) {
    forall i :: 0 <= i < |fields| ==> |fields[i]| <= WRITE_BUFFER
  }

  /** A running hash, by what has been fed to it. */
  class Digest {
    var data: bytes

    constructor ()
      ensures data == []
    {
      data := [];
    }

    method HashLength(val: nat)
      requires val < 0x1_0000_0000
      modifies this
      ensures data == old(data) + BigEndian(val, 4)
    {
      hide BigEndian;
      hide Shifted;
      BytesOf(val);
      data := data + [Shifted(val, 3), Shifted(val, 2), Shifted(val, 1), Shifted(val, 0)];
    }

    method HashData(field: bytes)
      requires |field| < 0x1_0000_0000
      modifies this
      ensures data == old(data) + Prefixed(field)
    {
      hide BigEndian;
      HashLength(|field|);
      data := data + field;
    }

    /**
     * hashPoint and hashMpi: an element or a number is written to a buffer
     * first. What the digest holds after a failure is never used.
     */
    method HashWritten(field: bytes) returns (ok: bool)
      modifies this
      ensures ok <==> |field| <= WRITE_BUFFER
      ensures ok ==> data == old(data) + Prefixed(field)
    {
      if |field| > WRITE_BUFFER {
        return false;
      }
      HashData(field);
      return true;
    }
  }

  /** calculateKey, with the device's secret `y` and the password scalar `w` drawn by the caller. */
  method CalculateKey<P(!new)>(g: Group<P>, base: P, m: P, n: P, t: P, client: bytes, device: bytes, y: nat, w: nat)
    returns (ok: bool, s: P, k: P, hashed: bytes)
    requires IsGroup(g) && g.order > 0 && |client| == |device| == 32
    ensures s == DeviceMessage(g, base, n, y, w)
    ensures k == Shared(g, y, w, t, m)
    ensures ok <==> Writable(Fields(g, client, device, t, s, k, w))
    ensures ok ==> hashed == Transcript(Fields(g, client, device, t, s, k, w))
  {
    hide IsGroup;
    hide Transcript;
    hide Fields;
    var publicY := Mul(g, y, base);
    s := MulAdd(g, w, n, 1, publicY);
    Once(g, publicY);
    var tmp: int := -1;
    tmp := tmp * y;
    tmp := tmp * w;
    assert tmp == -(w * y);
    tmp := tmp % g.order;
    k := MulAdd(g, y, t, tmp, m);
    ScalarForm(g, y, w, t, m);
    ok, hashed := HashAll(g, client, device, t, s, k, w);
  }

  lemma Once<P(!new)>(g: Group<P>, p: P)
    requires IsGroup(g)
    ensures Mul(g, 1, p) == p
  {
    hide IsGroup;
    assert Mul(g, 1, p) == g.add(Mul(g, 0, p), p);
    Neutral(g, p);
  }

  method HashAll<P(!new)>(g: Group<P>, client: bytes, device: bytes, t: P, s: P, k: P, w: nat)
    returns (ok: bool, hashed: bytes)
    requires |client| == |device| == 32
    ensures ok <==> Writable(Fields(g, client, device, t, s, k, w))
    ensures ok ==> hashed == Transcript(Fields(g, client, device, t, s, k, w))
  {
    hide BigEndian;
    hide Prefixed;
    hide Transcript;
    hide MpiBytes;
    hide Writable;
    ghost var fields := Fields(g, client, device, t, s, k, w);
    var digest := new Digest();
    digest.HashData(client);
    digest.HashData(device);
    var okT := digest.HashWritten(g.encode(t));
    var okS := digest.HashWritten(g.encode(s));
    var okK := digest.HashWritten(g.encode(k));
    var okW := digest.HashWritten(MpiBytes(w));
    ok := okT && okS && okK && okW;
    hashed := digest.data;
    Six(fields);
  }

  lemma Six(fields: seq<bytes>)
    requires |fields| == 6
    ensures Writable(fields) <==>
            && |fields[0]| <= WRITE_BUFFER && |fields[1]| <= WRITE_BUFFER && |fields[2]| <= WRITE_BUFFER
            && |fields[3]| <= WRITE_BUFFER && |fields[4]| <= WRITE_BUFFER && |fields[5]| <= WRITE_BUFFER
    ensures Transcript(fields) == [] + Prefixed(fields[0]) + Prefixed(fields[1]) + Prefixed(fields[2])
                                + Prefixed(fields[3]) + Prefixed(fields[4]) + Prefixed(fields[5])
  {
    hide Prefixed;
    hide Transcript;
    Empty();
    Take(fields, 0);
    Take(fields, 1);
    Take(fields, 2);
    Take(fields, 3);
    Take(fields, 4);
    Take(fields, 5);
    assert fields[..0] == [] && fields[..6] == fields;
  }

  lemma Empty()
    ensures Transcript([]) == []
  {
  }

  lemma Take(fields: seq<bytes>, i: nat)
    requires i < |fields|
    ensures Transcript(fields[..i + 1]) == Transcript(fields[..i]) + Prefixed(fields[i])
  {
    assert fields[..i + 1][..i] == fields[..i];
  }

  /** A number is written without leading zero bytes, zero as no byte. */
  lemma {:induction false} MpiIsShortest(v: nat)
    ensures FromBigEndian(MpiBytes(v)) == v
    ensures if v == 0 then MpiBytes(v) == [] else |MpiBytes(v)| > 0 && MpiBytes(v)[0] != 0
  {
    BigEndianValue(v, MpiSize(v));
    if v > 0 {
      MpiIsShortest(v / 256);
      assert MpiBytes(v) == MpiBytes(v / 256) + [v % 256];
    }
  }

  /** The length of a field of at most 256 bytes, in four bytes. */
  lemma ShortLength(field: bytes)
    requires |field| <= 256
    ensures Prefixed(field) == [0, 0, |field| / 256, |field| % 256] + field
  {
    var n := |field|;
    BytesOf(n);
    assert n / 256 / 256 == 0;
    assert Shifted(n, 1) == n / 256 && Shifted(n, 2) == 0 && Shifted(n, 3) == 0;
  }

  /**
   * What is hashed, byte by byte: the fingerprint of the client and then of the
   * device, what the client and then the device sent, the shared element, and the
   * password scalar, each behind its length in four bytes.
   */
  lemma HashedBytes<P(!new)>(g: Group<P>, client: bytes, device: bytes, t: P, s: P, k: P, w: nat)
    requires |client| == |device| == 32 && Writable(Fields(g, client, device, t, s, k, w))
    ensures var encT, encS, encK, encW := g.encode(t), g.encode(s), g.encode(k), MpiBytes(w);
            && |encT| <= 256 && |encS| <= 256 && |encK| <= 256 && |encW| <= 256
            && Transcript(Fields(g, client, device, t, s, k, w))
            == [0, 0, 0, 32] + client + [0, 0, 0, 32] + device
               + [0, 0, |encT| / 256, |encT| % 256] + encT + [0, 0, |encS| / 256, |encS| % 256] + encS
               + [0, 0, |encK| / 256, |encK| % 256] + encK + [0, 0, |encW| / 256, |encW| % 256] + encW
  {
    hide Transcript;
    hide Prefixed;
    hide MpiBytes;
    hide Writable;
    Six(Fields(g, client, device, t, s, k, w));
    ShortLength(client);
    ShortLength(device);
    ShortLength(g.encode(t));
    ShortLength(g.encode(s));
    ShortLength(g.encode(k));
    ShortLength(MpiBytes(w));
  }

  /** Client and device that share a password, fingerprints and messages hash the same transcript. */
  lemma SameTranscript<P(!new)>(g: Group<P>, base: P, m: P, n: P, x: nat, y: nat, w: nat, client: bytes, device: bytes)
    requires IsGroup(g)
    ensures var t, s := ClientMessage(g, base, m, x, w), DeviceMessage(g, base, n, y, w);
            var byDevice := Fields(g, client, device, t, s, Shared(g, y, w, t, m), w);
            var byClient := Fields(g, client, device, t, s, Shared(g, x, w, s, n), w);
            Transcript(byDevice) == Transcript(byClient)
  {
    hide IsGroup;
    SameElement(g, base, m, n, x, y, w);
  }
}
