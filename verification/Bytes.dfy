/** Bytes, C strings and the optional values shared by the other modules. */
module Bytes {

  type byte = x: int | 0 <= x < 256

  type bytes = seq<byte>

  datatype Option<+T> = None | Some(value: T)

  const NUL: byte := 0

  /** No byte of `s` is the C string terminator. */
  predicate NulFree(s: bytes) {
    forall i :: 0 <= i < |s| ==> s[i] != NUL
  }

  /** What a C string function sees of `s`: everything before its first NUL. */
  function CString(s: bytes): (r: bytes)
    ensures NulFree(r) && r <= s
    ensures |r| < |s| ==> s[|r|] == NUL
  {
    if s == [] || s[0] == NUL then []
    else
      assert s == [s[0]] + s[1..];
      [s[0]] + CString(s[1..])
  }

  lemma CStringOfNulFree(s: bytes)
    requires NulFree(s)
    ensures CString(s) == s
  {
  }

  /** The first NUL of `s` ends its C string. */
  lemma CStringAt(s: bytes, k: nat)
    requires k < |s| && s[k] == NUL && NulFree(s[..k])
    ensures CString(s) == s[..k]
  {
    var r := CString(s);
    assert |r| >= k ==> r[..k] == s[..k];
  }

  /** The C string of a block depends only on what comes before a NUL in it. */
  lemma {:induction false} CStringIsPrefix(s: bytes, k: nat)
    requires k < |s| && s[k] == NUL
    ensures CString(s) == CString(s[..k])
  {
    if k > 0 && s[0] != NUL {
      CStringIsPrefix(s[1..], k - 1);
      assert s[1..][..k - 1] == s[..k][1..];
    }
  }

  /** `s` stands in `c` at offset `o`. */
  predicate At(c: bytes, o: nat, s: bytes) {
    o + |s| <= |c| && c[o..o + |s|] == s
  }

  lemma AtSplit(c: bytes, o: nat, a: bytes, b: bytes)
    ensures At(c, o, a + b) <==> At(c, o, a) && At(c, o + |a|, b)
  {
    if At(c, o, a + b) {
      assert c[o..o + |a|] == (a + b)[..|a|] == a;
      assert c[o + |a|..o + |a| + |b|] == (a + b)[|a|..] == b;
    }
    if At(c, o, a) && At(c, o + |a|, b) {
      assert c[o..o + |a + b|] == c[o..o + |a|] + c[o + |a|..o + |a| + |b|];
    }
  }

  lemma AtByte(c: bytes, o: nat, s: bytes, i: nat)
    requires At(c, o, s) && i < |s|
    ensures c[o + i] == s[i]
  {
    assert c[o..o + |s|][i] == c[o + i];
  }
}
