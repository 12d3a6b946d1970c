/** Numbers as section 6 of RFC 8259 writes them. */
module JsonNumber {
  import opened Bytes

  /** An exponent: E or e, an optional sign (Some(true) is a minus), and digits. */
  datatype Exponent = Exponent(upper: bool, minus: Option<bool>, digits: bytes)

  datatype NumberText = NumberText(minus: bool, whole: bytes, frac: Option<bytes>, exp: Option<Exponent>)

  predicate Digits(s: bytes) {
    s != [] && forall i :: 0 <= i < |s| ==> 0x30 <= s[i] <= 0x39
  }

  predicate IsNumber(n: NumberText) {
    && Digits(n.whole) && (n.whole[0] == 0x30 ==> |n.whole| == 1)
    && (n.frac.Some? ==> Digits(n.frac.value))
    && (n.exp.Some? ==> Digits(n.exp.value.digits))
  }

  function SignText(minus: Option<bool>): bytes {
    match minus
    case None => []
    case Some(m) => if m then [0x2D] else [0x2B]
  }

  function FractionText(frac: Option<bytes>): bytes {
    match frac
    case None => []
    case Some(digits) => [0x2E] + digits
  }

  function ExponentText(exp: Option<Exponent>): bytes {
    match exp
    case None => []
    case Some(e) => [if e.upper then 0x45 else 0x65] + SignText(e.minus) + e.digits
  }

  function WriteNumber(n: NumberText): bytes {
    SignText(if n.minus then Some(true) else None) + n.whole + FractionText(n.frac) + ExponentText(n.exp)
  }
}
