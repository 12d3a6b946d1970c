/**
 * What cJSON's parser takes beyond RFC 8259: every text it accepts is made of
 * brackets, commas, colons and tokens as JSON is, with looser tokens and blanks.
 */
module JsonShape {
  import opened Bytes
  import opened JsonNumber
  import opened JsonModel
  import opened JsonGrammar
  import opened JsonText
  import opened JsonAccepts

  // ----- Loose texts --------------------------------------------------------------------------------

  /** Any control character counts as white space. */
  predicate LooseBlank(s: bytes) {
    forall i :: 0 <= i < |s| ==> 1 <= s[i] <= 0x20
  }

  /** Bytes that are neither quote nor backslash, and any byte behind a backslash. */
  predicate StringBody(s: bytes) {
    || s == []
    || (s[0] != 0x22 && s[0] != 0x5C && StringBody(s[1..]))
    || (s[0] == 0x5C && |s| >= 2 && StringBody(s[2..]))
  }

  predicate IsLooseString(t: bytes) {
    |t| >= 2 && t[0] == 0x22 && t[|t| - 1] == 0x22 && StringBody(t[1..|t| - 1])
  }

  predicate AllDigits(s: bytes) {
    forall i :: 0 <= i < |s| ==> 0x30 <= s[i] <= 0x39
  }

  /** A decimal floating literal: digits on at least one side of the point. */
  predicate IsDecimal(n: NumberText) {
    && AllDigits(n.whole) && (n.frac.Some? ==> AllDigits(n.frac.value))
    && (n.whole != [] || (n.minus && n.frac.Some? && n.frac.value != []))
    && (n.exp.Some? ==> Digits(n.exp.value.digits))
  }

  ghost predicate IsLooseNumber(t: bytes) {
    |t| <= 63 && exists n: NumberText :: IsDecimal(n) && WriteNumber(n) == t
  }

  datatype Loose =
    | Word(text: bytes)
    | LooseNumber(text: bytes)
    | LooseString(text: bytes)
    | EmptyArray(blank: bytes)
    | LooseArray(items: Items)
    | EmptyObject(blank: bytes)
    | LooseObject(members: Members)

  datatype Items =
    | LastItem(before: bytes, value: Loose, after: bytes)
    | NextItem(before: bytes, value: Loose, after: bytes, rest: Items)

  datatype Key = Key(before: bytes, text: bytes, beforeColon: bytes, afterColon: bytes)

  datatype Members =
    | LastMember(key: Key, value: Loose, after: bytes)
    | NextMember(key: Key, value: Loose, after: bytes, rest: Members)

  predicate IsKey(k: Key) {
    LooseBlank(k.before) && IsLooseString(k.text) && LooseBlank(k.beforeColon) && LooseBlank(k.afterColon)
  }

  ghost predicate IsLoose(t: Loose) {
    match t
    case Word(text) =>
      || text == [0x6E, 0x75, 0x6C, 0x6C]
      || text == [0x66, 0x61, 0x6C, 0x73, 0x65]
      || text == [0x74, 0x72, 0x75, 0x65]
    case LooseNumber(text) => IsLooseNumber(text)
    case LooseString(text) => IsLooseString(text)
    case EmptyArray(blank) => LooseBlank(blank)
    case LooseArray(items) => AreItems(items)
    case EmptyObject(blank) => LooseBlank(blank)
    case LooseObject(members) => AreMembers(members)
  }

  ghost predicate AreItems(t: Items) {
    LooseBlank(t.before) && IsLoose(t.value) && LooseBlank(t.after) && (t.NextItem? ==> AreItems(t.rest))
  }

  ghost predicate AreMembers(t: Members) {
    IsKey(t.key) && IsLoose(t.value) && LooseBlank(t.after) && (t.NextMember? ==> AreMembers(t.rest))
  }

  function WriteKey(k: Key): bytes {
    k.before + k.text + k.beforeColon + [0x3A] + k.afterColon
  }

  function WriteLoose(t: Loose): bytes {
    match t
    case Word(text) => text
    case LooseNumber(text) => text
    case LooseString(text) => text
    case EmptyArray(blank) => [0x5B] + blank + [0x5D]
    case LooseArray(items) => [0x5B] + WriteItems(items) + [0x5D]
    case EmptyObject(blank) => [0x7B] + blank + [0x7D]
    case LooseObject(members) => [0x7B] + WriteMembers(members) + [0x7D]
  }

  function WriteItems(t: Items): bytes {
    t.before + WriteLoose(t.value) + t.after + if t.NextItem? then [0x2C] + WriteItems(t.rest) else []
  }

  function WriteMembers(t: Members): bytes {
    WriteKey(t.key) + WriteLoose(t.value) + t.after + if t.NextMember? then [0x2C] + WriteMembers(t.rest) else []
  }

  // ----- What they are read as ------------------------------------------------------------------------

  /** Without escapes a string is what stands between its quotes; one of RFC 8259 is what it means. */
  ghost predicate StringMeans(text: bytes, s: bytes)
    requires |text| >= 2
  {
    && ((forall i :: 0 < i < |text| - 1 ==> text[i] != 0x5C) ==> s == CString(text[1..|text| - 1]))
    && forall p :: ArePieces(p) && WriteString(p) == text ==> s == StringMeaning(p)
  }

  ghost predicate Means(lib: NumberLib, t: Loose, v: Json)
    requires IsLoose(t)
    decreases t
  {
    match t
    case Word(text) => v == if text[0] == 0x6E then Null else if text[0] == 0x66 then False else True
    case LooseNumber(text) => v == Number(lib.read(text))
    case LooseString(text) => v.Text? && StringMeans(text, v.s)
    case EmptyArray(_) => v == Array([])
    case LooseArray(items) => v.Array? && ItemsMean(lib, items, v.items)
    case EmptyObject(_) => v == Object([])
    case LooseObject(members) => v.Object? && MembersMean(lib, members, v.members)
  }

  ghost predicate ItemsMean(lib: NumberLib, t: Items, vs: seq<Json>)
    requires AreItems(t)
    decreases t
  {
    && vs != [] && Means(lib, t.value, vs[0])
    && if t.NextItem? then ItemsMean(lib, t.rest, vs[1..]) else |vs| == 1
  }

  ghost predicate MembersMean(lib: NumberLib, t: Members, vs: seq<Member>)
    requires AreMembers(t)
    decreases t
  {
    && vs != [] && StringMeans(t.key.text, vs[0].key) && Means(lib, t.value, vs[0].value)
    && if t.NextMember? then MembersMean(lib, t.rest, vs[1..]) else |vs| == 1
  }

  // ----- Tokens ---------------------------------------------------------------------------------------

  /** A text and its terminator, with no other NUL. */
  predicate IsInput(c: bytes) {
    |c| > 0 && c[|c| - 1] == 0 && forall i :: 0 <= i < |c| - 1 ==> c[i] != 0
  }

  lemma BlankShape(c: bytes, o: nat)
    requires IsInput(c) && o < |c|
    ensures var a := SkipBlanks(c, o); o <= a < |c| && LooseBlank(c[o..a]) && (c[a] > 0x20 || a == |c| - 1)
    ensures SkipBlanks(c, SkipBlanks(c, o)) == SkipBlanks(c, o)
  {
    hide BlankEnd;
    BlankEndIsFirst(c, o);
    BlankEndIsFirst(c, SkipBlanks(c, o));
  }

  lemma {:induction false} BodyShape(c: bytes, i: nat)
    requires ClosingQuote(c, i).Some?
    ensures StringBody(c[i..ClosingQuote(c, i).value])
    decreases |c| - i
  {
    var end := ClosingQuote(c, i).value;
    var s := c[i..end];
    if c[i] == QUOTE {
      assert s == [];
    } else if c[i] == BACKSLASH {
      BodyShape(c, i + 2);
      assert s[2..] == c[i + 2..end];
    } else {
      BodyShape(c, i + 1);
      assert s[1..] == c[i + 1..end];
    }
  }

  lemma {:induction false} PlainDecodes(c: bytes, p: nat, end: nat)
    requires p <= end < |c| && forall k :: p <= k < end ==> c[k] != BACKSLASH
    ensures Decode(c, p, end) == Some(c[p..end])
    decreases end - p
  {
    if p < end {
      hide ReadLiteral;
      hide Unescape;
      PlainDecodes(c, p + 1, end);
      assert Decode(c, p, end) == Prepend([c[p]], Decode(c, p + 1, end));
      assert [c[p]] + c[p + 1..end] == c[p..end];
    } else {
      assert c[p..end] == [];
    }
  }

  lemma Inner(c: bytes, o: nat, next: nat)
    requires o + 2 <= next <= |c|
    ensures c[o..next][1..next - o - 1] == c[o + 1..next - 1]
  {
    var text, n := c[o..next], next - o - 1;
    forall i | 0 <= i < n - 1 ensures text[1..n][i] == c[o + 1..next - 1][i] {
      assert text[i + 1] == c[o + 1 + i];
    }
  }

  lemma StringShape(c: bytes, o: nat)
    requires Terminated(c) && o < |c| && ParseString(c, o).Ok?
    ensures var p := ParseString(c, o);
            IsLooseString(c[o..p.next]) && StringMeans(c[o..p.next], p.value)
  {
    hide StringBody;
    hide Decode;
    hide CString;
    hide StringMeaning;
    hide WriteString;
    var p := ParseString(c, o);
    var end := p.next - 1;
    var text := c[o..p.next];
    BodyShape(c, o + 1);
    Inner(c, o, p.next);
    if forall i :: 0 < i < |text| - 1 ==> text[i] != 0x5C {
      forall k | o + 1 <= k < end ensures c[k] != BACKSLASH {
        assert text[k - o] == c[k];
      }
      PlainDecodes(c, o + 1, end);
    }
    forall s | ArePieces(s) && WriteString(s) == text ensures p.value == StringMeaning(s) {
      StringAccepted(c, o, s);
    }
  }

  lemma {:induction false} DigitsShape(t: bytes, i: nat)
    requires i <= |t|
    ensures AllDigits(t[i..DigitsEnd(t, i)])
    decreases |t| - i
  {
    if i < |t| && IsDigit(t[i]) {
      DigitsShape(t, i + 1);
      assert t[i..DigitsEnd(t, i)] == [t[i]] + t[i + 1..DigitsEnd(t, i + 1)];
    }
  }

  /** Where the digits of an exponent start whose letter stands at `m`. */
  function ExponentDigits(t: bytes, m: nat): nat {
    if m + 1 < |t| && (t[m + 1] == PLUS || t[m + 1] == MINUS) then m + 2 else m + 1
  }

  lemma ExponentShape(t: bytes, m: nat, end: nat) returns (exp: Exponent)
    requires m < |t| && (t[m] == 101 || t[m] == 69) && ExponentDigits(t, m) < end <= |t|
    requires end == DigitsEnd(t, ExponentDigits(t, m))
    ensures ExponentText(Some(exp)) == t[m..end] && Digits(exp.digits)
  {
    hide DigitsEnd;
    hide Digits;
    var first := ExponentDigits(t, m);
    DigitsShape(t, first);
    AreDigits(t[first..end]);
    var minus := if first == m + 2 then Some(t[m + 1] == MINUS) else None;
    exp := Exponent(t[m] == 69, minus, t[first..end]);
    assert t[m + 1..first] == SignText(minus);
    Parts(t, m, m + 1, first, end);
    assert t[m..m + 1] == [if exp.upper then 0x45 else 0x65];
  }

  lemma AreDigits(s: bytes)
    requires AllDigits(s) && s != []
    ensures Digits(s)
  {
  }

  lemma Parts(t: bytes, a: nat, b: nat, d: nat, e: nat)
    requires a <= b <= d <= e <= |t|
    ensures t[a..e] == t[a..b] + t[b..d] + t[d..e]
  {
  }

  /** The parts strtod sees in a text that starts with a minus or a digit, and where it stops. */
  lemma StrtodParts(t: bytes) returns (sign: nat, whole: nat, m: nat)
    requires t != [] && (t[0] == MINUS || IsDigit(t[0])) && StrtodEnd(t) > 0
    ensures sign == (if t[0] == MINUS then 1 else 0) <= |t| && whole == DigitsEnd(t, sign)
    ensures m == (if whole < |t| && t[whole] == DOT then DigitsEnd(t, whole + 1) else whole)
    ensures whole > sign || (t[0] == MINUS && m > whole + 1)
    ensures whole <= m <= StrtodEnd(t)
    ensures StrtodEnd(t) == m || (&& m < |t| && (t[m] == 101 || t[m] == 69) && ExponentDigits(t, m) < StrtodEnd(t)
                                  && StrtodEnd(t) == DigitsEnd(t, ExponentDigits(t, m)))
  {
    sign := if t[0] == MINUS then 1 else 0;
    if sign == 0 { FirstDigit(t); }
    hide DigitsEnd;
    whole := DigitsEnd(t, sign);
    m := if whole < |t| && t[whole] == DOT then DigitsEnd(t, whole + 1) else whole;
  }

  /** What strtod takes of such a text is a decimal literal. */
  lemma StrtodShape(t: bytes) returns (n: NumberText)
    requires t != [] && (t[0] == MINUS || IsDigit(t[0])) && StrtodEnd(t) > 0
    ensures IsDecimal(n) && WriteNumber(n) == t[..StrtodEnd(t)]
  {
    hide DigitsEnd;
    hide StrtodEnd;
    hide AllDigits;
    hide ExponentText;
    var sign, whole, m := StrtodParts(t);
    var end := StrtodEnd(t);
    DigitsShape(t, sign);
    var frac := FractionShape(t, whole, m);
    var exp: Option<Exponent> := None;
    if m < end {
      var e := ExponentShape(t, m, end);
      exp := Some(e);
    } else {
      NoExponent();
      assert t[m..end] == [];
    }
    n := NumberText(t[0] == MINUS, t[sign..whole], frac, exp);
    assert t[..sign] == SignText(if n.minus then Some(true) else None);
    Parts(t, 0, sign, whole, end);
    Parts(t, whole, m, end, end);
    Regrouped(t[0..sign], t[sign..whole], t[whole..m], t[m..end]);
  }

  lemma NoExponent()
    ensures ExponentText(None) == []
  {
  }

  lemma Regrouped(a: bytes, b: bytes, d: bytes, e: bytes)
    ensures a + b + (d + e + []) == a + b + d + e
  {
  }

  lemma FractionShape(t: bytes, whole: nat, m: nat) returns (frac: Option<bytes>)
    requires whole <= |t| && m == if whole < |t| && t[whole] == DOT then DigitsEnd(t, whole + 1) else whole
    ensures whole <= m <= |t| && FractionText(frac) == t[whole..m]
    ensures frac.Some? ==> AllDigits(frac.value) && |frac.value| == m - whole - 1
    ensures m > whole ==> frac.Some?
  {
    if whole < |t| && t[whole] == DOT {
      DigitsShape(t, whole + 1);
      frac := Some(t[whole + 1..m]);
      assert t[whole..m] == [0x2E] + t[whole + 1..m];
    } else {
      frac := None;
    }
  }

  lemma FirstDigit(t: bytes)
    requires t != [] && IsDigit(t[0])
    ensures DigitsEnd(t, 0) > 0
  {
  }

  lemma NumberShape(lib: NumberLib, c: bytes, o: nat)
    requires Terminated(c) && o < |c| && (c[o] == MINUS || IsDigit(c[o])) && ParseNumber(lib, c, o).Ok?
    ensures var p := ParseNumber(lib, c, o);
            IsLooseNumber(c[o..p.next]) && p.value == Number(lib.read(c[o..p.next]))
  {
    hide StrtodEnd;
    hide IsDecimal;
    hide WriteNumber;
    var run := c[o..NumberRun(c, o, NUMBER_MAX)];
    var end := StrtodEnd(run);
    var n := StrtodShape(run);
    assert run[..end] == c[o..o + end];
  }

  // ----- Values ---------------------------------------------------------------------------------------

  lemma TokenShape(lib: NumberLib, c: bytes, o: nat, depth: nat) returns (t: Loose)
    requires Terminated(c) && o < |c| && c[o] != LBRACKET && c[o] != LBRACE && ParseValue(lib, c, o, depth).Ok?
    ensures var p := ParseValue(lib, c, o, depth);
            IsLoose(t) && c[o..p.next] == WriteLoose(t) && Means(lib, t, p.value)
  {
    hide ParseString;
    hide ParseNumber;
    hide IsLooseNumber;
    hide IsLooseString;
    hide StringMeans;
    if At(c, o, NULL_TEXT) {
      t := Word(NULL_TEXT);
    } else if At(c, o, FALSE_TEXT) {
      t := Word(FALSE_TEXT);
    } else if At(c, o, TRUE_TEXT) {
      t := Word(TRUE_TEXT);
    } else if c[o] == QUOTE {
      StringShape(c, o);
      t := LooseString(c[o..ParseString(c, o).next]);
    } else {
      NumberShape(lib, c, o);
      t := LooseNumber(c[o..ParseNumber(lib, c, o).next]);
    }
  }

  /** Everything the parser takes for a value is a loose text, and it is read as what that means. */
  lemma {:induction false} ValueShape(lib: NumberLib, c: bytes, o: nat, depth: nat) returns (t: Loose)
    requires IsInput(c) && o < |c| && ParseValue(lib, c, o, depth).Ok?
    ensures var p := ParseValue(lib, c, o, depth);
            IsLoose(t) && c[o..p.next] == WriteLoose(t) && Means(lib, t, p.value)
    decreases |c| - o, 1
  {
    hide ParseValue;
    hide WriteLoose;
    hide IsLoose;
    hide Means;
    if c[o] == LBRACKET {
      t := ArrayShape(lib, c, o, depth);
    } else if c[o] == LBRACE {
      t := ObjectShape(lib, c, o, depth);
    } else {
      t := TokenShape(lib, c, o, depth);
    }
  }

  lemma {:induction false} ArrayShape(lib: NumberLib, c: bytes, o: nat, depth: nat) returns (t: Loose)
    requires IsInput(c) && o < |c| && c[o] == LBRACKET && ParseValue(lib, c, o, depth).Ok?
    ensures var p := ParseValue(lib, c, o, depth);
            IsLoose(t) && c[o..p.next] == WriteLoose(t) && Means(lib, t, p.value)
    decreases |c| - o, 0
  {
    hide ParseValue;
    hide ParseItems;
    hide SkipBlanks;
    hide WriteItems;
    hide AreItems;
    hide ItemsMean;
    hide LooseBlank;
    hide WriteLoose;
    hide IsLoose;
    hide Means;
    var first := SkipBlanks(c, o + 1);
    BlankShape(c, o + 1);
    ArrayFromItems(lib, c, o, depth, first);
    if c[first] == RBRACKET {
      t := EmptyArray(c[o + 1..first]);
      Parts(c, o, o + 1, first, first + 1);
      NestUnfolds(lib, t, Array([]));
    } else {
      SameItems(lib, c, o + 1, depth + 1);
      var items := ItemsShape(lib, c, o + 1, depth + 1);
      t := LooseArray(items);
      NestUnfolds(lib, t, ParseValue(lib, c, o, depth).value);
      Bracket(c, o, ParseItems(lib, c, first, depth + 1).next, WriteItems(items), [0x5D]);
    }
  }

  lemma NestUnfolds(lib: NumberLib, t: Loose, v: Json)
    ensures t.EmptyArray? ==>
              (IsLoose(t) <==> LooseBlank(t.blank)) && WriteLoose(t) == [0x5B] + t.blank + [0x5D]
              && (IsLoose(t) && v == Array([]) ==> Means(lib, t, v))
    ensures t.EmptyObject? ==>
              (IsLoose(t) <==> LooseBlank(t.blank)) && WriteLoose(t) == [0x7B] + t.blank + [0x7D]
              && (IsLoose(t) && v == Object([]) ==> Means(lib, t, v))
    ensures t.LooseArray? ==>
              (IsLoose(t) <==> AreItems(t.items)) && WriteLoose(t) == [0x5B] + WriteItems(t.items) + [0x5D]
              && (IsLoose(t) && v.Array? && ItemsMean(lib, t.items, v.items) ==> Means(lib, t, v))
    ensures t.LooseObject? ==>
              (IsLoose(t) <==> AreMembers(t.members)) && WriteLoose(t) == [0x7B] + WriteMembers(t.members) + [0x7D]
              && (IsLoose(t) && v.Object? && MembersMean(lib, t.members, v.members) ==> Means(lib, t, v))
  {
    hide WriteItems;
    hide WriteMembers;
    hide AreItems;
    hide AreMembers;
    hide ItemsMean;
    hide MembersMean;
  }

  lemma Bracket(c: bytes, o: nat, next: nat, body: bytes, close: bytes)
    requires o < next <= |c| && c[o + 1..next] == body + close
    ensures c[o..next] == [c[o]] + body + close
  {
    assert c[o..next] == [c[o]] + c[o + 1..next];
  }

  lemma {:induction false} ObjectShape(lib: NumberLib, c: bytes, o: nat, depth: nat) returns (t: Loose)
    requires IsInput(c) && o < |c| && c[o] == LBRACE && ParseValue(lib, c, o, depth).Ok?
    ensures var p := ParseValue(lib, c, o, depth);
            IsLoose(t) && c[o..p.next] == WriteLoose(t) && Means(lib, t, p.value)
    decreases |c| - o, 0
  {
    hide ParseValue;
    hide ParseMembers;
    hide SkipBlanks;
    hide WriteMembers;
    hide AreMembers;
    hide MembersMean;
    hide LooseBlank;
    hide WriteLoose;
    hide IsLoose;
    hide Means;
    var first := SkipBlanks(c, o + 1);
    BlankShape(c, o + 1);
    ObjectFromMembers(lib, c, o, depth, first);
    if c[first] == RBRACE {
      t := EmptyObject(c[o + 1..first]);
      Parts(c, o, o + 1, first, first + 1);
      NestUnfolds(lib, t, Object([]));
    } else {
      SameMembers(lib, c, o + 1, depth + 1);
      var members := MembersShape(lib, c, o + 1, depth + 1);
      t := LooseObject(members);
      NestUnfolds(lib, t, ParseValue(lib, c, o, depth).value);
      Bracket(c, o, ParseMembers(lib, c, first, depth + 1).next, WriteMembers(members), [0x7D]);
    }
  }

  /** Blanks in front of the first item or member are skipped once more. */
  lemma SameItems(lib: NumberLib, c: bytes, o: nat, depth: nat)
    requires IsInput(c) && o < |c|
    ensures ParseItems(lib, c, o, depth) == ParseItems(lib, c, SkipBlanks(c, o), depth)
  {
    hide ParseValue;
    hide SkipBlanks;
    BlankShape(c, o);
  }

  lemma SameMembers(lib: NumberLib, c: bytes, o: nat, depth: nat)
    requires IsInput(c) && o < |c|
    ensures ParseMembers(lib, c, o, depth) == ParseMembers(lib, c, SkipBlanks(c, o), depth)
  {
    hide ParseValue;
    hide ParseString;
    hide SkipBlanks;
    BlankShape(c, o);
    assert ParseMember(lib, c, o, depth) == ParseMember(lib, c, SkipBlanks(c, o), depth);
  }

  lemma {:induction false} ItemsShape(lib: NumberLib, c: bytes, o: nat, depth: nat) returns (t: Items)
    requires IsInput(c) && o < |c| && ParseItems(lib, c, o, depth).Ok?
    ensures var p := ParseItems(lib, c, o, depth);
            AreItems(t) && c[o..p.next] == WriteItems(t) + [0x5D] && ItemsMean(lib, t, p.value)
    decreases |c| - o, 2
  {
    hide ParseValue;
    hide ParseItems;
    hide SkipBlanks;
    hide Means;
    hide IsLoose;
    hide WriteLoose;
    hide AreItems;
    hide ItemsMean;
    hide WriteItems;
    hide LooseBlank;
    var a := SkipBlanks(c, o);
    BlankShape(c, o);
    var p := ParseValue(lib, c, a, depth);
    var next := if p.Ok? then SkipBlanks(c, p.next) else 0;
    ItemsFromItem(lib, c, o, depth, a, p, next);
    BlankShape(c, p.next);
    var value := ValueShape(lib, c, a, depth);
    var before, after := c[o..a], c[p.next..next];
    if c[next] == COMMA {
      var rest := ItemsShape(lib, c, next + 1, depth);
      t := NextItem(before, value, after, rest);
      var r := ParseItems(lib, c, next + 1, depth);
      Chained(c, o, a, p.next, next, r.next);
      MoreItems(lib, t, p.value, r.value);
      Closed(before + WriteLoose(value) + after, [0x2C], WriteItems(rest), [0x5D]);
    } else {
      t := LastItem(before, value, after);
      Chained(c, o, a, p.next, next, next + 1);
      OneItem(lib, t, p.value);
    }
  }

  lemma OneItem(lib: NumberLib, t: Items, v: Json)
    requires t.LastItem? && LooseBlank(t.before) && IsLoose(t.value) && LooseBlank(t.after) && Means(lib, t.value, v)
    ensures AreItems(t) && ItemsMean(lib, t, [v]) && WriteItems(t) == t.before + WriteLoose(t.value) + t.after
  {
    hide WriteLoose;
    hide IsLoose;
    hide Means;
    assert t.before + WriteLoose(t.value) + t.after + [] == t.before + WriteLoose(t.value) + t.after;
  }

  lemma MoreItems(lib: NumberLib, t: Items, v: Json, vs: seq<Json>)
    requires t.NextItem? && LooseBlank(t.before) && IsLoose(t.value) && LooseBlank(t.after) && Means(lib, t.value, v)
    requires AreItems(t.rest) && ItemsMean(lib, t.rest, vs)
    ensures AreItems(t) && ItemsMean(lib, t, [v] + vs)
    ensures WriteItems(t) == t.before + WriteLoose(t.value) + t.after + ([0x2C] + WriteItems(t.rest))
  {
    hide WriteLoose;
    hide IsLoose;
    hide Means;
    assert ([v] + vs)[1..] == vs;
  }

  lemma Chained(c: bytes, o: nat, a: nat, b: nat, d: nat, e: nat)
    requires o <= a <= b <= d < e <= |c|
    ensures c[o..e] == c[o..a] + c[a..b] + c[b..d] + ([c[d]] + c[d + 1..e])
  {
  }

  lemma Joined(c: bytes, o: nat, b: nat, d: nat, e: nat)
    requires o <= b <= d < e <= |c|
    ensures c[o..e] == c[o..b] + c[b..d] + ([c[d]] + c[d + 1..e])
  {
  }

  lemma Closed(a: bytes, comma: bytes, rest: bytes, close: bytes)
    ensures a + (comma + (rest + close)) == a + (comma + rest) + close
  {
  }

  lemma {:induction false} MembersShape(lib: NumberLib, c: bytes, o: nat, depth: nat) returns (t: Members)
    requires IsInput(c) && o < |c| && ParseMembers(lib, c, o, depth).Ok?
    ensures var p := ParseMembers(lib, c, o, depth);
            AreMembers(t) && c[o..p.next] == WriteMembers(t) + [0x7D] && MembersMean(lib, t, p.value)
    decreases |c| - o, 3
  {
    hide ParseMember;
    hide ParseMembers;
    hide SkipBlanks;
    hide Means;
    hide StringMeans;
    hide IsKey;
    hide IsLoose;
    hide WriteKey;
    hide WriteLoose;
    hide AreMembers;
    hide MembersMean;
    hide WriteMembers;
    hide LooseBlank;
    var p := ParseMember(lib, c, o, depth);
    var next := if p.Ok? then SkipBlanks(c, p.next) else 0;
    MembersFromMember(lib, c, o, depth, p, next);
    BlankShape(c, p.next);
    var key, value := MemberShape(lib, c, o, depth);
    var after := c[p.next..next];
    if c[next] == COMMA {
      var rest := MembersShape(lib, c, next + 1, depth);
      t := NextMember(key, value, after, rest);
      var r := ParseMembers(lib, c, next + 1, depth);
      Joined(c, o, p.next, next, r.next);
      MoreMembers(lib, t, p.value, r.value);
      Closed(WriteKey(key) + WriteLoose(value) + after, [0x2C], WriteMembers(rest), [0x7D]);
    } else {
      t := LastMember(key, value, after);
      Joined(c, o, p.next, next, next + 1);
      OneMember(lib, t, p.value);
    }
  }

  ghost predicate MemberMeans(lib: NumberLib, t: Members, v: Member)
    requires IsKey(t.key) && IsLoose(t.value)
  {
    StringMeans(t.key.text, v.key) && Means(lib, t.value, v.value)
  }

  lemma OneMember(lib: NumberLib, t: Members, v: Member)
    requires t.LastMember? && IsKey(t.key) && IsLoose(t.value) && LooseBlank(t.after) && MemberMeans(lib, t, v)
    ensures AreMembers(t) && MembersMean(lib, t, [v])
    ensures WriteMembers(t) == WriteKey(t.key) + WriteLoose(t.value) + t.after
  {
    hide WriteLoose;
    hide WriteKey;
    hide IsLoose;
    hide Means;
    hide StringMeans;
    assert WriteKey(t.key) + WriteLoose(t.value) + t.after + [] == WriteKey(t.key) + WriteLoose(t.value) + t.after;
  }

  lemma MoreMembers(lib: NumberLib, t: Members, v: Member, vs: seq<Member>)
    requires t.NextMember? && IsKey(t.key) && IsLoose(t.value) && LooseBlank(t.after) && MemberMeans(lib, t, v)
    requires AreMembers(t.rest) && MembersMean(lib, t.rest, vs)
    ensures AreMembers(t) && MembersMean(lib, t, [v] + vs)
    ensures WriteMembers(t) == WriteKey(t.key) + WriteLoose(t.value) + t.after + ([0x2C] + WriteMembers(t.rest))
  {
    hide WriteLoose;
    hide WriteKey;
    hide IsLoose;
    hide Means;
    hide StringMeans;
    assert ([v] + vs)[1..] == vs;
  }

  lemma {:induction false} MemberShape(lib: NumberLib, c: bytes, o: nat, depth: nat) returns (key: Key, value: Loose)
    requires IsInput(c) && o < |c| && ParseMember(lib, c, o, depth).Ok?
    ensures var p := ParseMember(lib, c, o, depth);
            && IsKey(key) && IsLoose(value) && c[o..p.next] == WriteKey(key) + WriteLoose(value)
            && StringMeans(key.text, p.value.key) && Means(lib, value, p.value.value)
    decreases |c| - o, 2
  {
    hide ParseValue;
    hide ParseString;
    hide SkipBlanks;
    hide IsLoose;
    hide Means;
    hide StringMeans;
    hide IsLooseString;
    hide WriteLoose;
    hide LooseBlank;
    var q := SkipBlanks(c, o);
    BlankShape(c, o);
    var k := ParseString(c, q);
    StringShape(c, q);
    var colon := SkipBlanks(c, k.next);
    BlankShape(c, k.next);
    var v := SkipBlanks(c, colon + 1);
    BlankShape(c, colon + 1);
    value := ValueShape(lib, c, v, depth);
    var next := ParseValue(lib, c, v, depth).next;
    key := Key(c[o..q], c[q..k.next], c[k.next..colon], c[colon + 1..v]);
    KeyParts(c, o, q, k.next, colon, v, next);
  }

  lemma KeyParts(c: bytes, o: nat, q: nat, end: nat, colon: nat, v: nat, next: nat)
    requires o <= q <= end <= colon < v <= next <= |c|
    ensures c[o..next] == c[o..q] + c[q..end] + c[end..colon] + [c[colon]] + c[colon + 1..v] + c[v..next]
  {
    Parts(c, o, q, end, next);
    Parts(c, end, colon, colon + 1, next);
    Parts(c, colon + 1, v, next, next);
    assert c[colon..colon + 1] == [c[colon]];
    SixParts(c[o..q], c[q..end], c[end..colon], [c[colon]], c[colon + 1..v], c[v..next]);
  }

  lemma SixParts(a: bytes, b: bytes, d: bytes, e: bytes, f: bytes, g: bytes)
    ensures a + b + (d + e + (f + g + [])) == a + b + d + e + f + g
  {
  }

  // ----- Documents ------------------------------------------------------------------------------------

  /** `t` stands in `text` behind a byte order mark or not and behind blanks, up to `end`. */
  predicate Holds(text: bytes, end: nat, mark: bool, before: bytes, t: Loose) {
    && end <= |text| && LooseBlank(before)
    && text[..end] == (if mark then [0xEF, 0xBB, 0xBF] else []) + before + WriteLoose(t)
  }

  ghost predicate AcceptedAs(lib: NumberLib, text: bytes, strict: bool, end: nat, mark: bool, before: bytes, t: Loose)
    requires ParseDocument(lib, text, strict).Some?
  {
    && Holds(CString(text), end, mark, before, t) && IsLoose(t)
    && Means(lib, t, ParseDocument(lib, text, strict).value)
    && if strict then LooseBlank(CString(text)[end..]) else end == DocumentEnd(lib, text, strict)
  }

  /**
   * Whatever text the parser accepts starts with a loose text, up to where the
   * parse has come to, and is read as what that means; when trailing text is refused,
   * only blanks follow.
   */
  lemma AcceptedIsLoose(lib: NumberLib, text: bytes, strict: bool)
    requires ParseDocument(lib, text, strict).Some?
    ensures exists end, mark, before, t :: AcceptedAs(lib, text, strict, end, mark, before, t)
  {
    hide ParseValue;
    hide SkipBlanks;
    hide IsLoose;
    hide Means;
    hide CString;
    hide WriteLoose;
    var s := CString(text);
    var c := s + [NUL];
    var mark := 4 < |c| && At(c, 0, BOM);
    var o := DocumentStart(c);
    var t := ValueShape(lib, c, o, 0);
    var end := ParseValue(lib, c, o, 0).next;
    var before := c[if mark then 3 else 0..o];
    InFront(s, mark, end, t);
    BlankShape(c, end);
    assert strict ==> c[end..SkipBlanks(c, end)] == s[end..];
    assert AcceptedAs(lib, text, strict, end, mark, before, t);
  }

  /** The mark and the blanks in front of the value. */
  lemma InFront(s: bytes, mark: bool, end: nat, t: Loose)
    requires IsInput(s + [NUL]) && (mark <==> 4 < |s + [NUL]| && At(s + [NUL], 0, BOM))
    requires var c := s + [NUL]; DocumentStart(c) <= end < |c| && c[DocumentStart(c)..end] == WriteLoose(t)
    ensures var skipped, o := if mark then 3 else 0, DocumentStart(s + [NUL]);
            skipped <= o <= |s| && Holds(s, end, mark, (s + [NUL])[skipped..o], t)
  {
    hide SkipBlanks;
    hide WriteLoose;
    var c := s + [NUL];
    var skipped, o := if mark then 3 else 0, DocumentStart(c);
    BlankShape(c, skipped);
    Parts(c, 0, skipped, o, end);
    assert s[..end] == c[0..end];
    assert c[0..skipped] == if mark then [0xEF, 0xBB, 0xBF] else [];
  }
}
