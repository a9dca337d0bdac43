/** JSON over UTF-16 code units: the grammar of RFC 8259 as `JSON.parse` reads it, and strings as
    `JSON.stringify` writes them (section 25.5 of ECMA-262). */
module Json {
  import opened Wrappers

  /** A UTF-16 code unit. */
  type Unit = n: int | 0 <= n < 0x1_0000

  type Text = seq<Unit>

  const QUOTE: Unit := 0x22
  const BACKSLASH: Unit := 0x5C
  const COLON: Unit := 0x3A
  const COMMA: Unit := 0x2C
  const OPEN_BRACE: Unit := 0x7B
  const CLOSE_BRACE: Unit := 0x7D
  const OPEN_BRACKET: Unit := 0x5B
  const CLOSE_BRACKET: Unit := 0x5D
  const LETTER_U: Unit := 0x75

  /** The value of a number is not kept. */
  datatype Value =
    | Null
    | Bool(b: bool)
    | Number
    | Str(s: Text)
    | Arr(items: seq<Value>)
    | Obj(members: seq<(Text, Value)>)

  /** What is read from the front of a text, and what follows. */
  datatype Read<T> = Fail | Got(value: T, rest: Text)

  // ---- strings, section 7 of RFC 8259 -----------------------------------------------------------

  function HexDigit(d: nat): Unit
    requires d < 16
  {
    if d < 10 then 0x30 + d else 0x61 + d - 10
  }

  function HexValue(u: Unit): (v: Option<nat>)
    ensures v.Some? ==> v.value < 16
  {
    if 0x30 <= u <= 0x39 then Some(u - 0x30)
    else if 0x61 <= u <= 0x66 then Some(u - 0x61 + 10)
    else if 0x41 <= u <= 0x46 then Some(u - 0x41 + 10)
    else None
  }

  /** The unit after a backslash, when it stands alone for another. */
  function ShortEscape(u: Unit): Option<Unit> {
    if u == QUOTE || u == BACKSLASH || u == 0x2F then Some(u)
    else if u == 0x62 then Some(0x08)
    else if u == 0x66 then Some(0x0C)
    else if u == 0x6E then Some(0x0A)
    else if u == 0x72 then Some(0x0D)
    else if u == 0x74 then Some(0x09)
    else None
  }

  function ReadHex(s: Text): (r: Read<Unit>)
    ensures r.Got? ==> |r.rest| < |s|
  {
    if |s| < 4 then Fail
    else
      var a, b, c, d := HexValue(s[0]), HexValue(s[1]), HexValue(s[2]), HexValue(s[3]);
      if a.None? || b.None? || c.None? || d.None? then Fail
      else Got(0x1000 * a.value + 0x100 * b.value + 0x10 * c.value + d.value, s[4..])
  }

  /** One unit of a string, raw or escaped. */
  function ReadUnit(s: Text): (r: Read<Unit>)
    requires s != []
    ensures r.Got? ==> |r.rest| < |s|
  {
    if s[0] < 0x20 then Fail
    else if s[0] != BACKSLASH then Got(s[0], s[1..])
    else if |s| < 2 then Fail
    else if s[1] == LETTER_U then ReadHex(s[2..])
    else if ShortEscape(s[1]).Some? then Got(ShortEscape(s[1]).value, s[2..])
    else Fail
  }

  /** The rest of a string after its opening quote. */
  function ReadString(s: Text): (r: Read<Text>)
    ensures r.Got? ==> |r.rest| < |s|
    decreases |s|
  {
    if s == [] then Fail
    else if s[0] == QUOTE then Got([], s[1..])
    else
      match ReadUnit(s)
      case Fail => Fail
      case Got(u, more) =>
        match ReadString(more)
        case Fail => Fail
        case Got(us, rest) => Got([u] + us, rest)
  }

  predicate IsHigh(u: Unit) {
    0xD800 <= u <= 0xDBFF
  }

  predicate IsLow(u: Unit) {
    0xDC00 <= u <= 0xDFFF
  }

  /** One unit that is not half of a pair, as `JSON.stringify` writes it. */
  function QuoteUnit(u: Unit): Text {
    if u == 0x08 then [BACKSLASH, 0x62]
    else if u == 0x09 then [BACKSLASH, 0x74]
    else if u == 0x0A then [BACKSLASH, 0x6E]
    else if u == 0x0C then [BACKSLASH, 0x66]
    else if u == 0x0D then [BACKSLASH, 0x72]
    else if u == QUOTE || u == BACKSLASH then [BACKSLASH, u]
    else if u < 0x20 || IsHigh(u) || IsLow(u) then
      [BACKSLASH, LETTER_U,
       HexDigit(u / 0x1000), HexDigit(u / 0x100 % 0x10), HexDigit(u / 0x10 % 0x10), HexDigit(u % 0x10)]
    else [u]
  }

  function QuoteUnits(s: Text): Text {
    if s == [] then []
    else if |s| >= 2 && IsHigh(s[0]) && IsLow(s[1]) then [s[0], s[1]] + QuoteUnits(s[2..])
    else QuoteUnit(s[0]) + QuoteUnits(s[1..])
  }

  function Quote(s: Text): Text {
    [QUOTE] + QuoteUnits(s) + [QUOTE]
  }

  // ---- values, sections 2 to 6 ----------------------------------------------------------------------

  function SkipBlank(s: Text): (r: Text)
    ensures |r| <= |s|
  {
    if s != [] && s[0] in {0x20, 0x09, 0x0A, 0x0D} then SkipBlank(s[1..]) else s
  }

  predicate IsDigit(u: Unit) {
    0x30 <= u <= 0x39
  }

  function SkipDigits(s: Text): (r: Text)
    ensures |r| <= |s|
  {
    if s != [] && IsDigit(s[0]) then SkipDigits(s[1..]) else s
  }

  /** One digit or more. */
  function ReadDigits(s: Text): (r: Read<Value>)
    ensures r.Got? ==> |r.rest| < |s|
  {
    if s != [] && IsDigit(s[0]) then Got(Number, SkipDigits(s)) else Fail
  }

  function ReadInteger(s: Text): (r: Read<Value>)
    ensures r.Got? ==> |r.rest| < |s|
  {
    if s != [] && s[0] == 0x30 then Got(Number, s[1..]) else ReadDigits(s)
  }

  function ReadFraction(s: Text): (r: Read<Value>)
    ensures r.Got? ==> |r.rest| <= |s|
  {
    if s != [] && s[0] == 0x2E then ReadDigits(s[1..]) else Got(Number, s)
  }

  function ReadExponent(s: Text): (r: Read<Value>)
    ensures r.Got? ==> |r.rest| <= |s|
  {
    if s == [] || s[0] !in {0x65, 0x45} then Got(Number, s)
    else if |s| > 1 && s[1] in {0x2B, 0x2D} then ReadDigits(s[2..])
    else ReadDigits(s[1..])
  }

  function ReadNumber(s: Text): (r: Read<Value>)
    ensures r.Got? ==> |r.rest| < |s|
  {
    match ReadInteger(if s != [] && s[0] == 0x2D then s[1..] else s)
    case Fail => Fail
    case Got(_, s1) =>
      match ReadFraction(s1)
      case Fail => Fail
      case Got(_, s2) => ReadExponent(s2)
  }

  function ReadWord(s: Text, word: Text, v: Value): (r: Read<Value>)
    requires word != []
    ensures r.Got? ==> |r.rest| < |s|
  {
    if word <= s then Got(v, s[|word|..]) else Fail
  }

  function ReadValue(s: Text): (r: Read<Value>)
    ensures r.Got? ==> |r.rest| < |s|
    decreases |s|, 0
  {
    if s == [] then Fail
    else if s[0] == QUOTE then
      match ReadString(s[1..]) {
        case Fail => Fail
        case Got(t, rest) => Got(Str(t), rest)
      }
    else if s[0] == OPEN_BRACE then
      var inside := SkipBlank(s[1..]);
      if inside != [] && inside[0] == CLOSE_BRACE then Got(Obj([]), inside[1..])
      else
        match ReadMembers(inside) {
          case Fail => Fail
          case Got(ms, rest) => Got(Obj(ms), rest)
        }
    else if s[0] == OPEN_BRACKET then
      var inside := SkipBlank(s[1..]);
      if inside != [] && inside[0] == CLOSE_BRACKET then Got(Arr([]), inside[1..])
      else
        match ReadItems(inside) {
          case Fail => Fail
          case Got(vs, rest) => Got(Arr(vs), rest)
        }
    else if s[0] == 0x74 then ReadWord(s, [0x74, 0x72, 0x75, 0x65], Bool(true))
    else if s[0] == 0x66 then ReadWord(s, [0x66, 0x61, 0x6C, 0x73, 0x65], Bool(false))
    else if s[0] == 0x6E then ReadWord(s, [0x6E, 0x75, 0x6C, 0x6C], Null)
    else ReadNumber(s)
  }

  /** A member's name and the colon after it. */
  function ReadName(s: Text): (r: Read<Text>)
    ensures r.Got? ==> |r.rest| < |s|
  {
    if s == [] || s[0] != QUOTE then Fail
    else
      match ReadString(s[1..])
      case Fail => Fail
      case Got(name, after) =>
        var s1 := SkipBlank(after);
        if s1 == [] || s1[0] != COLON then Fail else Got(name, SkipBlank(s1[1..]))
  }

  /** One or more members, up to the closing brace. */
  function ReadMembers(s: Text): (r: Read<seq<(Text, Value)>>)
    ensures r.Got? ==> |r.rest| < |s|
    decreases |s|, 1
  {
    match ReadName(s)
    case Fail => Fail
    case Got(name, s1) =>
      match ReadValue(s1)
      case Fail => Fail
      case Got(v, after) =>
        var s2 := SkipBlank(after);
        if s2 == [] then Fail
        else if s2[0] == CLOSE_BRACE then Got([(name, v)], s2[1..])
        else if s2[0] != COMMA then Fail
        else
          match ReadMembers(SkipBlank(s2[1..]))
          case Fail => Fail
          case Got(ms, rest) => Got([(name, v)] + ms, rest)
  }

  /** One or more items, up to the closing bracket. */
  function ReadItems(s: Text): (r: Read<seq<Value>>)
    ensures r.Got? ==> |r.rest| < |s|
    decreases |s|, 1
  {
    match ReadValue(s)
    case Fail => Fail
    case Got(v, after) =>
      var s1 := SkipBlank(after);
      if s1 == [] then Fail
      else if s1[0] == CLOSE_BRACKET then Got([v], s1[1..])
      else if s1[0] != COMMA then Fail
      else
        match ReadItems(SkipBlank(s1[1..]))
        case Fail => Fail
        case Got(vs, rest) => Got([v] + vs, rest)
  }

  /** `JSON.parse`; `None` where it throws. */
  function Parse(s: Text): Option<Value> {
    match ReadValue(SkipBlank(s))
    case Fail => None
    case Got(v, rest) => if SkipBlank(rest) == [] then Some(v) else None
  }

  /** The property of that name: of members with one name the last counts. */
  function Property(members: seq<(Text, Value)>, name: Text): Option<Value> {
    if members == [] then None
    else if members[|members| - 1].0 == name then Some(members[|members| - 1].1)
    else Property(members[..|members| - 1], name)
  }

  lemma MembersStep(s: Text, name: Text, s1: Text, v: Value, after: Text, more: Text,
                    ms: seq<(Text, Value)>, rest: Text)
    requires ReadName(s) == Got(name, s1) && ReadValue(s1) == Got(v, after) && SkipBlank(after) == after
    requires after != [] && after[0] == COMMA && after[1..] == more && SkipBlank(more) == more
    requires ReadMembers(more) == Got(ms, rest)
    ensures ReadMembers(s) == Got([(name, v)] + ms, rest)
  {
  }

  // ---- what is written is read back --------------------------------------------------------------

  lemma DigitReadsBack(d: nat)
    requires d < 16
    ensures HexValue(HexDigit(d)) == Some(d)
  {
  }

  /** Dividing by powers of sixteen gives the four digits. */
  lemma FourDigits(u: Unit)
    ensures u / 0x1000 < 16
    ensures u == 0x1000 * (u / 0x1000) + 0x100 * (u / 0x100 % 0x10) + 0x10 * (u / 0x10 % 0x10) + u % 0x10
  {
    assert u == 0x10 * (u / 0x10) + u % 0x10;
    var v := u / 0x10;
    assert v == 0x10 * (v / 0x10) + v % 0x10;
    assert v / 0x10 == u / 0x100;
    var w := u / 0x100;
    assert w == 0x10 * (w / 0x10) + w % 0x10;
    assert w / 0x10 == u / 0x1000;
  }

  lemma HexReadsBack(a: nat, b: nat, c: nat, d: nat, rest: Text)
    requires a < 16 && b < 16 && c < 16 && d < 16
    ensures ReadHex([HexDigit(a), HexDigit(b), HexDigit(c), HexDigit(d)] + rest)
         == Got(0x1000 * a + 0x100 * b + 0x10 * c + d, rest)
  {
    DigitReadsBack(a);
    DigitReadsBack(b);
    DigitReadsBack(c);
    DigitReadsBack(d);
    var t := [HexDigit(a), HexDigit(b), HexDigit(c), HexDigit(d)] + rest;
    assert t[4..] == rest;
  }

  lemma UnitReadsBack(u: Unit, rest: Text)
    ensures QuoteUnit(u) != [] && QuoteUnit(u)[0] != QUOTE
    ensures ReadUnit(QuoteUnit(u) + rest) == Got(u, rest)
  {
    var q := QuoteUnit(u);
    if |q| == 6 {
      FourDigits(u);
      HexReadsBack(u / 0x1000, u / 0x100 % 0x10, u / 0x10 % 0x10, u % 0x10, rest);
      assert (q + rest)[2..] == q[2..] + rest;
      assert q[2..] ==
             [HexDigit(u / 0x1000), HexDigit(u / 0x100 % 0x10), HexDigit(u / 0x10 % 0x10), HexDigit(u % 0x10)];
    } else if |q| == 2 {
      assert (q + rest)[2..] == rest;
    } else {
      assert (q + rest)[1..] == rest;
    }
  }

  /** A string whose first unit reads as `u`. */
  lemma StringStep(q: Text, u: Unit, more: Text, s: Text, rest: Text)
    requires q != [] && q[0] != QUOTE && ReadUnit(q + more) == Got(u, more) && ReadString(more) == Got(s, rest)
    ensures ReadString(q + more) == Got([u] + s, rest)
  {
  }

  lemma PairStep(hi: Unit, lo: Unit, more: Text, s: Text, rest: Text)
    requires IsHigh(hi) && IsLow(lo) && ReadString(more) == Got(s, rest)
    ensures ReadString([hi, lo] + more) == Got([hi, lo] + s, rest)
  {
    assert ([lo] + more)[1..] == more;
    StringStep([lo], lo, more, s, rest);
    assert ([hi] + ([lo] + more))[1..] == [lo] + more;
    StringStep([hi], hi, [lo] + more, [lo] + s, rest);
    assert [hi] + ([lo] + more) == [hi, lo] + more;
    assert [hi] + ([lo] + s) == [hi, lo] + s;
  }

  lemma Regroup(a: Text, b: Text, c: Text)
    ensures (a + b) + c == a + (b + c)
  {
  }

  lemma UnitsReadBackPair(s: Text, q: Text, end: Text, rest: Text)
    requires |s| >= 2 && IsHigh(s[0]) && IsLow(s[1]) && ReadString(q + end) == Got(s[2..], rest)
    ensures ReadString([s[0], s[1]] + q + end) == Got(s, rest)
  {
    PairStep(s[0], s[1], q + end, s[2..], rest);
    Regroup([s[0], s[1]], q, end);
    assert [s[0], s[1]] + s[2..] == s;
  }

  lemma UnitsReadBackOne(s: Text, q: Text, end: Text, rest: Text)
    requires s != [] && ReadString(q + end) == Got(s[1..], rest)
    ensures ReadString(QuoteUnit(s[0]) + q + end) == Got(s, rest)
  {
    UnitReadsBack(s[0], q + end);
    StringStep(QuoteUnit(s[0]), s[0], q + end, s[1..], rest);
    Regroup(QuoteUnit(s[0]), q, end);
    assert [s[0]] + s[1..] == s;
  }

  lemma {:induction false} UnitsReadBack(s: Text, end: Text, rest: Text)
    requires ReadString(end) == Got([], rest)
    ensures ReadString(QuoteUnits(s) + end) == Got(s, rest)
    decreases |s|
  {
    if s == [] {
      assert QuoteUnits(s) + end == end;
    } else if |s| >= 2 && IsHigh(s[0]) && IsLow(s[1]) {
      UnitsReadBack(s[2..], end, rest);
      UnitsReadBackPair(s, QuoteUnits(s[2..]), end, rest);
    } else {
      UnitsReadBack(s[1..], end, rest);
      UnitsReadBackOne(s, QuoteUnits(s[1..]), end, rest);
    }
  }

  /** Every string, lone surrogates and control characters included, is read back as written. */
  lemma QuoteReadsBack(s: Text, rest: Text)
    ensures ReadValue(Quote(s) + rest) == Got(Str(s), rest)
  {
    var end := [QUOTE] + rest;
    assert end[1..] == rest;
    UnitsReadBack(s, end, rest);
    assert (Quote(s) + rest)[1..] == QuoteUnits(s) + end;
  }

  lemma {:induction false} NoControls(s: Text)
    ensures forall u | u in QuoteUnits(s) :: u >= 0x20
    decreases |s|
  {
    if s != [] {
      if |s| >= 2 && IsHigh(s[0]) && IsLow(s[1]) {
        NoControls(s[2..]);
      } else {
        NoControls(s[1..]);
      }
    }
  }

  /** A string of plain units is written as it is: nothing is escaped but controls, quotes, backslashes
      and halves of pairs. */
  lemma {:induction false} PlainIsKept(s: Text)
    requires forall k | 0 <= k < |s| ::
               s[k] >= 0x20 && s[k] != 0x22 && s[k] != 0x5C && !(0xD800 <= s[k] <= 0xDFFF)
    ensures Quote(s) == [0x22] + s + [0x22]
    decreases |s|
  {
    if s != [] {
      PlainIsKept(s[1..]);
      assert QuoteUnits(s[1..]) == Quote(s[1..])[1..|s|] == s[1..];
      assert s == [s[0]] + s[1..];
    }
  }

  /** The escapes: a letter for five controls, the quote and the backslash as they are, and four digits
      in lower case for the other controls and for halves of pairs. */
  lemma EscapesAre(u: Unit)
    ensures QuoteUnit(0x08) == [0x5C, 0x62] && QuoteUnit(0x09) == [0x5C, 0x74] && QuoteUnit(0x0A) == [0x5C, 0x6E]
    ensures QuoteUnit(0x0C) == [0x5C, 0x66] && QuoteUnit(0x0D) == [0x5C, 0x72]
    ensures QuoteUnit(0x22) == [0x5C, 0x22] && QuoteUnit(0x5C) == [0x5C, 0x5C]
    ensures (u < 0x20 && u !in {0x08, 0x09, 0x0A, 0x0C, 0x0D}) || 0xD800 <= u <= 0xDFFF ==>
              && |QuoteUnit(u)| == 6 && QuoteUnit(u)[..2] == [0x5C, 0x75]
              && forall k | 2 <= k < 6 :: 0x30 <= QuoteUnit(u)[k] <= 0x39 || 0x61 <= QuoteUnit(u)[k] <= 0x66
  {
  }
}
