/** The grammar of RFC 8259 as a writer of syntax trees, and the proof that the reader of `Json`
    accepts exactly the texts it writes, with the same meaning. */
module JsonGrammar {
  import opened Json
  import opened Wrappers

  // ---- syntax trees ------------------------------------------------------------------------------

  /** A unit of a string: as it is, by a letter after a backslash, or by four hexadecimal digits, each
      with the case of its letter. */
  datatype Char =
    | Raw(u: Unit)
    | Short(meant: Unit)
    | Hex(digits: seq<nat>, upper: seq<bool>)

  /** `mark` is the letter of the exponent, `sign` what stands before its digits. */
  datatype Exponent = Exponent(mark: Unit, sign: Text, digits: Text)

  datatype Numeral = Numeral(minus: bool, integer: Text, fraction: Option<Text>, exponent: Option<Exponent>)

  datatype Tree =
    | NullWord
    | BoolWord(b: bool)
    | Num(n: Numeral)
    | Quoted(chars: seq<Char>)
    | NoItems(blank: Text)
    | Items(items: List)
    | NoMembers(blank: Text)
    | Members(members: List)

  /** The items of an array, or the members of an object, with the blanks around them.  A member has its
      name before the colon. */
  datatype List =
    | Last(item: Item)
    | More(item: Item, rest: List)

  datatype Item = Item(before: Text, name: seq<Char>, gap: Text, gap2: Text, value: Tree, after: Text)

  predicate IsBlank(u: Unit) {
    u == 0x20 || u == 0x09 || u == 0x0A || u == 0x0D
  }

  predicate Blanks(s: Text) {
    forall k | 0 <= k < |s| :: IsBlank(s[k])
  }

  predicate Digits(s: Text) {
    s != [] && forall k | 0 <= k < |s| :: 0x30 <= s[k] <= 0x39
  }

  predicate WellChar(c: Char) {
    match c
    case Raw(u) => u >= 0x20 && u != QUOTE && u != BACKSLASH
    case Short(u) => u in {QUOTE, BACKSLASH, 0x2F, 0x08, 0x0C, 0x0A, 0x0D, 0x09}
    case Hex(digits, upper) => |digits| == |upper| == 4 && forall k | 0 <= k < 4 :: digits[k] < 16
  }

  predicate WellChars(cs: seq<Char>) {
    forall k | 0 <= k < |cs| :: WellChar(cs[k])
  }

  predicate WellNumeral(n: Numeral) {
    && Digits(n.integer) && (n.integer[0] == 0x30 ==> |n.integer| == 1)
    && (n.fraction.Some? ==> Digits(n.fraction.value))
    && (n.exponent.Some? ==>
          && (n.exponent.value.mark == 0x65 || n.exponent.value.mark == 0x45)
          && (n.exponent.value.sign == [] || n.exponent.value.sign == [0x2B] || n.exponent.value.sign == [0x2D])
          && Digits(n.exponent.value.digits))
  }

  predicate Well(t: Tree) {
    match t
    case NullWord => true
    case BoolWord(_) => true
    case Num(n) => WellNumeral(n)
    case Quoted(cs) => WellChars(cs)
    case NoItems(b) => Blanks(b)
    case Items(l) => WellList(l)
    case NoMembers(b) => Blanks(b)
    case Members(l) => WellList(l)
  }

  predicate WellItem(i: Item) {
    Blanks(i.before) && WellChars(i.name) && Blanks(i.gap) && Blanks(i.gap2) && Well(i.value) && Blanks(i.after)
  }

  predicate WellList(l: List) {
    match l
    case Last(i) => WellItem(i)
    case More(i, rest) => WellItem(i) && WellList(rest)
  }

  // ---- what they write, in front of a rest -------------------------------------------------------

  function HexUnit(d: nat, upper: bool): Unit
    requires d < 16
  {
    if d < 10 then 0x30 + d else if upper then 0x41 + d - 10 else 0x61 + d - 10
  }

  function LetterFor(meant: Unit): Unit {
    if meant == 0x08 then 0x62
    else if meant == 0x0C then 0x66
    else if meant == 0x0A then 0x6E
    else if meant == 0x0D then 0x72
    else if meant == 0x09 then 0x74
    else meant
  }

  function WriteChar(c: Char, rest: Text): Text
    requires WellChar(c)
  {
    match c
    case Raw(u) => [u] + rest
    case Short(u) => [BACKSLASH, LetterFor(u)] + rest
    case Hex(d, up) =>
      [BACKSLASH, LETTER_U, HexUnit(d[0], up[0]), HexUnit(d[1], up[1]), HexUnit(d[2], up[2]), HexUnit(d[3], up[3])]
      + rest
  }

  function WriteChars(cs: seq<Char>, rest: Text): Text
    requires WellChars(cs)
  {
    if cs == [] then rest else WriteChar(cs[0], WriteChars(cs[1..], rest))
  }

  function WriteString(cs: seq<Char>, rest: Text): Text
    requires WellChars(cs)
  {
    [QUOTE] + WriteChars(cs, [QUOTE] + rest)
  }

  function WriteExponent(e: Option<Exponent>, rest: Text): Text {
    if e.None? then rest else [e.value.mark] + (e.value.sign + (e.value.digits + rest))
  }

  function WriteFraction(f: Option<Text>, rest: Text): Text {
    if f.None? then rest else [0x2E] + (f.value + rest)
  }

  function WriteNumeral(n: Numeral, rest: Text): Text {
    var s := n.integer + WriteFraction(n.fraction, WriteExponent(n.exponent, rest));
    if n.minus then [0x2D] + s else s
  }

  function WriteTree(t: Tree, rest: Text): Text
    requires Well(t)
    decreases t
  {
    match t
    case NullWord => [0x6E, 0x75, 0x6C, 0x6C] + rest
    case BoolWord(b) => (if b then [0x74, 0x72, 0x75, 0x65] else [0x66, 0x61, 0x6C, 0x73, 0x65]) + rest
    case Num(n) => WriteNumeral(n, rest)
    case Quoted(cs) => WriteString(cs, rest)
    case NoItems(b) => [OPEN_BRACKET] + (b + ([CLOSE_BRACKET] + rest))
    case Items(l) => [OPEN_BRACKET] + WriteList(l, false, rest)
    case NoMembers(b) => [OPEN_BRACE] + (b + ([CLOSE_BRACE] + rest))
    case Members(l) => [OPEN_BRACE] + WriteList(l, true, rest)
  }

  /** The value of an item, after its name in an object, and what follows it. */
  function WriteItem(i: Item, named: bool, rest: Text): Text
    requires WellItem(i)
    decreases i
  {
    var value := WriteTree(i.value, i.after + rest);
    if named then WriteString(i.name, i.gap + ([COLON] + (i.gap2 + value))) else value
  }

  function WriteList(l: List, named: bool, rest: Text): Text
    requires WellList(l)
    decreases l
  {
    match l
    case Last(i) => i.before + WriteItem(i, named, [if named then CLOSE_BRACE else CLOSE_BRACKET] + rest)
    case More(i, more) => i.before + WriteItem(i, named, [COMMA] + WriteList(more, named, rest))
  }

  // ---- what they mean ----------------------------------------------------------------------------

  function CharMeaning(c: Char): Unit
    requires WellChar(c)
  {
    match c
    case Raw(u) => u
    case Short(u) => u
    case Hex(d, _) => 0x1000 * d[0] + 0x100 * d[1] + 0x10 * d[2] + d[3]
  }

  function TextMeaning(cs: seq<Char>): Text
    requires WellChars(cs)
  {
    if cs == [] then [] else [CharMeaning(cs[0])] + TextMeaning(cs[1..])
  }

  function Meaning(t: Tree): Value
    requires Well(t)
    decreases t
  {
    match t
    case NullWord => Null
    case BoolWord(b) => Bool(b)
    case Num(_) => Number
    case Quoted(cs) => Str(TextMeaning(cs))
    case NoItems(_) => Arr([])
    case Items(l) => Arr(ItemMeanings(l))
    case NoMembers(_) => Obj([])
    case Members(l) => Obj(MemberMeanings(l))
  }

  function ItemMeanings(l: List): seq<Value>
    requires WellList(l)
    decreases l
  {
    match l
    case Last(i) => assert WellItem(i); [Meaning(i.value)]
    case More(i, rest) => assert WellItem(i); [Meaning(i.value)] + ItemMeanings(rest)
  }

  function MemberMeanings(l: List): seq<(Text, Value)>
    requires WellList(l)
    decreases l
  {
    match l
    case Last(i) => assert WellItem(i); [(TextMeaning(i.name), Meaning(i.value))]
    case More(i, rest) => assert WellItem(i); [(TextMeaning(i.name), Meaning(i.value))] + MemberMeanings(rest)
  }

  // ---- every tree is read back -------------------------------------------------------------------

  lemma {:induction false} SkipBlanks(b: Text, s: Text)
    requires Blanks(b) && (s == [] || !IsBlank(s[0]))
    ensures SkipBlank(b + s) == s
    decreases |b|
  {
    if b == [] {
      assert b + s == s;
    } else {
      assert (b + s)[1..] == b[1..] + s;
      SkipBlanks(b[1..], s);
    }
  }

  lemma HexUnitReads(d: nat, upper: bool)
    requires d < 16
    ensures HexValue(HexUnit(d, upper)) == Some(d)
  {
  }

  lemma CharReads(c: Char, rest: Text)
    requires WellChar(c)
    ensures WriteChar(c, rest) != [] && WriteChar(c, rest)[0] != QUOTE
    ensures ReadUnit(WriteChar(c, rest)) == Got(CharMeaning(c), rest)
  {
    var s := WriteChar(c, rest);
    match c
    case Raw(u) => assert s[1..] == rest;
    case Short(u) => assert s[2..] == rest;
    case Hex(d, up) =>
      HexUnitReads(d[0], up[0]);
      HexUnitReads(d[1], up[1]);
      HexUnitReads(d[2], up[2]);
      HexUnitReads(d[3], up[3]);
      assert s[2..][4..] == rest;
  }

  lemma {:induction false} CharsRead(cs: seq<Char>, rest: Text)
    requires WellChars(cs)
    ensures ReadString(WriteChars(cs, [QUOTE] + rest)) == Got(TextMeaning(cs), rest)
  {
    if cs == [] {
      assert ([QUOTE] + rest)[1..] == rest;
    } else {
      CharsRead(cs[1..], rest);
      CharReads(cs[0], WriteChars(cs[1..], [QUOTE] + rest));
    }
  }

  lemma {:induction false} DigitsSkipped(ds: Text, rest: Text)
    requires (forall k | 0 <= k < |ds| :: IsDigit(ds[k])) && (rest == [] || !IsDigit(rest[0]))
    ensures SkipDigits(ds + rest) == rest
    decreases |ds|
  {
    if ds == [] {
      assert ds + rest == rest;
    } else {
      assert (ds + rest)[1..] == ds[1..] + rest;
      DigitsSkipped(ds[1..], rest);
    }
  }

  /** What may follow a value: a blank, a comma, or a closing bracket or brace. */
  predicate Follows(rest: Text) {
    rest == [] || rest[0] in {0x20, 0x09, 0x0A, 0x0D, COMMA, CLOSE_BRACKET, CLOSE_BRACE}
  }

  lemma ExponentReads(e: Option<Exponent>, rest: Text)
    requires e.Some? ==> WellNumeral(Numeral(false, [0x30], None, e))
    requires Follows(rest)
    ensures ReadExponent(WriteExponent(e, rest)) == Got(Number, rest)
    ensures WriteExponent(e, rest) == rest || WriteExponent(e, rest)[0] in {0x65, 0x45}
  {
    if e.Some? {
      var x := e.value;
      var s := WriteExponent(e, rest);
      DigitsSkipped(x.digits, rest);
      assert s[1..] == x.sign + (x.digits + rest);
      if x.sign == [] {
        assert s[1..] == x.digits + rest;
      } else {
        assert s[2..] == x.digits + rest;
      }
    }
  }

  lemma FractionReads(f: Option<Text>, rest: Text)
    requires f.Some? ==> Digits(f.value)
    requires rest == [] || (!IsDigit(rest[0]) && rest[0] != 0x2E)
    ensures ReadFraction(WriteFraction(f, rest)) == Got(Number, rest)
    ensures WriteFraction(f, rest) == rest || WriteFraction(f, rest)[0] == 0x2E
  {
    if f.Some? {
      DigitsSkipped(f.value, rest);
      assert WriteFraction(f, rest)[1..] == f.value + rest;
    }
  }

  lemma IntegerReads(ds: Text, rest: Text)
    requires Digits(ds) && (ds[0] == 0x30 ==> |ds| == 1) && (rest == [] || !IsDigit(rest[0]))
    ensures ReadInteger(ds + rest) == Got(Number, rest)
    ensures 0x30 <= (ds + rest)[0] <= 0x39
  {
    DigitsSkipped(ds, rest);
    if ds[0] == 0x30 {
      assert (ds + rest)[1..] == rest;
    }
  }

  lemma NumeralReads(n: Numeral, rest: Text)
    requires WellNumeral(n) && Follows(rest)
    ensures ReadNumber(WriteNumeral(n, rest)) == Got(Number, rest)
    ensures WriteNumeral(n, rest) != []
    ensures WriteNumeral(n, rest)[0] == 0x2D || 0x30 <= WriteNumeral(n, rest)[0] <= 0x39
  {
    var s2 := WriteExponent(n.exponent, rest);
    var s1 := WriteFraction(n.fraction, s2);
    ExponentReads(n.exponent, rest);
    FractionReads(n.fraction, s2);
    IntegerReads(n.integer, s1);
    if n.minus {
      assert WriteNumeral(n, rest)[1..] == n.integer + s1;
    }
  }

  /** A value begins with none of the marks around it. */
  predicate Starts(s: Text) {
    s != [] && s[0] !in {0x20, 0x09, 0x0A, 0x0D, COMMA, COLON, CLOSE_BRACKET, CLOSE_BRACE}
  }

  lemma TreeStarts(t: Tree, rest: Text)
    requires Well(t)
    ensures Starts(WriteTree(t, rest))
  {
    match t
    case Num(n) =>
    case NullWord =>
    case BoolWord(_) =>
    case Quoted(_) =>
    case NoItems(_) =>
    case Items(_) =>
    case NoMembers(_) =>
    case Members(_) =>
  }

  lemma {:induction false} StringReads(cs: seq<Char>, rest: Text)
    requires WellChars(cs)
    ensures ReadValue(WriteString(cs, rest)) == Got(Str(TextMeaning(cs)), rest)
    ensures ReadString(WriteString(cs, rest)[1..]) == Got(TextMeaning(cs), rest)
    ensures Starts(WriteString(cs, rest)) && WriteString(cs, rest)[0] == QUOTE
  {
    CharsRead(cs, rest);
    assert WriteString(cs, rest)[1..] == WriteChars(cs, [QUOTE] + rest);
  }

  /** A text that starts with no blank is not shortened. */
  lemma BeforeStart(b: Text, s: Text)
    requires Blanks(b) && Starts(s)
    ensures SkipBlank(b + s) == s && SkipBlank(s) == s
  {
    SkipBlanks(b, s);
    SkipBlanks([], s);
    assert [] + s == s;
  }

  lemma BeforeMark(b: Text, mark: Unit, rest: Text)
    requires Blanks(b) && mark in {COMMA, COLON, CLOSE_BRACKET, CLOSE_BRACE}
    ensures SkipBlank(b + ([mark] + rest)) == [mark] + rest && ([mark] + rest)[1..] == rest
    ensures Follows(b + ([mark] + rest)) || mark == COLON
  {
    var s := [mark] + rest;
    SkipBlanks(b, s);
    if b != [] {
      assert (b + s)[0] == b[0];
    } else {
      assert b + s == s;
    }
  }

  lemma {:induction false} NameReads(i: Item, value: Text)
    requires WellItem(i) && Starts(value)
    ensures ReadName(WriteString(i.name, i.gap + ([COLON] + (i.gap2 + value)))) == Got(TextMeaning(i.name), value)
  {
    var after := i.gap + ([COLON] + (i.gap2 + value));
    StringReads(i.name, after);
    BeforeMark(i.gap, COLON, i.gap2 + value);
    BeforeStart(i.gap2, value);
  }

  lemma {:induction false} TreeReads(t: Tree, rest: Text)
    requires Well(t) && Follows(rest)
    ensures ReadValue(WriteTree(t, rest)) == Got(Meaning(t), rest)
    decreases t
  {
    var s := WriteTree(t, rest);
    match t
    case NullWord => assert s[4..] == rest;
    case BoolWord(b) => assert s[if b then 4 else 5..] == rest;
    case Num(n) => NumeralReads(n, rest);
    case Quoted(cs) => StringReads(cs, rest);
    case NoItems(b) =>
      BeforeMark(b, CLOSE_BRACKET, rest);
      assert s[1..] == b + ([CLOSE_BRACKET] + rest);
    case NoMembers(b) =>
      BeforeMark(b, CLOSE_BRACE, rest);
      assert s[1..] == b + ([CLOSE_BRACE] + rest);
    case Items(l) =>
      ItemsRead(l, rest);
      assert s[1..] == WriteList(l, false, rest);
    case Members(l) =>
      MembersRead(l, rest);
      assert s[1..] == WriteList(l, true, rest);
  }

  lemma {:induction false} ItemsRead(l: List, rest: Text)
    requires WellList(l)
    ensures var s := SkipBlank(WriteList(l, false, rest));
            Starts(s) && ReadItems(s) == Got(ItemMeanings(l), rest)
    decreases l
  {
    var i := l.item;
    var mark := if l.Last? then CLOSE_BRACKET else COMMA;
    var more := if l.Last? then rest else WriteList(l.rest, false, rest);
    var after := i.after + ([mark] + more);
    BeforeMark(i.after, mark, more);
    TreeReads(i.value, after);
    TreeStarts(i.value, after);
    BeforeStart(i.before, WriteTree(i.value, after));
    if l.More? {
      ItemsRead(l.rest, rest);
    }
  }

  lemma {:induction false} MembersRead(l: List, rest: Text)
    requires WellList(l)
    ensures var s := SkipBlank(WriteList(l, true, rest));
            Starts(s) && ReadMembers(s) == Got(MemberMeanings(l), rest)
    decreases l
  {
    var i := l.item;
    var mark := if l.Last? then CLOSE_BRACE else COMMA;
    var more := if l.Last? then rest else WriteList(l.rest, true, rest);
    var after := i.after + ([mark] + more);
    var value := WriteTree(i.value, after);
    BeforeMark(i.after, mark, more);
    TreeReads(i.value, after);
    TreeStarts(i.value, after);
    NameReads(i, value);
    StringReads(i.name, i.gap + ([COLON] + (i.gap2 + value)));
    BeforeStart(i.before, WriteItem(i, true, [mark] + more));
    if l.More? {
      MembersRead(l.rest, rest);
    }
  }

  // ---- and nothing else is read ------------------------------------------------------------------

  lemma {:induction false} BlanksSkipped(s: Text) returns (b: Text)
    ensures Blanks(b) && s == b + SkipBlank(s)
    decreases |s|
  {
    if s != [] && IsBlank(s[0]) {
      var more := BlanksSkipped(s[1..]);
      b := [s[0]] + more;
    } else {
      b := [];
    }
  }

  lemma {:induction false} DigitsWritten(s: Text) returns (ds: Text)
    ensures (forall k | 0 <= k < |ds| :: 0x30 <= ds[k] <= 0x39) && s == ds + SkipDigits(s)
    ensures s != [] && IsDigit(s[0]) ==> ds != []
    decreases |s|
  {
    if s != [] && IsDigit(s[0]) {
      var more := DigitsWritten(s[1..]);
      ds := [s[0]] + more;
    } else {
      ds := [];
    }
  }

  lemma HexWritten(u: Unit) returns (d: nat, upper: bool)
    requires HexValue(u).Some?
    ensures d < 16 && u == HexUnit(d, upper) && HexValue(u) == Some(d)
  {
    d, upper := HexValue(u).value, 0x41 <= u <= 0x46;
  }

  lemma HexCharWritten(s: Text) returns (c: Char)
    requires |s| >= 2 && s[0] == BACKSLASH && s[1] == LETTER_U && ReadHex(s[2..]).Got?
    ensures WellChar(c) && s == WriteChar(c, ReadHex(s[2..]).rest) && CharMeaning(c) == ReadHex(s[2..]).value
  {
    var d0, u0 := HexWritten(s[2..][0]);
    var d1, u1 := HexWritten(s[2..][1]);
    var d2, u2 := HexWritten(s[2..][2]);
    var d3, u3 := HexWritten(s[2..][3]);
    c := Hex([d0, d1, d2, d3], [u0, u1, u2, u3]);
    assert s == s[..6] + s[2..][4..];
  }

  lemma CharWritten(s: Text) returns (c: Char)
    requires s != [] && s[0] != QUOTE && ReadUnit(s).Got?
    ensures WellChar(c) && s == WriteChar(c, ReadUnit(s).rest) && CharMeaning(c) == ReadUnit(s).value
  {
    if s[0] != BACKSLASH {
      c := Raw(s[0]);
    } else if s[1] == LETTER_U {
      c := HexCharWritten(s);
    } else {
      c := Short(ShortEscape(s[1]).value);
    }
  }

  lemma {:induction false} CharsWritten(s: Text) returns (cs: seq<Char>)
    requires ReadString(s).Got?
    ensures WellChars(cs) && s == WriteChars(cs, [QUOTE] + ReadString(s).rest) && TextMeaning(cs) == ReadString(s).value
    decreases |s|
  {
    if s[0] == QUOTE {
      cs := [];
    } else {
      var c := CharWritten(s);
      var more := CharsWritten(ReadUnit(s).rest);
      cs := [c] + more;
      assert cs[1..] == more;
    }
  }

  lemma {:induction false} StringWritten(s: Text) returns (cs: seq<Char>)
    requires s != [] && s[0] == QUOTE && ReadString(s[1..]).Got?
    ensures WellChars(cs) && s == WriteString(cs, ReadString(s[1..]).rest)
    ensures TextMeaning(cs) == ReadString(s[1..]).value
  {
    cs := CharsWritten(s[1..]);
  }

  lemma ExponentWritten(s: Text) returns (e: Option<Exponent>)
    requires ReadExponent(s).Got?
    ensures s == WriteExponent(e, ReadExponent(s).rest)
    ensures e.Some? ==> WellNumeral(Numeral(false, [0x30], None, e))
  {
    if s == [] || s[0] !in {0x65, 0x45} {
      e := None;
    } else if |s| > 1 && s[1] in {0x2B, 0x2D} {
      var ds := DigitsWritten(s[2..]);
      e := Some(Exponent(s[0], [s[1]], ds));
      assert s == [s[0]] + ([s[1]] + s[2..]);
    } else {
      var ds := DigitsWritten(s[1..]);
      e := Some(Exponent(s[0], [], ds));
      assert [] + s[1..] == s[1..];
    }
  }

  lemma FractionWritten(s: Text) returns (f: Option<Text>)
    requires ReadFraction(s).Got?
    ensures s == WriteFraction(f, ReadFraction(s).rest) && (f.Some? ==> Digits(f.value))
  {
    if s != [] && s[0] == 0x2E {
      var ds := DigitsWritten(s[1..]);
      f := Some(ds);
    } else {
      f := None;
    }
  }

  lemma IntegerWritten(s: Text) returns (ds: Text)
    requires ReadInteger(s).Got?
    ensures Digits(ds) && (ds[0] == 0x30 ==> |ds| == 1) && s == ds + ReadInteger(s).rest
  {
    if s[0] == 0x30 {
      ds := [0x30];
    } else {
      ds := DigitsWritten(s);
    }
  }

  lemma NumeralWritten(s: Text) returns (n: Numeral)
    requires ReadNumber(s).Got?
    ensures WellNumeral(n) && s == WriteNumeral(n, ReadNumber(s).rest)
  {
    var minus := s != [] && s[0] == 0x2D;
    var s0 := if minus then s[1..] else s;
    var integer := IntegerWritten(s0);
    var s1 := ReadInteger(s0).rest;
    var fraction := FractionWritten(s1);
    var exponent := ExponentWritten(ReadFraction(s1).rest);
    n := Numeral(minus, integer, fraction, exponent);
  }

  lemma WordWritten(s: Text, word: Text, v: Value)
    requires word != [] && ReadWord(s, word, v).Got?
    ensures s == word + ReadWord(s, word, v).rest && ReadWord(s, word, v).value == v
  {
  }

  lemma {:induction false} TreeWritten(s: Text) returns (t: Tree)
    requires ReadValue(s).Got?
    ensures Well(t) && s == WriteTree(t, ReadValue(s).rest) && Meaning(t) == ReadValue(s).value
    decreases |s|, 0
  {
    if s[0] == QUOTE {
      var cs := StringWritten(s);
      t := Quoted(cs);
    } else if s[0] == OPEN_BRACE {
      t := ObjectWritten(s);
    } else if s[0] == OPEN_BRACKET {
      t := ArrayWritten(s);
    } else if s[0] == 0x74 {
      WordWritten(s, [0x74, 0x72, 0x75, 0x65], Bool(true));
      t := BoolWord(true);
    } else if s[0] == 0x66 {
      WordWritten(s, [0x66, 0x61, 0x6C, 0x73, 0x65], Bool(false));
      t := BoolWord(false);
    } else if s[0] == 0x6E {
      WordWritten(s, [0x6E, 0x75, 0x6C, 0x6C], Null);
      t := NullWord;
    } else {
      var n := NumeralWritten(s);
      t := Num(n);
    }
  }

  lemma {:induction false} ArrayWritten(s: Text) returns (t: Tree)
    requires s != [] && s[0] == OPEN_BRACKET && ReadValue(s).Got?
    ensures Well(t) && s == WriteTree(t, ReadValue(s).rest) && Meaning(t) == ReadValue(s).value
    decreases |s|, -1
  {
    var inside := SkipBlank(s[1..]);
    var b := BlanksSkipped(s[1..]);
    if inside != [] && inside[0] == CLOSE_BRACKET {
      t := NoItems(b);
      assert inside == [CLOSE_BRACKET] + inside[1..];
    } else {
      var l := ItemsWritten(inside, b);
      t := Items(l);
    }
  }

  lemma {:induction false} ObjectWritten(s: Text) returns (t: Tree)
    requires s != [] && s[0] == OPEN_BRACE && ReadValue(s).Got?
    ensures Well(t) && s == WriteTree(t, ReadValue(s).rest) && Meaning(t) == ReadValue(s).value
    decreases |s|, -1
  {
    var inside := SkipBlank(s[1..]);
    var b := BlanksSkipped(s[1..]);
    if inside != [] && inside[0] == CLOSE_BRACE {
      t := NoMembers(b);
      assert inside == [CLOSE_BRACE] + inside[1..];
    } else {
      var l := MembersWritten(inside, b);
      t := Members(l);
    }
  }

  lemma {:induction false} ItemsWritten(s: Text, before: Text) returns (l: List)
    requires ReadItems(s).Got? && Blanks(before)
    ensures WellList(l) && before + s == WriteList(l, false, ReadItems(s).rest)
    ensures ItemMeanings(l) == ReadItems(s).value
    decreases |s|, 1
  {
    var v := TreeWritten(s);
    var after := ReadValue(s).rest;
    var b := BlanksSkipped(after);
    var s1 := SkipBlank(after);
    var i := Item(before, [], [], [], v, b);
    assert WellItem(i);
    if s1[0] == CLOSE_BRACKET {
      l := Last(i);
      assert s1 == [CLOSE_BRACKET] + s1[1..];
    } else {
      var b1 := BlanksSkipped(s1[1..]);
      var rest := ItemsWritten(SkipBlank(s1[1..]), b1);
      l := More(i, rest);
      assert s1 == [COMMA] + s1[1..];
    }
  }

  lemma {:induction false} NameWritten(s: Text) returns (cs: seq<Char>, gap: Text, gap2: Text)
    requires ReadName(s).Got?
    ensures WellChars(cs) && Blanks(gap) && Blanks(gap2) && TextMeaning(cs) == ReadName(s).value
    ensures s == WriteString(cs, gap + ([COLON] + (gap2 + ReadName(s).rest)))
  {
    cs := StringWritten(s);
    var after := ReadString(s[1..]).rest;
    gap := BlanksSkipped(after);
    var s1 := SkipBlank(after);
    gap2 := BlanksSkipped(s1[1..]);
    assert s1 == [COLON] + s1[1..];
  }

  /** One member read, and what the others are read from. */
  lemma MembersParts(s: Text)
    requires ReadMembers(s).Got?
    ensures ReadName(s).Got? && ReadValue(ReadName(s).rest).Got?
    ensures var v, s1 := ReadValue(ReadName(s).rest), SkipBlank(ReadValue(ReadName(s).rest).rest);
            && s1 != [] && (s1[0] == CLOSE_BRACE || s1[0] == COMMA) && |s1| < |s|
            && (s1[0] == CLOSE_BRACE ==> ReadMembers(s) == Got([(ReadName(s).value, v.value)], s1[1..]))
            && (s1[0] == COMMA ==>
                  var more := ReadMembers(SkipBlank(s1[1..]));
                  more.Got? && ReadMembers(s) == Got([(ReadName(s).value, v.value)] + more.value, more.rest))
  {
  }

  lemma {:induction false} MembersWritten(s: Text, before: Text) returns (l: List)
    requires ReadMembers(s).Got? && Blanks(before)
    ensures WellList(l) && before + s == WriteList(l, true, ReadMembers(s).rest)
    ensures MemberMeanings(l) == ReadMembers(s).value
    decreases |s|, 1
  {
    MembersParts(s);
    var v := TreeWritten(ReadName(s).rest);
    var i := MemberWritten(s, before, v);
    var s1 := SkipBlank(ReadValue(ReadName(s).rest).rest);
    if s1[0] == CLOSE_BRACE {
      l := Last(i);
      assert s1 == [CLOSE_BRACE] + s1[1..];
    } else {
      var b1 := BlanksSkipped(s1[1..]);
      var rest := MembersWritten(SkipBlank(s1[1..]), b1);
      l := More(i, rest);
      assert s1 == [COMMA] + s1[1..];
    }
  }

  lemma {:induction false} MemberWritten(s: Text, before: Text, v: Tree) returns (i: Item)
    requires ReadName(s).Got? && Blanks(before) && Well(v) && ReadValue(ReadName(s).rest).Got?
    requires ReadName(s).rest == WriteTree(v, ReadValue(ReadName(s).rest).rest)
    ensures WellItem(i) && i.before == before && i.value == v && TextMeaning(i.name) == ReadName(s).value
    ensures s == WriteItem(i, true, SkipBlank(ReadValue(ReadName(s).rest).rest))
  {
    var cs, gap, gap2 := NameWritten(s);
    var b := BlanksSkipped(ReadValue(ReadName(s).rest).rest);
    i := Item(before, cs, gap, gap2, v, b);
  }

  // ---- the reader decides the grammar --------------------------------------------------------------

  /** The text is a tree of that meaning, with blanks around it. */
  ghost predicate Writes(before: Text, t: Tree, after: Text, s: Text, v: Value) {
    Blanks(before) && Blanks(after) && Well(t) && s == before + WriteTree(t, after) && Meaning(t) == v
  }

  lemma TreeIsParsed(before: Text, t: Tree, after: Text)
    requires Blanks(before) && Blanks(after) && Well(t)
    ensures Parse(before + WriteTree(t, after)) == Some(Meaning(t))
  {
    TreeReads(t, after);
    TreeStarts(t, after);
    BeforeStart(before, WriteTree(t, after));
    SkipBlanks(after, []);
    assert after + [] == after;
  }

  /** A text parses to a value exactly if the grammar writes it for that value. */
  lemma ParseIff(s: Text, v: Value)
    ensures Parse(s) == Some(v) <==> exists before, t, after :: Writes(before, t, after, s, v)
  {
    if Parse(s) == Some(v) {
      var before := BlanksSkipped(s);
      var t := TreeWritten(SkipBlank(s));
      var rest := ReadValue(SkipBlank(s)).rest;
      var after := BlanksSkipped(rest);
      assert after + [] == after;
      assert Writes(before, t, after, s, v);
    }
    if before, t, after :| Writes(before, t, after, s, v) {
      TreeIsParsed(before, t, after);
    }
  }
}
