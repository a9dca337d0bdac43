/** The memory record codec of `shared/src/memory.ts`: an escaped prompt, one separator, and a
    JSON trailer that refers back to the model. */
module MemoryCodec {
  import opened Json
  import opened Wrappers

  const RS: Unit := 0x1E
  const ESC: Unit := 0x1B
  const ZERO: Unit := 0x30
  const ONE: Unit := 0x31
  const LETTER_M: Unit := 0x6D
  const LETTER_C: Unit := 0x63

  datatype MemoryRef = MemoryRef(m: Text, c: Option<Text>)

  datatype ParsedMemory = ParsedMemory(prompt: Text, ref: Option<MemoryRef>)

  /** `replace` of every occurrence of one unit. */
  function ReplaceAll(s: Text, u: Unit, into: Text): Text {
    if s == [] then [] else (if s[0] == u then into else [s[0]]) + ReplaceAll(s[1..], u, into)
  }

  function Escape(s: Text): Text {
    ReplaceAll(ReplaceAll(s, ESC, [ESC, ZERO]), RS, [ESC, ONE])
  }

  predicate StartsEscape(s: Text) {
    |s| >= 2 && s[0] == ESC && (s[1] == ZERO || s[1] == ONE)
  }

  /** One pass from left to right over the escape pairs. */
  function Unescape(s: Text): Text
    decreases |s|
  {
    if s == [] then []
    else if StartsEscape(s) then [if s[1] == ZERO then ESC else RS] + Unescape(s[2..])
    else [s[0]] + Unescape(s[1..])
  }

  /** An empty creator counts as none. */
  function Compact(r: MemoryRef): MemoryRef {
    if r.c.Some? && r.c.value != [] then r else MemoryRef(r.m, None)
  }

  /** `JSON.stringify` of the compact reference. */
  function Stringify(r: MemoryRef): Text {
    [OPEN_BRACE] + Member([LETTER_M], r.m,
      if r.c.Some? then [COMMA] + Member([LETTER_C], r.c.value, [CLOSE_BRACE]) else [CLOSE_BRACE])
  }

  /** A member whose value is a string, and what follows it. */
  function Member(name: Text, s: Text, after: Text): Text {
    Quote(name) + ([COLON] + (Quote(s) + after))
  }

  function EncodeMemory(prompt: Text, r: MemoryRef): Text {
    Escape(prompt) + [RS] + Stringify(Compact(r))
  }

  /** The first position of `u`, or the length. */
  function IndexOf(s: Text, u: Unit): (i: nat)
    ensures i <= |s| && (i < |s| ==> s[i] == u) && u !in s[..i]
  {
    if s == [] then 0
    else if s[0] == u then 0
    else
      var i := 1 + IndexOf(s[1..], u);
      assert s[..i] == [s[0]] + s[1..][..i - 1];
      i
  }

  function RefOf(trailer: Text): Option<MemoryRef> {
    match Parse(trailer)
    case None => None
    case Some(v) =>
      if !v.Obj? then None
      else
        var m, c := Property(v.members, [LETTER_M]), Property(v.members, [LETTER_C]);
        if m.None? || !m.value.Str? then None
        else Some(MemoryRef(m.value.s, if c.Some? && c.value.Str? then Some(c.value.s) else None))
  }

  function ParseMemory(text: Text): ParsedMemory {
    var i := IndexOf(text, RS);
    if i == |text| then ParsedMemory(Unescape(text), None)
    else ParsedMemory(Unescape(text[..i]), RefOf(text[i + 1..]))
  }

  // ---- escaping ------------------------------------------------------------------------------------

  /** Both passes together, unit by unit. */
  function EscapeUnit(u: Unit): Text {
    if u == ESC then [ESC, ZERO] else if u == RS then [ESC, ONE] else [u]
  }

  lemma {:induction false} ReplaceAllConcat(a: Text, b: Text, u: Unit, into: Text)
    ensures ReplaceAll(a + b, u, into) == ReplaceAll(a, u, into) + ReplaceAll(b, u, into)
    decreases |a|
  {
    if a == [] {
      assert a + b == b;
    } else {
      ReplaceAllConcat(a[1..], b, u, into);
      assert (a + b)[1..] == a[1..] + b;
    }
  }

  lemma EscapeStep(s: Text)
    requires s != []
    ensures Escape(s) == EscapeUnit(s[0]) + Escape(s[1..])
  {
    var first := if s[0] == ESC then [ESC, ZERO] else [s[0]];
    ReplaceAllConcat(first, ReplaceAll(s[1..], ESC, [ESC, ZERO]), RS, [ESC, ONE]);
    assert first[1..] == [] || first[1..] == [ZERO];
    assert ReplaceAll([ZERO], RS, [ESC, ONE]) == [ZERO];
    assert ReplaceAll(first, RS, [ESC, ONE]) == EscapeUnit(s[0]);
  }

  lemma UnescapeStep(u: Unit, more: Text)
    ensures Unescape(EscapeUnit(u) + more) == [u] + Unescape(more)
  {
    var q := EscapeUnit(u);
    if |q| == 2 {
      assert (q + more)[2..] == more;
    } else {
      assert (q + more)[1..] == more;
    }
  }

  /** Every prompt survives, separators and escape bytes included, and none is left raw. */
  lemma {:induction false} EscapeRoundTrip(s: Text)
    ensures Unescape(Escape(s)) == s
    ensures RS !in Escape(s)
    decreases |s|
  {
    if s != [] {
      EscapeStep(s);
      EscapeRoundTrip(s[1..]);
      UnescapeStep(s[0], Escape(s[1..]));
      assert [s[0]] + s[1..] == s;
    }
  }

  // ---- the trailer -----------------------------------------------------------------------------------

  lemma ReadNameBack(name: Text, v: Text)
    requires v != [] && v[0] == QUOTE
    ensures ReadName(Quote(name) + ([COLON] + v)) == Got(name, v)
  {
    QuoteReadsBack(name, [COLON] + v);
    assert ([COLON] + v)[1..] == v;
  }

  /** A member is read up to the comma or the brace after it. */
  lemma ReadMemberBack(name: Text, s: Text, after: Text)
    requires after != [] && (after[0] == COMMA || after[0] == CLOSE_BRACE)
    ensures ReadName(Member(name, s, after)) == Got(name, Quote(s) + after)
    ensures ReadValue(Quote(s) + after) == Got(Str(s), after)
    ensures SkipBlank(after) == after
  {
    QuoteReadsBack(s, after);
    ReadNameBack(name, Quote(s) + after);
  }

  lemma ReadLastMember(name: Text, s: Text)
    ensures ReadMembers(Member(name, s, [CLOSE_BRACE])) == Got([(name, Str(s))], [])
  {
    ReadMemberBack(name, s, [CLOSE_BRACE]);
  }

  lemma ReadMoreMembers(name: Text, s: Text, more: Text, ms: seq<(Text, Value)>)
    requires more != [] && more[0] == QUOTE && ReadMembers(more) == Got(ms, [])
    ensures ReadMembers(Member(name, s, [COMMA] + more)) == Got([(name, Str(s))] + ms, [])
  {
    var after := [COMMA] + more;
    ReadMemberBack(name, s, after);
    assert after[1..] == more;
    MembersStep(Member(name, s, after), name, Quote(s) + after, Str(s), after, more, ms, []);
  }

  lemma ReadObject(inside: Text, ms: seq<(Text, Value)>)
    requires inside != [] && inside[0] == QUOTE && ReadMembers(inside) == Got(ms, [])
    ensures Parse([OPEN_BRACE] + inside) == Some(Obj(ms))
  {
    assert ([OPEN_BRACE] + inside)[1..] == inside;
  }

  function MembersOf(r: MemoryRef): seq<(Text, Value)> {
    [([LETTER_M], Str(r.m))] + if r.c.Some? then [([LETTER_C], Str(r.c.value))] else []
  }

  lemma StringifyReadsBack(r: MemoryRef)
    ensures Parse(Stringify(r)) == Some(Obj(MembersOf(r)))
  {
    match r.c
    case None =>
      ReadLastMember([LETTER_M], r.m);
      assert MembersOf(r) == [([LETTER_M], Str(r.m))];
      ReadObject(Member([LETTER_M], r.m, [CLOSE_BRACE]), MembersOf(r));
    case Some(c) =>
      var more := Member([LETTER_C], c, [CLOSE_BRACE]);
      ReadLastMember([LETTER_C], c);
      ReadMoreMembers([LETTER_M], r.m, more, [([LETTER_C], Str(c))]);
      ReadObject(Member([LETTER_M], r.m, [COMMA] + more), MembersOf(r));
  }

  lemma PropertyOfLast(ms: seq<(Text, Value)>, name: Text, v: Value, other: Text)
    ensures Property(ms + [(name, v)], name) == Some(v)
    ensures other != name ==> Property(ms + [(name, v)], other) == Property(ms, other)
  {
    assert (ms + [(name, v)])[..|ms|] == ms;
  }

  lemma RefReadsBack(r: MemoryRef)
    ensures RefOf(Stringify(r)) == Some(r)
  {
    StringifyReadsBack(r);
    var m, c := [LETTER_M], [LETTER_C];
    assert m[0] != c[0];
    PropertyOfLast([], m, Str(r.m), c);
    assert [] + [(m, Str(r.m))] == [(m, Str(r.m))];
    match r.c
    case None =>
      assert MembersOf(r) == [(m, Str(r.m))];
    case Some(creator) =>
      PropertyOfLast([(m, Str(r.m))], c, Str(creator), m);
  }

  lemma StringifyHasNoSeparator(r: MemoryRef)
    ensures RS !in Stringify(r)
  {
    NoControls([LETTER_M]);
    NoControls([LETTER_C]);
    NoControls(r.m);
    NoControls(if r.c.Some? then r.c.value else []);
  }

  // ---- the record -------------------------------------------------------------------------------------

  lemma {:induction false} IndexOfFirst(a: Text, u: Unit, b: Text)
    requires u !in a
    ensures IndexOf(a + [u] + b, u) == |a|
  {
    var s, i := a + [u] + b, IndexOf(a + [u] + b, u);
    assert s[|a|] == u;
    assert forall k | 0 <= k < |a| :: s[k] == a[k];
    forall k | |a| < k <= |s| ensures u in s[..k] {
      assert s[..k][|a|] == u;
    }
  }

  /** Every prompt and every reference come back from their record: the model always, and the creator
      unless it was empty, which counts as none. */
  lemma RoundTrip(prompt: Text, r: MemoryRef)
    ensures ParseMemory(EncodeMemory(prompt, r)).prompt == prompt
    ensures ParseMemory(EncodeMemory(prompt, r)).ref.Some?
    ensures var back := ParseMemory(EncodeMemory(prompt, r)).ref.value;
            back.m == r.m && back.c == if r.c.Some? && r.c.value != [] then r.c else None
  {
    var p, t := Escape(prompt), Stringify(Compact(r));
    EscapeRoundTrip(prompt);
    IndexOfFirst(p, RS, t);
    assert (p + [RS] + t)[..|p|] == p && (p + [RS] + t)[|p| + 1..] == t;
    RefReadsBack(Compact(r));
  }

  /** Two records are the same exactly for the same prompt, the same model and the same creator, or none
      in both. */
  lemma EncodeIsInjective(p: Text, r: MemoryRef, p': Text, r': MemoryRef)
    ensures EncodeMemory(p, r) == EncodeMemory(p', r')
       <==> && p == p' && r.m == r'.m
            && (if r.c.Some? && r.c.value != [] then r'.c == r.c else r'.c == None || r'.c == Some([]))
  {
    RoundTrip(p, r);
    RoundTrip(p', r');
  }

  /** Whatever follows the separator, further separators included, the prompt comes back, and a
      reference exactly if the trailer is a JSON object whose property `m` is a string; its creator is
      the property `c` if that is a string. */
  lemma AnyTrailer(prompt: Text, trailer: Text)
    ensures var back := ParseMemory(Escape(prompt) + [RS] + trailer);
            var v := Parse(trailer);
            var named := v.Some? && v.value.Obj?;
            var m := if named then Property(v.value.members, [0x6D]) else None;
            var c := if named then Property(v.value.members, [0x63]) else None;
            && back.prompt == prompt
            && (back.ref.Some? <==> m.Some? && m.value.Str?)
            && (back.ref.Some? ==> back.ref.value.m == m.value.s)
            && (back.ref.Some? ==> (back.ref.value.c.Some? <==> c.Some? && c.value.Str?))
            && (back.ref.Some? && back.ref.value.c.Some? ==> back.ref.value.c.value == c.value.s)
  {
    var p := Escape(prompt);
    EscapeRoundTrip(prompt);
    IndexOfFirst(p, RS, trailer);
    assert (p + [RS] + trailer)[..|p|] == p && (p + [RS] + trailer)[|p| + 1..] == trailer;
  }

  lemma OnlyBetween(a: Text, u: Unit, b: Text, i: nat)
    requires u !in a && u !in b && i < |a + [u] + b|
    ensures (a + [u] + b)[i] == u <==> i == |a|
  {
    if i < |a| {
      assert (a + [u] + b)[i] == a[i];
    } else if i > |a| {
      assert (a + [u] + b)[i] == b[i - |a| - 1];
    }
  }

  /** A record holds exactly one raw separator. */
  lemma OneSeparator(prompt: Text, r: MemoryRef, i: nat)
    requires i < |EncodeMemory(prompt, r)|
    ensures EncodeMemory(prompt, r)[i] == RS <==> i == |Escape(prompt)|
  {
    EscapeRoundTrip(prompt);
    StringifyHasNoSeparator(Compact(r));
    OnlyBetween(Escape(prompt), RS, Stringify(Compact(r)), i);
  }

  // ---- texts without a trailer ----------------------------------------------------------------------

  /** An escape byte at `i` is followed by a digit that `Unescape` consumes. */
  predicate EscapeAt(s: Text, i: nat) {
    i + 1 < |s| && s[i] == ESC && (s[i + 1] == ZERO || s[i + 1] == ONE)
  }

  ghost predicate HasEscape(s: Text) {
    exists i: nat :: EscapeAt(s, i)
  }

  lemma HasEscapeTail(s: Text)
    requires s != [] && !StartsEscape(s)
    ensures HasEscape(s) <==> HasEscape(s[1..])
  {
    if i: nat :| EscapeAt(s, i) {
      assert EscapeAt(s[1..], i - 1);
    }
    if i: nat :| EscapeAt(s[1..], i) {
      assert EscapeAt(s, i + 1);
    }
  }

  lemma {:induction false} UnescapeShrinks(s: Text)
    ensures |Unescape(s)| <= |s|
    ensures Unescape(s) == s <==> !HasEscape(s)
    decreases |s|
  {
    if s == [] {
    } else if StartsEscape(s) {
      assert EscapeAt(s, 0);
      UnescapeShrinks(s[2..]);
      assert |Unescape(s)| < |s|;
    } else {
      UnescapeShrinks(s[1..]);
      HasEscapeTail(s);
      assert s == [s[0]] + s[1..];
      assert Unescape(s)[1..] == Unescape(s[1..]);
    }
  }

  /** A text without a separator is its own prompt exactly when no escape byte in it is followed by
      a 0 or a 1. */
  lemma PlainTextIff(text: Text)
    requires RS !in text
    ensures ParseMemory(text).ref == None
    ensures ParseMemory(text).prompt == text <==> !HasEscape(text)
  {
    UnescapeShrinks(text);
    assert IndexOf(text, RS) == |text|;
  }

  /** The smallest text that is not: an escape byte and a zero. */
  lemma PlainTextChanges()
    ensures ParseMemory([ESC, ZERO]) == ParsedMemory([ESC], None)
  {
    var text := [ESC, ZERO];
    assert text[2..] == [] && Unescape(text) == [ESC] + Unescape([]);
    assert RS !in text && IndexOf(text, RS) == |text|;
  }
}
