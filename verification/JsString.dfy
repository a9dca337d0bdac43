/** The string operations of the host language that several files share. */
module JsString {
  /** White space and line ends, as `trim` takes them (section 22.1.3.32 of ECMA-262). */
  predicate Blank(c: char) {
    || '\t' <= c <= '\r' || c == ' ' || c == '\U{00A0}' || c == '\U{1680}' || '\U{2000}' <= c <= '\U{200A}'
    || c in {'\U{2028}', '\U{2029}', '\U{202F}', '\U{205F}', '\U{3000}', '\U{FEFF}'}
  }

  /** The twenty-five of them. */
  const BLANKS :=
    "\U{0009}\U{000A}\U{000B}\U{000C}\U{000D}\U{0020}\U{00A0}\U{1680}\U{2000}\U{2001}\U{2002}\U{2003}\U{2004}"
    + "\U{2005}\U{2006}\U{2007}\U{2008}\U{2009}\U{200A}\U{2028}\U{2029}\U{202F}\U{205F}\U{3000}\U{FEFF}"

  lemma BlankIff(c: char)
    ensures Blank(c) <==> c in BLANKS
  {
    if Blank(c) {
      var k := if c <= '\r' then c as int - 9
               else if c == ' ' then 5
               else if c == '\U{00A0}' then 6
               else if c == '\U{1680}' then 7
               else if c <= '\U{200A}' then c as int - 0x2000 + 8
               else if c <= '\U{2029}' then c as int - 0x2028 + 19
               else if c == '\U{202F}' then 21
               else if c == '\U{205F}' then 22
               else if c == '\U{3000}' then 23 else 24;
      assert BLANKS[k] == c;
    }
  }

  function TrimStart(s: string): string {
    if s != "" && Blank(s[0]) then TrimStart(s[1..]) else s
  }

  function TrimEnd(s: string): string {
    if s != "" && Blank(s[|s| - 1]) then TrimEnd(s[..|s| - 1]) else s
  }

  function Trim(s: string): string {
    TrimStart(TrimEnd(s))
  }

  lemma {:induction false} TrimEndKeepsStart(s: string)
    requires s != "" && !Blank(s[0])
    ensures TrimEnd(s) != "" && |TrimEnd(s)| <= |s| && TrimEnd(s) <= s
  {
    if Blank(s[|s| - 1]) {
      assert s[..|s| - 1] != "";
      TrimEndKeepsStart(s[..|s| - 1]);
    }
  }

  lemma {:induction false} TrimStartsClean(s: string)
    ensures TrimStart(s) != "" ==> !Blank(TrimStart(s)[0])
  {
    if s != "" && Blank(s[0]) {
      TrimStartsClean(s[1..]);
    }
  }

  predicate AllBlank(s: string) {
    forall c | c in s :: Blank(c)
  }

  lemma {:induction false} TrimEndCuts(s: string)
    ensures TrimEnd(s) <= s && AllBlank(s[|TrimEnd(s)|..])
    ensures TrimEnd(s) != "" ==> !Blank(TrimEnd(s)[|TrimEnd(s)| - 1])
  {
    if s != "" && Blank(s[|s| - 1]) {
      var init := s[..|s| - 1];
      TrimEndCuts(init);
      assert s[|TrimEnd(s)|..] == init[|TrimEnd(s)|..] + [s[|s| - 1]];
    }
  }

  lemma {:induction false} TrimStartCuts(s: string)
    ensures |TrimStart(s)| <= |s| && TrimStart(s) == s[|s| - |TrimStart(s)|..]
    ensures AllBlank(s[..|s| - |TrimStart(s)|])
    ensures TrimStart(s) != "" ==> !Blank(TrimStart(s)[0])
  {
    if s != "" && Blank(s[0]) {
      TrimStartCuts(s[1..]);
      var n := |s| - |TrimStart(s)|;
      assert s[..n] == [s[0]] + s[1..][..n - 1];
    }
  }

  /** Trimming cuts blanks off both ends, and nothing else, until no blank is left at either. */
  lemma TrimCuts(s: string) returns (before: string, after: string)
    ensures s == before + Trim(s) + after && AllBlank(before) && AllBlank(after)
    ensures Trim(s) != "" ==> !Blank(Trim(s)[0]) && !Blank(Trim(s)[|Trim(s)| - 1])
  {
    var e := TrimEnd(s);
    TrimEndCuts(s);
    TrimStartCuts(e);
    before, after := e[..|e| - |Trim(s)|], s[|e|..];
  }

  lemma {:induction false} TrimEndDrops(s: string, after: string)
    requires AllBlank(after) && (s == "" || !Blank(s[|s| - 1]))
    ensures TrimEnd(s + after) == s
    decreases |after|
  {
    if after != "" {
      var all := s + after;
      assert Blank(all[|all| - 1]);
      assert all[..|all| - 1] == s + after[..|after| - 1];
      TrimEndDrops(s, after[..|after| - 1]);
    } else {
      assert s + after == s;
    }
  }

  lemma {:induction false} TrimStartDrops(before: string, s: string)
    requires AllBlank(before) && (s == "" || !Blank(s[0]))
    ensures TrimStart(before + s) == s
    decreases |before|
  {
    if before != "" {
      assert (before + s)[1..] == before[1..] + s;
      TrimStartDrops(before[1..], s);
    } else {
      assert before + s == s;
    }
  }

  /** Blanks around a text that begins and ends with none are what trimming drops. */
  lemma TrimDrops(before: string, s: string, after: string)
    requires AllBlank(before) && AllBlank(after) && s != "" && !Blank(s[0]) && !Blank(s[|s| - 1])
    ensures Trim(before + s + after) == s
  {
    TrimEndDrops(before + s, after);
    TrimStartDrops(before, s);
  }
}
