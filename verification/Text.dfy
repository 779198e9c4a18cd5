/** The string operations the frontmatter code leans on: Python's strip, replace, split and join,
    over Dafny strings. Only the facts the round trip needs are proved here. */
module Text {
  /** Python's str.isspace on one character, which is also what \s matches. */
  predicate IsSpace(c: char) {
    var n := c as int;
    || 0x09 <= n <= 0x0d || 0x1c <= n <= 0x20 || n == 0x85 || n == 0xa0 || n == 0x1680
    || 0x2000 <= n <= 0x200a || n == 0x2028 || n == 0x2029 || n == 0x202f || n == 0x205f || n == 0x3000
  }

  /** The class [\x00-\x1f\x7f]. */
  predicate IsControl(c: char) {
    c as int <= 0x1f || c as int == 0x7f
  }

  function TrimLeft(s: string): (r: string) {
    if s != "" && IsSpace(s[0]) then TrimLeft(s[1..]) else s
  }

  function TrimRight(s: string): (r: string) {
    if s != "" && IsSpace(s[|s| - 1]) then TrimRight(s[..|s| - 1]) else s
  }

  function Strip(s: string): (r: string) {
    TrimRight(TrimLeft(s))
  }

  /** A text no strip would shorten, and that is not empty. */
  predicate Tight(s: string) {
    s != "" && !IsSpace(s[0]) && !IsSpace(s[|s| - 1])
  }

  function TrimNewlinesLeft(s: string): (r: string) {
    if s != "" && s[0] == '\n' then TrimNewlinesLeft(s[1..]) else s
  }

  function TrimNewlinesRight(s: string): (r: string) {
    if s != "" && s[|s| - 1] == '\n' then TrimNewlinesRight(s[..|s| - 1]) else s
  }

  /** str.strip("\n"). */
  function TrimNewlines(s: string): (r: string) {
    TrimNewlinesRight(TrimNewlinesLeft(s))
  }

  /** str.replace with a one-character pattern. */
  function ReplaceChar(s: string, c: char, rep: string): (r: string) {
    if s == "" then "" else (if s[0] == c then rep else [s[0]]) + ReplaceChar(s[1..], c, rep)
  }

  /** str.replace with a two-character pattern: leftmost matches, never overlapping. */
  function ReplacePair(s: string, a: char, b: char, rep: string): (r: string) {
    if s == "" then ""
    else if |s| >= 2 && s[0] == a && s[1] == b then rep + ReplacePair(s[2..], a, b, rep)
    else [s[0]] + ReplacePair(s[1..], a, b, rep)
  }

  /** CRLF and lone CR both become LF. */
  function NormalizeNewlines(s: string): (r: string) {
    ReplaceChar(ReplacePair(s, '\r', '\n', "\n"), '\r', "\n")
  }

  /** The lines of a text with one more character in front. */
  function ConsLine(c: char, rest: seq<string>): (r: seq<string>)
    requires |rest| >= 1
    ensures |r| >= 1
  {
    if c == '\n' then [""] + rest else [[c] + rest[0]] + rest[1..]
  }

  /** str.split("\n"). */
  function Lines(s: string): (r: seq<string>)
    ensures |r| >= 1
  {
    if s == "" then [""] else ConsLine(s[0], Lines(s[1..]))
  }

  /** "\n".join. */
  function Join(lines: seq<string>): (r: string) {
    if lines == [] then ""
    else if |lines| == 1 then lines[0]
    else lines[0] + "\n" + Join(lines[1..])
  }

  predicate OneLine(s: string) {
    '\n' !in s && '\r' !in s
  }

  // ---- facts ----

  lemma StripTight(s: string)
    requires Tight(s)
    ensures TrimRight(s) == s && Strip(s) == s
  {
  }

  lemma StripIndented(s: string)
    requires Tight(s)
    ensures Strip("  " + s) == s && TrimRight("  " + s) == "  " + s && Strip(" " + s) == s
  {
    assert ("  " + s)[1..] == " " + s;
    assert (" " + s)[1..] == s;
    assert TrimLeft(" " + s) == TrimLeft(s);
    assert TrimLeft("  " + s) == TrimLeft(" " + s);
    StripTight(s);
  }

  lemma {:induction false} ReplaceAbsent(s: string, c: char, rep: string)
    requires c !in s
    ensures ReplaceChar(s, c, rep) == s
  {
    if s != "" {
      ReplaceAbsent(s[1..], c, rep);
      assert s == [s[0]] + s[1..];
    }
  }

  lemma {:induction false} ReplacePairAbsent(s: string, a: char, b: char, rep: string)
    requires a !in s
    ensures ReplacePair(s, a, b, rep) == s
  {
    if s != "" {
      ReplacePairAbsent(s[1..], a, b, rep);
      assert s == [s[0]] + s[1..];
    }
  }

  lemma {:induction false} ReplaceConcat(s: string, t: string, c: char, rep: string)
    ensures ReplaceChar(s + t, c, rep) == ReplaceChar(s, c, rep) + ReplaceChar(t, c, rep)
  {
    if s == "" {
      assert s + t == t;
    } else {
      assert (s + t)[1..] == s[1..] + t;
      ReplaceConcat(s[1..], t, c, rep);
    }
  }

  lemma {:induction false} ReplaceRemoves(s: string, c: char, rep: string)
    requires c !in rep
    ensures c !in ReplaceChar(s, c, rep)
  {
    if s != "" {
      ReplaceRemoves(s[1..], c, rep);
    }
  }

  lemma NormalizeClean(s: string)
    ensures '\r' !in NormalizeNewlines(s)
    ensures '\r' !in s ==> NormalizeNewlines(s) == s
  {
    ReplaceRemoves(ReplacePair(s, '\r', '\n', "\n"), '\r', "\n");
    if '\r' !in s {
      ReplacePairAbsent(s, '\r', '\n', "\n");
      ReplaceAbsent(s, '\r', "\n");
    }
  }

  lemma {:induction false} JoinLines(s: string)
    ensures Join(Lines(s)) == s
  {
    if s != "" {
      JoinLines(s[1..]);
      var rest := Lines(s[1..]);
      assert s == [s[0]] + s[1..];
      if s[0] == '\n' {
        assert Lines(s)[1..] == rest;
      } else {
        assert Lines(s)[0] == [s[0]] + rest[0];
        assert Lines(s)[1..] == rest[1..];
      }
    }
  }

  lemma {:induction false} LinesOneLine(s: string)
    requires '\n' !in s
    ensures Lines(s) == [s]
  {
    if s != "" {
      LinesOneLine(s[1..]);
      assert s == [s[0]] + s[1..];
    }
  }

  lemma LinesCons(c: char, s: string)
    ensures Lines([c] + s) == ConsLine(c, Lines(s))
  {
  }

  lemma ConsLineConcat(c: char, a: seq<string>, b: seq<string>)
    requires |a| >= 1
    ensures ConsLine(c, a + b) == ConsLine(c, a) + b
  {
  }

  lemma {:induction false} LinesConcat(s: string, t: string)
    ensures Lines(s + "\n" + t) == Lines(s) + Lines(t)
  {
    if s == "" {
      assert s + "\n" + t == ['\n'] + t;
      LinesCons('\n', t);
    } else {
      var c, s' := s[0], s[1..];
      var u := s' + "\n" + t;
      calc {
        Lines(s + "\n" + t);
        { assert s + "\n" + t == [c] + u; }
        Lines([c] + u);
        { LinesCons(c, u); }
        ConsLine(c, Lines(u));
        { LinesConcat(s', t); }
        ConsLine(c, Lines(s') + Lines(t));
        { ConsLineConcat(c, Lines(s'), Lines(t)); }
        ConsLine(c, Lines(s')) + Lines(t);
        { LinesCons(c, s'); assert [c] + s' == s; }
        Lines(s) + Lines(t);
      }
    }
  }

  /** Splitting undoes joining when no line hides a newline of its own. */
  lemma {:induction false} LinesOfJoin(lines: seq<string>)
    requires lines != []
    requires forall l :: l in lines ==> '\n' !in l
    ensures Lines(Join(lines)) == lines
  {
    LinesOneLine(lines[0]);
    if |lines| == 1 {
      assert lines == [lines[0]];
    } else {
      LinesOfJoin(lines[1..]);
      LinesConcat(lines[0], Join(lines[1..]));
      assert lines == [lines[0]] + lines[1..];
    }
  }

  lemma {:induction false} JoinMembers(lines: seq<string>, c: char)
    requires c != '\n' && forall l :: l in lines ==> c !in l
    ensures c !in Join(lines)
  {
    if |lines| > 1 {
      JoinMembers(lines[1..], c);
    }
  }

  lemma {:induction false} TrimNewlinesBare(s: string)
    ensures var r := TrimNewlines(s);
      && (r == "" || (r[0] != '\n' && r[|r| - 1] != '\n'))
      && (forall c :: c !in s ==> c !in r)
  {
    TrimLeftBare(s);
    TrimRightBare(TrimNewlinesLeft(s));
  }

  lemma {:induction false} TrimLeftBare(s: string)
    ensures var r := TrimNewlinesLeft(s);
      && (r == "" || r[0] != '\n')
      && (forall c :: c !in s ==> c !in r)
  {
    if s != "" && s[0] == '\n' {
      TrimLeftBare(s[1..]);
    }
  }

  lemma {:induction false} TrimRightBare(s: string)
    ensures var r := TrimNewlinesRight(s);
      && (r == "" || (r[0] == s[0] && r[|r| - 1] != '\n'))
      && r <= s
      && (forall c :: c !in s ==> c !in r)
  {
    if s != "" && s[|s| - 1] == '\n' {
      TrimRightBare(s[..|s| - 1]);
    }
  }
}
