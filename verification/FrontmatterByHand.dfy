/** What the parser makes of headers people write: inline lists, comments, single quotes, and the words
    that are not texts. */
module FrontmatterByHand {
  import opened Wrappers
  import opened Text
  import opened Frontmatter

  // ---- inline lists ----

  function JoinCommas(parts: seq<string>): string
    requires parts != []
  {
    if |parts| == 1 then parts[0] else parts[0] + "," + JoinCommas(parts[1..])
  }

  predicate QuoteMark(c: char) {
    c == '\'' || c == '"'
  }

  /** The quote mark still open after the text: one opens where none is open, and only its like closes it. */
  function OpenAfter(text: string): Option<char> {
    if text == "" then None
    else
      var before, c := OpenAfter(text[..|text| - 1]), text[|text| - 1];
      if before == None then (if QuoteMark(c) then Some(c) else None)
      else if before == Some(c) then None else before
  }

  /** Every comma in it is inside quotes. */
  predicate NoFreeComma(text: string) {
    forall i :: 0 <= i < |text| && text[i] == ',' ==> OpenAfter(text[..i]) != None
  }

  /** Pieces cut at the commas outside quotes, and only there. */
  predicate CutAtCommas(parts: seq<string>) {
    && parts != []
    && (forall k :: 0 <= k < |parts| ==> NoFreeComma(parts[k]))
    && (forall k :: 0 <= k < |parts| - 1 ==> OpenAfter(parts[k]) == None)
  }

  lemma OpenMore(text: string, c: char)
    ensures OpenAfter(text + [c]) ==
      if OpenAfter(text) == None then (if QuoteMark(c) then Some(c) else None)
      else if OpenAfter(text) == Some(c) then None else OpenAfter(text)
  {
    assert (text + [c])[..|text|] == text;
  }

  lemma FreeMore(text: string, c: char)
    requires NoFreeComma(text) && (c == ',' ==> OpenAfter(text) != None)
    ensures NoFreeComma(text + [c])
  {
    var all := text + [c];
    forall i | 0 <= i < |all| && all[i] == ',' ensures OpenAfter(all[..i]) != None {
      assert all[..i] == text[..i];
      if i == |text| { assert text[..i] == text; }
    }
  }

  /** Reading on with buf gathered so far and its open quote. */
  lemma {:induction false} SplitsRight(text: string, buf: string)
    requires NoFreeComma(buf)
    ensures var parts := SplitCommas(text, OpenAfter(buf), buf);
      CutAtCommas(parts) && JoinCommas(parts) == buf + text
    decreases |text|
  {
    hide OpenAfter, NoFreeComma;
    if text == "" {
      assert buf + text == buf;
    } else {
      var c, rest := text[0], text[1..];
      assert text == [c] + rest;
      if OpenAfter(buf) == None && c == ',' {
        EmptyPart();
        SplitsRight(rest, "");
        var tail := SplitCommas(rest, None, "");
        assert SplitCommas(text, OpenAfter(buf), buf) == [buf] + tail;
        assert ([buf] + tail)[1..] == tail;
        assert "" + rest == rest;
      } else {
        OpenMore(buf, c);
        FreeMore(buf, c);
        SplitsRight(rest, buf + [c]);
        assert (buf + [c]) + rest == buf + text;
      }
    }
  }

  lemma EmptyPart()
    ensures OpenAfter("") == None && NoFreeComma("")
  {
  }

  /** Reading over a part with no free comma only gathers it. */
  lemma {:induction false} Gathers(part: string, i: nat, tail: string)
    requires NoFreeComma(part) && i <= |part|
    ensures SplitCommas(part + tail, None, "") == SplitCommas(part[i..] + tail, OpenAfter(part[..i]), part[..i])
    decreases i
  {
    if i == 0 {
      assert part[0..] == part && part[..0] == "";
    } else {
      Gathers(part, i - 1, tail);
      var c, rest := part[i - 1], part[i..] + tail;
      assert part[i - 1..] + tail == [c] + rest;
      assert part[..i - 1] + [c] == part[..i];
      OpenMore(part[..i - 1], c);
    }
  }

  lemma {:induction false} SplitOnlySo(parts: seq<string>)
    requires CutAtCommas(parts)
    ensures SplitCommas(JoinCommas(parts), None, "") == parts
    decreases |parts|
  {
    var first := parts[0];
    assert first[..|first|] == first && first[|first|..] == "";
    if |parts| == 1 {
      Gathers(first, |first|, "");
      assert first + "" == first && first[|first|..] + "" == "";
    } else {
      var rest := parts[1..];
      var tail := "," + JoinCommas(rest);
      Gathers(first, |first|, tail);
      assert first[|first|..] + tail == tail;
      assert JoinCommas(parts) == first + tail;
      assert tail[1..] == JoinCommas(rest);
      assert forall k :: 0 <= k < |rest| ==> rest[k] == parts[k + 1];
      SplitOnlySo(rest);
    }
  }

  /** How an inline list is split, for every text: into the one sequence of pieces that joined by commas is
      the text, and is cut exactly at its commas outside quotes. */
  lemma SplitExactly(text: string, parts: seq<string>)
    ensures SplitCommas(text, None, "") == parts <==> CutAtCommas(parts) && parts != [] && JoinCommas(parts) == text
  {
    hide CutAtCommas;
    EmptyPart();
    SplitsRight(text, "");
    assert "" + text == text;
    if CutAtCommas(parts) && parts != [] && JoinCommas(parts) == text { SplitOnlySo(parts); }
  }

  // ---- comments ----

  /** A '#' that is the first character or follows white space. */
  predicate OpensComment(text: string, at: int) {
    0 <= at < |text| && text[at] == '#' && (at == 0 || IsSpace(text[at - 1]))
  }

  lemma {:induction false} CommentFound(text: string, i: nat, at: nat)
    requires i <= at && OpensComment(text, at) && forall j :: i <= j < at ==> !OpensComment(text, j)
    ensures CommentIndex(text, i) == Some(at)
    decreases at - i
  {
    assert i < at ==> !OpensComment(text, i);
    if i < at { CommentFound(text, i + 1, at); }
  }

  lemma {:induction false} CommentMissing(text: string, i: nat)
    requires i <= |text| && forall j :: i <= j < |text| ==> !OpensComment(text, j)
    ensures CommentIndex(text, i) == None
    decreases |text| - i
  {
    assert i < |text| ==> !OpensComment(text, i);
    if i < |text| { CommentMissing(text, i + 1); }
  }

  lemma StripsTo(value: string, gap: char)
    requires Tight(value) && IsSpace(gap)
    ensures Strip(value + [gap]) == value && Strip(value) == value
  {
    assert (value + [gap])[..|value|] == value;
    assert TrimLeft(value + [gap]) == value + [gap];
    assert TrimRight(value) == value;
  }

  lemma {:induction false} CommentStays(a: string, comment: string) returns (rest: string)
    ensures TrimRight(a + "#" + comment) == a + "#" + rest
    decreases |comment|
  {
    var text := a + "#" + comment;
    if comment != "" && IsSpace(comment[|comment| - 1]) {
      var shorter := comment[..|comment| - 1];
      assert text[..|text| - 1] == a + "#" + shorter;
      rest := CommentStays(a, shorter);
    } else {
      rest := comment;
      assert text[|text| - 1] == if comment == "" then '#' else comment[|comment| - 1];
    }
  }

  lemma CommentCut(value: string, gap: char, comment: string)
    requires Tight(value) && IsSpace(gap) && forall j :: 0 <= j < |value| ==> !OpensComment(value, j)
    ensures Uncommented(value + [gap] + "#" + comment) == value
  {
    var text := value + [gap] + "#" + comment;
    StripsTo(value, gap);
    forall j | 0 <= j < |value| + 1 ensures !OpensComment(text, j) {
      if j < |value| {
        assert text[j] == value[j] && (j > 0 ==> text[j - 1] == value[j - 1]) && !OpensComment(value, j);
      } else {
        assert text[j] == gap;
      }
    }
    assert OpensComment(text, |value| + 1);
    CommentFound(text, 0, |value| + 1);
    assert text[..|value| + 1] == value + [gap];
  }

  /** A '#' inside a word is part of it, and one after white space ends the value: an unquoted value reads the
      same with any comment after it. */
  lemma CommentIsDropped(n: Numerals, value: string, gap: char, comment: string, line: nat)
    requires Tight(value) && !QuoteMark(value[0]) && IsSpace(gap)
    requires forall j :: 0 <= j < |value| ==> !OpensComment(value, j)
    ensures ParseScalar(n, value, line) == Ok(BareScalar(n, value))
    ensures ParseScalar(n, value + [gap] + "#" + comment, line) == Ok(BareScalar(n, value))
  {
    hide BareScalar, Uncommented, OpensComment;
    StripsTo(value, gap);
    NothingCut(value);
    var rest := CommentStays(value + [gap], comment);
    var text := value + [gap] + "#" + comment;
    assert text[0] == value[0] && TrimLeft(text) == text;
    CommentCut(value, gap, rest);
  }

  lemma NothingCut(value: string)
    requires forall j :: 0 <= j < |value| ==> !OpensComment(value, j)
    ensures Uncommented(value) == value
  {
    CommentMissing(value, 0);
  }

  // ---- single quotes ----

  lemma {:induction false} DoublingBack(s: string)
    ensures ReplacePair(ReplaceChar(s, '\'', "''"), '\'', '\'', "'") == s
  {
    if s != "" {
      DoublingBack(s[1..]);
      var rest := ReplaceChar(s[1..], '\'', "''");
      assert s == [s[0]] + s[1..];
      if s[0] == '\'' {
        assert ReplaceChar(s, '\'', "''") == "''" + rest;
        assert ("''" + rest)[2..] == rest;
      } else {
        assert ReplaceChar(s, '\'', "''") == [s[0]] + rest;
        assert ([s[0]] + rest)[1..] == rest;
      }
    }
  }

  /** Any text written in single quotes, its own single quotes doubled, reads as itself. */
  lemma SingleQuotesRead(n: Numerals, s: string, line: nat)
    ensures ParseScalar(n, "'" + ReplaceChar(s, '\'', "''") + "'", line) == Ok(Str(s))
  {
    var inner := ReplaceChar(s, '\'', "''");
    var text := "'" + inner + "'";
    assert Strip(text) == text by {
      assert TrimLeft(text) == text && TrimRight(text) == text;
    }
    assert text[1..|text| - 1] == inner;
    DoublingBack(s);
  }

  // ---- words ----

  /** An unquoted word, for every way of reading numbers: the three groups of words in any case, then the
      numbers, and a text otherwise. */
  lemma WordsRead(n: Numerals, word: string)
    ensures var v := BareScalar(n, word);
      && (v == Null <==> Lower(word) in {"", "null", "~", "none"})
      && (v == Bool(true) <==> Lower(word) in {"true", "yes", "on"})
      && (v == Bool(false) <==> Lower(word) in {"false", "no", "off"})
      && (v.Int? ==> n.asInt(word) == Some(v.i))
      && (v.Flt? ==> n.asInt(word).None? && n.asFloat(word) == Some(v.f) && v.f.Finite?)
      && (v.Str? ==> v.s == word && n.asInt(word).None? && (n.asFloat(word).Some? ==> !n.asFloat(word).value.Finite?))
  {
  }

  // ---- printing ----

  predicate PlainChar(c: char) {
    'a' <= c <= 'z' || 'A' <= c <= 'Z' || '0' <= c <= '9' || c == '-' || c == '_' || c == '.' || c == '/' || c == ' '
  }

  /** A plain text is printed as it stands unless it would read as something else. */
  lemma PlainTextIsBare(n: Numerals, s: string)
    requires Tight(s) && s[0] != '-' && forall i :: 0 <= i < |s| ==> PlainChar(s[i])
    requires Lower(s) !in {"null", "none", "true", "yes", "on", "false", "no", "off"}
    requires n.asInt(s).None? && n.asFloat(s).None?
    ensures RenderScalar(n, Str(s)) == s
  {
    forall i | 0 <= i < |s| ensures !SpecialChar(s[i]) && !IsControl(s[i]) {
      assert PlainChar(s[i]);
    }
    assert Lower(s)[0] == LowerChar(s[0]);
    assert PlainChar(s[0]);
  }
}
