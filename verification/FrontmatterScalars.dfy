/** One scalar at a time: escaping is undone by unescaping, and what the printer writes for a
    scalar the parser reads back as that scalar. */
module FrontmatterScalars {
  import opened Wrappers
  import opened Text
  import opened Frontmatter

  predicate FloatChar(c: char) {
    '0' <= c <= '9' || c == '.' || c == 'e' || c == '+' || c == '-' || c == 'n' || c == 'a' || c == 'i' || c == 'f'
  }

  /** The alphabet of repr(float), nan and the infinities included. */
  predicate FloatText(s: string) {
    s != "" && forall i :: 0 <= i < |s| ==> FloatChar(s[i])
  }

  /** What the proofs need of Python's numbers: decimal integers and the printer's hex digits read
      back as themselves, and repr of a float is read by float() but not by int(). */
  ghost predicate Faithful(n: Numerals) {
    && (forall k: int :: n.asInt(Decimal(k)) == Some(k))
    && (forall k: nat | k < 0x80 :: n.asHex(Hex4(k)) == Some(k))
    && (forall f: Float :: ReadsFloat(n, f))
  }

  predicate ReadsFloat(n: Numerals, f: Float) {
    var shown := n.showFloat(f);
    n.asInt(shown).None? && n.asFloat(shown) == Some(f) && FloatText(shown)
  }

  // ---- escaping ----

  /** The escape of one character, on its own. */
  function EscapeChar(c: char): string {
    if c == '\\' then "\\\\"
    else if c == '"' then "\\\""
    else if c == '\n' then "\\n"
    else if c == '\r' then "\\r"
    else if c == '\t' then "\\t"
    else if LongEscaped(c) then "\\u" + Hex4(c as int)
    else [c]
  }

  function EscapeAll(s: string): string {
    if s == "" then "" else EscapeChar(s[0]) + EscapeAll(s[1..])
  }

  lemma {:induction false} EscapeControlsConcat(s: string, t: string)
    ensures EscapeControls(s + t) == EscapeControls(s) + EscapeControls(t)
  {
    if s == "" {
      assert s + t == t;
    } else {
      assert (s + t)[1..] == s[1..] + t;
      EscapeControlsConcat(s[1..], t);
    }
  }

  lemma PassesConcat(s: string, t: string)
    ensures Passes(s + t) == Passes(s) + Passes(t)
  {
    ReplaceConcat(s, t, '\\', "\\\\");
    var s1, t1 := ReplaceChar(s, '\\', "\\\\"), ReplaceChar(t, '\\', "\\\\");
    ReplaceConcat(s1, t1, '"', "\\\"");
    var s2, t2 := ReplaceChar(s1, '"', "\\\""), ReplaceChar(t1, '"', "\\\"");
    ReplaceConcat(s2, t2, '\n', "\\n");
    var s3, t3 := ReplaceChar(s2, '\n', "\\n"), ReplaceChar(t2, '\n', "\\n");
    ReplaceConcat(s3, t3, '\r', "\\r");
    var s4, t4 := ReplaceChar(s3, '\r', "\\r"), ReplaceChar(t3, '\r', "\\r");
    ReplaceConcat(s4, t4, '\t', "\\t");
    EscapeControlsConcat(ReplaceChar(s4, '\t', "\\t"), ReplaceChar(t4, '\t', "\\t"));
  }

  lemma ReplaceOne(c: char, p: char, rep: string)
    ensures ReplaceChar([c], p, rep) == if c == p then rep else [c]
  {
  }

  lemma ReplaceTwo(c: char, d: char, p: char, rep: string)
    requires c != p && d != p
    ensures ReplaceChar([c, d], p, rep) == [c, d]
  {
    ReplaceAbsent([c, d], p, rep);
  }

  lemma {:induction false} EscapeControlsAbsent(s: string)
    requires forall c :: c in s ==> !LongEscaped(c)
    ensures EscapeControls(s) == s
  {
    if s != "" {
      EscapeControlsAbsent(s[1..]);
      assert s == [s[0]] + s[1..];
    }
  }

  lemma PassesOne(c: char)
    ensures Passes([c]) == EscapeChar(c)
  {
    ReplaceOne(c, '\\', "\\\\");
    ReplaceOne(c, '"', "\\\"");
    ReplaceOne(c, '\n', "\\n");
    ReplaceOne(c, '\r', "\\r");
    ReplaceOne(c, '\t', "\\t");
    var esc := EscapeChar(c);
    if c == '\\' || c == '"' || c == '\n' || c == '\r' || c == '\t' {
      var d := esc[1];
      assert esc == ['\\', d];
      if c == '\\' { ReplaceTwo('\\', d, '"', "\\\""); }
      if c == '\\' || c == '"' { ReplaceTwo('\\', d, '\n', "\\n"); }
      if c == '\\' || c == '"' || c == '\n' { ReplaceTwo('\\', d, '\r', "\\r"); }
      if c != '\t' { ReplaceTwo('\\', d, '\t', "\\t"); }
      EscapeControlsAbsent(esc);
    } else {
      assert [c][1..] == "";
      assert EscapeControls("") == "";
    }
  }

  /** The sequential replacement passes are one escape per character. */
  lemma {:induction false} PassesEscapeEachCharacter(s: string)
    ensures Passes(s) == EscapeAll(s)
  {
    if s == "" {
      assert Passes("") == "";
    } else {
      assert s == [s[0]] + s[1..];
      PassesConcat([s[0]], s[1..]);
      PassesOne(s[0]);
      PassesEscapeEachCharacter(s[1..]);
    }
  }

  lemma EscapeCharOneLine(c: char)
    ensures forall d :: d in EscapeChar(c) ==> !IsControl(d)
  {
  }

  lemma {:induction false} EscapeAllOneLine(s: string)
    ensures forall d :: d in EscapeAll(s) ==> !IsControl(d)
  {
    if s != "" {
      EscapeCharOneLine(s[0]);
      EscapeAllOneLine(s[1..]);
    }
  }

  lemma UnescapeOne(n: Numerals, c: char, rest: string, line: nat)
    requires Faithful(n)
    requires Unescape(n, rest, line).Ok?
    ensures Unescape(n, EscapeChar(c) + rest, line) == Ok([c] + Unescape(n, rest, line).value)
  {
    var inner := EscapeChar(c) + rest;
    if c == '\\' || c == '"' || c == '\n' || c == '\r' || c == '\t' {
      assert inner[2..] == rest;
    } else if LongEscaped(c) {
      assert inner[2..6] == Hex4(c as int);
      assert inner[6..] == rest;
    } else {
      assert inner[1..] == rest;
    }
  }

  /** Unescaping inverts escaping on every string. */
  lemma {:induction false} UnescapeEscape(n: Numerals, s: string, line: nat)
    requires Faithful(n)
    ensures Unescape(n, EscapeAll(s), line) == Ok(s)
  {
    if s != "" {
      UnescapeEscape(n, s[1..], line);
      UnescapeOne(n, s[0], EscapeAll(s[1..]), line);
      assert s == [s[0]] + s[1..];
    }
  }

  // ---- scalars ----

  /** Text the printer writes without quotes. */
  predicate Plain(s: string) {
    Tight(s) && forall i :: 0 <= i < |s| ==> !SpecialChar(s[i]) && !IsControl(s[i])
  }

  lemma ParsePlain(n: Numerals, s: string, line: nat)
    requires Plain(s)
    ensures ParseScalar(n, s, line) == Ok(BareScalar(n, s))
  {
  }

  lemma ParseQuoted(n: Numerals, s: string, line: nat)
    requires Faithful(n)
    ensures ParseScalar(n, Quote(s), line) == Ok(Str(s))
  {
    PassesEscapeEachCharacter(s);
    UnescapeEscape(n, s, line);
    var q := Quote(s);
    StripTight(q);
    assert q[1..|q| - 1] == Passes(s);
  }

  predicate SignedDigits(s: string) {
    s != "" && forall i :: 0 <= i < |s| ==> '0' <= s[i] <= '9' || s[i] == '-'
  }

  lemma {:induction false} DigitsShape(k: nat)
    ensures SignedDigits(Digits(k))
  {
    if k >= 10 {
      DigitsShape(k / 10);
    }
  }

  lemma DecimalShape(k: int)
    ensures SignedDigits(Decimal(k))
  {
    DigitsShape(if k < 0 then -k else k);
  }

  lemma LowerAt(s: string, i: nat)
    requires i < |s|
    ensures Lower(s)[i] == LowerChar(s[i])
  {
  }

  lemma NumberIsNoWord(s: string)
    requires SignedDigits(s) || FloatText(s)
    ensures Plain(s)
    ensures var l := Lower(s); !NullWord(l) && !TrueWord(l) && !FalseWord(l)
  {
    LowerAt(s, 0);
    if |s| > 1 { LowerAt(s, 1); }
    if |s| > 2 { LowerAt(s, 2); }
  }

  /** The scalar a printed scalar reads back as: itself, except that a float that is no number is
      read as the text it was written as. */
  function Reread(n: Numerals, v: Scalar): Scalar {
    if v.Flt? && !v.f.Finite? then Str(n.showFloat(v.f)) else v
  }

  /** The shape of every rendered scalar: one line, nothing for strip to remove, and no opening
      bracket the value parser would mistake for a list or a mapping. */
  predicate Rendered(r: string) {
    Tight(r) && OneLine(r) && r[0] != '[' && r[0] != '{'
  }

  lemma BareString(n: Numerals, s: string)
    requires RenderScalar(n, Str(s)) == s
    requires !NeedsQuoting(s)
    ensures Plain(s)
  {
  }

  lemma PlainShape(s: string)
    requires Plain(s)
    ensures Rendered(s)
  {
  }

  lemma QuoteShape(s: string)
    ensures Rendered(Quote(s))
  {
    PassesEscapeEachCharacter(s);
    EscapeAllOneLine(s);
    assert IsControl('\n') && IsControl('\r');
  }

  lemma RenderShape(n: Numerals, v: Scalar)
    requires Faithful(n)
    ensures Rendered(RenderScalar(n, v))
  {
    match v
    case Null =>
    case Bool(b) =>
    case Int(i) =>
      DecimalShape(i);
      NumberIsNoWord(Decimal(i));
      PlainShape(Decimal(i));
    case Flt(f) =>
      assert ReadsFloat(n, f);
      NumberIsNoWord(n.showFloat(f));
      PlainShape(n.showFloat(f));
    case Str(s) =>
      if RenderScalar(n, v) == Quote(s) {
        QuoteShape(s);
      } else {
        BareString(n, s);
        PlainShape(s);
      }
  }

  lemma ReadInt(n: Numerals, i: int, line: nat)
    requires Faithful(n)
    ensures ParseScalar(n, Decimal(i), line) == Ok(Int(i))
  {
    DecimalShape(i);
    NumberIsNoWord(Decimal(i));
    ParsePlain(n, Decimal(i), line);
  }

  lemma ReadFloat(n: Numerals, f: Float, line: nat)
    requires Faithful(n)
    ensures ParseScalar(n, n.showFloat(f), line) == Ok(Reread(n, Flt(f)))
  {
    var shown := n.showFloat(f);
    assert ReadsFloat(n, f);
    NumberIsNoWord(shown);
    ParsePlain(n, shown, line);
  }

  lemma ReadWord(n: Numerals, s: string, line: nat)
    requires s == "null" || s == "true" || s == "false"
    ensures ParseScalar(n, s, line) == Ok(if s == "null" then Null else Bool(s == "true"))
  {
    hide ParseScalar, Lower;
    WordShape(s);
    ParsePlain(n, s, line);
  }

  lemma WordShape(s: string)
    requires s == "null" || s == "true" || s == "false"
    ensures Plain(s) && Lower(s) == s
  {
    assert Lower(s) == s;
  }

  /** Reading back one printed scalar. */
  lemma ScalarRoundTrip(n: Numerals, v: Scalar, line: nat)
    requires Faithful(n)
    ensures ParseScalar(n, RenderScalar(n, v), line) == Ok(Reread(n, v))
  {
    match v
    case Null => ReadWord(n, "null", line);
    case Bool(b) => ReadWord(n, if b then "true" else "false", line);
    case Int(i) => ReadInt(n, i, line);
    case Flt(f) => ReadFloat(n, f, line);
    case Str(s) =>
      if RenderScalar(n, v) == Quote(s) {
        ParseQuoted(n, s, line);
      } else {
        BareString(n, s);
        ParsePlain(n, s, line);
      }
  }
}
