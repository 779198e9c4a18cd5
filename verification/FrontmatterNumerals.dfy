/** One way of reading numbers that is Faithful: plain ASCII decimals, lower-case hex, and a marked
    spelling for floats. It shows the hypothesis of the round-trip lemmas can be met. */
module FrontmatterNumerals {
  import opened Wrappers
  import opened Text
  import opened Frontmatter
  import opened FrontmatterScalars

  function ReadDigits(s: string): Option<nat> {
    if s == "" || !('0' <= s[|s| - 1] <= '9') then None
    else
      var d := s[|s| - 1] as int - '0' as int;
      if |s| == 1 then Some(d)
      else
        var front := ReadDigits(s[..|s| - 1]);
        if front.None? then None else Some(front.value * 10 + d)
  }

  function ReadInt(s: string): Option<int> {
    if s != "" && s[0] == '-' then
      var r := ReadDigits(s[1..]);
      if r.None? then None else var v: int := r.value; Some(-v)
    else
      var r := ReadDigits(s);
      if r.None? then None else Some(r.value)
  }

  function HexValue(c: char): Option<int> {
    if '0' <= c <= '9' then Some(c as int - '0' as int)
    else if 'a' <= c <= 'f' then Some(c as int - 'a' as int + 10)
    else None
  }

  function ReadHex(s: string): Option<int> {
    if |s| != 4 then None
    else
      var a, b, c, d := HexValue(s[0]), HexValue(s[1]), HexValue(s[2]), HexValue(s[3]);
      if a.None? || b.None? || c.None? || d.None? then None
      else Some(((a.value * 16 + b.value) * 16 + c.value) * 16 + d.value)
  }

  function ShowFloat(f: Float): string {
    match f
    case Finite(bits) => Decimal(bits) + "e"
    case Infinite(negative) => if negative then "-inf" else "inf"
    case NotANumber => "nan"
  }

  function ReadFloat(s: string): Option<Float> {
    if s == "nan" then Some(NotANumber)
    else if s == "inf" then Some(Infinite(false))
    else if s == "-inf" then Some(Infinite(true))
    else if s != "" && s[|s| - 1] == 'e' && ReadInt(s[..|s| - 1]).Some? then Some(Finite(ReadInt(s[..|s| - 1]).value))
    else None
  }

  const PLAIN := Numerals(ReadInt, ReadFloat, ReadHex, ShowFloat)

  lemma {:induction false} ReadsDigits(k: nat)
    ensures ReadDigits(Digits(k)) == Some(k) && Digits(k) != "" && Digits(k)[0] != '-'
  {
    var s := Digits(k);
    if k >= 10 {
      ReadsDigits(k / 10);
      assert s[..|s| - 1] == Digits(k / 10);
      assert s[|s| - 1] as int == '0' as int + k % 10;
    }
  }

  lemma ReadsDecimal(k: int)
    ensures ReadInt(Decimal(k)) == Some(k)
  {
    ReadsDigits(if k < 0 then -k else k);
    if k < 0 {
      assert Decimal(k)[1..] == Digits(-k);
    }
  }

  lemma ShowsFloat(f: Float)
    ensures ReadsFloat(PLAIN, f)
  {
    var s := ShowFloat(f);
    match f
    case Finite(bits) =>
      DecimalShape(bits);
      ReadsDecimal(bits);
      assert s[..|s| - 1] == Decimal(bits);
      assert s[|s| - 1] == 'e';
      if s[0] == '-' { assert s[1..][|s| - 2] == 'e'; }
    case Infinite(negative) =>
      if negative { assert s[1..] == "inf"; }
    case NotANumber =>
  }

  lemma ReadsHex(k: nat)
    requires k < 0x80
    ensures ReadHex(Hex4(k)) == Some(k)
  {
  }

  lemma PlainIsFaithful()
    ensures Faithful(PLAIN)
  {
    hide Decimal, Hex4, ReadInt, ReadHex, ReadsFloat;
    forall k: int ensures PLAIN.asInt(Decimal(k)) == Some(k) { ReadsDecimal(k); }
    forall f: Float ensures ReadsFloat(PLAIN, f) { ShowsFloat(f); }
    forall k: nat | k < 0x80 ensures PLAIN.asHex(Hex4(k)) == Some(k) { ReadsHex(k); }
  }
}
