/** The loops of frontmatter.py, each proved to compute the function the round-trip proofs use. */
module FrontmatterLoops {
  import opened Wrappers
  import opened Text
  import opened Frontmatter

  /** Text already decoded, then the decoding of the rest. */
  function Decoded(sofar: string, rest: Result<string>): Result<string> {
    if rest.Err? then rest else Ok(sofar + rest.value)
  }

  method UnescapeDouble(n: Numerals, inner: string, line: nat) returns (r: Result<string>)
    ensures r == Unescape(n, inner, line)
  {
    var out := "";
    var index := 0;
    assert inner[0..] == inner;
    DecodedNothing(Unescape(n, inner, line));
    while index < |inner|
      invariant 0 <= index <= |inner|
      invariant Unescape(n, inner, line) == Decoded(out, Unescape(n, inner[index..], line))
    {
      var rest := inner[index..];
      var c := inner[index];
      if c != '\\' {
        DecodedStep(n, rest, line, out, c, 1);
        out := out + [c];
        index := index + 1;
        continue;
      }
      index := index + 1;
      if index >= |inner| {
        return Err(DanglingBackslash(line));
      }
      var esc := inner[index];
      if ShortEscape(esc).Some? {
        DecodedStep(n, rest, line, out, ShortEscape(esc).value, 2);
        out := out + [ShortEscape(esc).value];
        index := index + 1;
        continue;
      }
      if esc != 'u' {
        return Err(UnknownEscape(line));
      }
      if |inner| - (index + 1) < 4 {
        return Err(TruncatedEscape(line));
      }
      var hexits := inner[index + 1..index + 5];
      assert hexits == rest[2..6];
      var code := n.asHex(hexits);
      if code.None? || CharOf(code.value).None? {
        return Err(BadEscape(line));
      }
      DecodedStep(n, rest, line, out, CharOf(code.value).value, 6);
      out := out + [CharOf(code.value).value];
      index := index + 5;
    }
    assert inner[index..] == "" && out + "" == out;
    r := Ok(out);
  }

  lemma DecodedNothing(r: Result<string>)
    ensures Decoded("", r) == r
  {
    if r.Ok? {
      assert "" + r.value == r.value;
    }
  }

  lemma DecodedStep(n: Numerals, rest: string, line: nat, out: string, c: char, used: nat)
    requires used <= |rest|
    requires Unescape(n, rest, line) == Decoded([c], Unescape(n, rest[used..], line))
    ensures Decoded(out, Unescape(n, rest, line)) == Decoded(out + [c], Unescape(n, rest[used..], line))
  {
    var tail := Unescape(n, rest[used..], line);
    if tail.Ok? {
      assert out + ([c] + tail.value) == out + [c] + tail.value;
    }
  }

  method SplitOnCommas(text: string) returns (parts: seq<string>)
    ensures parts == SplitCommas(text, None, "")
  {
    parts := [];
    var buf := "";
    var quote: Option<char> := None;
    for i := 0 to |text|
      invariant SplitCommas(text, None, "") == parts + SplitCommas(text[i..], quote, buf)
    {
      var c := text[i];
      assert text[i..][1..] == text[i + 1..];
      if quote.Some? {
        buf := buf + [c];
        if c == quote.value { quote := None; }
      } else if c == '\'' || c == '"' {
        quote := Some(c);
        buf := buf + [c];
      } else if c == ',' {
        assert parts + ([buf] + SplitCommas(text[i + 1..], None, ""))
            == parts + [buf] + SplitCommas(text[i + 1..], None, "");
        parts := parts + [buf];
        buf := "";
      } else {
        buf := buf + [c];
      }
    }
    assert text[|text|..] == "";
    parts := parts + [buf];
  }

  method ParseBlock(n: Numerals, lines: seq<string>, lineOffset: nat) returns (r: Result<seq<Entry>>)
    ensures r == ParseBlockSpec(n, lines, lineOffset)
  {
    var st := BlockState([], None, {});
    for offset := 0 to |lines|
      invariant ParseLines(n, BlockState([], None, {}), lines, lineOffset)
             == ParseLines(n, st, lines[offset..], lineOffset + offset)
    {
      assert lines[offset..][1..] == lines[offset + 1..];
      var next := ParseLine(n, st, lines[offset], lineOffset + offset);
      if next.Err? {
        return Err(next.error);
      }
      st := next.value;
    }
    assert lines[|lines|..] == [];
    r := Ok(Collapse(st));
  }

  method ParseText(n: Numerals, text: string) returns (r: Result<Document>)
    ensures r == Parse(n, text)
  {
    hide Lines, Join, Strip, NormalizeNewlines, StripBom, EndsHeader, ParseBlockSpec, TrimNewlinesLeft;
    if text == "" {
      return Ok(Document([], ""));
    }
    var normalized := NormalizeNewlines(StripBom(text));
    var lines := Lines(normalized);
    if Strip(lines[0]) != "---" {
      return Ok(Document([], normalized));
    }
    var end: Option<nat> := None;
    var index := 1;
    while index < |lines| && end.None?
      invariant 1 <= index <= |lines|
      invariant end.Some? ==> 1 <= end.value < |lines|
      invariant FindEnd(lines, 1) == if end.Some? then end else FindEnd(lines, index)
      decreases |lines| - index, end.None?
    {
      if EndsHeader(lines[index]) {
        end := Some(index);
      } else {
        index := index + 1;
      }
    }
    if end.None? {
      return Err(Unterminated);
    }
    var meta := ParseBlock(n, lines[1..end.value], 2);
    if meta.Err? {
      return Err(meta.error);
    }
    r := Ok(Document(meta.value, TrimNewlinesLeft(Join(lines[end.value + 1..]))));
  }

  method OrderItems(meta: seq<Entry>, keyOrder: seq<string>) returns (ordered: seq<Entry>)
    ensures ordered == Ordered(meta, keyOrder)
  {
    hide Listed, Unlisted, HasKey, Find;
    ordered := [];
    assert keyOrder[0..] == keyOrder;
    for i := 0 to |keyOrder|
      invariant Listed(meta, keyOrder) == ordered + Listed(meta, keyOrder[i..])
    {
      ListedFrom(meta, keyOrder, i);
      if HasKey(meta, keyOrder[i]) {
        ordered := ordered + [Find(meta, keyOrder[i])];
      }
    }
    NothingListed(meta, keyOrder);
    var others := OtherItems(meta, keyOrder);
    ordered := ordered + others;
  }

  method OtherItems(meta: seq<Entry>, keyOrder: seq<string>) returns (others: seq<Entry>)
    ensures others == Unlisted(meta, keyOrder)
  {
    hide Unlisted;
    others := [];
    assert meta[0..] == meta;
    for i := 0 to |meta|
      invariant Unlisted(meta, keyOrder) == others + Unlisted(meta[i..], keyOrder)
    {
      UnlistedFrom(meta, keyOrder, i);
      if meta[i].key !in keyOrder {
        others := others + [meta[i]];
      }
    }
    NothingListed(meta, keyOrder);
  }

  lemma ListedFrom(meta: seq<Entry>, keyOrder: seq<string>, i: nat)
    requires i < |keyOrder|
    ensures Listed(meta, keyOrder[i..]) ==
      (if HasKey(meta, keyOrder[i]) then [Find(meta, keyOrder[i])] else []) + Listed(meta, keyOrder[i + 1..])
  {
    hide HasKey, Find;
    assert keyOrder[i..][1..] == keyOrder[i + 1..];
  }

  lemma UnlistedFrom(meta: seq<Entry>, keyOrder: seq<string>, i: nat)
    requires i < |meta|
    ensures Unlisted(meta[i..], keyOrder) ==
      (if meta[i].key !in keyOrder then [meta[i]] else []) + Unlisted(meta[i + 1..], keyOrder)
  {
    assert meta[i..][1..] == meta[i + 1..];
  }

  lemma NothingListed(meta: seq<Entry>, keyOrder: seq<string>)
    ensures Listed(meta, keyOrder[|keyOrder|..]) == [] && Unlisted(meta[|meta|..], keyOrder) == []
  {
  }

  method EmitLines(n: Numerals, ordered: seq<Entry>) returns (lines: seq<string>)
    ensures lines == ["---"] + EmitAll(n, ordered) + ["---"]
  {
    hide EmitAll, Emit;
    lines := ["---"];
    assert ordered[0..] == ordered;
    for i := 0 to |ordered|
      invariant ["---"] + EmitAll(n, ordered) == lines + EmitAll(n, ordered[i..])
    {
      var e, rest := ordered[i], ordered[i + 1..];
      assert ordered[i..] == [e] + rest;
      EmitAllCons(n, ordered[i..], e, rest);
      assert lines + (Emit(n, e) + EmitAll(n, rest)) == lines + Emit(n, e) + EmitAll(n, rest);
      lines := lines + Emit(n, e);
    }
    assert ordered[|ordered|..] == [];
    NothingEmitted(n);
    assert lines == ["---"] + EmitAll(n, ordered);
    lines := lines + ["---"];
  }

  lemma NothingEmitted(n: Numerals)
    ensures EmitAll(n, []) == []
  {
  }

  lemma EmitAllCons(n: Numerals, all: seq<Entry>, e: Entry, rest: seq<Entry>)
    requires all == [e] + rest
    ensures EmitAll(n, all) == Emit(n, e) + EmitAll(n, rest)
  {
  }

  method Dumps(n: Numerals, meta: seq<Entry>, body: string, keyOrder: seq<string>) returns (text: string)
    ensures text == DumpsSpec(n, meta, body, keyOrder)
  {
    var ordered := OrderItems(meta, keyOrder);
    var lines := EmitLines(n, ordered);
    text := Join(lines) + "\n";
    var clean := CleanBody(body);
    if clean != "" {
      text := text + "\n" + clean + "\n";
    }
  }
}
