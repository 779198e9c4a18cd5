/** tools/collabkit/frontmatter.py: the flat YAML subset every handoff header is written in.
    Expressions of the source are functions here; its loops are methods proved equal to the
    recursive functions the proofs use. Python's int(), float(), int(_, 16) and repr(float) are
    the fields of a Numerals value, so a result holds for every way of reading numbers that meets
    Faithful (FrontmatterScalars). */
module Frontmatter {
  import opened Wrappers
  import opened Text

  // A float is a token: the code never computes with one. Finite carries its bit pattern.
  datatype Float = Finite(bits: int) | Infinite(negative: bool) | NotANumber

  datatype Scalar = Null | Bool(b: bool) | Int(i: int) | Flt(f: Float) | Str(s: string)

  datatype Value = One(scalar: Scalar) | Many(items: seq<Scalar>)

  datatype Entry = Entry(key: string, value: Value)

  // A Python dict: its items in insertion order.
  datatype Document = Document(meta: seq<Entry>, body: string)

  datatype Error =
    | Unterminated
    | ExpectedKeyValue(line: nat)
    | DuplicateKey(line: nat)
    | InlineMapping(line: nat)
    | UnterminatedString(line: nat)
    | DanglingBackslash(line: nat)
    | TruncatedEscape(line: nat)
    | BadEscape(line: nat)
    | UnknownEscape(line: nat)

  datatype Result<+T> = Ok(value: T) | Err(error: Error) {
    predicate IsFailure() { Err? }
    function PropagateFailure<U>(): Result<U>
      requires Err?
    {
      Err(error)
    }
    function Extract(): T
      requires Ok?
    {
      value
    }
  }

  datatype Numerals = Numerals(
    asInt: string -> Option<int>,
    asFloat: string -> Option<Float>,
    asHex: string -> Option<int>,
    showFloat: Float -> string)

  // ---- the words of the format ----

  function LowerChar(c: char): char {
    if 'A' <= c <= 'Z' then ((c as int) + 32) as char else c
  }

  function Lower(s: string): (r: string)
    ensures |r| == |s|
  {
    seq(|s|, i requires 0 <= i < |s| => LowerChar(s[i]))
  }

  predicate NullWord(s: string) {
    s == "" || s == "null" || s == "~" || s == "none"
  }

  predicate TrueWord(s: string) {
    s == "true" || s == "yes" || s == "on"
  }

  predicate FalseWord(s: string) {
    s == "false" || s == "no" || s == "off"
  }

  predicate KeyStart(c: char) {
    'A' <= c <= 'Z' || 'a' <= c <= 'z' || c == '_'
  }

  predicate KeyChar(c: char) {
    KeyStart(c) || '0' <= c <= '9' || c == '-'
  }

  // ---- parsing ----

  predicate HasKey(meta: seq<Entry>, key: string) {
    exists i :: 0 <= i < |meta| && meta[i].key == key
  }

  function ShortEscape(c: char): Option<char> {
    match c
    case 'n' => Some('\n')
    case 't' => Some('\t')
    case 'r' => Some('\r')
    case '"' => Some('"')
    case '\\' => Some('\\')
    case '/' => Some('/')
    case '0' => Some('\0')
    case _ => None
  }

  function CharOf(code: int): Option<char> {
    if 0 <= code < 0xD800 || 0xE000 <= code < 0x11_0000 then Some(code as char) else None
  }

  function Unescape(n: Numerals, inner: string, line: nat): Result<string> {
    if inner == "" then Ok("")
    else if inner[0] != '\\' then
      var rest :- Unescape(n, inner[1..], line);
      Ok([inner[0]] + rest)
    else if |inner| == 1 then Err(DanglingBackslash(line))
    else if ShortEscape(inner[1]).Some? then
      var rest :- Unescape(n, inner[2..], line);
      Ok([ShortEscape(inner[1]).value] + rest)
    else if inner[1] == 'u' then
      if |inner| < 6 then Err(TruncatedEscape(line))
      else
        var code := n.asHex(inner[2..6]);
        if code.None? || CharOf(code.value).None? then Err(BadEscape(line))
        else
          var rest :- Unescape(n, inner[6..], line);
          Ok([CharOf(code.value).value] + rest)
    else Err(UnknownEscape(line))
  }

  function Quoted(n: Numerals, text: string, line: nat): Result<string>
    requires text != ""
  {
    if |text| < 2 || text[|text| - 1] != text[0] then Err(UnterminatedString(line))
    else
      var inner := text[1..|text| - 1];
      if text[0] == '\'' then Ok(ReplacePair(inner, '\'', '\'', "'")) else Unescape(n, inner, line)
  }

  /** The first '#' that is at the start or follows white space. */
  function CommentIndex(text: string, i: nat): (r: Option<nat>)
    ensures r.Some? ==> i <= r.value < |text| && text[r.value] == '#'
    decreases |text| - i
  {
    if i >= |text| then None
    else if text[i] == '#' && (i == 0 || IsSpace(text[i - 1])) then Some(i)
    else CommentIndex(text, i + 1)
  }

  function Uncommented(text: string): string {
    var at := CommentIndex(text, 0);
    if at.Some? then Strip(text[..at.value]) else text
  }

  function BareScalar(n: Numerals, text: string): Scalar {
    var lowered := Lower(text);
    if NullWord(lowered) then Null
    else if TrueWord(lowered) then Bool(true)
    else if FalseWord(lowered) then Bool(false)
    else if n.asInt(text).Some? then Int(n.asInt(text).value)
    else if n.asFloat(text).Some? && n.asFloat(text).value.Finite? then Flt(n.asFloat(text).value)
    else Str(text)
  }

  function ParseScalar(n: Numerals, raw: string, line: nat): Result<Scalar> {
    var text := Strip(raw);
    if text == "" then Ok(Null)
    else if text[0] == '\'' || text[0] == '"' then
      var s :- Quoted(n, text, line);
      Ok(Str(s))
    else Ok(BareScalar(n, Uncommented(text)))
  }

  /** Split on commas outside quotes; quote is the quote character still open, buf the part so far. */
  function SplitCommas(text: string, quote: Option<char>, buf: string): (parts: seq<string>)
    ensures |parts| >= 1
  {
    if text == "" then [buf]
    else
      var c := text[0];
      if quote.Some? then
        SplitCommas(text[1..], if c == quote.value then None else quote, buf + [c])
      else if c == '\'' || c == '"' then SplitCommas(text[1..], Some(c), buf + [c])
      else if c == ',' then [buf] + SplitCommas(text[1..], None, "")
      else SplitCommas(text[1..], None, buf + [c])
  }

  function InlineItems(n: Numerals, parts: seq<string>, line: nat): Result<seq<Scalar>> {
    if parts == [] then Ok([])
    else if Strip(parts[0]) == "" then InlineItems(n, parts[1..], line)
    else
      var item :- ParseScalar(n, Strip(parts[0]), line);
      var rest :- InlineItems(n, parts[1..], line);
      Ok([item] + rest)
  }

  function ParseValue(n: Numerals, raw: string, line: nat): Result<Value>
    requires raw != ""
  {
    if raw[0] == '[' && raw[|raw| - 1] == ']' then
      var items :- InlineItems(n, SplitCommas(raw[1..|raw| - 1], None, ""), line);
      Ok(Many(items))
    else if raw[0] == '{' then Err(InlineMapping(line))
    else
      var s :- ParseScalar(n, raw, line);
      Ok(One(s))
  }

  /** Where the run of key characters starting before i ends. */
  function KeyEnd(s: string, i: nat): (r: nat)
    requires i <= |s|
    ensures i <= r <= |s|
    decreases |s| - i
  {
    if i < |s| && KeyChar(s[i]) then KeyEnd(s, i + 1) else i
  }

  /** The key and what follows its colon; None when the line is not of the form key: rest. */
  function MatchKey(s: string): Option<(string, string)> {
    if s == "" || !KeyStart(s[0]) then None
    else
      var k := KeyEnd(s, 1);
      var after := TrimLeft(s[k..]);
      if after != "" && after[0] == ':' then Some((s[..k], after[1..])) else None
  }

  datatype BlockState = BlockState(meta: seq<Entry>, pending: Option<string>, bare: set<string>)

  function AppendItem(meta: seq<Entry>, key: string, item: Scalar): seq<Entry> {
    seq(|meta|, i requires 0 <= i < |meta| =>
      if meta[i].key == key && meta[i].value.Many? then Entry(key, Many(meta[i].value.items + [item]))
      else meta[i])
  }

  /** A line that may go on with the list under the key above it. */
  predicate Indented(raw: string) {
    raw != "" && (raw[0] == ' ' || raw[0] == '\t' || raw[0] == '-')
  }

  /** What one header line does to the block read so far. */
  function ParseLine(n: Numerals, st: BlockState, raw: string, line: nat): Result<BlockState> {
    var stripped := Strip(TrimRight(raw));
    if stripped == "" || stripped[0] == '#' then Ok(st)
    else if st.pending.Some? && Indented(raw) && stripped[0] == '-' then
      var item :- ParseScalar(n, TrimLeft(stripped[1..]), line);
      Ok(st.(meta := AppendItem(st.meta, st.pending.value, item)))
    else
      var m := MatchKey(stripped);
      if m.None? then Err(ExpectedKeyValue(line))
      else
        var key, rest := m.value.0, Strip(m.value.1);
        if HasKey(st.meta, key) then Err(DuplicateKey(line))
        else if rest == "" then
          Ok(BlockState(st.meta + [Entry(key, Many([]))], Some(key), st.bare + {key}))
        else
          var value :- ParseValue(n, rest, line);
          Ok(BlockState(st.meta + [Entry(key, value)], None, st.bare))
  }

  function ParseLines(n: Numerals, st: BlockState, lines: seq<string>, line: nat): Result<BlockState>
    decreases |lines|
  {
    if lines == [] then Ok(st)
    else
      var next :- ParseLine(n, st, lines[0], line);
      ParseLines(n, next, lines[1..], line + 1)
  }

  /** A bare key that received no items was a null. */
  function Collapse(st: BlockState): seq<Entry> {
    seq(|st.meta|, i requires 0 <= i < |st.meta| =>
      if st.meta[i].key in st.bare && st.meta[i].value == Many([]) then Entry(st.meta[i].key, One(Null))
      else st.meta[i])
  }

  function ParseBlockSpec(n: Numerals, lines: seq<string>, line: nat): Result<seq<Entry>> {
    var st :- ParseLines(n, BlockState([], None, {}), lines, line);
    Ok(Collapse(st))
  }

  predicate EndsHeader(line: string) {
    Strip(line) == "---" || Strip(line) == "..."
  }

  function FindEnd(lines: seq<string>, i: nat): (r: Option<nat>)
    ensures r.Some? ==> i <= r.value < |lines| && EndsHeader(lines[r.value])
    decreases |lines| - i
  {
    if i >= |lines| then None else if EndsHeader(lines[i]) then Some(i) else FindEnd(lines, i + 1)
  }

  function StripBom(s: string): string {
    if s != "" && s[0] as int == 0xFEFF then StripBom(s[1..]) else s
  }

  function Parse(n: Numerals, text: string): Result<Document> {
    if text == "" then Ok(Document([], ""))
    else
      var normalized := NormalizeNewlines(StripBom(text));
      var lines := Lines(normalized);
      if Strip(lines[0]) != "---" then Ok(Document([], normalized))
      else
        var end := FindEnd(lines, 1);
        if end.None? then Err(Unterminated)
        else
          var meta :- ParseBlockSpec(n, lines[1..end.value], 2);
          Ok(Document(meta, TrimNewlinesLeft(Join(lines[end.value + 1..]))))
  }

  // ---- printing ----

  function Digits(k: nat): string {
    if k < 10 then [('0' as int + k) as char] else Digits(k / 10) + [('0' as int + k % 10) as char]
  }

  /** str(int). */
  function Decimal(k: int): string {
    if k < 0 then "-" + Digits(-k) else Digits(k)
  }

  predicate SpecialChar(c: char) {
    || c == ':' || c == '#' || c == '[' || c == ']' || c == '{' || c == '}' || c == '&' || c == '*' || c == '!'
    || c == '|' || c == '>' || c == '\'' || c == '"' || c == '%' || c == '@' || c == '`' || c == ','
  }

  predicate NeedsQuoting(s: string) {
    || s == ""
    || IsSpace(s[0]) || IsSpace(s[|s| - 1])
    || (exists i :: 0 <= i < |s| && (SpecialChar(s[i]) || IsControl(s[i])))
    || (|s| >= 2 && s[0] == '-' && IsSpace(s[1]))
    || s == "-" || s == "?"
  }

  function HexDigit(k: nat): char
    requires k < 16
  {
    if k < 10 then ('0' as int + k) as char else ('a' as int + k - 10) as char
  }

  /** The four digits of :04x, for the codes the printer escapes. */
  function Hex4(k: nat): (r: string)
    requires k < 0x80
    ensures |r| == 4
  {
    ['0', '0', HexDigit(k / 16), HexDigit(k % 16)]
  }

  /** What the control-character class still matches once \n, \r and \t are gone. */
  predicate LongEscaped(c: char) {
    var k := c as int;
    k <= 8 || k == 0x0b || k == 0x0c || 0x0e <= k <= 0x1f || k == 0x7f
  }

  function EscapeControls(s: string): string {
    if s == "" then ""
    else (if LongEscaped(s[0]) then "\\u" + Hex4(s[0] as int) else [s[0]]) + EscapeControls(s[1..])
  }

  /** The replacement passes in the order the code makes them. */
  function Passes(s: string): string {
    var backslashes := ReplaceChar(s, '\\', "\\\\");
    var quotes := ReplaceChar(backslashes, '"', "\\\"");
    var newlines := ReplaceChar(quotes, '\n', "\\n");
    var returned := ReplaceChar(newlines, '\r', "\\r");
    EscapeControls(ReplaceChar(returned, '\t', "\\t"))
  }

  function Quote(s: string): string {
    "\"" + Passes(s) + "\""
  }

  function RenderScalar(n: Numerals, v: Scalar): string {
    match v
    case Null => "null"
    case Bool(b) => if b then "true" else "false"
    case Int(i) => Decimal(i)
    case Flt(f) => n.showFloat(f)
    case Str(s) =>
      var lowered := Lower(s);
      if NeedsQuoting(s) || NullWord(lowered) || TrueWord(lowered) || FalseWord(lowered) then Quote(s)
      else if n.asInt(s).Some? || n.asFloat(s).Some? then Quote(s)
      else s
  }

  function Emit(n: Numerals, e: Entry): seq<string> {
    match e.value
    case One(s) => [e.key + ": " + RenderScalar(n, s)]
    case Many(items) =>
      if items == [] then [e.key + ": []"]
      else [e.key + ":"] + EmitItems(n, items)
  }

  function EmitItems(n: Numerals, items: seq<Scalar>): (r: seq<string>)
    ensures |r| == |items|
  {
    if items == [] then [] else ["  - " + RenderScalar(n, items[0])] + EmitItems(n, items[1..])
  }

  function Find(meta: seq<Entry>, key: string): (e: Entry)
    requires HasKey(meta, key)
    ensures e in meta && e.key == key
  {
    if meta[0].key == key then meta[0] else Find(meta[1..], key)
  }

  function Listed(meta: seq<Entry>, keyOrder: seq<string>): seq<Entry> {
    if keyOrder == [] then []
    else (if HasKey(meta, keyOrder[0]) then [Find(meta, keyOrder[0])] else []) + Listed(meta, keyOrder[1..])
  }

  function Unlisted(meta: seq<Entry>, keyOrder: seq<string>): seq<Entry> {
    if meta == [] then []
    else (if meta[0].key !in keyOrder then [meta[0]] else []) + Unlisted(meta[1..], keyOrder)
  }

  /** The order the items are written in: the pinned keys that are present, then the others. */
  function Ordered(meta: seq<Entry>, keyOrder: seq<string>): seq<Entry> {
    Listed(meta, keyOrder) + Unlisted(meta, keyOrder)
  }

  function EmitAll(n: Numerals, entries: seq<Entry>): seq<string> {
    if entries == [] then [] else Emit(n, entries[0]) + EmitAll(n, entries[1..])
  }

  function CleanBody(body: string): string {
    TrimNewlines(NormalizeNewlines(body))
  }

  function DumpsSpec(n: Numerals, meta: seq<Entry>, body: string, keyOrder: seq<string>): string {
    var header := Join(["---"] + EmitAll(n, Ordered(meta, keyOrder)) + ["---"]) + "\n";
    if CleanBody(body) == "" then header else header + "\n" + CleanBody(body) + "\n"
  }
}
