/** Whole documents: parse(dumps(meta, body)), exactly when it gives the metadata back, and that
    printing what was read changes nothing. */
module FrontmatterRoundTrip {
  import opened Wrappers
  import opened Text
  import opened Frontmatter
  import opened FrontmatterScalars

  predicate Identifier(key: string) {
    key != "" && KeyStart(key[0]) && forall i :: 0 <= i < |key| ==> KeyChar(key[i])
  }

  predicate IdentifierKeys(meta: seq<Entry>) {
    forall i :: 0 <= i < |meta| ==> Identifier(meta[i].key)
  }

  /** No two items share a key: what makes a sequence of items a dict. */
  predicate Distinct(meta: seq<Entry>) {
    forall i, j :: 0 <= i < j < |meta| ==> meta[i].key != meta[j].key
  }

  function RereadItems(n: Numerals, items: seq<Scalar>): (r: seq<Scalar>)
    ensures |r| == |items|
  {
    seq(|items|, i requires 0 <= i < |items| => Reread(n, items[i]))
  }

  function RereadValue(n: Numerals, v: Value): Value {
    match v
    case One(s) => One(Reread(n, s))
    case Many(items) => Many(RereadItems(n, items))
  }

  function RereadEntry(n: Numerals, e: Entry): Entry {
    Entry(e.key, RereadValue(n, e.value))
  }

  function RereadAll(n: Numerals, meta: seq<Entry>): (r: seq<Entry>)
    ensures |r| == |meta|
  {
    seq(|meta|, i requires 0 <= i < |meta| => RereadEntry(n, meta[i]))
  }

  // ---- one line ----

  lemma {:induction false} KeyEndAt(s: string, i: nat, k: nat)
    requires i <= k < |s|
    requires forall j :: i <= j < k ==> KeyChar(s[j])
    requires !KeyChar(s[k])
    ensures KeyEnd(s, i) == k
    decreases k - i
  {
    if i < k {
      KeyEndAt(s, i + 1, k);
    }
  }

  lemma MatchKeyLine(key: string, rest: string)
    requires Identifier(key)
    ensures MatchKey(key + ":" + rest) == Some((key, rest))
  {
    var s := key + ":" + rest;
    KeyEndAt(s, 1, |key|);
    assert s[|key|..] == ":" + rest;
    assert (":" + rest)[1..] == rest;
    assert s[..|key|] == key;
  }

  lemma KeyLineTight(key: string, rest: string)
    requires Identifier(key)
    requires rest == "" || Tight(rest)
    ensures var line := if rest == "" then key + ":" else key + ": " + rest;
      && Tight(line) && Strip(TrimRight(line)) == line && KeyChar(line[0]) && line[0] != '-' && KeyStart(line[0])
      && MatchKey(line).Some? && MatchKey(line).value.0 == key && Strip(MatchKey(line).value.1) == rest
  {
    if rest == "" {
      MatchKeyLine(key, "");
      assert key + ":" + "" == key + ":";
      StripTight(key + ":");
    } else {
      MatchKeyLine(key, " " + rest);
      assert key + ":" + (" " + rest) == key + ": " + rest;
      StripIndented(rest);
      StripTight(key + ": " + rest);
    }
  }

  /** A key line: refused when the key is already there, otherwise one more item. */
  lemma ParseKeyLine(n: Numerals, st: BlockState, key: string, rest: string, v: Value, line: nat)
    requires Identifier(key)
    requires rest != "" ==> Tight(rest) && ParseValue(n, rest, line) == Ok(v)
    requires rest == "" ==> v == Many([])
    ensures var raw := if rest == "" then key + ":" else key + ": " + rest;
      ParseLine(n, st, raw, line) ==
        if HasKey(st.meta, key) then Err(DuplicateKey(line))
        else if rest == "" then Ok(BlockState(st.meta + [Entry(key, v)], Some(key), st.bare + {key}))
        else Ok(BlockState(st.meta + [Entry(key, v)], None, st.bare))
  {
    KeyLineTight(key, rest);
  }

  lemma ItemLineReads(r: string)
    requires Rendered(r)
    ensures var dashed := "- " + r;
      && "  - " + r == "  " + dashed && Strip(TrimRight("  " + dashed)) == dashed
      && TrimLeft(dashed[1..]) == r
  {
    var dashed := "- " + r;
    StripIndented(dashed);
    assert dashed[1..] == " " + r;
    assert (" " + r)[1..] == r;
  }

  lemma ParseItemLine(n: Numerals, st: BlockState, v: Scalar, line: nat)
    requires Faithful(n)
    requires st.pending.Some?
    ensures ParseLine(n, st, "  - " + RenderScalar(n, v), line)
         == Ok(st.(meta := AppendItem(st.meta, st.pending.value, Reread(n, v))))
  {
    hide Faithful, ParseScalar, Strip, TrimLeft, TrimRight, RenderScalar, Rendered, AppendItem, MatchKey;
    RenderShape(n, v);
    ScalarRoundTrip(n, v, line);
    ItemLineReads(RenderScalar(n, v));
  }

  // ---- a block list ----

  /** Nothing was opened bare and left empty, and only present keys were opened. */
  predicate Clean(st: BlockState) {
    && (forall k :: k in st.bare ==> HasKey(st.meta, k))
    && (forall i :: 0 <= i < |st.meta| && st.meta[i].key in st.bare ==> st.meta[i].value != Many([]))
  }

  lemma AppendToLast(meta: seq<Entry>, key: string, items: seq<Scalar>, item: Scalar)
    requires !HasKey(meta, key)
    ensures AppendItem(meta + [Entry(key, Many(items))], key, item) == meta + [Entry(key, Many(items + [item]))]
  {
  }

  lemma {:induction false} ParseItems(n: Numerals, meta: seq<Entry>, key: string, sofar: seq<Scalar>,
                                      items: seq<Scalar>, bare: set<string>, line: nat)
    requires Faithful(n) && !HasKey(meta, key)
    ensures ParseLines(n, BlockState(meta + [Entry(key, Many(sofar))], Some(key), bare), EmitItems(n, items), line)
         == Ok(BlockState(meta + [Entry(key, Many(sofar + RereadItems(n, items)))], Some(key), bare))
    decreases |items|
  {
    var st := BlockState(meta + [Entry(key, Many(sofar))], Some(key), bare);
    if items == [] {
      assert sofar + RereadItems(n, items) == sofar;
    } else {
      var x := Reread(n, items[0]);
      ParseItemLine(n, st, items[0], line);
      AppendToLast(meta, key, sofar, x);
      ParseItems(n, meta, key, sofar + [x], items[1..], bare, line + 1);
      assert (sofar + [x]) + RereadItems(n, items[1..]) == sofar + RereadItems(n, items);
      assert EmitItems(n, items)[1..] == EmitItems(n, items[1..]);
    }
  }

  // ---- one item of the dict, then all of them ----

  lemma {:induction false} ParseLinesConcat(n: Numerals, st: BlockState, a: seq<string>, b: seq<string>, line: nat)
    ensures ParseLines(n, st, a + b, line) ==
      var mid := ParseLines(n, st, a, line);
      if mid.Err? then mid else ParseLines(n, mid.value, b, line + |a|)
    decreases |a|
  {
    if a == [] {
      assert a + b == b;
    } else {
      assert (a + b)[1..] == a[1..] + b;
      var next := ParseLine(n, st, a[0], line);
      if next.Ok? {
        ParseLinesConcat(n, next.value, a[1..], b, line + 1);
      }
    }
  }

  lemma ParseOneLine(n: Numerals, st: BlockState, raw: string, line: nat)
    ensures ParseLines(n, st, [raw], line) == ParseLine(n, st, raw, line)
  {
  }

  lemma ParseEmptyList(n: Numerals, line: nat)
    ensures ParseValue(n, "[]", line) == Ok(Many([]))
  {
    assert "[]"[1..1] == "";
    assert [""][1..] == [];
    assert Strip("") == "";
    assert InlineItems(n, [""], line) == Ok([]);
  }

  ghost predicate AddsEntry(n: Numerals, st: BlockState, e: Entry, r: Result<BlockState>) {
    && r.Ok?
    && r.value.meta == st.meta + [RereadEntry(n, e)]
    && Clean(r.value)
  }

  lemma CleanAfter(st: BlockState, e: Entry, pending: Option<string>, bare: set<string>)
    requires Clean(st) && !HasKey(st.meta, e.key)
    requires bare == st.bare || (bare == st.bare + {e.key} && e.value != Many([]))
    ensures Clean(BlockState(st.meta + [e], pending, bare))
  {
    var m := st.meta + [e];
    assert m[|st.meta|] == e;
    forall k | k in bare ensures HasKey(m, k) {
      if k in st.bare {
        var i :| 0 <= i < |st.meta| && st.meta[i].key == k;
        assert m[i].key == k;
      }
    }
    assert e.key !in st.bare;
    forall i | 0 <= i < |m| && m[i].key in bare ensures m[i].value != Many([]) {
      if i < |st.meta| {
        assert m[i] == st.meta[i];
        assert HasKey(st.meta, m[i].key);
      }
    }
  }

  lemma ParseEmitted(n: Numerals, st: BlockState, e: Entry, line: nat)
    requires Faithful(n) && Identifier(e.key) && Clean(st)
    ensures !HasKey(st.meta, e.key) ==> AddsEntry(n, st, e, ParseLines(n, st, Emit(n, e), line))
    ensures HasKey(st.meta, e.key) ==> ParseLines(n, st, Emit(n, e), line) == Err(DuplicateKey(line))
  {
    match e.value
    case One(s) =>
      var r := RenderScalar(n, s);
      RenderShape(n, s);
      ScalarRoundTrip(n, s, line);
      ParseKeyLine(n, st, e.key, r, One(Reread(n, s)), line);
      ParseOneLine(n, st, e.key + ": " + r, line);
      if !HasKey(st.meta, e.key) { CleanAfter(st, RereadEntry(n, e), None, st.bare); }
    case Many(items) =>
      if items == [] {
        ParseEmptyList(n, line);
        ParseKeyLine(n, st, e.key, "[]", Many([]), line);
        assert e.key + ": []" == e.key + ": " + "[]";
        ParseOneLine(n, st, e.key + ": []", line);
        assert RereadItems(n, items) == [];
        if !HasKey(st.meta, e.key) { CleanAfter(st, RereadEntry(n, e), None, st.bare); }
      } else {
        ParseKeyLine(n, st, e.key, "", Many([]), line);
        ParseOneLine(n, st, e.key + ":", line);
        ParseLinesConcat(n, st, [e.key + ":"], EmitItems(n, items), line);
        if !HasKey(st.meta, e.key) {
          ParseItems(n, st.meta, e.key, [], items, st.bare + {e.key}, line + 1);
          assert [] + RereadItems(n, items) == RereadItems(n, items);
          CleanAfter(st, RereadEntry(n, e), Some(e.key), st.bare + {e.key});
        }
      }
  }

  /** The items bring only new keys, each once. */
  predicate Fresh(meta: seq<Entry>, es: seq<Entry>) {
    Distinct(es) && forall i :: 0 <= i < |es| ==> !HasKey(meta, es[i].key)
  }

  lemma HasKeyAppend(meta: seq<Entry>, e: Entry, key: string)
    ensures HasKey(meta + [e], key) <==> HasKey(meta, key) || e.key == key
  {
    var m := meta + [e];
    if HasKey(meta, key) {
      var i :| 0 <= i < |meta| && meta[i].key == key;
      assert m[i].key == key;
    }
    if e.key == key {
      assert m[|meta|].key == key;
    }
  }

  lemma FreshStep(n: Numerals, meta: seq<Entry>, es: seq<Entry>)
    requires es != []
    ensures Fresh(meta, es) <==> !HasKey(meta, es[0].key) && Fresh(meta + [RereadEntry(n, es[0])], es[1..])
  {
    var e := RereadEntry(n, es[0]);
    forall key ensures HasKey(meta + [e], key) <==> HasKey(meta, key) || e.key == key {
      HasKeyAppend(meta, e, key);
    }
    var rest := es[1..];
    if !HasKey(meta, es[0].key) && Fresh(meta + [e], rest) {
      forall i, j | 0 <= i < j < |es| ensures es[i].key != es[j].key {
        assert es[j] == rest[j - 1];
        if i > 0 { assert es[i] == rest[i - 1]; }
      }
      forall i | 0 <= i < |es| ensures !HasKey(meta, es[i].key) {
        if i > 0 { assert es[i] == rest[i - 1]; }
      }
    }
  }

  lemma ParseAllCons(n: Numerals, st: BlockState, es: seq<Entry>, line: nat)
    requires es != []
    ensures ParseLines(n, st, EmitAll(n, es), line) ==
      var mid := ParseLines(n, st, Emit(n, es[0]), line);
      if mid.Err? then mid else ParseLines(n, mid.value, EmitAll(n, es[1..]), line + |Emit(n, es[0])|)
  {
    hide ParseLines, ParseLine, Emit;
    ParseLinesConcat(n, st, Emit(n, es[0]), EmitAll(n, es[1..]), line);
  }

  ghost predicate AddsEntries(n: Numerals, st: BlockState, es: seq<Entry>, r: Result<BlockState>) {
    if Fresh(st.meta, es) then r.Ok? && r.value.meta == st.meta + RereadAll(n, es) && Clean(r.value)
    else r.Err? && r.error.DuplicateKey?
  }

  lemma AddsEntriesCons(n: Numerals, st: BlockState, es: seq<Entry>, next: BlockState, r: Result<BlockState>)
    requires es != [] && !HasKey(st.meta, es[0].key)
    requires next.meta == st.meta + [RereadEntry(n, es[0])]
    requires AddsEntries(n, next, es[1..], r)
    ensures AddsEntries(n, st, es, r)
  {
    FreshStep(n, st.meta, es);
    assert next.meta + RereadAll(n, es[1..]) == st.meta + RereadAll(n, es);
  }

  lemma AddsDuplicate(n: Numerals, st: BlockState, es: seq<Entry>, line: nat)
    requires es != [] && HasKey(st.meta, es[0].key)
    ensures AddsEntries(n, st, es, Err(DuplicateKey(line)))
  {
  }

  lemma ParseAllNone(n: Numerals, st: BlockState, line: nat)
    requires Clean(st)
    ensures AddsEntries(n, st, [], ParseLines(n, st, EmitAll(n, []), line))
  {
  }

  lemma {:induction false} ParseAll(n: Numerals, st: BlockState, es: seq<Entry>, line: nat)
    requires Faithful(n) && IdentifierKeys(es) && Clean(st)
    ensures AddsEntries(n, st, es, ParseLines(n, st, EmitAll(n, es), line))
    decreases |es|
  {
    hide ParseLines, ParseLine, Emit, EmitAll, AddsEntries;
    if es == [] {
      ParseAllNone(n, st, line);
    } else {
      ParseEmitted(n, st, es[0], line);
      ParseAllCons(n, st, es, line);
      var first := Emit(n, es[0]);
      var mid := ParseLines(n, st, first, line);
      if HasKey(st.meta, es[0].key) {
        AddsDuplicate(n, st, es, line);
      } else {
        ParseAll(n, mid.value, es[1..], line + |first|);
        AddsEntriesCons(n, st, es, mid.value, ParseLines(n, mid.value, EmitAll(n, es[1..]), line + |first|));
      }
    }
  }

  lemma ParseHeader(n: Numerals, es: seq<Entry>, line: nat)
    requires Faithful(n) && IdentifierKeys(es)
    ensures var r := ParseBlockSpec(n, EmitAll(n, es), line);
      if Distinct(es) then r == Ok(RereadAll(n, es)) else r.Err? && r.error.DuplicateKey?
  {
    var start := BlockState([], None, {});
    ParseAll(n, start, es, line);
    assert Fresh([], es) <==> Distinct(es);
    if Distinct(es) {
      var st := ParseLines(n, start, EmitAll(n, es), line).value;
      assert [] + RereadAll(n, es) == RereadAll(n, es);
      assert Collapse(st) == st.meta;
    }
  }

  // ---- the order items are written in ----

  /** Some key of meta is pinned twice. */
  predicate PinnedTwice(meta: seq<Entry>, keyOrder: seq<string>) {
    exists i, j :: 0 <= i < j < |keyOrder| && keyOrder[i] == keyOrder[j] && HasKey(meta, keyOrder[i])
  }

  lemma {:induction false} ListedMembers(meta: seq<Entry>, keyOrder: seq<string>, e: Entry)
    requires Distinct(meta)
    ensures e in Listed(meta, keyOrder) <==> e in meta && e.key in keyOrder
  {
    if keyOrder != [] {
      ListedMembers(meta, keyOrder[1..], e);
      if e in meta && e.key == keyOrder[0] {
        FindIs(meta, e);
      }
    }
  }

  lemma FindIs(meta: seq<Entry>, e: Entry)
    requires Distinct(meta) && e in meta
    ensures HasKey(meta, e.key) && Find(meta, e.key) == e
  {
  }

  lemma {:induction false} UnlistedMembers(meta: seq<Entry>, keyOrder: seq<string>, e: Entry)
    ensures e in Unlisted(meta, keyOrder) <==> e in meta && e.key !in keyOrder
  {
    if meta != [] {
      UnlistedMembers(meta[1..], keyOrder, e);
    }
  }

  lemma DistinctConcat(a: seq<Entry>, b: seq<Entry>)
    ensures Distinct(a + b) <==>
      Distinct(a) && Distinct(b) && forall x, y :: x in a && y in b ==> x.key != y.key
  {
    var all := a + b;
    if Distinct(all) {
      forall i, j | 0 <= i < j < |a| ensures a[i].key != a[j].key {
        assert all[i] == a[i] && all[j] == a[j];
      }
      forall i, j | 0 <= i < j < |b| ensures b[i].key != b[j].key {
        assert all[|a| + i] == b[i] && all[|a| + j] == b[j];
      }
      forall x, y | x in a && y in b ensures x.key != y.key {
        var i :| 0 <= i < |a| && a[i] == x;
        var j :| 0 <= j < |b| && b[j] == y;
        assert all[i] == x && all[|a| + j] == y;
      }
    }
    if Distinct(a) && Distinct(b) && forall x, y :: x in a && y in b ==> x.key != y.key {
      forall i, j | 0 <= i < j < |all| ensures all[i].key != all[j].key {
        if j < |a| {
          assert all[i] == a[i] && all[j] == a[j];
        } else if i >= |a| {
          assert all[i] == b[i - |a|] && all[j] == b[j - |a|];
        } else {
          assert all[i] in a && all[j] in b;
        }
      }
    }
  }

  lemma {:induction false} UnlistedDistinct(meta: seq<Entry>, keyOrder: seq<string>)
    requires Distinct(meta)
    ensures Distinct(Unlisted(meta, keyOrder))
  {
    if meta != [] {
      UnlistedDistinct(meta[1..], keyOrder);
      var tail := Unlisted(meta[1..], keyOrder);
      forall y | y in tail ensures meta[0].key != y.key {
        UnlistedMembers(meta[1..], keyOrder, y);
      }
      DistinctConcat([meta[0]], tail);
    }
  }

  lemma {:induction false} ListedDistinct(meta: seq<Entry>, keyOrder: seq<string>)
    requires Distinct(meta)
    ensures Distinct(Listed(meta, keyOrder)) <==> !PinnedTwice(meta, keyOrder)
  {
    if keyOrder != [] {
      var k, rest := keyOrder[0], keyOrder[1..];
      ListedDistinct(meta, rest);
      PinnedTwiceCons(meta, keyOrder);
      if HasKey(meta, k) {
        var e, tail := Find(meta, k), Listed(meta, rest);
        DistinctConcat([e], tail);
        ListedMembers(meta, rest, e);
        ListedKeys(meta, rest);
        assert Listed(meta, keyOrder) == [e] + tail;
        if k in rest {
          assert e in [e] && e in tail;
        }
      } else {
        assert Listed(meta, keyOrder) == Listed(meta, rest);
      }
    }
  }

  lemma PinnedTwiceCons(meta: seq<Entry>, keyOrder: seq<string>)
    requires keyOrder != []
    ensures PinnedTwice(meta, keyOrder) <==>
      PinnedTwice(meta, keyOrder[1..]) || (keyOrder[0] in keyOrder[1..] && HasKey(meta, keyOrder[0]))
  {
  }

  lemma {:induction false} ListedKeys(meta: seq<Entry>, keyOrder: seq<string>)
    ensures forall e :: e in Listed(meta, keyOrder) ==> e.key in keyOrder && e in meta
  {
    if keyOrder != [] {
      ListedKeys(meta, keyOrder[1..]);
    }
  }

  lemma OrderedDistinct(meta: seq<Entry>, keyOrder: seq<string>)
    requires Distinct(meta)
    ensures Distinct(Ordered(meta, keyOrder)) <==> !PinnedTwice(meta, keyOrder)
  {
    var a, b := Listed(meta, keyOrder), Unlisted(meta, keyOrder);
    ListedDistinct(meta, keyOrder);
    UnlistedDistinct(meta, keyOrder);
    ListedKeys(meta, keyOrder);
    forall y | y in b ensures y.key !in keyOrder {
      UnlistedMembers(meta, keyOrder, y);
    }
    DistinctConcat(a, b);
  }

  /** Writing reorders the items and does nothing else. */
  lemma OrderedMembers(meta: seq<Entry>, keyOrder: seq<string>)
    requires Distinct(meta)
    ensures forall e :: e in Ordered(meta, keyOrder) <==> e in meta
  {
    forall e ensures e in Ordered(meta, keyOrder) <==> e in meta {
      ListedMembers(meta, keyOrder, e);
      UnlistedMembers(meta, keyOrder, e);
    }
  }

  // ---- the whole text ----

  lemma ItemLineShape(n: Numerals, v: Scalar)
    requires Faithful(n)
    ensures var l := "  - " + RenderScalar(n, v); OneLine(l) && !EndsHeader(l)
  {
    var r := RenderScalar(n, v);
    RenderShape(n, v);
    var dashed := "- " + r;
    assert "  - " + r == "  " + dashed;
    StripIndented(dashed);
    assert dashed[1] == ' ';
  }

  lemma KeyLineShape(key: string, rest: string)
    requires Identifier(key) && OneLine(rest)
    requires rest == "" || Tight(rest)
    ensures var l := if rest == "" then key + ":" else key + ": " + rest; OneLine(l) && !EndsHeader(l)
  {
  }

  ghost predicate HeaderLines(lines: seq<string>) {
    forall l :: l in lines ==> OneLine(l) && !EndsHeader(l)
  }

  lemma {:induction false} EmitItemsShape(n: Numerals, items: seq<Scalar>)
    requires Faithful(n)
    ensures HeaderLines(EmitItems(n, items))
  {
    if items != [] {
      ItemLineShape(n, items[0]);
      EmitItemsShape(n, items[1..]);
    }
  }

  lemma {:induction false} EmitAllShape(n: Numerals, es: seq<Entry>)
    requires Faithful(n) && IdentifierKeys(es)
    ensures HeaderLines(EmitAll(n, es))
  {
    hide Faithful, RenderScalar, EndsHeader, OneLine, Identifier;
    if es != [] {
      var e := es[0];
      EmitAllShape(n, es[1..]);
      match e.value
      case One(s) =>
        RenderShape(n, s);
        KeyLineShape(e.key, RenderScalar(n, s));
      case Many(items) =>
        KeyLineShape(e.key, "");
        KeyLineShape(e.key, "[]");
        assert e.key + ": []" == e.key + ": " + "[]";
        EmitItemsShape(n, items);
    }
  }

  lemma {:induction false} FindEndAt(lines: seq<string>, i: nat, k: nat)
    requires i <= k < |lines| && EndsHeader(lines[k])
    requires forall j :: i <= j < k ==> !EndsHeader(lines[j])
    ensures FindEnd(lines, i) == Some(k)
    decreases k - i
  {
    if i < k {
      FindEndAt(lines, i + 1, k);
    }
  }

  /** The body a document reads back with: newlines normalised and trimmed, one newline at the end. */
  function NormalBody(body: string): string {
    if CleanBody(body) == "" then "" else CleanBody(body) + "\n"
  }

  lemma TailBody(body: string)
    ensures '\r' !in Tail(body) && TrimNewlinesLeft(Tail(body)) == NormalBody(body)
  {
    NormalizeClean(body);
    TrimNewlinesBare(NormalizeNewlines(body));
    var b := CleanBody(body);
    if b != "" {
      assert ("\n" + b + "\n")[1..] == b + "\n";
      assert (b + "\n")[0] == b[0];
      assert TrimNewlinesLeft(b + "\n") == b + "\n";
    }
  }

  /** The lines of a text made of a header and a tail, and where its header ends. */
  lemma AssembledLines(header: seq<string>, tail: string)
    requires HeaderLines(header) && '\r' !in tail
    ensures var text := Join(["---"] + header + ["---"]) + "\n" + tail;
      && NormalizeNewlines(text) == text && StripBom(text) == text && text != ""
      && Lines(text) == ["---"] + header + ["---"] + Lines(tail)
  {
    hide EndsHeader, NormalizeNewlines;
    var h := ["---"] + header + ["---"];
    var text := Join(h) + "\n" + tail;
    forall l | l in h ensures OneLine(l) {
      if l != "---" { assert l in header; }
    }
    assert h[0] == "---" && |h| >= 2;
    assert Join(h) == "---" + "\n" + Join(h[1..]);
    assert text[0] == '-';
    JoinMembers(h, '\r');
    NormalizeClean(text);
    LinesOfJoin(h);
    LinesConcat(Join(h), tail);
  }

  lemma HeaderEnds(header: seq<string>, lines: seq<string>, rest: seq<string>)
    requires HeaderLines(header) && lines == ["---"] + header + ["---"] + rest
    ensures Strip(lines[0]) == "---" && FindEnd(lines, 1) == Some(1 + |header|)
    ensures lines[1..1 + |header|] == header && lines[2 + |header|..] == rest
  {
    assert Strip("---") == "---" by { StripTight("---"); }
    var k := 1 + |header|;
    assert lines[0] == "---" && lines[k] == "---";
    hide Strip;
    forall j | 1 <= j < k ensures !EndsHeader(lines[j]) {
      assert lines[j] == header[j - 1];
      assert lines[j] in header;
    }
    FindEndAt(lines, 1, k);
  }

  /** Reading a text made of a header and a tail: the header block is parsed alone, the tail is the
      body. */
  lemma ParseAssembled(n: Numerals, header: seq<string>, tail: string)
    requires HeaderLines(header) && '\r' !in tail
    ensures Parse(n, Join(["---"] + header + ["---"]) + "\n" + tail) ==
      var meta := ParseBlockSpec(n, header, 2);
      if meta.Err? then Err(meta.error) else Ok(Document(meta.value, TrimNewlinesLeft(tail)))
  {
    hide Lines, Join, Strip, FindEnd, NormalizeNewlines, StripBom, ParseBlockSpec, TrimNewlinesLeft, HeaderLines;
    var text := Join(["---"] + header + ["---"]) + "\n" + tail;
    AssembledLines(header, tail);
    HeaderEnds(header, Lines(text), Lines(tail));
    JoinLines(tail);
  }

  lemma OrderedIdentifiers(meta: seq<Entry>, keyOrder: seq<string>)
    requires IdentifierKeys(meta) && Distinct(meta)
    ensures IdentifierKeys(Ordered(meta, keyOrder))
  {
    var es := Ordered(meta, keyOrder);
    OrderedMembers(meta, keyOrder);
    forall i | 0 <= i < |es| ensures Identifier(es[i].key) {
      assert es[i] in es;
      assert es[i] in meta;
    }
  }

  function Tail(body: string): string {
    if CleanBody(body) == "" then "" else "\n" + CleanBody(body) + "\n"
  }

  lemma DumpsAssembled(n: Numerals, meta: seq<Entry>, body: string, keyOrder: seq<string>)
    ensures DumpsSpec(n, meta, body, keyOrder)
         == Join(["---"] + EmitAll(n, Ordered(meta, keyOrder)) + ["---"]) + "\n" + Tail(body)
  {
    hide Join, EmitAll, Ordered, CleanBody;
    var header := Join(["---"] + EmitAll(n, Ordered(meta, keyOrder)) + ["---"]) + "\n";
    assert header + "" == header;
    assert header + "\n" + CleanBody(body) + "\n" == header + ("\n" + CleanBody(body) + "\n");
  }

  /** parse(dumps(meta, body)): the items in the order they were written, each as it rereads, and
      the normal body; and the one way it fails, a key pinned twice. */
  lemma DocumentRoundTrip(n: Numerals, meta: seq<Entry>, body: string, keyOrder: seq<string>)
    requires Faithful(n) && IdentifierKeys(meta) && Distinct(meta)
    ensures var r := Parse(n, DumpsSpec(n, meta, body, keyOrder));
      if PinnedTwice(meta, keyOrder) then r.Err? && r.error.DuplicateKey?
      else r == Ok(Document(RereadAll(n, Ordered(meta, keyOrder)), NormalBody(body)))
  {
    var es := Ordered(meta, keyOrder);
    OrderedIdentifiers(meta, keyOrder);
    OrderedDistinct(meta, keyOrder);
    EmitAllShape(n, es);
    ParseHeader(n, es, 2);
    TailBody(body);
    DumpsAssembled(n, meta, body, keyOrder);
    ParseAssembled(n, EmitAll(n, es), Tail(body));
  }

  // ---- what a caller gets back ----

  predicate FiniteScalar(v: Scalar) {
    v.Flt? ==> v.f.Finite?
  }

  predicate FiniteValue(v: Value) {
    match v
    case One(s) => FiniteScalar(s)
    case Many(items) => forall i :: 0 <= i < |items| ==> FiniteScalar(items[i])
  }

  /** No value is a nan or an infinity, alone or in a list. */
  predicate AllFinite(meta: seq<Entry>) {
    forall e :: e in meta ==> FiniteValue(e.value)
  }

  /** Equality of dicts: the same items in any order. */
  ghost predicate SameItems(a: seq<Entry>, b: seq<Entry>) {
    forall e :: e in a <==> e in b
  }

  lemma RereadFinite(n: Numerals, v: Value)
    ensures FiniteValue(RereadValue(n, v))
    ensures RereadValue(n, v) == v <==> FiniteValue(v)
  {
  }

  lemma RereadAllFinite(n: Numerals, meta: seq<Entry>)
    ensures AllFinite(RereadAll(n, meta))
    ensures AllFinite(meta) ==> RereadAll(n, meta) == meta
  {
    var r := RereadAll(n, meta);
    forall e | e in r ensures FiniteValue(e.value) {
      var i :| 0 <= i < |r| && r[i] == e;
      RereadFinite(n, meta[i].value);
    }
    if AllFinite(meta) {
      forall i | 0 <= i < |meta| ensures r[i] == meta[i] {
        assert meta[i] in meta;
        RereadFinite(n, meta[i].value);
      }
    }
  }

  /** The promise of the module: a dict of the types it emits comes back equal, exactly when it
      holds no nan and no infinity (and no present key is pinned twice). */
  lemma MetadataRoundTrip(n: Numerals, meta: seq<Entry>, body: string, keyOrder: seq<string>)
    requires Faithful(n) && IdentifierKeys(meta) && Distinct(meta)
    ensures var r := Parse(n, DumpsSpec(n, meta, body, keyOrder));
      (r.Ok? && SameItems(r.value.meta, meta)) <==> !PinnedTwice(meta, keyOrder) && AllFinite(meta)
  {
    DocumentRoundTrip(n, meta, body, keyOrder);
    var es := Ordered(meta, keyOrder);
    OrderedMembers(meta, keyOrder);
    var back := RereadAll(n, es);
    RereadAllFinite(n, es);
    assert AllFinite(es) <==> AllFinite(meta);
    if SameItems(back, meta) {
      assert AllFinite(meta);
    }
  }

  lemma {:induction false} ListedSameItems(a: seq<Entry>, b: seq<Entry>, keyOrder: seq<string>)
    requires Distinct(a) && Distinct(b) && SameItems(a, b)
    ensures Listed(a, keyOrder) == Listed(b, keyOrder)
  {
    if keyOrder != [] {
      var k := keyOrder[0];
      ListedSameItems(a, b, keyOrder[1..]);
      SameKeys(a, b, k);
      SameKeys(b, a, k);
      if HasKey(a, k) {
        FindIs(b, Find(a, k));
      }
    }
  }

  lemma SameKeys(a: seq<Entry>, b: seq<Entry>, key: string)
    requires SameItems(a, b)
    ensures HasKey(a, key) ==> HasKey(b, key)
  {
    if HasKey(a, key) {
      var i :| 0 <= i < |a| && a[i].key == key;
      assert a[i] in b;
      var j :| 0 <= j < |b| && b[j] == a[i];
    }
  }

  lemma {:induction false} UnlistedConcat(a: seq<Entry>, b: seq<Entry>, keyOrder: seq<string>)
    ensures Unlisted(a + b, keyOrder) == Unlisted(a, keyOrder) + Unlisted(b, keyOrder)
  {
    if a == [] {
      assert a + b == b;
    } else {
      assert (a + b)[1..] == a[1..] + b;
      UnlistedConcat(a[1..], b, keyOrder);
    }
  }

  lemma {:induction false} UnlistedAllOrNone(a: seq<Entry>, keyOrder: seq<string>)
    ensures (forall e :: e in a ==> e.key in keyOrder) ==> Unlisted(a, keyOrder) == []
    ensures (forall e :: e in a ==> e.key !in keyOrder) ==> Unlisted(a, keyOrder) == a
  {
    if a != [] {
      assert a[0] in a;
      assert forall e :: e in a[1..] ==> e in a;
      UnlistedAllOrNone(a[1..], keyOrder);
      assert a == [a[0]] + a[1..];
    }
  }

  /** Ordering what is already ordered changes nothing. */
  lemma OrderedTwice(meta: seq<Entry>, keyOrder: seq<string>)
    requires Distinct(meta) && !PinnedTwice(meta, keyOrder)
    ensures Ordered(Ordered(meta, keyOrder), keyOrder) == Ordered(meta, keyOrder)
  {
    var a, b := Listed(meta, keyOrder), Unlisted(meta, keyOrder);
    OrderedMembers(meta, keyOrder);
    OrderedDistinct(meta, keyOrder);
    ListedSameItems(a + b, meta, keyOrder);
    UnlistedConcat(a, b, keyOrder);
    ListedKeys(meta, keyOrder);
    UnlistedAllOrNone(a, keyOrder);
    forall e | e in b ensures e.key !in keyOrder {
      UnlistedMembers(meta, keyOrder, e);
    }
    UnlistedAllOrNone(b, keyOrder);
    assert [] + b == b;
  }

  lemma NormalBodyStable(body: string)
    ensures CleanBody(NormalBody(body)) == CleanBody(body)
  {
    NormalizeClean(body);
    TrimNewlinesBare(NormalizeNewlines(body));
    var b := CleanBody(body);
    NormalizeClean(b + "\n");
    if b != "" {
      var t := b + "\n";
      assert TrimNewlinesLeft(t) == t;
      assert t[..|t| - 1] == b;
      assert TrimNewlinesRight(b) == b;
    }
  }

  /** Canonical form: printing what was read from a printed document gives the identical text, so
      repeated rewrites are stable. */
  lemma CanonicalForm(n: Numerals, meta: seq<Entry>, body: string, keyOrder: seq<string>)
    requires Faithful(n) && IdentifierKeys(meta) && Distinct(meta)
    requires !PinnedTwice(meta, keyOrder) && AllFinite(meta)
    ensures var text := DumpsSpec(n, meta, body, keyOrder);
      var r := Parse(n, text);
      r.Ok? && DumpsSpec(n, r.value.meta, r.value.body, keyOrder) == text
  {
    DocumentRoundTrip(n, meta, body, keyOrder);
    var es := Ordered(meta, keyOrder);
    OrderedMembers(meta, keyOrder);
    RereadAllFinite(n, es);
    OrderedTwice(meta, keyOrder);
    NormalBodyStable(body);
  }
}
