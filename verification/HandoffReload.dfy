/** What survives writing a handoff and reading it back: everything a reader saw, for every file that
    can be read at all. */
module HandoffReload {
  import opened Wrappers
  import opened Text
  import opened Frontmatter
  import opened FrontmatterScalars
  import opened FrontmatterRoundTrip
  import opened Seats
  import opened HandoffModel
  import FrontmatterNumerals

  // ---- what the parser can return ----

  /** A dict of the types the printer emits. */
  predicate Printable(meta: seq<Entry>) {
    IdentifierKeys(meta) && Distinct(meta) && AllFinite(meta)
  }

  lemma ParsedScalarFinite(n: Numerals, raw: string, line: nat)
    ensures var r := ParseScalar(n, raw, line); r.Ok? ==> FiniteScalar(r.value)
  {
  }

  lemma {:induction false} ParsedItemsFinite(n: Numerals, parts: seq<string>, line: nat)
    ensures var r := InlineItems(n, parts, line); r.Ok? ==> FiniteValue(Many(r.value))
  {
    if parts != [] {
      ParsedScalarFinite(n, Strip(parts[0]), line);
      ParsedItemsFinite(n, parts[1..], line);
    }
  }

  lemma ParsedValueFinite(n: Numerals, raw: string, line: nat)
    requires raw != ""
    ensures var r := ParseValue(n, raw, line); r.Ok? ==> FiniteValue(r.value)
  {
    hide ParseScalar, InlineItems;
    ParsedScalarFinite(n, raw, line);
    if raw[0] == '[' && raw[|raw| - 1] == ']' {
      ParsedItemsFinite(n, SplitCommas(raw[1..|raw| - 1], None, ""), line);
    }
  }

  lemma {:induction false} KeyEndChars(s: string, i: nat)
    requires i <= |s|
    ensures forall j :: i <= j < KeyEnd(s, i) ==> KeyChar(s[j])
    decreases |s| - i
  {
    if i < |s| && KeyChar(s[i]) {
      KeyEndChars(s, i + 1);
    }
  }

  lemma MatchedKey(s: string)
    ensures MatchKey(s).Some? ==> Identifier(MatchKey(s).value.0)
  {
    if s != "" {
      KeyEndChars(s, 1);
    }
  }

  lemma AppendPrintable(meta: seq<Entry>, key: string, item: Scalar)
    requires Printable(meta) && FiniteScalar(item)
    ensures Printable(AppendItem(meta, key, item))
  {
  }

  lemma AddPrintable(meta: seq<Entry>, e: Entry)
    requires Printable(meta) && Identifier(e.key) && FiniteValue(e.value) && !HasKey(meta, e.key)
    ensures Printable(meta + [e])
  {
  }

  lemma LinePrintable(n: Numerals, st: BlockState, raw: string, line: nat)
    requires Printable(st.meta)
    ensures var r := ParseLine(n, st, raw, line); r.Ok? ==> Printable(r.value.meta)
  {
    hide Printable, ParseScalar, ParseValue, MatchKey, AppendItem, FiniteScalar, FiniteValue, Identifier;
    var stripped := Strip(TrimRight(raw));
    if stripped != "" {
      if st.pending.Some? && stripped[0] == '-' {
        var item := ParseScalar(n, TrimLeft(stripped[1..]), line);
        ParsedScalarFinite(n, TrimLeft(stripped[1..]), line);
        if item.Ok? { AppendPrintable(st.meta, st.pending.value, item.value); }
      }
      MatchedKey(stripped);
      var m := MatchKey(stripped);
      if m.Some? && !HasKey(st.meta, m.value.0) {
        var rest := Strip(m.value.1);
        if rest == "" {
          EmptyListFinite();
          AddPrintable(st.meta, Entry(m.value.0, Many([])));
        } else {
          ParsedValueFinite(n, rest, line);
          var v := ParseValue(n, rest, line);
          if v.Ok? { AddPrintable(st.meta, Entry(m.value.0, v.value)); }
        }
      }
    }
  }

  lemma EmptyListFinite()
    ensures FiniteValue(Many([]))
  {
  }

  lemma {:induction false} LinesPrintable(n: Numerals, st: BlockState, lines: seq<string>, line: nat)
    requires Printable(st.meta)
    ensures var r := ParseLines(n, st, lines, line); r.Ok? ==> Printable(r.value.meta)
    decreases |lines|
  {
    hide Printable, ParseLine;
    if lines != [] {
      LinePrintable(n, st, lines[0], line);
      var next := ParseLine(n, st, lines[0], line);
      if next.Ok? { LinesPrintable(n, next.value, lines[1..], line + 1); }
    }
  }

  lemma CollapsePrintable(st: BlockState)
    requires Printable(st.meta)
    ensures Printable(Collapse(st))
  {
  }

  /** Whatever the parser accepts is something the printer can write and the parser read back. */
  lemma ParsedIsPrintable(n: Numerals, text: string)
    ensures var r := Parse(n, text); r.Ok? ==> Printable(r.value.meta)
  {
    hide ParseLines, FindEnd, Lines, NormalizeNewlines;
    var lines := Lines(NormalizeNewlines(StripBom(text)));
    if text != "" && Strip(lines[0]) == "---" && FindEnd(lines, 1).Some? {
      var block := lines[1..FindEnd(lines, 1).value];
      var start := BlockState([], None, {});
      LinesPrintable(n, start, block, 2);
      var r := ParseLines(n, start, block, 2);
      if r.Ok? { CollapsePrintable(r.value); }
    }
  }

  // ---- what from_meta can return ----

  /** A field of None or a non-empty stripped text. */
  predicate Trimmed(o: Option<string>) {
    o.Some? ==> Tight(o.value)
  }

  predicate Known(host: Host, h: Handoff) {
    && h.id != "" && h.title != ""
    && h.priority != "" && Lower(h.priority) == h.priority
    && Canonical(host.aliases, h.recipient, BROADCAST) == h.recipient
    && Canonical(host.aliases, h.sender, "") == h.sender
    && Printable(h.extra) && ExtraIsUnknown(h)
  }

  predicate Stripped(h: Handoff) {
    Trimmed(h.thread) && Trimmed(h.claimedBy) && Trimmed(h.claimedAt) && Trimmed(h.doneAt) && Trimmed(h.note)
  }

  lemma UnlistedPrintable(meta: seq<Entry>)
    requires Printable(meta)
    ensures var r := Unlisted(meta, FIELD_ORDER);
      Printable(r) && forall i :: 0 <= i < |r| ==> r[i].key !in FIELD_ORDER
  {
    var r := Unlisted(meta, FIELD_ORDER);
    UnlistedDistinct(meta, FIELD_ORDER);
    forall i | 0 <= i < |r| ensures Identifier(r[i].key) && r[i].key !in FIELD_ORDER && FiniteValue(r[i].value) {
      hide Identifier, FiniteValue;
      UnlistedMembers(meta, FIELD_ORDER, r[i]);
      assert r[i] in r;
      var j :| 0 <= j < |meta| && meta[j] == r[i];
    }
  }

  lemma SeatIsStable(host: Host, raw: string)
    requires Sane(host)
    ensures Canonical(host.aliases, Canonical(host.aliases, raw, ""), "") == Canonical(host.aliases, raw, "")
    ensures Canonical(host.aliases, Canonical(host.aliases, raw, BROADCAST), BROADCAST)
         == Canonical(host.aliases, raw, BROADCAST)
  {
    CanonicalTwice(host.aliases, raw);
    assert Plainly(BROADCAST);
    CanonicalPlain(host.aliases, BROADCAST, BROADCAST);
  }

  lemma OptStrTrimmed(host: Host, v: Value)
    ensures Trimmed(OptStr(host, v))
  {
    StripIsTight(host.show(v));
  }

  lemma LowerWord(s: string)
    requires s != ""
    ensures Lower(s) != "" && Lower(Lower(s)) == Lower(s)
  {
  }

  lemma ReadWords(host: Host, v: Value, default: string)
    requires Sane(host) && default != ""
    ensures StrOr(host, v, default) != ""
  {
  }

  lemma FromMetaIsKnown(host: Host, meta: seq<Entry>, body: string, stem: string, status: string)
    requires Sane(host) && stem != "" && Printable(meta)
    ensures var r := FromMeta(host, meta, body, stem, status); r.Some? ==> Known(host, r.value) && Stripped(r.value)
  {
    hide Sane, Canonical, Lower, StrOr, OptStr, Trimmed, Printable;
    UnlistedPrintable(meta);
    ExtraFrom(meta);
    var recipient, sender := Get(meta, "to"), Get(meta, "from");
    SeatIsStable(host, "");
    if recipient.One? && recipient.scalar.Str? { SeatIsStable(host, recipient.scalar.s); }
    if sender.One? && sender.scalar.Str? { SeatIsStable(host, sender.scalar.s); }
    ReadWords(host, Get(meta, "id"), stem);
    ReadWords(host, Get(meta, "title"), "(untitled)");
    ReadWords(host, Get(meta, "priority"), "normal");
    LowerWord(StrOr(host, Get(meta, "priority"), "normal"));
    OptStrTrimmed(host, Get(meta, "thread"));
    OptStrTrimmed(host, Get(meta, "claimed_by"));
    OptStrTrimmed(host, Get(meta, "claimed_at"));
    OptStrTrimmed(host, Get(meta, "done_at"));
    OptStrTrimmed(host, Get(meta, "note"));
  }

  lemma ExtraFrom(meta: seq<Entry>)
    requires Printable(meta)
    ensures Distinct(Unlisted(meta, FIELD_ORDER))
  {
    UnlistedDistinct(meta, FIELD_ORDER);
  }

  lemma LoadedIsKnown(host: Host, text: string, stem: string, status: string)
    requires Sane(host) && stem != ""
    ensures var r := Load(host, text, stem, status); r.Some? ==> Known(host, r.value) && Stripped(r.value)
  {
    hide Sane, Parse, FromMeta, Known, Stripped, Printable;
    ParsedIsPrintable(host.n, text);
    var doc := Parse(host.n, text);
    if doc.Ok? { FromMetaIsKnown(host, doc.value.meta, doc.value.body, stem, status); }
  }

  // ---- the way back ----

  function Trim(o: Option<string>): Option<string> {
    if o.None? then None else NonEmpty(Strip(o.value))
  }

  /** The record a reader gets from what was written for h at that time. */
  function Seen(h: Handoff, now: string, status: string): Handoff {
    h.(status := status, created := if h.created == "" then now else h.created,
       thread := Trim(h.thread), claimedBy := Trim(h.claimedBy), claimedAt := Trim(h.claimedAt),
       doneAt := Trim(h.doneAt), note := Trim(h.note), body := NormalBody(h.body))
  }

  lemma MetaPrintable(h: Handoff, now: string)
    requires ExtraIsUnknown(h) && Printable(h.extra)
    ensures Printable(Meta(h, now))
  {
    hide KnownFrom, Field, FiniteValue, Identifier, ExtraIsUnknown;
    var meta := Meta(h, now);
    MetaDistinct(h, now);
    forall e | e in meta ensures Identifier(e.key) && FiniteValue(e.value) {
      if e in KnownFrom(h, now, 0) {
        KnownMembers(h, now, 0, e);
        var k: nat :| k < |FIELD_ORDER| && FIELD_ORDER[k] == e.key && Field(h, now, k) == Some(e.value);
        FieldPrintable(h, now, k);
      } else {
        var i :| 0 <= i < |h.extra| && h.extra[i] == e;
      }
    }
    forall i | 0 <= i < |meta| ensures Identifier(meta[i].key) {
      assert meta[i] in meta;
    }
  }

  lemma FieldPrintable(h: Handoff, now: string, k: nat)
    requires k < |FIELD_ORDER|
    ensures Identifier(FIELD_ORDER[k])
    ensures Field(h, now, k).Some? ==> FiniteValue(Field(h, now, k).value)
  {
  }

  /** A dict with the written items reads back as the written fields. */
  ghost predicate Written(disk: seq<Entry>, h: Handoff, now: string) {
    && Distinct(disk) && SameItems(disk, Meta(h, now)) && Unlisted(disk, FIELD_ORDER) == h.extra
  }

  lemma NotPinnedTwice(meta: seq<Entry>)
    ensures !PinnedTwice(meta, FIELD_ORDER)
  {
  }

  lemma OrderedMeta(h: Handoff, now: string)
    requires ExtraIsUnknown(h)
    ensures Written(Ordered(Meta(h, now), FIELD_ORDER), h, now)
  {
    hide KnownFrom, Field, Ordered, Listed, Unlisted;
    var meta := Meta(h, now);
    MetaDistinct(h, now);
    NotPinnedTwice(meta);
    OrderedDistinct(meta, FIELD_ORDER);
    OrderedMembers(meta, FIELD_ORDER);
    OrderedUnlisted(h, now);
  }

  lemma OrderedUnlisted(h: Handoff, now: string)
    requires ExtraIsUnknown(h)
    ensures Unlisted(Ordered(Meta(h, now), FIELD_ORDER), FIELD_ORDER) == h.extra
  {
    hide KnownFrom, Field, Listed, Unlisted;
    var meta, known := Meta(h, now), KnownFrom(h, now, 0);
    UnlistedConcat(known, h.extra, FIELD_ORDER);
    forall e | e in known ensures e.key in FIELD_ORDER {
      KnownMembers(h, now, 0, e);
    }
    UnlistedAllOrNone(known, FIELD_ORDER);
    forall e | e in h.extra ensures e.key !in FIELD_ORDER {
      var i :| 0 <= i < |h.extra| && h.extra[i] == e;
    }
    UnlistedAllOrNone(h.extra, FIELD_ORDER);
    assert Unlisted(meta, FIELD_ORDER) == [] + h.extra == h.extra;
    var a := Listed(meta, FIELD_ORDER);
    UnlistedConcat(a, h.extra, FIELD_ORDER);
    ListedKeys(meta, FIELD_ORDER);
    UnlistedAllOrNone(a, FIELD_ORDER);
    assert Unlisted(a + h.extra, FIELD_ORDER) == [] + h.extra;
  }

  lemma {:induction false} ShowsTags(host: Host, tags: seq<string>)
    requires Sane(host)
    ensures ShowItems(host, Scalars(tags)) == tags
  {
    if tags != [] {
      ShowsTags(host, tags[1..]);
      assert Scalars(tags)[1..] == Scalars(tags[1..]);
      assert Scalars(tags)[0] == Str(tags[0]);
      assert host.show(One(Str(tags[0]))) == tags[0];
      assert tags == [tags[0]] + tags[1..];
    }
  }

  lemma OptionalBack(host: Host, o: Option<string>)
    requires Sane(host)
    ensures OptStr(host, if Optional(o).Some? then Optional(o).value else NULL) == Trim(o)
  {
  }

  lemma StrBack(host: Host, s: string, default: string)
    requires Sane(host)
    ensures StrOr(host, One(Str(s)), default) == if s == "" then default else s
  {
  }

  /** The known fields one at a time, as from_meta looks them up. */
  lemma FieldsBack(h: Handoff, now: string, disk: seq<Entry>)
    requires ExtraIsUnknown(h) && Written(disk, h, now)
    ensures Get(disk, "id") == One(Str(h.id)) && Get(disk, "to") == One(Str(h.recipient))
    ensures Get(disk, "from") == One(Str(h.sender)) && Get(disk, "title") == One(Str(h.title))
    ensures Get(disk, "priority") == One(Str(h.priority))
    ensures Get(disk, "created") == One(Str(if h.created == "" then now else h.created))
    ensures Get(disk, "collab") == if h.collab == "" then NULL else One(Str(h.collab))
    ensures Get(disk, "tags") == if h.tags == [] then NULL else Many(Scalars(h.tags))
  {
    hide Meta, Get, Written;
    FieldBack(h, now, disk, 0);
    FieldBack(h, now, disk, 1);
    FieldBack(h, now, disk, 2);
    FieldBack(h, now, disk, 3);
    FieldBack(h, now, disk, 4);
    FieldBack(h, now, disk, 6);
    FieldBack(h, now, disk, 7);
    FieldBack(h, now, disk, 9);
  }

  lemma FieldBack(h: Handoff, now: string, disk: seq<Entry>, k: nat)
    requires ExtraIsUnknown(h) && Written(disk, h, now) && k < |FIELD_ORDER|
    ensures Get(disk, FIELD_ORDER[k]) == if Field(h, now, k).Some? then Field(h, now, k).value else NULL
  {
    GetField(h, now, disk, k);
  }

  lemma OptionalsBack(host: Host, h: Handoff, now: string, disk: seq<Entry>)
    requires Sane(host) && ExtraIsUnknown(h) && Written(disk, h, now)
    ensures OptStr(host, Get(disk, "thread")) == Trim(h.thread)
    ensures OptStr(host, Get(disk, "claimed_by")) == Trim(h.claimedBy)
    ensures OptStr(host, Get(disk, "claimed_at")) == Trim(h.claimedAt)
    ensures OptStr(host, Get(disk, "done_at")) == Trim(h.doneAt)
    ensures OptStr(host, Get(disk, "note")) == Trim(h.note)
  {
    hide Meta, Get, Written, OptStr, Trim, Optional, Sane;
    FieldBack(h, now, disk, 8);
    OptionalBack(host, h.thread);
    FieldBack(h, now, disk, 10);
    OptionalBack(host, h.claimedBy);
    FieldBack(h, now, disk, 11);
    OptionalBack(host, h.claimedAt);
    FieldBack(h, now, disk, 12);
    OptionalBack(host, h.doneAt);
    FieldBack(h, now, disk, 13);
    OptionalBack(host, h.note);
  }

  lemma WordsBack(host: Host, h: Handoff, now: string, stem: string)
    requires Sane(host) && Known(host, h)
    ensures StrOr(host, One(Str(h.id)), stem) == h.id
    ensures StrOr(host, One(Str(h.title)), "(untitled)") == h.title
    ensures Lower(StrOr(host, One(Str(h.priority)), "normal")) == h.priority
    ensures StrOr(host, if h.collab == "" then NULL else One(Str(h.collab)), "") == h.collab
    ensures StrOr(host, One(Str(h.created)), "") == h.created
    ensures StrOr(host, One(Str(now)), "") == now
    ensures ReadTags(host, if h.tags == [] then NULL else Many(Scalars(h.tags))) == h.tags
  {
    hide StrOr, Lower, Canonical, Scalars, ShowItems, Sane, Printable, ExtraIsUnknown;
    StrBack(host, h.id, stem);
    StrBack(host, h.title, "(untitled)");
    StrBack(host, h.priority, "normal");
    StrBack(host, h.collab, "");
    StrBack(host, h.created, "");
    StrBack(host, now, "");
    NullReadsDefault(host);
    ShowsTags(host, h.tags);
  }

  lemma NullReadsDefault(host: Host)
    ensures StrOr(host, NULL, "") == ""
  {
  }

  lemma FromWritten(host: Host, h: Handoff, now: string, disk: seq<Entry>, body: string, stem: string, status: string)
    requires Sane(host) && Known(host, h) && Written(disk, h, now)
    ensures FromMeta(host, disk, body, stem, status) == Some(Seen(h, now, status).(body := body))
  {
    hide Sane, Canonical, Lower, StrOr, OptStr, Trim, Get, ReadTags;
    hide Printable, Meta, SameItems, Distinct, ExtraIsUnknown;
    FieldsBack(h, now, disk);
    OptionalsBack(host, h, now, disk);
    WordsBack(host, h, now, stem);
  }

  /** The way back from disk: for every record from_meta can build, what was written for it is read as
      the same record, with the status of the directory it is in, its optional texts stripped and its
      body in normal form. */
  lemma Reload(host: Host, h: Handoff, now: string, stem: string, status: string)
    requires Sane(host) && Known(host, h)
    ensures Load(host, Render(host, h, now), stem, status) == Some(Seen(h, now, status))
  {
    hide Canonical, Lower, FromMeta, Ordered, Meta, Identifier, FiniteValue, DumpsSpec, Parse, NormalBody;
    var meta := Meta(h, now);
    MetaPrintable(h, now);
    NotPinnedTwice(meta);
    DocumentRoundTrip(host.n, meta, h.body, FIELD_ORDER);
    var disk := Ordered(meta, FIELD_ORDER);
    OrderedMembers(meta, FIELD_ORDER);
    RereadAllFinite(host.n, disk);
    OrderedMeta(h, now);
    FromWritten(host, h, now, disk, NormalBody(h.body), stem, status);
  }

  // ---- rewriting ----

  /** What no verb may change: who, what, the thread, the tags, the unknown keys and the body. */
  datatype Essence = Essence(
    id: string, recipient: string, sender: string, title: string, priority: string, collab: string,
    thread: Option<string>, tags: seq<string>, body: string, extra: seq<Entry>)

  function EssenceOf(h: Handoff): Essence {
    Essence(h.id, h.recipient, h.sender, h.title, h.priority, h.collab, h.thread, h.tags, h.body, h.extra)
  }

  /** The bookkeeping a verb does: only these fields may differ. */
  predicate Stamped(h: Handoff, stamped: Handoff) {
    stamped == h.(status := stamped.status, claimedBy := stamped.claimedBy, claimedAt := stamped.claimedAt,
                  doneAt := stamped.doneAt, note := stamped.note)
  }

  lemma TrimTrimmed(o: Option<string>)
    requires Trimmed(o)
    ensures Trim(o) == o
  {
  }

  /** Rewriting any readable handoff with new bookkeeping keeps everything else a reader saw in it:
      only trailing and leading newlines of the body may go, and only the first time. */
  lemma RewriteKeepsEssence(host: Host, text: string, stem: string, status: string, stamped: Handoff, now: string)
    requires Sane(host) && stem != "" && Load(host, text, stem, status).Some?
    requires Stamped(Load(host, text, stem, status).value, stamped)
    ensures var h := Load(host, text, stem, status).value;
      var back := Load(host, Render(host, stamped, now), stem, stamped.status);
      && back.Some? && back.value.claimedBy == Trim(stamped.claimedBy)
      && EssenceOf(back.value) == EssenceOf(h).(body := NormalBody(h.body))
      && NormalBody(back.value.body) == back.value.body
  {
    hide Sane, Load, Render, NormalBody, Canonical, Lower, Printable, Trim, Trimmed;
    var h := Load(host, text, stem, status).value;
    LoadedIsKnown(host, text, stem, status);
    Reload(host, stamped, now, stem, stamped.status);
    TrimTrimmed(h.thread);
    NormalBodyTwice(h.body);
  }

  lemma NormalBodyTwice(body: string)
    ensures NormalBody(NormalBody(body)) == NormalBody(body)
  {
    NormalBodyStable(body);
  }

  /** str() of a text is the text; of anything else, some text that is not empty. */
  function ShowPlainly(v: Value): string {
    match v
    case One(Str(s)) => s
    case _ => "?"
  }

  /** A host that meets Sane: plain numerals and the built-in seat table. */
  lemma PlainHostIsSane()
    ensures Sane(Host(FrontmatterNumerals.PLAIN, ShowPlainly, f => false, BUILT_IN))
  {
    hide Faithful, Tidied, Settled;
    FrontmatterNumerals.PlainIsFaithful();
    BuiltInIsSettled();
  }
}
