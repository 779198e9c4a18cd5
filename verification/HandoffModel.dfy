/** tools/collabkit/model.py: a handoff record, the metadata it is written as, and the record a
    reader gets back. */
module HandoffModel {
  import opened Wrappers
  import opened Text
  import opened Frontmatter
  import FrontmatterScalars
  import FrontmatterRoundTrip
  import opened Seats

  datatype Handoff = Handoff(
    id: string, recipient: string, sender: string, title: string, priority: string, status: string,
    created: string, collab: string, thread: Option<string>, tags: seq<string>,
    claimedBy: Option<string>, claimedAt: Option<string>, doneAt: Option<string>, note: Option<string>,
    body: string, extra: seq<Entry>)

  // What the code takes from Python and the environment: number syntax, str(), which floats are
  // falsy, and the seat table.
  datatype Host = Host(n: Numerals, show: Value -> string, zero: Float -> bool, aliases: Aliases)

  const FIELD_ORDER := [
    "id", "to", "from", "title", "priority", "status", "created", "collab", "thread", "tags",
    "claimed_by", "claimed_at", "done_at", "note"]

  predicate Truthy(host: Host, v: Value) {
    match v
    case One(Null) => false
    case One(Bool(b)) => b
    case One(Int(i)) => i != 0
    case One(Flt(f)) => !host.zero(f)
    case One(Str(s)) => s != ""
    case Many(items) => items != []
  }

  ghost predicate Sane(host: Host) {
    && FrontmatterScalars.Faithful(host.n)
    && (forall s :: host.show(One(Str(s))) == s)
    && (forall v :: Truthy(host, v) ==> host.show(v) != "")
    && Tidied(host.aliases) && Settled(host.aliases)
    && BROADCAST in host.aliases && host.aliases[BROADCAST] == BROADCAST
  }

  // ---- creating ----

  const PRIORITIES := ["low", "normal", "high", "urgent"]

  /** None when the priority is not one of the closed set, so that creating raises. */
  function NormalPriority(raw: string): Option<string> {
    var text := Lower(Strip(raw));
    if text == "" then Some("normal") else if text in PRIORITIES then Some(text) else None
  }

  function StripTags(tags: seq<string>): seq<string> {
    if tags == [] then []
    else (if Strip(tags[0]) == "" then [] else [Strip(tags[0])]) + StripTags(tags[1..])
  }

  /** The record create builds, or None for the ones it refuses. */
  function Draft(host: Host, addressee: string, sender: string, title: string, body: string, priority: string,
                 tags: seq<string>, thread: Option<string>, collab: string, id: string, now: string): Option<Handoff> {
    var recipient := Canonical(host.aliases, addressee, "");
    if Strip(title) == "" || recipient == "" || NormalPriority(priority).None? then None
    else Some(Handoff(
      id, recipient, Canonical(host.aliases, sender, Counterpart(host.aliases, recipient)), Strip(title),
      NormalPriority(priority).value, "pending", now, collab, if thread == Some("") then None else thread,
      StripTags(tags), None, None, None, None, body, []))
  }

  // ---- reading ----

  const NULL := One(Null)

  /** dict.get. */
  function Get(meta: seq<Entry>, key: string): Value {
    if HasKey(meta, key) then Find(meta, key).value else NULL
  }

  /** str(value or default). */
  function StrOr(host: Host, v: Value, default: string): string {
    if Truthy(host, v) then host.show(v) else default
  }

  function OptStr(host: Host, v: Value): Option<string> {
    if v == NULL then None else NonEmpty(Strip(host.show(v)))
  }

  function NonEmpty(s: string): Option<string> {
    if s == "" then None else Some(s)
  }

  /** None when the value has no strip method, so that reading it raises. */
  function Seat(host: Host, v: Value, default: string): Option<string> {
    if v.One? && v.scalar.Str? then Some(Canonical(host.aliases, v.scalar.s, default))
    else if Truthy(host, v) then None
    else Some(Canonical(host.aliases, "", default))
  }

  /** The non-blank parts between commas, stripped; buf is the part read so far. */
  function SplitTags(s: string, buf: string): seq<string> {
    var part := if Strip(buf) == "" then [] else [Strip(buf)];
    if s == "" then part
    else if s[0] == ',' then part + SplitTags(s[1..], "")
    else SplitTags(s[1..], buf + [s[0]])
  }

  function ShowItems(host: Host, items: seq<Scalar>): seq<string> {
    if items == [] then []
    else (if items[0] == Null then [] else [host.show(One(items[0]))]) + ShowItems(host, items[1..])
  }

  function ReadTags(host: Host, v: Value): seq<string> {
    match v
    case One(Str(s)) => SplitTags(s, "")
    case Many(items) => ShowItems(host, items)
    case _ => []
  }

  /** from_meta as the store calls it: the directory decides the status. */
  function FromMeta(host: Host, meta: seq<Entry>, body: string, stem: string, status: string): Option<Handoff> {
    var recipient := Seat(host, Get(meta, "to"), BROADCAST);
    var sender := Seat(host, Get(meta, "from"), "");
    if recipient.None? || sender.None? then None
    else Some(Handoff(
      StrOr(host, Get(meta, "id"), stem), recipient.value, sender.value,
      StrOr(host, Get(meta, "title"), "(untitled)"), Lower(StrOr(host, Get(meta, "priority"), "normal")), status,
      StrOr(host, Get(meta, "created"), ""), StrOr(host, Get(meta, "collab"), ""),
      OptStr(host, Get(meta, "thread")), ReadTags(host, Get(meta, "tags")),
      OptStr(host, Get(meta, "claimed_by")), OptStr(host, Get(meta, "claimed_at")),
      OptStr(host, Get(meta, "done_at")), OptStr(host, Get(meta, "note")),
      body, Unlisted(meta, FIELD_ORDER)))
  }

  /** What a reader sees in a file; None when reading raises. */
  function Load(host: Host, text: string, stem: string, status: string): Option<Handoff> {
    var doc := Parse(host.n, text);
    if doc.Err? then None else FromMeta(host, doc.value.meta, doc.value.body, stem, status)
  }

  // ---- writing ----

  function OneText(s: string): Option<Value> {
    Some(One(Str(s)))
  }

  function Unless(omit: bool, v: Value): Option<Value> {
    if omit then None else Some(v)
  }

  function Optional(o: Option<string>): Option<Value> {
    if o.None? || o.value == "" then None else OneText(o.value)
  }

  function Scalars(tags: seq<string>): (r: seq<Scalar>)
    ensures |r| == |tags|
  {
    seq(|tags|, i requires 0 <= i < |tags| => Str(tags[i]))
  }

  /** The value written under the k-th known key, if one is. */
  function Field(h: Handoff, now: string, k: nat): Option<Value> {
    match k
    case 0 => OneText(h.id)
    case 1 => OneText(h.recipient)
    case 2 => OneText(h.sender)
    case 3 => OneText(h.title)
    case 4 => OneText(h.priority)
    case 5 => OneText(h.status)
    case 6 => OneText(if h.created == "" then now else h.created)
    case 7 => Unless(h.collab == "", One(Str(h.collab)))
    case 8 => Optional(h.thread)
    case 9 => Unless(h.tags == [], Many(Scalars(h.tags)))
    case 10 => Optional(h.claimedBy)
    case 11 => Optional(h.claimedAt)
    case 12 => Optional(h.doneAt)
    case 13 => Optional(h.note)
    case _ => None
  }

  function KnownFrom(h: Handoff, now: string, k: nat): seq<Entry>
    requires k <= |FIELD_ORDER|
    decreases |FIELD_ORDER| - k
  {
    if k == |FIELD_ORDER| then []
    else
      (if Field(h, now, k).Some? then [Entry(FIELD_ORDER[k], Field(h, now, k).value)] else [])
      + KnownFrom(h, now, k + 1)
  }

  /** The metadata a record is written as: its known fields, then the keys this version does not know. */
  function Meta(h: Handoff, now: string): seq<Entry> {
    KnownFrom(h, now, 0) + h.extra
  }

  function Render(host: Host, h: Handoff, now: string): string {
    DumpsSpec(host.n, Meta(h, now), h.body, FIELD_ORDER)
  }

  /** dict item assignment. */
  function Put(meta: seq<Entry>, e: Entry): seq<Entry> {
    if meta == [] then [e]
    else if meta[0].key == e.key then [e] + meta[1..]
    else [meta[0]] + Put(meta[1..], e)
  }

  /** No key of the unknown part is a known one: what from_meta builds and create leaves empty. */
  predicate ExtraIsUnknown(h: Handoff) {
    && FrontmatterRoundTrip.Distinct(h.extra)
    && forall i :: 0 <= i < |h.extra| ==> h.extra[i].key !in FIELD_ORDER
  }

  lemma {:induction false} PutFresh(meta: seq<Entry>, e: Entry)
    requires !HasKey(meta, e.key)
    ensures Put(meta, e) == meta + [e]
  {
    if meta != [] {
      assert meta[0].key != e.key;
      forall i | 0 <= i < |meta| - 1 ensures meta[1..][i].key != e.key {
        assert meta[i + 1].key != e.key;
      }
      PutFresh(meta[1..], e);
      assert [meta[0]] + (meta[1..] + [e]) == meta + [e];
    }
  }

  lemma FieldOrderDistinct()
    ensures forall i, j :: 0 <= i < j < |FIELD_ORDER| ==> FIELD_ORDER[i] != FIELD_ORDER[j]
  {
  }

  // ---- the metadata as a dict ----

  /** The known fields that are written: keys from k on, each once, with their values. */
  lemma {:induction false} KnownMembers(h: Handoff, now: string, k: nat, e: Entry)
    requires k <= |FIELD_ORDER|
    ensures e in KnownFrom(h, now, k) <==>
      exists i :: k <= i < |FIELD_ORDER| && FIELD_ORDER[i] == e.key && Field(h, now, i) == Some(e.value)
    decreases |FIELD_ORDER| - k
  {
    hide Field;
    if k < |FIELD_ORDER| {
      KnownMembers(h, now, k + 1, e);
    }
  }

  lemma {:induction false} KnownDistinct(h: Handoff, now: string, k: nat)
    requires k <= |FIELD_ORDER|
    ensures FrontmatterRoundTrip.Distinct(KnownFrom(h, now, k))
    decreases |FIELD_ORDER| - k
  {
    hide Field;
    if k < |FIELD_ORDER| {
      KnownDistinct(h, now, k + 1);
      if Field(h, now, k).Some? {
        var e, tail := Entry(FIELD_ORDER[k], Field(h, now, k).value), KnownFrom(h, now, k + 1);
        forall y | y in tail ensures e.key != y.key {
          KnownMembers(h, now, k + 1, y);
          FieldOrderDistinct();
        }
        FrontmatterRoundTrip.DistinctConcat([e], tail);
      }
    }
  }

  lemma MetaDistinct(h: Handoff, now: string)
    requires ExtraIsUnknown(h)
    ensures FrontmatterRoundTrip.Distinct(Meta(h, now))
  {
    KnownDistinct(h, now, 0);
    forall x, y | x in KnownFrom(h, now, 0) && y in h.extra ensures x.key != y.key {
      KnownMembers(h, now, 0, x);
      var i :| 0 <= i < |h.extra| && h.extra[i] == y;
    }
    FrontmatterRoundTrip.DistinctConcat(KnownFrom(h, now, 0), h.extra);
  }

  lemma WrittenOnce(h: Handoff, now: string, e: Entry, k: nat)
    requires ExtraIsUnknown(h) && k < |FIELD_ORDER|
    requires e in Meta(h, now) && e.key == FIELD_ORDER[k]
    ensures Field(h, now, k) == Some(e.value)
  {
    hide Field, KnownFrom;
    assert e !in h.extra by {
      forall i | 0 <= i < |h.extra| ensures h.extra[i] != e {
        assert FIELD_ORDER[k] in FIELD_ORDER;
      }
    }
    KnownMembers(h, now, 0, e);
    FieldOrderDistinct();
  }

  lemma FieldIsWritten(h: Handoff, now: string, k: nat)
    requires k < |FIELD_ORDER| && Field(h, now, k).Some?
    ensures Entry(FIELD_ORDER[k], Field(h, now, k).value) in Meta(h, now)
  {
    hide Field, KnownFrom;
    KnownMembers(h, now, 0, Entry(FIELD_ORDER[k], Field(h, now, k).value));
  }

  /** Looking a known key up in any dict with the written items gives the field. */
  lemma GetField(h: Handoff, now: string, disk: seq<Entry>, k: nat)
    requires ExtraIsUnknown(h) && k < |FIELD_ORDER|
    requires FrontmatterRoundTrip.Distinct(disk) && FrontmatterRoundTrip.SameItems(disk, Meta(h, now))
    ensures Get(disk, FIELD_ORDER[k]) == if Field(h, now, k).Some? then Field(h, now, k).value else NULL
  {
    hide Field, KnownFrom, Meta;
    var key := FIELD_ORDER[k];
    if Field(h, now, k).Some? {
      FieldIsWritten(h, now, k);
      FrontmatterRoundTrip.FindIs(disk, Entry(key, Field(h, now, k).value));
    } else if HasKey(disk, key) {
      WrittenOnce(h, now, Find(disk, key), k);
    }
  }

  /** dict.update: each item replaces the one with its key, or comes last. */
  function Updated(meta: seq<Entry>, extra: seq<Entry>): seq<Entry>
    decreases |extra|
  {
    if extra == [] then meta else Updated(Put(meta, extra[0]), extra[1..])
  }

  /** With keys the dict does not have it appends. */
  lemma {:induction false} UpdatedFresh(known: seq<Entry>, extra: seq<Entry>)
    requires FrontmatterRoundTrip.Distinct(known + extra)
    ensures Updated(known, extra) == known + extra
    decreases |extra|
  {
    if extra == [] {
      assert known + extra == known;
    } else {
      forall j | 0 <= j < |known| ensures known[j].key != extra[0].key {
        assert known[j] == (known + extra)[j] && extra[0] == (known + extra)[|known|];
      }
      PutFresh(known, extra[0]);
      assert (known + [extra[0]]) + extra[1..] == known + extra;
      UpdatedFresh(known + [extra[0]], extra[1..]);
    }
  }

  method Update(known: seq<Entry>, extra: seq<Entry>) returns (meta: seq<Entry>)
    ensures meta == Updated(known, extra)
  {
    meta := known;
    var i := 0;
    while i < |extra|
      invariant 0 <= i <= |extra|
      invariant Updated(known, extra) == Updated(meta, extra[i..])
    {
      assert extra[i..][0] == extra[i] && extra[i..][1..] == extra[i + 1..];
      meta := Put(meta, extra[i]);
      i := i + 1;
    }
  }

  /** dict assignment in the order of the source. */
  method ToMeta(h: Handoff, now: string) returns (meta: seq<Entry>)
    ensures meta == Updated(KnownFrom(h, now, 0), h.extra)
    ensures ExtraIsUnknown(h) ==> meta == Meta(h, now)
  {
    hide KnownFrom, Field;
    meta := [
      Entry("id", One(Str(h.id))), Entry("to", One(Str(h.recipient))), Entry("from", One(Str(h.sender))),
      Entry("title", One(Str(h.title))), Entry("priority", One(Str(h.priority))), Entry("status", One(Str(h.status))),
      Entry("created", One(Str(if h.created == "" then now else h.created)))];
    ghost var first := meta;
    KnownHead(h, now, first);
    if h.collab != "" { meta := meta + [Entry("collab", One(Str(h.collab)))]; }
    if h.thread.Some? && h.thread.value != "" { meta := meta + [Entry("thread", One(Str(h.thread.value)))]; }
    if h.tags != [] { meta := meta + [Entry("tags", Many(Scalars(h.tags)))]; }
    KnownMiddle(h, now, meta, first);
    var values := [h.claimedBy, h.claimedAt, h.doneAt, h.note];
    var k := 0;
    while k < 4
      invariant 0 <= k <= 4
      invariant meta + KnownFrom(h, now, 10 + k) == KnownFrom(h, now, 0)
    {
      if values[k].Some? && values[k].value != "" {
        meta := meta + [Entry(FIELD_ORDER[10 + k], One(Str(values[k].value)))];
      }
      KnownStep(h, now, k);
      k := k + 1;
    }
    KnownEnd(h, now);
    assert meta == KnownFrom(h, now, 0);
    meta := Update(meta, h.extra);
    if ExtraIsUnknown(h) {
      MetaDistinct(h, now);
      UpdatedFresh(KnownFrom(h, now, 0), h.extra);
    }
  }

  lemma KnownHead(h: Handoff, now: string, first: seq<Entry>)
    requires first == [
      Entry("id", One(Str(h.id))), Entry("to", One(Str(h.recipient))), Entry("from", One(Str(h.sender))),
      Entry("title", One(Str(h.title))), Entry("priority", One(Str(h.priority))), Entry("status", One(Str(h.status))),
      Entry("created", One(Str(if h.created == "" then now else h.created)))]
    ensures KnownFrom(h, now, 0) == first + KnownFrom(h, now, 7)
  {
    hide KnownFrom;
    KnownUnfold(h, now, 0);
    KnownUnfold(h, now, 1);
    KnownUnfold(h, now, 2);
    KnownUnfold(h, now, 3);
    KnownUnfold(h, now, 4);
    KnownUnfold(h, now, 5);
    KnownUnfold(h, now, 6);
  }

  lemma KnownUnfold(h: Handoff, now: string, k: nat)
    requires k < |FIELD_ORDER|
    ensures KnownFrom(h, now, k) ==
      (if Field(h, now, k).Some? then [Entry(FIELD_ORDER[k], Field(h, now, k).value)] else [])
      + KnownFrom(h, now, k + 1)
  {
  }

  lemma KnownEnd(h: Handoff, now: string)
    ensures KnownFrom(h, now, |FIELD_ORDER|) == []
  {
  }

  lemma KnownMiddle(h: Handoff, now: string, meta: seq<Entry>, first: seq<Entry>)
    requires meta == first
      + (if h.collab != "" then [Entry("collab", One(Str(h.collab)))] else [])
      + (if h.thread.Some? && h.thread.value != "" then [Entry("thread", One(Str(h.thread.value)))] else [])
      + (if h.tags != [] then [Entry("tags", Many(Scalars(h.tags)))] else [])
    requires KnownFrom(h, now, 0) == first + KnownFrom(h, now, 7)
    ensures meta + KnownFrom(h, now, 10) == KnownFrom(h, now, 0)
  {
    hide KnownFrom;
    KnownUnfold(h, now, 7);
    KnownUnfold(h, now, 8);
    KnownUnfold(h, now, 9);
  }

  lemma KnownStep(h: Handoff, now: string, k: nat)
    requires k < 4
    ensures var v := [h.claimedBy, h.claimedAt, h.doneAt, h.note][k];
      KnownFrom(h, now, 10 + k) ==
        (if v.Some? && v.value != "" then [Entry(FIELD_ORDER[10 + k], One(Str(v.value)))] else [])
        + KnownFrom(h, now, 11 + k)
  {
  }
}
