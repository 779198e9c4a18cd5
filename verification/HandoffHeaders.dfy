/** The header of a handoff file, key by key: what a written one says, and what is made of one that
    somebody else wrote. */
module HandoffHeaders {
  import opened Wrappers
  import opened Text
  import opened Frontmatter
  import opened FrontmatterScalars
  import opened FrontmatterRoundTrip
  import FrontmatterByHand
  import opened Seats
  import opened HandoffModel
  import opened HandoffReload

  function Said(text: string): Value {
    One(Str(text))
  }

  /** The value a text that may be missing or empty is written as. */
  function SaidIfAny(o: Option<string>): Value {
    if o.None? || o.value == "" then NULL else Said(o.value)
  }

  /** Under each known key the field of that name, and nothing where it is empty. */
  ghost predicate Says(meta: seq<Entry>, h: Handoff, now: string) {
    && Get(meta, "id") == Said(h.id) && Get(meta, "to") == Said(h.recipient) && Get(meta, "from") == Said(h.sender)
    && Get(meta, "title") == Said(h.title) && Get(meta, "priority") == Said(h.priority)
    && Get(meta, "status") == Said(h.status)
    && Get(meta, "created") == Said(if h.created == "" then now else h.created)
    && Get(meta, "collab") == (if h.collab == "" then NULL else Said(h.collab))
    && Get(meta, "thread") == SaidIfAny(h.thread)
    && Get(meta, "tags") == (if h.tags == [] then NULL else Many(Scalars(h.tags)))
    && Get(meta, "claimed_by") == SaidIfAny(h.claimedBy) && Get(meta, "claimed_at") == SaidIfAny(h.claimedAt)
    && Get(meta, "done_at") == SaidIfAny(h.doneAt) && Get(meta, "note") == SaidIfAny(h.note)
  }

  lemma WrittenSays(h: Handoff, now: string, disk: seq<Entry>)
    requires ExtraIsUnknown(h) && Written(disk, h, now)
    ensures Says(disk, h, now)
  {
    hide Meta, Get, Written, Scalars, ExtraIsUnknown;
    FieldsBack(h, now, disk);
    FieldBack(h, now, disk, 5);
    FieldBack(h, now, disk, 8);
    FieldBack(h, now, disk, 10);
    FieldBack(h, now, disk, 11);
    FieldBack(h, now, disk, 12);
    FieldBack(h, now, disk, 13);
  }

  /** What a written file's header says. */
  lemma HeaderSays(host: Host, h: Handoff, now: string)
    requires Sane(host) && Known(host, h)
    ensures var doc := Parse(host.n, Render(host, h, now)); doc.Ok? && Says(doc.value.meta, h, now)
  {
    hide Canonical, Lower, Meta, Identifier, FiniteValue, DumpsSpec, Parse, NormalBody, Ordered, Printable, Says;
    var meta := Meta(h, now);
    MetaPrintable(h, now);
    PrintableParts(meta);
    NotPinnedTwice(meta);
    DocumentRoundTrip(host.n, meta, h.body, FIELD_ORDER);
    var disk := Ordered(meta, FIELD_ORDER);
    OrderedMembers(meta, FIELD_ORDER);
    RereadAllFinite(host.n, disk);
    OrderedMeta(h, now);
    WrittenSays(h, now, disk);
  }

  lemma PrintableParts(meta: seq<Entry>)
    requires Printable(meta)
    ensures IdentifierKeys(meta) && Distinct(meta) && AllFinite(meta)
  {
  }

  /** What is read from a header whose values are texts: each field from its own key. */
  lemma HeaderRead(host: Host, meta: seq<Entry>, body: string, stem: string, status: string, key: string,
                   text: string)
    requires Sane(host) && Get(meta, key) == Said(text) && text != ""
    requires FromMeta(host, meta, body, stem, status).Some?
    ensures var h := FromMeta(host, meta, body, stem, status).value;
      && h.body == body && h.status == status
      && (key == "id" ==> h.id == text) && (key == "title" ==> h.title == text)
      && (key == "created" ==> h.created == text) && (key == "collab" ==> h.collab == text)
      && (key == "priority" ==> h.priority == Lower(text))
      && (key == "to" && Strip(text) != "" ==> h.recipient == Canonical(host.aliases, text, ""))
      && (key == "from" ==> h.sender == Canonical(host.aliases, text, ""))
      && (key == "thread" ==> h.thread == if Strip(text) == "" then None else Some(Strip(text)))
      && (key == "claimed_by" ==> h.claimedBy == if Strip(text) == "" then None else Some(Strip(text)))
      && (key == "claimed_at" ==> h.claimedAt == if Strip(text) == "" then None else Some(Strip(text)))
      && (key == "done_at" ==> h.doneAt == if Strip(text) == "" then None else Some(Strip(text)))
      && (key == "note" ==> h.note == if Strip(text) == "" then None else Some(Strip(text)))
  {
    hide Get, Unlisted, Strip, Tidied, Settled, Faithful;
    assert host.show(Said(text)) == text;
    LowerBlank(Strip(text));
  }

  lemma LowerBlank(s: string)
    ensures Lower(s) == "" <==> s == ""
  {
  }

  /** And what stands in for a key that is missing or null. */
  lemma HeaderDefaults(host: Host, meta: seq<Entry>, body: string, stem: string, status: string, key: string)
    requires Sane(host) && Get(meta, key) == NULL && FromMeta(host, meta, body, stem, status).Some?
    ensures var h := FromMeta(host, meta, body, stem, status).value;
      && (key == "id" ==> h.id == stem) && (key == "title" ==> h.title == "(untitled)")
      && (key == "created" ==> h.created == "") && (key == "collab" ==> h.collab == "")
      && (key == "priority" ==> h.priority == "normal")
      && (key == "to" ==> h.recipient == "all") && (key == "from" ==> h.sender == "")
      && (key == "tags" ==> h.tags == []) && (key == "thread" ==> h.thread == None)
      && (key == "claimed_by" ==> h.claimedBy == None) && (key == "claimed_at" ==> h.claimedAt == None)
      && (key == "done_at" ==> h.doneAt == None) && (key == "note" ==> h.note == None)
  {
    hide Get, Unlisted, Tidied, Settled, Faithful;
  }

  // ---- tags ----

  predicate NoCommas(parts: seq<string>) {
    forall k :: 0 <= k < |parts| ==> ',' !in parts[k]
  }

  lemma {:induction false} TagPart(part: string, tail: string, buf: string)
    requires ',' !in part
    ensures SplitTags(part + tail, buf) == SplitTags(tail, buf + part)
    decreases |part|
  {
    if part == "" {
      assert part + tail == tail && buf + part == buf;
    } else {
      assert (part + tail)[1..] == part[1..] + tail;
      TagPart(part[1..], tail, buf + [part[0]]);
      assert (buf + [part[0]]) + part[1..] == buf + part;
    }
  }

  /** Tags written as one text are its pieces between commas, stripped, without the blank ones. */
  lemma {:induction false} TagsBetweenCommas(parts: seq<string>)
    requires parts != [] && NoCommas(parts)
    ensures SplitTags(FrontmatterByHand.JoinCommas(parts), "") == StripTags(parts)
    decreases |parts|
  {
    hide Strip;
    var first, rest := parts[0], parts[1..];
    assert "" + first == first;
    if |parts| == 1 {
      TagPart(first, "", "");
      assert first + "" == first && rest == [];
    } else {
      var tail := "," + FrontmatterByHand.JoinCommas(rest);
      assert tail[1..] == FrontmatterByHand.JoinCommas(rest);
      assert FrontmatterByHand.JoinCommas(parts) == first + tail;
      TagPart(first, tail, "");
      TagsBetweenCommas(rest);
    }
  }
}
