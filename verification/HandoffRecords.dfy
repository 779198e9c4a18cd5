/** What the store's calls leave on record: who claimed and when, what was noted, and what a created
    handoff says; and which calls succeed. */
module HandoffRecords {
  import opened Wrappers
  import opened Text
  import opened Frontmatter
  import opened FrontmatterScalars
  import opened FrontmatterRoundTrip
  import opened Seats
  import opened HandoffModel
  import opened HandoffReload
  import opened HandoffHeaders
  import opened HandoffStore
  import opened HandoffStoreProofs
  import opened HandoffVerbs

  /** The record a successful verb leaves, and the status its file carries. */
  ghost predicate Left(host: Host, files: Files, locks: set<string>, verb: Verb, words: string, now: string,
                       platform: Platform, target: Dir, was: Handoff, back: Handoff) {
    var r := SearchFor(host, files, verb, words);
    var after := Performed(host, files, locks, verb, words, now, platform).1;
    && r.Hit? && was == r.h && Place(target, was.id) in after
    && Load(host, after[Place(target, was.id)], was.id, DirName(target)) == Some(back)
  }

  /** The header itself says the status. */
  ghost predicate SaysStatus(host: Host, text: string, status: string) {
    var doc := Parse(host.n, text);
    doc.Ok? && Get(doc.value.meta, "status") == One(Str(status))
  }

  lemma RenderSaysStatus(host: Host, h: Handoff, now: string)
    requires Sane(host) && Known(host, h)
    ensures SaysStatus(host, Render(host, h, now), h.status)
  {
    hide Canonical, Lower, Render, Parse, Known, Get;
    HeaderSays(host, h, now);
  }

  lemma VerbLeaves(host: Host, files: Files, locks: set<string>, verb: Verb, words: string, now: string,
                   platform: Platform)
    returns (was: Handoff, back: Handoff)
    requires Sane(host) && forall place :: place in files ==> place.id != ""
    requires Performed(host, files, locks, verb, words, now, platform).0 == Ended(Succeeded)
    ensures Left(host, files, locks, verb, words, now, platform, Target(verb), was, back)
    ensures Known(host, was) && HandoffReload.Stripped(was)
    ensures back == if platform.rewrites then Seen(Stamp(host, verb, was, now), now, DirName(Target(verb)))
                    else was.(status := DirName(Target(verb)))
    ensures platform.rewrites ==>
      SaysStatus(host, Performed(host, files, locks, verb, words, now, platform).1[Place(Target(verb), was.id)],
                 DirName(Target(verb)))
  {
    hide Sane, Load, Render, Stamp, SearchFor, Known, HandoffReload.Stripped, Parse, Seen, SaysStatus;
    SearchHits(host, files, verb, words);
    var r := SearchFor(host, files, verb, words);
    was := r.h;
    var text := files[r.place];
    LoadedIsKnown(host, text, r.place.id, DirName(r.place.dir));
    ReadsUnderItsName(host, text, r.place.id, was, DirName(r.place.dir), DirName(Target(verb)));
    if platform.rewrites {
      var stamped := Stamp(host, verb, was, now);
      StampIsStamped(host, verb, was, now);
      StampedStatus(host, verb, was, now);
      StampedKnown(host, was, stamped);
      Reload(host, stamped, now, was.id, DirName(Target(verb)));
      RenderSaysStatus(host, stamped, now);
      back := Seen(stamped, now, DirName(Target(verb)));
    } else {
      back := was.(status := DirName(Target(verb)));
    }
  }

  lemma StampedKnown(host: Host, h: Handoff, stamped: Handoff)
    requires Known(host, h) && Stamped(h, stamped)
    ensures Known(host, stamped)
  {
  }

  /** A rewritten record, apart from the bookkeeping: the creation time filled in, the body normal. */
  function Rewritten(was: Handoff, status: string, now: string): Handoff {
    was.(status := status, created := if was.created == "" then now else was.created,
         body := NormalBody(was.body))
  }

  lemma SeatIsTight(host: Host, word: string)
    requires Sane(host) && word in host.aliases
    ensures Trim(Some(host.aliases[word])) == Some(host.aliases[word]) && host.aliases[word] != "" && word != ""
  {
    assert Plainly(host.aliases[word]) && Plainly(word);
    TrimTrimmed(Some(host.aliases[word]));
  }

  lemma WordIsTight(words: string)
    requires Lower(Strip(words)) != ""
    ensures Trim(Some(Lower(Strip(words)))) == Some(Lower(Strip(words)))
  {
    StripIsTight(words);
    LowerTight(Strip(words));
    TrimTrimmed(Some(Lower(Strip(words))));
  }

  lemma RecipientIsTight(host: Host, h: Handoff)
    requires Sane(host) && Known(host, h)
    ensures h.recipient != "" && Trim(Some(h.recipient)) == Some(h.recipient)
  {
    hide Lower, Strip, Printable;
    if Lower(Strip(h.recipient)) == "" {
      SeatIsTight(host, BROADCAST);
    } else if Lower(Strip(h.recipient)) in host.aliases {
      SeatIsTight(host, Lower(Strip(h.recipient)));
    } else {
      WordIsTight(h.recipient);
    }
  }

  lemma StrippedTrims(was: Handoff)
    requires HandoffReload.Stripped(was)
    ensures Trim(was.thread) == was.thread && Trim(was.claimedBy) == was.claimedBy
    ensures Trim(was.claimedAt) == was.claimedAt && Trim(was.doneAt) == was.doneAt && Trim(was.note) == was.note
    ensures was.claimedBy != Some("")
  {
    hide Trim, Strip;
    TrimTrimmed(was.thread);
    TrimTrimmed(was.claimedBy);
    TrimTrimmed(was.claimedAt);
    TrimTrimmed(was.doneAt);
    TrimTrimmed(was.note);
  }

  /** A seat on record: the one the table gives that spelling, in any case and with blanks around it; a
      name the table does not know stands for itself. */
  predicate Names(host: Host, spelling: string, seat: string) {
    var word := Lower(Strip(spelling));
    word != "" && seat == if word in host.aliases then host.aliases[word] else word
  }

  /** What a successful claim leaves for a reader: the record as it was, claimed now by the seat the caller
      named, or by its recipient when the caller named none. */
  lemma ClaimIsRecorded(host: Host, files: Files, locks: set<string>, claimant: string, words: string, now: string,
                        platform: Platform)
    returns (was: Handoff, back: Handoff)
    requires Sane(host) && (forall place :: place in files ==> place.id != "") && Tight(now) && platform.rewrites
    requires Performed(host, files, locks, Verb.Claim(claimant), words, now, platform).0 == Ended(Succeeded)
    ensures Left(host, files, locks, Verb.Claim(claimant), words, now, platform, Claimed, was, back)
    ensures back == Rewritten(was, "claimed", now).(claimedBy := back.claimedBy, claimedAt := Some(now))
    ensures if Strip(claimant) == "" then back.claimedBy == Some(was.recipient)
            else back.claimedBy.Some? && Names(host, claimant, back.claimedBy.value)
    ensures SaysStatus(host, Performed(host, files, locks, Verb.Claim(claimant), words, now, platform).1
                               [Place(Claimed, was.id)], "claimed")
  {
    hide Left, Sane, Known, HandoffReload.Stripped, Lower, Strip, Trim, Performed, SaysStatus;
    was, back := VerbLeaves(host, files, locks, Verb.Claim(claimant), words, now, platform);
    StrippedTrims(was);
    TrimTrimmed(Some(now));
    RecipientIsTight(host, was);
    var word := Lower(Strip(claimant));
    BlankWord(claimant);
    if word in host.aliases { SeatIsTight(host, word); } else if word != "" { WordIsTight(claimant); }
  }

  lemma BlankWord(s: string)
    ensures Lower(Strip(s)) == "" <==> Strip(s) == ""
  {
  }

  /** What a successful complete leaves: the record as it was, done now, with a note that is not empty in
      the old one's place; its claimant stays, or becomes the seat the finisher named if it had none. */
  lemma CompletionIsRecorded(host: Host, files: Files, locks: set<string>, note: string, finisher: string,
                             words: string, now: string, platform: Platform)
    returns (was: Handoff, back: Handoff)
    requires Sane(host) && (forall place :: place in files ==> place.id != "") && Tight(now) && platform.rewrites
    requires Performed(host, files, locks, Verb.Complete(note, finisher), words, now, platform).0 == Ended(Succeeded)
    ensures Left(host, files, locks, Verb.Complete(note, finisher), words, now, platform, Finished, was, back)
    ensures back == Rewritten(was, "done", now).(claimedBy := back.claimedBy, doneAt := Some(now), note := back.note)
    ensures if note == "" then back.note == was.note
            else if Strip(note) == "" then back.note == None
            else back.note == Some(Strip(note))
    ensures if was.claimedBy.Some? || Strip(finisher) == "" then back.claimedBy == was.claimedBy
            else back.claimedBy.Some? && Names(host, finisher, back.claimedBy.value)
    ensures SaysStatus(host, Performed(host, files, locks, Verb.Complete(note, finisher), words, now, platform).1
                               [Place(Finished, was.id)], "done")
  {
    hide Left, Sane, Known, HandoffReload.Stripped, Lower, Strip, Performed, SaysStatus;
    was, back := VerbLeaves(host, files, locks, Verb.Complete(note, finisher), words, now, platform);
    StrippedTrims(was);
    TrimTrimmed(Some(now));
    var word := Lower(Strip(finisher));
    BlankWord(finisher);
    EmptyStrips();
    if word in host.aliases { SeatIsTight(host, word); } else if word != "" { WordIsTight(finisher); }
  }

  lemma EmptyStrips()
    ensures Strip("") == ""
  {
  }

  /** Archiving records nothing new. */
  lemma ArchiveRecordsNothing(host: Host, files: Files, locks: set<string>, words: string, now: string,
                              platform: Platform)
    returns (was: Handoff, back: Handoff)
    requires Sane(host) && (forall place :: place in files ==> place.id != "") && platform.rewrites
    requires Performed(host, files, locks, Verb.Archive, words, now, platform).0 == Ended(Succeeded)
    ensures Left(host, files, locks, Verb.Archive, words, now, platform, Archived, was, back)
    ensures back == Rewritten(was, "archive", now)
    ensures SaysStatus(host, Performed(host, files, locks, Verb.Archive, words, now, platform).1
                               [Place(Archived, was.id)], "archive")
  {
    hide Left, Sane, Known, HandoffReload.Stripped, Strip, Trim, Performed, SaysStatus;
    was, back := VerbLeaves(host, files, locks, Verb.Archive, words, now, platform);
    StrippedTrims(was);
  }

  /** When the rewrite fails the move stands and the record is the old one, in its new directory. */
  lemma FailedRewriteRecordsNothing(host: Host, files: Files, locks: set<string>, verb: Verb, words: string,
                                    now: string, platform: Platform)
    returns (was: Handoff, back: Handoff)
    requires Sane(host) && (forall place :: place in files ==> place.id != "") && !platform.rewrites
    requires Performed(host, files, locks, verb, words, now, platform).0 == Ended(Succeeded)
    ensures Left(host, files, locks, verb, words, now, platform, Target(verb), was, back)
    ensures back == was.(status := DirName(Target(verb)))
  {
    hide Left, Sane, Performed, SaysStatus;
    was, back := VerbLeaves(host, files, locks, verb, words, now, platform);
  }

  // ---- which calls succeed ----

  lemma {:induction false} FirstThere(host: Host, files: Files, verb: Verb, id: string, at: nat, k: nat, h: Handoff)
    requires at <= k < SEARCH_SIZE && Place(SearchAt(verb, k), id) in files
    requires ReadFile(host, Place(SearchAt(verb, k), id), files[Place(SearchAt(verb, k), id)]) == Read(h)
    requires forall j :: at <= j < k ==> Place(SearchAt(verb, j), id) !in files
    ensures ExactPass(host, files, verb, id, at, false) == Hit(Place(SearchAt(verb, k), id), h)
    decreases k - at
  {
    hide ReadFile;
    if at < k { FirstThere(host, files, verb, id, at + 1, k, h); }
  }

  /** Of several copies find takes the least advanced, and for archive the done one first. */
  lemma FindsFirst(host: Host, files: Files, verb: Verb, words: string, k: nat, h: Handoff)
    requires k < 4 && Strip(words) != ""
    requires var order :=
        if verb == Verb.Archive then [Finished, Archived, Claimed, Pending] else [Pending, Claimed, Finished, Archived];
      && Place(order[k], Strip(words)) in files
      && ReadFile(host, Place(order[k], Strip(words)), files[Place(order[k], Strip(words))]) == Read(h)
      && forall j :: 0 <= j < k ==> Place(order[j], Strip(words)) !in files
    ensures var order :=
        if verb == Verb.Archive then [Finished, Archived, Claimed, Pending] else [Pending, Claimed, Finished, Archived];
      SearchFor(host, files, verb, words) == Hit(Place(order[k], Strip(words)), h)
  {
    hide ReadFile, Strip, ExactPass;
    FirstThere(host, files, verb, Strip(words), 0, k, h);
  }

  lemma FindsIt(host: Host, files: Files, verb: Verb, id: string, d: Dir, h: Handoff)
    requires HandoffVerbs.Holding(files, id).Keys == {d} && Strip(id) == id != ""
    requires ReadFile(host, Place(d, id), files[Place(d, id)]) == Read(h)
    ensures SearchFor(host, files, verb, id) == Hit(Place(d, id), h)
  {
    hide ReadFile, Strip, SearchFor;
    OnlyThere(files, id, d);
    var order :=
      if verb == Verb.Archive then [Finished, Archived, Claimed, Pending] else [Pending, Claimed, Finished, Archived];
    assert order[0] == d || order[1] == d || order[2] == d || order[3] == d;
    var k: nat :| k < 4 && order[k] == d;
    FindsFirst(host, files, verb, id, k, h);
  }

  /** For a readable handoff in one place: claim works on a pending one, complete on a pending or a claimed
      one, archive on a done one, and only when nobody holds its lock and renaming works; every other call
      says why not and changes nothing. */
  lemma VerbSucceedsExactly(host: Host, files: Files, locks: set<string>, verb: Verb, id: string, now: string,
                            platform: Platform, d: Dir, h: Handoff)
    requires HandoffVerbs.Holding(files, id).Keys == {d} && Strip(id) == id != "" && h.id == id
    requires ReadFile(host, Place(d, id), files[Place(d, id)]) == Read(h)
    ensures var (answer, after) := Performed(host, files, locks, verb, id, now, platform);
      var inOrder := match verb
        case Claim(_) => d == Pending
        case Complete(_, _) => d == Pending || d == Claimed
        case Archive => d == Finished;
      && (answer == Ended(Succeeded) <==> inOrder && id !in locks && platform.renames)
      && (answer != Ended(Succeeded) ==> after == files)
      && (!inOrder ==> answer == Ended(Conflict))
      && (inOrder && id in locks ==> answer == Ended(TimedOut))
      && (inOrder && id !in locks && !platform.renames ==> answer == Ended(Failed))
  {
    hide ReadFile, Strip, SearchFor, Render, Stamp;
    FindsIt(host, files, verb, id, d, h);
    OnlyThere(files, id, d);
  }

  // ---- finding by the start of an id ----

  /** The record in that place has an id that starts so. */
  predicate StartsSo(host: Host, files: Files, place: Place, words: string) {
    && place in files && ReadFile(host, place, files[place]).Read?
    && var h := ReadFile(host, place, files[place]).h;
       |words| <= |h.id| && h.id[..|words|] == words
  }

  lemma PrefixIs(a: string, b: string)
    ensures a <= b <==> |a| <= |b| && b[..|a|] == a
  {
  }

  lemma MatchesStart(host: Host, files: Files, id: string, place: Place)
    ensures place in Matches(host, files, id) <==> StartsSo(host, files, place, id)
  {
    hide ReadFile;
    if place in files && ReadFile(host, place, files[place]).Read? {
      PrefixIs(id, ReadFile(host, place, files[place]).h.id);
    }
  }

  lemma SizeOfOne<T>(s: set<T>, x: T)
    requires s == {x}
    ensures |s| == 1
  {
  }

  lemma SizeOfTwo<T>(s: set<T>, x: T, y: T)
    requires x in s && y in s && x != y
    ensures |s| > 1
  {
    assert |s - {x}| > 0 by { assert y in s - {x}; }
  }

  /** With no file of that exact name, and every file loadable, the words name the only record whose id they
      start; none is not found, and two are a conflict. */
  lemma PrefixDecides(host: Host, files: Files, verb: Verb, words: string)
    requires Strip(words) != "" && (forall d :: Place(d, Strip(words)) !in files)
    requires forall place :: place in files ==> !ReadFile(host, place, files[place]).WrongType?
    ensures var r := SearchFor(host, files, verb, words);
      && (r.Hit? ==>
            && StartsSo(host, files, r.place, Strip(words)) && r.h == ReadFile(host, r.place, files[r.place]).h
            && forall place :: StartsSo(host, files, place, Strip(words)) ==> place == r.place)
      && (r == Nowhere(false) <==> forall place :: !StartsSo(host, files, place, Strip(words)))
      && (r == Ambiguous <==> exists p, q :: p != q && StartsSo(host, files, p, Strip(words))
                                             && StartsSo(host, files, q, Strip(words)))
  {
    hide ReadFile, Strip, StartsSo, Matches;
    var id := Strip(words);
    var r := SearchFor(host, files, verb, words);
    ExactMisses(host, files, verb, id, 0);
    forall place ensures place in Matches(host, files, id) <==> StartsSo(host, files, place, id) {
      MatchesStart(host, files, id, place);
    }
    var found := Matches(host, files, id);
    if p, q :| p != q && StartsSo(host, files, p, id) && StartsSo(host, files, q, id) {
      SizeOfTwo(found, p, q);
    } else if found != {} {
      var p :| p in found;
      assert found == {p};
      SizeOfOne(found, p);
      assert StartsSo(host, files, p, id);
      MatchesAreThere(host, files, id, p);
    }
  }

  lemma {:induction false} ExactMisses(host: Host, files: Files, verb: Verb, id: string, at: nat)
    requires at <= SEARCH_SIZE && forall d :: Place(d, id) !in files
    ensures ExactPass(host, files, verb, id, at, false) == Nowhere(false)
    decreases SEARCH_SIZE - at
  {
    hide ReadFile;
    if at < SEARCH_SIZE { ExactMisses(host, files, verb, id, at + 1); }
  }

  // ---- creating ----

  /** create refuses exactly a blank title, a blank recipient, and a priority that is none of the four words
      and not blank. */
  lemma CreateRefusesExactly(host: Host, addressee: string, sender: string, title: string, body: string,
                             priority: string, tags: seq<string>, thread: Option<string>, collab: string, id: string,
                             now: string)
    requires Sane(host)
    ensures Draft(host, addressee, sender, title, body, priority, tags, thread, collab, id, now).None? <==>
      || Strip(title) == "" || Strip(addressee) == ""
      || Lower(Strip(priority)) !in {"", "low", "normal", "high", "urgent"}
  {
    hide Strip, Sane;
    BlankWord(addressee);
    hide Lower;
    var word := Lower(Strip(addressee));
    if word in host.aliases { SeatIsTight(host, word); }
  }

  /** The stripped tags that are not blank, in order. */
  lemma {:induction false} TagsKept(tags: seq<string>, tag: string)
    ensures tag in StripTags(tags) <==> tag != "" && exists i :: 0 <= i < |tags| && Strip(tags[i]) == tag
  {
    hide Strip;
    if tags != [] {
      TagsKept(tags[1..], tag);
      if i :| 0 <= i < |tags| && Strip(tags[i]) == tag && tag != "" {
        if i > 0 { assert tags[1..][i - 1] == tags[i]; }
      }
      if i :| 0 <= i < |tags[1..]| && Strip(tags[1..][i]) == tag && tag != "" {
        assert tags[i + 1] == tags[1..][i];
      }
    }
  }

  lemma {:induction false} TagsInOrder(a: seq<string>, b: seq<string>)
    ensures StripTags(a + b) == StripTags(a) + StripTags(b)
  {
    hide Strip;
    if a == [] {
      assert a + b == b;
    } else {
      assert (a + b)[1..] == a[1..] + b;
      TagsInOrder(a[1..], b);
    }
  }

  lemma DraftSays(host: Host, addressee: string, sender: string, title: string, body: string, priority: string,
                  tags: seq<string>, thread: Option<string>, collab: string, id: string, now: string)
    requires Draft(host, addressee, sender, title, body, priority, tags, thread, collab, id, now).Some?
    ensures var h := Draft(host, addressee, sender, title, body, priority, tags, thread, collab, id, now).value;
      && h.id == id && h.title == Strip(title) && h.created == now && h.collab == collab && h.body == body
      && Names(host, addressee, h.recipient)
      && (Strip(sender) != "" ==> Names(host, sender, h.sender))
      && (Strip(sender) == "" ==> h.sender == Counterpart(host.aliases, h.recipient))
      && h.priority == (if Strip(priority) == "" then "normal" else Lower(Strip(priority)))
      && h.tags == StripTags(tags) && h.extra == [] && h.thread == (if thread == Some("") then None else thread)
      && h.claimedBy == h.claimedAt == h.doneAt == h.note == None
  {
    hide Lower, Strip, StripTags, Counterpart;
    BlankWord(addressee);
    BlankWord(sender);
    BlankWord(priority);
  }

  lemma OtherSeat(host: Host, recipient: string)
    requires Canonical(host.aliases, recipient, "") == recipient
    ensures Counterpart(host.aliases, recipient) ==
      match recipient case "builder" => "reviewer" case "reviewer" => "builder" case other => other
  {
  }

  lemma ThreadTrims(thread: Option<string>)
    ensures Trim(if thread == Some("") then None else thread) == Trim(thread)
  {
    EmptyStrips();
  }

  /** What a reader sees of a handoff just created. */
  lemma CreateIsRecorded(host: Host, addressee: string, sender: string, title: string, body: string, priority: string,
                         tags: seq<string>, thread: Option<string>, collab: string, id: string, now: string)
    returns (back: Handoff)
    requires Sane(host) && SeatsKeepTheirNames(host) && id != "" && now != ""
    requires var h := Draft(host, addressee, sender, title, body, priority, tags, thread, collab, id, now); h.Some?
    ensures var h := Draft(host, addressee, sender, title, body, priority, tags, thread, collab, id, now).value;
      Load(host, Render(host, h, now), id, "pending") == Some(back)
    ensures back.id == id && back.title == Strip(title) && back.created == now && back.collab == collab
    ensures Names(host, addressee, back.recipient)
    ensures Strip(sender) != "" ==> Names(host, sender, back.sender)
    ensures Strip(sender) == "" ==>
      back.sender == match back.recipient case "builder" => "reviewer" case "reviewer" => "builder" case other => other
    ensures back.priority == if Strip(priority) == "" then "normal" else Lower(Strip(priority))
    ensures back.status == "pending" && back.tags == StripTags(tags) && back.extra == []
    ensures back.thread == Trim(thread) && back.body == NormalBody(body)
    ensures back.claimedBy == back.claimedAt == back.doneAt == back.note == None
  {
    var h := Draft(host, addressee, sender, title, body, priority, tags, thread, collab, id, now).value;
    DraftIsCreatable(host, addressee, sender, title, body, priority, tags, thread, collab, id, now);
    hide Sane, Load, Render, Lower, Strip, Known, StripTags, SeatsKeepTheirNames, Draft, Canonical, Counterpart, Names;
    DraftSays(host, addressee, sender, title, body, priority, tags, thread, collab, id, now);
    SeatNamed(host, addressee, h.recipient);
    OtherSeat(host, h.recipient);
    ThreadTrims(thread);
    NoneTrims();
    Reload(host, h, now, id, "pending");
    back := Seen(h, now, "pending");
  }

  lemma NoneTrims()
    ensures Trim(None) == None
  {
  }

  lemma SeatNamed(host: Host, spelling: string, seat: string)
    requires Sane(host) && Names(host, spelling, seat)
    ensures Canonical(host.aliases, seat, "") == seat
  {
    hide Lower, Strip;
    SeatIsStable(host, spelling);
  }
}
