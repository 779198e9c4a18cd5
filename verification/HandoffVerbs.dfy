/** tools/collabkit/store.py, the verbs as one process runs them: find, move under the lock, rewrite.
    Nobody else steps in between; HandoffStore says what happens when somebody does. */
module HandoffVerbs {
  import opened Wrappers
  import opened Text
  import Frontmatter
  import FrontmatterRoundTrip
  import opened Seats
  import opened HandoffModel
  import opened HandoffReload
  import opened HandoffStore
  import opened HandoffStoreProofs
  import opened HandoffStoreSolo

  // One file: the state directory and the name it has there.
  datatype Place = Place(dir: Dir, id: string)

  type Files = map<Place, string>

  // What loading a file gives: a record, an error find goes past, or an exception it does not catch.
  datatype Reading = Read(h: Handoff) | Malformed | WrongType

  function ReadFile(host: Host, place: Place, text: string): Reading {
    if Frontmatter.Parse(host.n, text).Err? then Malformed
    else
      var loaded := Load(host, text, place.id, DirName(place.dir));
      if loaded.None? then WrongType else Read(loaded.value)
  }

  // What find answers; vanished when a file was there and could not be read.
  datatype Search = Hit(place: Place, h: Handoff) | Nowhere(vanished: bool) | Ambiguous | Blank | Raises

  /** The exact name, directory by directory. */
  function ExactPass(host: Host, files: Files, verb: Verb, id: string, at: nat, vanished: bool): Search
    requires at <= SEARCH_SIZE
    decreases SEARCH_SIZE - at
  {
    if at == SEARCH_SIZE then Nowhere(vanished)
    else
      var place := Place(SearchAt(verb, at), id);
      if place !in files then ExactPass(host, files, verb, id, at + 1, vanished)
      else
        match ReadFile(host, place, files[place])
        case Read(h) => Hit(place, h)
        case Malformed => ExactPass(host, files, verb, id, at + 1, true)
        case WrongType => Raises
  }

  predicate Extends(host: Host, files: Files, id: string, place: Place) {
    place in files && ReadFile(host, place, files[place]).Read? && id <= ReadFile(host, place, files[place]).h.id
  }

  /** The files whose records have an id that starts so. */
  function Matches(host: Host, files: Files, id: string): set<Place> {
    set place | place in files && Extends(host, files, id, place)
  }

  predicate SomeWrongType(host: Host, files: Files) {
    exists place :: place in files && ReadFile(host, place, files[place]).WrongType?
  }

  /** The exact name first; then every record, whose id the words may be the start of. */
  ghost function SearchFor(host: Host, files: Files, verb: Verb, words: string): Search {
    var id := Strip(words);
    if id == "" then Blank
    else
      var exact := ExactPass(host, files, verb, id, 0, false);
      if !exact.Nowhere? then exact
      else if SomeWrongType(host, files) then Raises
      else
        var found := Matches(host, files, id);
        if found == {} then exact
        else if |found| > 1 then Ambiguous
        else
          var place :| place in found;
          Hit(place, ReadFile(host, place, files[place]).h)
  }

  // How the platform treats a rename onto an existing name, and whether renames and rewrites work.
  datatype Platform = Platform(refusesExisting: bool, renames: bool, rewrites: bool)

  datatype Result = Ended(outcome: Outcome) | Invalid | Raised

  /** A rename that would go through. */
  predicate Movable(files: Files, locks: set<string>, place: Place, id: string, target: Dir, platform: Platform) {
    && Allowed(place.dir, target) && id !in locks && place in files && platform.renames
    && (platform.refusesExisting ==> Place(target, id) !in files)
  }

  /** The file gone from where it was and written, with its bookkeeping, where the verb puts it. */
  function Relocated(host: Host, files: Files, verb: Verb, place: Place, h: Handoff, now: string,
                     platform: Platform): Files
    requires place in files
  {
    var text := if platform.rewrites then Render(host, Stamp(host, verb, h, now), now) else files[place];
    (files - {place})[Place(Target(verb), h.id) := text]
  }

  function Refusal(files: Files, locks: set<string>, place: Place, id: string, target: Dir,
                   platform: Platform): Outcome {
    if !Allowed(place.dir, target) then Conflict
    else if id in locks then TimedOut
    else if place !in files || (platform.refusesExisting && Place(target, id) in files) then Conflict
    else Failed
  }

  ghost function Performed(host: Host, files: Files, locks: set<string>, verb: Verb, words: string, now: string,
                           platform: Platform): (Result, Files) {
    match SearchFor(host, files, verb, words)
    case Blank => (Invalid, files)
    case Raises => (Raised, files)
    case Ambiguous => (Ended(Conflict), files)
    case Nowhere(vanished) => (Ended(if vanished then Conflict else Missing), files)
    case Hit(place, h) =>
      if !Accepts(verb, place.dir) then (Ended(Conflict), files)
      else if Movable(files, locks, place, h.id, Target(verb), platform) then
        (Ended(Succeeded), Relocated(host, files, verb, place, h, now, platform))
      else (Ended(Refusal(files, locks, place, h.id, Target(verb), platform)), files)
  }

  lemma {:induction false} ExactHit(host: Host, files: Files, verb: Verb, id: string, at: nat, vanished: bool)
    requires at <= SEARCH_SIZE
    ensures var r := ExactPass(host, files, verb, id, at, vanished);
      r.Hit? ==> r.place in files && ReadFile(host, r.place, files[r.place]) == Read(r.h)
    decreases SEARCH_SIZE - at
  {
    hide ReadFile;
    if at < SEARCH_SIZE {
      ExactHit(host, files, verb, id, at + 1, vanished);
      ExactHit(host, files, verb, id, at + 1, true);
    }
  }

  /** Whatever find returns is a file that is there, read as it is. */
  lemma SearchHits(host: Host, files: Files, verb: Verb, words: string)
    ensures var r := SearchFor(host, files, verb, words);
      r.Hit? ==> r.place in files && ReadFile(host, r.place, files[r.place]) == Read(r.h)
  {
    hide ReadFile, ExactPass;
    ExactHit(host, files, verb, Strip(words), 0, false);
  }

  /** What a reader saw in h, up to the newlines around its body. */
  predicate SameEssence(h: Handoff, back: Handoff) {
    || EssenceOf(back) == EssenceOf(h)
    || EssenceOf(back) == EssenceOf(h).(body := FrontmatterRoundTrip.NormalBody(h.body))
  }

  /** The text a successful verb leaves in its new place, rewritten or only moved, reads as the record. */
  lemma LeftBehind(host: Host, place: Place, text: string, verb: Verb, h: Handoff, now: string, rewrites: bool)
    requires Sane(host) && place.id != "" && ReadFile(host, place, text) == Read(h)
    ensures var left := if rewrites then Render(host, Stamp(host, verb, h, now), now) else text;
      var back := Load(host, left, h.id, DirName(Target(verb)));
      back.Some? && SameEssence(h, back.value)
  {
    hide Sane, Load, Render, Stamp, Known, Frontmatter.Parse, FrontmatterRoundTrip.NormalBody;
    ReadsUnderItsName(host, text, place.id, h, DirName(place.dir), DirName(Target(verb)));
    if rewrites {
      var stamped := Stamp(host, verb, h, now);
      StampIsStamped(host, verb, h, now);
      StampedStatus(host, verb, h, now);
      RewriteKeepsEssence(host, text, place.id, DirName(place.dir), stamped, now);
      LoadedIsKnown(host, text, place.id, DirName(place.dir));
      StemDoesNotMatter(host, h, stamped, now, place.id, DirName(Target(verb)));
    }
  }

  /** A verb that succeeds leaves every other file alone, and what a reader saw in the one it moved: who,
      what, the thread, the tags, the unknown keys and the normal body. */
  lemma VerbKeepsEssence(host: Host, files: Files, locks: set<string>, verb: Verb, words: string, now: string,
                         platform: Platform)
    requires Sane(host) && forall place :: place in files ==> place.id != ""
    requires Performed(host, files, locks, verb, words, now, platform).0 == Ended(Succeeded)
    ensures var r := SearchFor(host, files, verb, words);
      var after := Performed(host, files, locks, verb, words, now, platform).1;
      && r.Hit?
      && var there := Place(Target(verb), r.h.id);
      && r.place !in after && there in after
      && (forall place :: place != r.place && place != there ==>
            (place in after <==> place in files) && (place in files ==> after[place] == files[place]))
      && (var back := Load(host, after[there], there.id, DirName(there.dir));
          back.Some? && SameEssence(r.h, back.value))
  {
    hide Sane, Load, Render, Stamp, SearchFor, SameEssence, ReadFile;
    SearchHits(host, files, verb, words);
    var r := SearchFor(host, files, verb, words);
    LeftBehind(host, r.place, files[r.place], verb, r.h, now, platform.rewrites);
  }

  lemma StampedStatus(host: Host, verb: Verb, h: Handoff, now: string)
    ensures Stamp(host, verb, h, now).status == DirName(Target(verb))
    ensures Stamp(host, verb, h, now).id == h.id
  {
  }

  /** A record that names its id reads the same under any file name. */
  lemma StemDoesNotMatter(host: Host, h: Handoff, stamped: Handoff, now: string, stem: string, status: string)
    requires Sane(host) && Known(host, h) && Stamped(h, stamped)
    ensures var text := Render(host, stamped, now);
      Load(host, text, stem, status) == Load(host, text, stamped.id, status)
  {
    hide Sane, Load, Render, Canonical, Printable;
    assert Known(host, stamped);
    Reload(host, stamped, now, stem, status);
    Reload(host, stamped, now, stamped.id, status);
  }

  /** The text of a record, moved under the record's own id, still reads as the record. */
  lemma ReadsUnderItsName(host: Host, text: string, stem: string, h: Handoff, status: string, there: string)
    requires Load(host, text, stem, status) == Some(h)
    ensures Load(host, text, h.id, there) == Some(h.(status := there))
  {
  }

  // ---- one handoff, as the interleaved model sees it ----

  /** The directories of one id. */
  function Holding(files: Files, id: string): map<Dir, string> {
    map d | d in {Pending, Claimed, Finished, Archived} && Place(d, id) in files :: files[Place(d, id)]
  }

  const SOUND := Platform(true, true, true)

  lemma OnlyThere(files: Files, id: string, d: Dir)
    requires Holding(files, id).Keys == {d}
    ensures Place(d, id) in files && Holding(files, id)[d] == files[Place(d, id)]
    ensures forall other: Dir :: other != d ==> Place(other, id) !in files
  {
    assert d in Holding(files, id).Keys;
    forall other: Dir | other != d ensures Place(other, id) !in files {
      assert other !in Holding(files, id).Keys;
    }
  }

  lemma FindsTheOnly(host: Host, files: Files, verb: Verb, id: string, d: Dir, h: Handoff)
    requires Holding(files, id).Keys == {d} && Accepts(verb, d) && Strip(id) == id != ""
    requires ReadFile(host, Place(d, id), files[Place(d, id)]) == Read(h)
    ensures SearchFor(host, files, verb, id) == Hit(Place(d, id), h)
    ensures (d == SearchAt(verb, 0) || d == SearchAt(verb, 1)) && Allowed(d, Target(verb))
  {
    hide ReadFile, Strip;
    OnlyThere(files, id, d);
    assert ExactPass(host, files, verb, id, 0, false) ==
      if d == SearchAt(verb, 0) then Hit(Place(d, id), h) else ExactPass(host, files, verb, id, 1, false);
  }

  lemma HoldingMoved(host: Host, files: Files, verb: Verb, id: string, d: Dir, h: Handoff, now: string)
    requires Holding(files, id).Keys == {d} && d != Target(verb) && h.id == id && Place(d, id) in files
    ensures Holding(Relocated(host, files, verb, Place(d, id), h, now, SOUND), id)
         == map[Target(verb) := Render(host, Stamp(host, verb, h, now), now)]
  {
    hide Render, Stamp;
    OnlyThere(files, id, d);
  }

  /** A verb on a handoff in one place, with its lock free, succeeds and is one complete call of the
      interleaved model, from the same directories to the same directories. */
  lemma VerbIsARun(host: Host, files: Files, locks: set<string>, verb: Verb, id: string, now: string, d: Dir,
                   h: Handoff)
    returns (steps: seq<Step>, w: World)
    requires Holding(files, id).Keys == {d} && Accepts(verb, d) && Strip(id) == id != "" && id !in locks
    requires ReadFile(host, Place(d, id), files[Place(d, id)]) == Read(h) && h.id == id
    ensures Performed(host, files, locks, verb, id, now, SOUND).0 == Ended(Succeeded)
    ensures Runs(host, id, World(Holding(files, id), None, [], []), steps, w)
    ensures w.files == Holding(Performed(host, files, locks, verb, id, now, SOUND).1, id)
    ensures w.calls == [Call(verb, Returned(Succeeded))] && w.lock == None
  {
    FindsTheOnly(host, files, verb, id, d, h);
    OnlyThere(files, id, d);
    steps, w := AloneRun(host, files, verb, id, now, d, h);
    hide Load, Render, Stamp, Runs, SearchFor, Holding, ReadFile, Strip;
    assert Performed(host, files, locks, verb, id, now, SOUND)
        == (Ended(Succeeded), Relocated(host, files, verb, Place(d, id), h, now, SOUND));
    HoldingMoved(host, files, verb, id, d, h, now);
  }

  lemma AloneRun(host: Host, files: Files, verb: Verb, id: string, now: string, d: Dir, h: Handoff)
    returns (steps: seq<Step>, w: World)
    requires Holding(files, id).Keys == {d} && Accepts(verb, d) && Place(d, id) in files
    requires (d == SearchAt(verb, 0) || d == SearchAt(verb, 1)) && Allowed(d, Target(verb))
    requires ReadFile(host, Place(d, id), files[Place(d, id)]) == Read(h)
    ensures Runs(host, id, World(Holding(files, id), None, [], []), steps, w)
    ensures w.files == map[Target(verb) := Render(host, Stamp(host, verb, h, now), now)]
    ensures w.calls == [Call(verb, Returned(Succeeded))] && w.lock == None
  {
    hide Load, Render, Stamp, Runs, Holding, Frontmatter.Parse;
    OnlyThere(files, id, d);
    var start := World(Holding(files, id), None, [], []);
    NoSteps(host, id, start);
    var f;
    steps, w, f := MovesOut(host, id, start, [], start, verb, d);
    steps, w := Lands(host, id, start, steps, w, 0, now);
  }

  // ---- the store ----

  /** The scan with these files still to load. */
  ghost predicate Scanned(host: Host, files: Files, id: string, rest: set<Place>, found: seq<Place>) {
    && rest <= files.Keys
    && (forall p :: p in files && p !in rest ==> !ReadFile(host, p, files[p]).WrongType?)
    && (forall p :: p in found <==> p in Matches(host, files, id) - rest)
    && |found| == |Matches(host, files, id) - rest|
  }

  lemma NothingScanned(host: Host, files: Files, id: string)
    ensures Scanned(host, files, id, files.Keys, [])
  {
    assert Matches(host, files, id) - files.Keys == {};
  }

  lemma ScannedOn(host: Host, files: Files, id: string, rest: set<Place>, found: seq<Place>, place: Place)
    requires Scanned(host, files, id, rest, found) && place in rest
    ensures place in files
    ensures var reading := ReadFile(host, place, files[place]);
      !reading.WrongType? ==>
        Scanned(host, files, id, rest - {place},
                if reading.Read? && id <= reading.h.id then found + [place] else found)
    ensures ReadFile(host, place, files[place]).WrongType? ==> SomeWrongType(host, files)
  {
    hide ReadFile;
    var all := Matches(host, files, id);
    if place in all {
      assert all - (rest - {place}) == (all - rest) + {place};
    } else {
      assert all - (rest - {place}) == all - rest;
    }
  }

  lemma AllScanned(host: Host, files: Files, id: string, found: seq<Place>)
    requires Scanned(host, files, id, {}, found)
    ensures !SomeWrongType(host, files)
    ensures (forall p :: p in found <==> p in Matches(host, files, id)) && |found| == |Matches(host, files, id)|
  {
    hide ReadFile;
    assert Matches(host, files, id) - {} == Matches(host, files, id);
  }

  class Store {
    const host: Host
    const platform: Platform
    var files: Files
    var locks: set<string>     // ids whose lock file is in somebody else's hands

    constructor (host: Host, platform: Platform)
      ensures this.host == host && this.platform == platform && files == map[] && locks == {}
    {
      this.host := host;
      this.platform := platform;
      files := map[];
      locks := {};
    }

    /** create: the first of five minted ids not taken in pending/; never over an existing file. */
    method Create(h: Handoff, minted: seq<string>) returns (id: Option<string>)
      requires |minted| == 5
      modifies this`files
      ensures id.None? <==> forall k :: 0 <= k < 5 ==> Place(Pending, minted[k]) in old(files)
      ensures id.None? ==> files == old(files)
      ensures id.Some? ==> exists k :: 0 <= k < 5 && FirstFree(old(files), minted, k) && id.value == minted[k]
      ensures id.Some? ==> files == old(files)[Place(Pending, id.value) := Render(host, h.(id := id.value), h.created)]
    {
      var k := 0;
      while k < 5
        invariant 0 <= k <= 5 && files == old(files)
        invariant forall j :: 0 <= j < k ==> Place(Pending, minted[j]) in files
      {
        if Place(Pending, minted[k]) !in files {
          assert FirstFree(files, minted, k);
          files := files[Place(Pending, minted[k]) := Render(host, h.(id := minted[k]), h.created)];
          return Some(minted[k]);
        }
        k := k + 1;
      }
      return None;
    }

    /** The exact pass of find. */
    method FindExact(verb: Verb, id: string) returns (r: Search)
      ensures r == ExactPass(host, files, verb, id, 0, false)
    {
      hide ReadFile;
      var at, vanished := 0, false;
      while at < SEARCH_SIZE
        invariant 0 <= at <= SEARCH_SIZE
        invariant ExactPass(host, files, verb, id, 0, false) == ExactPass(host, files, verb, id, at, vanished)
      {
        var place := Place(SearchAt(verb, at), id);
        if place in files {
          var reading := ReadFile(host, place, files[place]);
          match reading
          case Read(h) => return Hit(place, h);
          case Malformed => vanished := true;
          case WrongType => return Raises;
        }
        at := at + 1;
      }
      return Nowhere(vanished);
    }

    /** The fallback of find: every file of every state directory is loaded. */
    method Scan(id: string) returns (raises: bool, found: seq<Place>)
      ensures raises <==> SomeWrongType(host, files)
      ensures !raises ==> forall p :: p in found <==> p in Matches(host, files, id)
      ensures !raises ==> |found| == |Matches(host, files, id)|
    {
      hide ReadFile, Matches, Scanned;
      found := [];
      var rest := files.Keys;
      NothingScanned(host, files, id);
      while rest != {}
        invariant Scanned(host, files, id, rest, found)
      {
        var place :| place in rest;
        ScannedOn(host, files, id, rest, found, place);
        var reading := ReadFile(host, place, files[place]);
        if reading.WrongType? { return true, found; }
        rest := rest - {place};
        if reading.Read? && id <= reading.h.id { found := found + [place]; }
      }
      AllScanned(host, files, id, found);
      raises := false;
    }

    method Find(verb: Verb, words: string) returns (r: Search)
      ensures r == SearchFor(host, files, verb, words)
    {
      hide ReadFile, ExactPass, Strip, Matches, SomeWrongType;
      var id := Strip(words);
      if id == "" { return Blank; }
      r := FindExact(verb, id);
      if !r.Nowhere? { return; }
      var raises, found := Scan(id);
      if raises { return Raises; }
      if found == [] {
        NoMatch(Matches(host, files, id), found);
        return;
      }
      if |found| > 1 { return Ambiguous; }
      var place := found[0];
      MatchesAreThere(host, files, id, place);
      OneMatch(Matches(host, files, id), place);
      r := Hit(place, ReadFile(host, place, files[place]).h);
    }

    /** _transition: allowed, the lock to be had, the file still there, and the rename. */
    method Transition(place: Place, id: string, target: Dir) returns (r: Outcome)
      modifies this`files
      ensures r.Succeeded? <==> Movable(old(files), locks, place, id, target, platform)
      ensures r.Succeeded? ==> files == (old(files) - {place})[Place(target, id) := old(files)[place]]
      ensures !r.Succeeded? ==> files == old(files) && r == Refusal(files, locks, place, id, target, platform)
      ensures r.TimedOut? ==> id in locks
    {
      if !Allowed(place.dir, target) { return Conflict; }
      if id in locks { return TimedOut; }
      if place !in files { return Conflict; }
      if platform.refusesExisting && Place(target, id) in files { return Conflict; }
      if !platform.renames { return Failed; }
      var text := files[place];
      files := (files - {place})[Place(target, id) := text];
      r := Succeeded;
    }

    /** _rewrite: a failure is swallowed. */
    method Rewrite(place: Place, h: Handoff, now: string)
      modifies this`files
      ensures files == if platform.rewrites then old(files)[place := Render(host, h, now)] else old(files)
    {
      if platform.rewrites { files := files[place := Render(host, h, now)]; }
    }

    /** What a search that found nothing to work on raises. */
    method NotFound(r: Search) returns (answer: Result)
      requires !r.Hit?
      ensures answer == match r
        case Blank => Invalid
        case Raises => Raised
        case Ambiguous => Ended(Conflict)
        case Nowhere(vanished) => Ended(if vanished then Conflict else Missing)
    {
      match r
      case Blank => answer := Invalid;
      case Raises => answer := Raised;
      case Ambiguous => answer := Ended(Conflict);
      case Nowhere(vanished) => answer := Ended(if vanished then Conflict else Missing);
    }

    method Claim(words: string, claimant: string, now: string) returns (answer: Result)
      modifies this`files
      ensures (answer, files) == Performed(host, old(files), locks, Verb.Claim(claimant), words, now, platform)
    {
      hide Load, Render, Canonical, SearchFor, ReadFile;
      var r := Find(Verb.Claim(claimant), words);
      SearchHits(host, files, Verb.Claim(claimant), words);
      if !r.Hit? {
        answer := NotFound(r);
        return;
      }
      if r.place.dir != Pending { return Ended(Conflict); }
      var seat := Canonical(host.aliases, claimant, "");
      var moved := Transition(r.place, r.h.id, Claimed);
      if !moved.Succeeded? { return Ended(moved); }
      var h := r.h.(status := DirName(Claimed));
      h := h.(claimedBy := Some(if seat == "" then h.recipient else seat));
      h := h.(claimedAt := Some(now));
      Rewrite(Place(Claimed, h.id), h, now);
      assert files == Relocated(host, old(files), Verb.Claim(claimant), r.place, r.h, now, platform);
      answer := Ended(Succeeded);
    }

    method Complete(words: string, note: string, finisher: string, now: string) returns (answer: Result)
      modifies this`files
      ensures (answer, files) == Performed(host, old(files), locks, Verb.Complete(note, finisher), words, now, platform)
    {
      hide Load, Render, Canonical, SearchFor, ReadFile;
      var r := Find(Verb.Complete(note, finisher), words);
      SearchHits(host, files, Verb.Complete(note, finisher), words);
      if !r.Hit? {
        answer := NotFound(r);
        return;
      }
      if r.place.dir == Finished { return Ended(Conflict); }
      if r.place.dir == Archived { return Ended(Conflict); }
      var moved := Transition(r.place, r.h.id, Finished);
      if !moved.Succeeded? { return Ended(moved); }
      var h := r.h.(status := DirName(Finished));
      h := h.(doneAt := Some(now));
      if note != "" { h := h.(note := Some(note)); }
      if finisher != "" && (h.claimedBy == None || h.claimedBy == Some("")) {
        h := h.(claimedBy := Some(Canonical(host.aliases, finisher, "")));
      }
      Rewrite(Place(Finished, h.id), h, now);
      assert files == Relocated(host, old(files), Verb.Complete(note, finisher), r.place, r.h, now, platform);
      answer := Ended(Succeeded);
    }

    method Archive(words: string, now: string) returns (answer: Result)
      modifies this`files
      ensures (answer, files) == Performed(host, old(files), locks, Verb.Archive, words, now, platform)
    {
      hide Load, Render, SearchFor, ReadFile;
      var r := Find(Verb.Archive, words);
      SearchHits(host, files, Verb.Archive, words);
      if !r.Hit? {
        answer := NotFound(r);
        return;
      }
      if r.place.dir == Archived { return Ended(Conflict); }
      if r.place.dir != Finished { return Ended(Conflict); }
      var moved := Transition(r.place, r.h.id, Archived);
      if !moved.Succeeded? { return Ended(moved); }
      Rewrite(Place(Archived, r.h.id), r.h.(status := DirName(Archived)), now);
      assert files == Relocated(host, old(files), Verb.Archive, r.place, r.h, now, platform);
      answer := Ended(Succeeded);
    }
  }

  /** The k-th minted id is free, and none before it is. */
  predicate FirstFree(files: Files, minted: seq<string>, k: int) {
    && 0 <= k < |minted| && Place(Pending, minted[k]) !in files
    && forall j :: 0 <= j < k ==> Place(Pending, minted[j]) in files
  }

  lemma MatchesAreThere(host: Host, files: Files, id: string, place: Place)
    requires place in Matches(host, files, id)
    ensures place in files && ReadFile(host, place, files[place]).Read?
  {
  }

  lemma NoMatch(all: set<Place>, found: seq<Place>)
    requires found == [] && forall p :: p in found <==> p in all
    ensures all == {}
  {
  }

  lemma OneMatch(all: set<Place>, place: Place)
    requires place in all && |all| == 1
    ensures all == {place}
  {
    var rest := all - {place};
    assert |rest| == 0;
    assert all == {place} + rest;
  }
}
