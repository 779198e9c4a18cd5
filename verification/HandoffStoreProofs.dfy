/** Every interleaving: one winner, nothing lost, nothing moved backwards. */
module HandoffStoreProofs {
  import opened Wrappers
  import opened Text
  import opened Seats
  import opened HandoffModel
  import opened HandoffReload
  import opened Frontmatter
  import FrontmatterRoundTrip
  import opened HandoffStore

  // ---- what every copy says ----

  /** A record a rewrite keeps as it is, carrying e. */
  predicate Carries(host: Host, h: Handoff, e: Essence) {
    && Known(host, h) && Trimmed(h.thread) && FrontmatterRoundTrip.NormalBody(h.body) == h.body
    && EssenceOf(h) == e
  }

  predicate TextCarries(host: Host, id: string, text: string, e: Essence) {
    var r := Load(host, text, id, "");
    r.Some? && Carries(host, r.value, e)
  }

  /** The directory decides the status and nothing else. */
  lemma StatusOnly(host: Host, text: string, id: string, status: string)
    ensures var a, b := Load(host, text, id, ""), Load(host, text, id, status);
      (a.Some? <==> b.Some?) && (a.Some? ==> b.value == a.value.(status := status))
  {
  }

  lemma StatusKeepsEssence(host: Host, h: Handoff, e: Essence, status: string)
    ensures Carries(host, h.(status := status), e) <==> Carries(host, h, e)
  {
  }

  lemma LoadedCarries(host: Host, id: string, text: string, status: string, e: Essence)
    requires TextCarries(host, id, text, e)
    ensures var r := Load(host, text, id, status); r.Some? && Carries(host, r.value, e)
  {
    hide Load, Carries;
    StatusOnly(host, text, id, status);
    StatusKeepsEssence(host, Load(host, text, id, "").value, e, status);
  }

  lemma StampIsStamped(host: Host, verb: Verb, h: Handoff, now: string)
    ensures Stamped(h, Stamp(host, verb, h, now))
  {
  }

  lemma StampedReads(host: Host, h: Handoff, stamped: Handoff, now: string, e: Essence)
    requires Carries(host, h, e) && Stamped(h, stamped)
    ensures Known(host, stamped) && Carries(host, Seen(stamped, now, ""), e)
  {
  }

  lemma RewriteCarries(host: Host, id: string, verb: Verb, h: Handoff, now: string, e: Essence)
    requires Sane(host) && Carries(host, h, e)
    ensures TextCarries(host, id, Render(host, Stamp(host, verb, h, now), now), e)
  {
    hide Sane, Known, Carries, Load, Render, Stamp, Stamped, Seen;
    var stamped := Stamp(host, verb, h, now);
    StampIsStamped(host, verb, h, now);
    StampedReads(host, h, stamped, now, e);
    Reload(host, stamped, now, id, "");
  }

  // ---- the invariant ----

  /** The record a call works on, once find has returned it. */
  predicate HasFound(pc: Pc) {
    pc.Chosen? || Accepted(pc)
  }

  predicate Accepted(pc: Pc) {
    pc.Waiting? || pc.Holding? || pc.Checked? || pc.Renaming? || pc.Moved? || pc.Writing?
  }

  ghost predicate CallOk(host: Host, w: World, p: nat, e: Essence)
    requires p < |w.calls|
  {
    var call := w.calls[p];
    var pc := call.pc;
    && (InLock(pc) ==> w.lock == Some(p))
    && (pc.Renaming? ==> pc.f.dir in w.files)
    && (pc.Losing? ==> pc.outcome != Succeeded)
    && (pc.Scanning? ==> forall i :: 0 <= i < |pc.hits| ==> Carries(host, pc.hits[i].h, e))
    && (HasFound(pc) ==> Carries(host, pc.f.h, e))
    && (Accepted(pc) ==> Accepts(call.verb, pc.f.dir))
    && ((pc.Moved? || pc.Writing?) && pc.f.dir == Pending ==> p in w.movers)
    && (call.verb.Claim? && pc == Returned(Succeeded) ==> p in w.movers)
  }

  ghost predicate FilesOk(host: Host, id: string, w: World, e: Essence) {
    && w.files.Keys != {}
    && (forall d :: d in w.files ==> TextCarries(host, id, w.files[d], e))
    && |w.movers| <= 1
    && (w.movers != [] ==> Pending !in w.files)
  }

  ghost predicate Inv(host: Host, id: string, w: World, e: Essence) {
    && FilesOk(host, id, w, e)
    && forall p :: 0 <= p < |w.calls| ==> CallOk(host, w, p, e)
  }

  /** The step keeps what the call itself relies on. */
  lemma ActorKeeps(host: Host, id: string, w: World, p: nat, action: Action, e: Essence)
    requires Inv(host, id, w, e) && Enabled(host, id, w, Act(p, action))
    ensures CallOk(host, Take(host, id, w, Act(p, action)), p, e)
  {
    hide Carries, Load, Render, Stamp, TextCarries;
    var call := w.calls[p];
    assert CallOk(host, w, p, e);
    if action.Open? || action.Scan? {
      var d := SearchAt(call.verb, call.pc.at);
      LoadedCarries(host, id, w.files[d], DirName(d), e);
    }
  }

  /** Nobody but the lock's holder takes a file away, so the others keep what they rely on. */
  lemma OthersKeep(host: Host, id: string, w: World, p: nat, action: Action, q: nat, e: Essence)
    requires Inv(host, id, w, e) && Enabled(host, id, w, Act(p, action)) && q < |w.calls| && q != p
    ensures CallOk(host, Take(host, id, w, Act(p, action)), q, e)
  {
    hide Carries, Load, Render, Stamp, TextCarries;
    assert CallOk(host, w, p, e) && CallOk(host, w, q, e);
  }

  lemma FilesKeep(host: Host, id: string, w: World, p: nat, action: Action, e: Essence)
    requires Sane(host) && Inv(host, id, w, e) && Enabled(host, id, w, Act(p, action))
    ensures FilesOk(host, id, Take(host, id, w, Act(p, action)), e)
  {
    hide Sane, Carries, Load, Render, Stamp, TextCarries;
    var call := w.calls[p];
    assert CallOk(host, w, p, e);
    if action.Rewrite? {
      RewriteCarries(host, id, call.verb, call.pc.f.h, action.now, e);
      var after := Take(host, id, w, Act(p, action)).files;
      assert Target(call.verb) in after.Keys;
    } else if action.RenameReturns? {
      var after := Take(host, id, w, Act(p, action)).files;
      assert Target(call.verb) in after.Keys;
    }
  }

  lemma InvokeKeeps(host: Host, id: string, w: World, verb: Verb, e: Essence)
    requires Inv(host, id, w, e)
    ensures Inv(host, id, Take(host, id, w, Invoke(verb)), e)
  {
    hide Carries, TextCarries;
    var after := Take(host, id, w, Invoke(verb));
    forall p | 0 <= p < |after.calls| ensures CallOk(host, after, p, e) {
      if p < |w.calls| { assert CallOk(host, w, p, e); }
    }
  }

  lemma StepKeeps(host: Host, id: string, w: World, step: Step, e: Essence)
    requires Sane(host) && Inv(host, id, w, e) && Enabled(host, id, w, step)
    ensures Inv(host, id, Take(host, id, w, step), e)
  {
    hide Sane, CallOk, FilesOk, Can, NextFiles, NextPc;
    match step
    case Invoke(verb) => InvokeKeeps(host, id, w, verb, e);
    case Act(p, action) =>
      FilesKeep(host, id, w, p, action, e);
      var after := Take(host, id, w, step);
      forall q | 0 <= q < |after.calls| ensures CallOk(host, after, q, e) {
        if q == p { ActorKeeps(host, id, w, p, action, e); } else { OthersKeep(host, id, w, p, action, q, e); }
      }
  }

  lemma {:induction false} RunKeeps(host: Host, id: string, before: World, steps: seq<Step>, after: World, e: Essence)
    requires Sane(host) && Inv(host, id, before, e) && Runs(host, id, before, steps, after)
    ensures Inv(host, id, after, e)
    decreases |steps|
  {
    hide Sane, Inv, Take, Enabled;
    if steps != [] {
      var front, last := steps[..|steps| - 1], steps[|steps| - 1];
      var mid :| Runs(host, id, before, front, mid) && StepTo(host, id, mid, last, after);
      RunKeeps(host, id, before, front, mid, e);
      StepKeeps(host, id, mid, last, e);
    }
  }

  // ---- the results ----

  /** What create is given: the record it renders. */
  predicate Creatable(host: Host, h: Handoff) {
    && Known(host, h) && h.created != "" && h.extra == []
  }

  /** Both agent seats are names of their own. */
  predicate SeatsKeepTheirNames(host: Host) {
    Leads(host.aliases, "builder") == "builder" && Leads(host.aliases, "reviewer") == "reviewer"
  }

  lemma DefaultSeat(host: Host, raw: string, default: string)
    requires Sane(host) && Canonical(host.aliases, default, "") == default
    ensures Canonical(host.aliases, Canonical(host.aliases, raw, default), "") == Canonical(host.aliases, raw, default)
  {
    hide Lower;
    CanonicalTwice(host.aliases, raw);
  }

  lemma SeatName(host: Host, name: string)
    requires name == "builder" || name == "reviewer"
    ensures Canonical(host.aliases, name, "") == Leads(host.aliases, name)
  {
    hide Lower;
    assert SeatWord(name);
    WordIsPlain(name);
    CanonicalPlain(host.aliases, name, "");
  }

  lemma PriorityIsNormal(raw: string)
    ensures var p := NormalPriority(raw); p.Some? ==> p.value != "" && Lower(p.value) == p.value
  {
    hide Strip;
    assert forall w :: w in PRIORITIES ==> Plainly(w) by {
      forall w | w in PRIORITIES ensures Plainly(w) {
        assert SeatWord(w);
        WordIsPlain(w);
      }
    }
  }

  /** Every record create builds meets what the results below ask of a created handoff. */
  lemma DraftIsCreatable(host: Host, addressee: string, sender: string, title: string, body: string, priority: string,
                         tags: seq<string>, thread: Option<string>, collab: string, id: string, now: string)
    requires Sane(host) && SeatsKeepTheirNames(host) && id != "" && now != ""
    ensures var h := Draft(host, addressee, sender, title, body, priority, tags, thread, collab, id, now);
      h.Some? ==> Creatable(host, h.value) && h.value.claimedBy == None
  {
    hide Sane, Lower, Strip, StripTags, SeatWord, NormalPriority, Canonical;
    var recipient := Canonical(host.aliases, addressee, "");
    NoSeat(host);
    DefaultSeat(host, addressee, "");
    SeatName(host, "builder");
    SeatName(host, "reviewer");
    DefaultSeat(host, sender, Counterpart(host.aliases, recipient));
    PriorityIsNormal(priority);
    if recipient != "" { BroadcastDefault(host, recipient); }
  }

  lemma NoSeat(host: Host)
    ensures Canonical(host.aliases, "", "") == ""
  {
  }

  lemma BroadcastDefault(host: Host, name: string)
    requires Canonical(host.aliases, name, "") == name != ""
    ensures Canonical(host.aliases, name, BROADCAST) == name
  {
  }

  /** The view every reader has of a handoff after create. */
  function CreatedEssence(h: Handoff): Essence {
    EssenceOf(Seen(h, h.created, ""))
  }

  lemma TrimIsTrimmed(o: Option<string>)
    ensures Trimmed(Trim(o))
  {
    if o.Some? { StripIsTight(o.value); }
  }

  lemma CreatedIsRight(host: Host, id: string, h: Handoff)
    requires Sane(host) && Creatable(host, h)
    ensures Inv(host, id, Created(host, h), CreatedEssence(h))
  {
    hide Sane, Load, Render, Canonical, Printable, Trim, Trimmed;
    Reload(host, h, h.created, id, "");
    TrimIsTrimmed(h.thread);
    NormalBodyTwice(h.body);
    assert Pending in Created(host, h).files.Keys;
  }

  /** In every interleaving at most one call is between creating and removing the lock file, at most
      one rename out of pending ever returns, and at most one claim ever succeeds. */
  lemma SingleWinner(host: Host, id: string, h: Handoff, steps: seq<Step>, w: World)
    requires Sane(host) && Creatable(host, h) && Runs(host, id, Created(host, h), steps, w)
    ensures forall p, q :: 0 <= p < |w.calls| && 0 <= q < |w.calls| ==>
      InLock(w.calls[p].pc) && InLock(w.calls[q].pc) ==> p == q
    ensures |w.movers| <= 1
    ensures forall p, q :: 0 <= p < |w.calls| && 0 <= q < |w.calls| ==>
      ClaimWon(w.calls[p]) && ClaimWon(w.calls[q]) ==> p == q
  {
    hide Sane, Creatable, Created, CreatedEssence, TextCarries, Carries, Runs;
    var e := CreatedEssence(h);
    CreatedIsRight(host, id, h);
    RunKeeps(host, id, Created(host, h), steps, w, e);
    forall p | 0 <= p < |w.calls| && InLock(w.calls[p].pc) ensures w.lock == Some(p) {
      assert CallOk(host, w, p, e);
    }
    forall p | 0 <= p < |w.calls| && ClaimWon(w.calls[p]) ensures w.movers == [p] {
      assert CallOk(host, w, p, e);
    }
  }

  predicate ClaimWon(call: Call) {
    call.verb.Claim? && call.pc == Returned(Succeeded)
  }

  /** In every interleaving, with calls dying anywhere and rewrites landing after the lock is gone, the
      handoff is in some directory, and every copy of it says what its creator wrote. */
  lemma NothingIsLost(host: Host, id: string, h: Handoff, steps: seq<Step>, w: World)
    requires Sane(host) && Creatable(host, h) && Runs(host, id, Created(host, h), steps, w)
    ensures exists d :: d in w.files
    ensures forall d :: d in w.files ==>
      var r := Load(host, w.files[d], id, DirName(d)); r.Some? && EssenceOf(r.value) == CreatedEssence(h)
  {
    hide Sane, Creatable, Created, CreatedEssence, Known, Load, Runs;
    var e := CreatedEssence(h);
    CreatedIsRight(host, id, h);
    RunKeeps(host, id, Created(host, h), steps, w, e);
    assert FilesOk(host, id, w, e);
    assert exists d :: d in w.files.Keys;
    forall d | d in w.files
      ensures var r := Load(host, w.files[d], id, DirName(d)); r.Some? && EssenceOf(r.value) == e
    {
      LoadedCarries(host, id, w.files[d], DirName(d), e);
    }
  }

  /** Some directory at least that far along holds the handoff. */
  predicate Reached(files: map<Dir, string>, k: nat) {
    exists d :: d in files && Rank(d) >= k
  }

  predicate Forward(before: map<Dir, string>, after: map<Dir, string>) {
    && (Pending in after ==> Pending in before)
    && (Reached(before, 1) ==> Reached(after, 1))
    && (Reached(before, 2) ==> Reached(after, 2))
    && (Reached(before, 3) ==> Reached(after, 3))
  }

  lemma StepForward(host: Host, id: string, w: World, step: Step, e: Essence)
    requires Inv(host, id, w, e) && Enabled(host, id, w, step)
    ensures Forward(w.files, Take(host, id, w, step).files)
  {
    hide Carries, TextCarries, Load, Render, Stamp, Reached;
    var after := Take(host, id, w, step).files;
    if after != w.files {
      var call := w.calls[step.p];
      assert CallOk(host, w, step.p, e);
      assert Target(call.verb) in after;
      assert forall d :: d in w.files ==> d in after || Rank(d) < Rank(Target(call.verb));
      FurtherStill(w.files, after, Target(call.verb), 1);
      FurtherStill(w.files, after, Target(call.verb), 2);
      FurtherStill(w.files, after, Target(call.verb), 3);
    }
  }

  lemma FurtherStill(before: map<Dir, string>, after: map<Dir, string>, target: Dir, k: nat)
    requires target in after
    requires forall d :: d in before ==> d in after || Rank(d) < Rank(target)
    ensures Reached(before, k) ==> Reached(after, k)
  {
  }

  lemma {:induction false} RunForward(host: Host, id: string, before: World, steps: seq<Step>, after: World, e: Essence)
    requires Sane(host) && Inv(host, id, before, e) && Runs(host, id, before, steps, after)
    ensures Forward(before.files, after.files)
    decreases |steps|
  {
    hide Sane, Inv, Take, Enabled, Reached;
    if steps != [] {
      var front, last := steps[..|steps| - 1], steps[|steps| - 1];
      var mid :| Runs(host, id, before, front, mid) && StepTo(host, id, mid, last, after);
      RunForward(host, id, before, front, mid, e);
      RunKeeps(host, id, before, front, mid, e);
      StepForward(host, id, mid, last, e);
    }
  }

  /** From any point of any run, however it continues: the handoff never re-enters pending, and the
      furthest directory holding it never goes back. */
  lemma ForwardOnly(host: Host, id: string, h: Handoff, first: seq<Step>, mid: World, rest: seq<Step>, w: World)
    requires Sane(host) && Creatable(host, h)
    requires Runs(host, id, Created(host, h), first, mid) && Runs(host, id, mid, rest, w)
    ensures Pending in w.files ==> Pending in mid.files
    ensures forall d :: d in mid.files ==> exists d' :: d' in w.files && Rank(d') >= Rank(d)
  {
    hide Sane, Creatable, Created, CreatedEssence, Inv, Runs;
    var e := CreatedEssence(h);
    CreatedIsRight(host, id, h);
    RunKeeps(host, id, Created(host, h), first, mid, e);
    RunForward(host, id, mid, rest, w, e);
    RunKeeps(host, id, mid, rest, w, e);
    SomeFile(host, id, w, e);
    forall d | d in mid.files ensures Reached(w.files, Rank(d)) {
      assert Reached(mid.files, Rank(d));
    }
  }

  lemma SomeFile(host: Host, id: string, w: World, e: Essence)
    requires Inv(host, id, w, e)
    ensures Reached(w.files, 0)
  {
    var d :| d in w.files.Keys;
    assert d in w.files && Rank(d) >= 0;
  }
}
