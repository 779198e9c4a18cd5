/** What holds when the verbs on one id do not overlap, and what an overlap breaks. */
module HandoffStoreSolo {
  import opened Wrappers
  import opened Text
  import opened Seats
  import opened HandoffModel
  import opened HandoffReload
  import opened HandoffStore
  import opened HandoffStoreProofs

  /** No call but p is under way. */
  predicate Alone(w: World, p: nat) {
    forall q :: 0 <= q < |w.calls| && q != p ==> Over(w.calls[q].pc)
  }

  predicate SoloStep(w: World, step: Step) {
    match step
    case Invoke(_) => Alone(w, |w.calls|)
    case Act(p, _) => Alone(w, p)
  }

  ghost predicate SoloRuns(host: Host, id: string, before: World, steps: seq<Step>, after: World)
    decreases |steps|
  {
    if steps == [] then after == before
    else
      var front, last := steps[..|steps| - 1], steps[|steps| - 1];
      exists mid :: SoloRuns(host, id, before, front, mid) && SoloStep(mid, last) && StepTo(host, id, mid, last, after)
  }

  lemma {:induction false} SoloRunsRun(host: Host, id: string, before: World, steps: seq<Step>, after: World)
    requires SoloRuns(host, id, before, steps, after)
    ensures Runs(host, id, before, steps, after)
    decreases |steps|
  {
    hide Take, Enabled, SoloStep;
    if steps != [] {
      var front, last := steps[..|steps| - 1], steps[|steps| - 1];
      var mid :| SoloRuns(host, id, before, front, mid) && SoloStep(mid, last) && StepTo(host, id, mid, last, after);
      SoloRunsRun(host, id, before, front, mid);
    }
  }

  function Owner(host: Host, id: string, text: string): Option<string> {
    var r := Load(host, text, id, "");
    if r.Some? then r.value.claimedBy else None
  }

  /** The one directory d holds the file, and whatever call is under way read it as it is. */
  predicate CallSolo(call: Call, d: Dir, owner: Option<string>) {
    var pc := call.pc;
    && (HasFound(pc) ==>
          && pc.f.h.claimedBy == owner
          && d == if pc.Moved? || pc.Writing? then Target(call.verb) else pc.f.dir)
    && (HasFound(pc) && pc.f.dir == Pending ==> owner == None)
    && (pc.Scanning? ==> forall i :: 0 <= i < |pc.hits| ==> pc.hits[i].dir == d && pc.hits[i].h.claimedBy == owner)
  }

  ghost predicate Solo(host: Host, id: string, w: World, d: Dir, owner: Option<string>) {
    && w.files.Keys == {d}
    && Owner(host, id, w.files[d]) == owner
    && Trimmed(owner)
    && (d == Pending ==> owner == None)
    && forall p :: 0 <= p < |w.calls| ==> CallSolo(w.calls[p], d, owner)
  }

  lemma RewrittenOwner(host: Host, id: string, verb: Verb, h: Handoff, now: string, e: Essence)
    requires Sane(host) && Carries(host, h, e) && Trimmed(h.claimedBy)
    requires verb.Claim? ==> h.claimedBy == None
    ensures var owner := Owner(host, id, Render(host, Stamp(host, verb, h, now), now));
      Trimmed(owner) && (h.claimedBy.Some? ==> owner == h.claimedBy)
  {
    hide Sane, Known, Carries, Load, Render, Stamped, Canonical, Trim, Trimmed;
    var stamped := Stamp(host, verb, h, now);
    StampIsStamped(host, verb, h, now);
    StampedReads(host, h, stamped, now, e);
    Reload(host, stamped, now, id, "");
    TrimIsTrimmed(stamped.claimedBy);
    TrimTrimmed(h.claimedBy);
    TrimmedIsNotEmpty(h.claimedBy);
  }

  lemma TrimmedIsNotEmpty(o: Option<string>)
    requires Trimmed(o)
    ensures o != Some("")
  {
  }

  /** Where the file is after the step, and who owns it. */
  function NextDir(w: World, step: Step, d: Dir): Dir {
    if step.Act? && step.p < |w.calls| && step.action.RenameReturns? then Target(w.calls[step.p].verb) else d
  }

  function OwnerIn(host: Host, id: string, files: map<Dir, string>, d: Dir): Option<string> {
    if d in files then Owner(host, id, files[d]) else None
  }

  lemma FilesStaySolo(host: Host, id: string, w: World, p: nat, action: Action, e: Essence, d: Dir,
                      owner: Option<string>)
    requires Sane(host) && Inv(host, id, w, e) && Enabled(host, id, w, Act(p, action)) && Solo(host, id, w, d, owner)
    ensures var after := Take(host, id, w, Act(p, action)).files;
      var d' := NextDir(w, Act(p, action), d);
      var owner' := OwnerIn(host, id, after, d');
      && after.Keys == {d'} && Trimmed(owner') && (d' == Pending ==> owner' == None)
      && (owner.Some? ==> owner' == owner)
      && (!action.Rewrite? ==> owner' == owner)
  {
    hide Sane, Carries, Load, Render, Stamp, TextCarries, Trimmed, Owner;
    var call := w.calls[p];
    assert CallOk(host, w, p, e) && CallSolo(call, d, owner);
    if action.Rewrite? {
      RewrittenOwner(host, id, call.verb, call.pc.f.h, action.now, e);
    }
  }

  lemma SoloStepKeeps(host: Host, id: string, w: World, step: Step, e: Essence, d: Dir, owner: Option<string>)
    requires Sane(host) && Inv(host, id, w, e) && Enabled(host, id, w, step)
    requires Solo(host, id, w, d, owner) && SoloStep(w, step)
    ensures var after := Take(host, id, w, step);
      var d' := NextDir(w, step, d);
      var owner' := OwnerIn(host, id, after.files, d');
      Solo(host, id, after, d', owner') && (owner.Some? ==> owner' == owner)
  {
    hide Sane, Inv, Carries, Load, Render, Stamp, Trimmed, Owner, NextFiles;
    var after := Take(host, id, w, step);
    match step
    case Invoke(verb) =>
    case Act(p, action) =>
      FilesStaySolo(host, id, w, p, action, e, d, owner);
      ActorStaysSolo(host, id, w, p, action, e, d, owner);
      var d', owner' := NextDir(w, step, d), OwnerIn(host, id, after.files, NextDir(w, step, d));
      forall q | 0 <= q < |after.calls| ensures CallSolo(after.calls[q], d', owner') {
        if q != p { assert Over(w.calls[q].pc); }
      }
  }

  lemma ActorStaysSolo(host: Host, id: string, w: World, p: nat, action: Action, e: Essence, d: Dir,
                       owner: Option<string>)
    requires Inv(host, id, w, e) && Enabled(host, id, w, Act(p, action)) && Solo(host, id, w, d, owner)
    ensures var after := Take(host, id, w, Act(p, action));
      forall owner' :: (!action.Rewrite? ==> owner' == owner) ==>
        CallSolo(after.calls[p], NextDir(w, Act(p, action), d), owner')
  {
    hide Carries, Load, Render, Stamp, Trimmed, TextCarries, NextFiles, Can, NextPc, CallSolo;
    PcStaysSolo(host, id, w, p, action, e, d, owner);
  }

  lemma PcStaysSolo(host: Host, id: string, w: World, p: nat, action: Action, e: Essence, d: Dir, owner: Option<string>)
    requires Inv(host, id, w, e) && p < |w.calls| && Can(host, id, w, w.calls[p], action) && Solo(host, id, w, d, owner)
    ensures var call := w.calls[p];
      forall owner' :: (!action.Rewrite? ==> owner' == owner) ==>
        CallSolo(Call(call.verb, NextPc(host, id, w, call, action)), NextDir(w, Act(p, action), d), owner')
  {
    hide Carries, Load, Render, Stamp, Trimmed, TextCarries;
    var call := w.calls[p];
    assert CallOk(host, w, p, e) && CallSolo(call, d, owner);
    if action.Open? || action.Scan? {
      var at := SearchAt(call.verb, call.pc.at);
      assert at in w.files.Keys;
      StatusOnly(host, w.files[at], id, DirName(at));
    }
  }

  lemma {:induction false} SoloRunKeeps(host: Host, id: string, before: World, steps: seq<Step>, after: World,
                                        e: Essence, d: Dir, owner: Option<string>)
    returns (d': Dir, owner': Option<string>)
    requires Sane(host) && Inv(host, id, before, e) && Solo(host, id, before, d, owner)
    requires SoloRuns(host, id, before, steps, after)
    ensures Solo(host, id, after, d', owner') && (owner.Some? ==> owner' == owner)
    decreases |steps|
  {
    hide Sane, Inv, Take, Enabled, Solo, SoloStep, NextDir, OwnerIn;
    if steps == [] {
      d', owner' := d, owner;
    } else {
      var front, last := steps[..|steps| - 1], steps[|steps| - 1];
      var mid :| SoloRuns(host, id, before, front, mid) && SoloStep(mid, last) && StepTo(host, id, mid, last, after);
      d', owner' := SoloRunKeeps(host, id, before, front, mid, e, d, owner);
      SoloRunsRun(host, id, before, front, mid);
      RunKeeps(host, id, before, front, mid, e);
      SoloStepKeeps(host, id, mid, last, e, d', owner');
      d', owner' := NextDir(mid, last, d'), OwnerIn(host, id, after.files, NextDir(mid, last, d'));
    }
  }

  lemma CreatedIsSolo(host: Host, id: string, h: Handoff)
    requires Sane(host) && Creatable(host, h) && h.claimedBy == None
    ensures Solo(host, id, Created(host, h), Pending, None)
  {
    hide Sane, Load, Render, Known, Trim;
    Reload(host, h, h.created, id, "");
    assert Trim(None) == None by { TrimNone(); }
  }

  lemma TrimNone()
    ensures Trim(None) == None
  {
  }

  /** When verbs on the id do not overlap, even if calls die anywhere, the handoff is in exactly one
      directory, and once somebody is recorded as having claimed it nobody else ever is. */
  lemma ExactlyOnePlace(host: Host, id: string, h: Handoff, first: seq<Step>, mid: World, rest: seq<Step>, w: World)
    requires Sane(host) && Creatable(host, h) && h.claimedBy == None
    requires SoloRuns(host, id, Created(host, h), first, mid) && SoloRuns(host, id, mid, rest, w)
    ensures |mid.files| == 1 && |w.files| == 1
    ensures forall d, d' :: d in mid.files && d' in w.files && OwnerIn(host, id, mid.files, d).Some? ==>
      OwnerIn(host, id, w.files, d') == OwnerIn(host, id, mid.files, d)
  {
    hide Sane, Creatable, Created, Inv, SoloRuns, CreatedEssence, Owner, CallSolo;
    var e := CreatedEssence(h);
    CreatedIsRight(host, id, h);
    CreatedIsSolo(host, id, h);
    var d, owner := SoloRunKeeps(host, id, Created(host, h), first, mid, e, Pending, None);
    SoloRunsRun(host, id, Created(host, h), first, mid);
    RunKeeps(host, id, Created(host, h), first, mid, e);
    var d', owner' := SoloRunKeeps(host, id, mid, rest, w, e, d, owner);
    OneKey(mid.files, d);
    OneKey(w.files, d');
  }

  lemma OneKey(files: map<Dir, string>, d: Dir)
    requires files.Keys == {d}
    ensures |files| == 1
  {
  }

  // ---- exactly one place, exactly when ----

  /** The rewrite, if the step is one, finds its file where its rename put it. */
  predicate FindsItsFile(w: World, step: Step) {
    step.Act? && step.p < |w.calls| && step.action.Rewrite? && w.calls[step.p].pc.Writing? ==>
      Target(w.calls[step.p].verb) in w.files
  }

  /** From one directory, a step leaves one directory exactly when it is not a rewrite that has lost its
      file. */
  lemma StepKeepsOnePlace(host: Host, id: string, w: World, step: Step, e: Essence)
    requires Inv(host, id, w, e) && Enabled(host, id, w, step) && |w.files| == 1
    ensures |Take(host, id, w, step).files| == 1 <==> FindsItsFile(w, step)
  {
    hide Carries, TextCarries, Load, Render, Stamp;
    var d := OnlyKey(w.files);
    var after := Take(host, id, w, step).files;
    if step.Act? {
      var call := w.calls[step.p];
      assert CallOk(host, w, step.p, e);
      var target := Target(call.verb);
      if step.action.RenameReturns? {
        assert call.pc.f.dir in w.files.Keys;
        assert after.Keys == {target};
        OneKey(after, target);
      } else if step.action.Rewrite? {
        assert after.Keys == {d, target};
        if target in w.files {
          assert target in w.files.Keys && after.Keys == {d};
        } else {
          assert target !in w.files.Keys;
        }
        assert |after| == |after.Keys|;
      }
    }
  }

  lemma OnlyKey(files: map<Dir, string>) returns (d: Dir)
    requires |files| == 1
    ensures files.Keys == {d}
  {
    assert |files.Keys| == 1;
    d :| d in files.Keys;
    var rest := files.Keys - {d};
    assert |rest| == 0;
    assert files.Keys == {d} + rest;
  }

  /** The worlds a run goes through, one more than its steps. */
  ghost predicate Trace(host: Host, id: string, worlds: seq<World>, steps: seq<Step>) {
    && |worlds| == |steps| + 1
    && forall k :: 0 <= k < |steps| ==> StepTo(host, id, worlds[k], steps[k], worlds[k + 1])
  }

  lemma {:induction false} TraceKeeps(host: Host, id: string, worlds: seq<World>, steps: seq<Step>, e: Essence, k: nat)
    requires Sane(host) && Trace(host, id, worlds, steps) && k <= |steps| && Inv(host, id, worlds[0], e)
    ensures Inv(host, id, worlds[k], e)
  {
    hide Sane, Inv, Enabled, Take;
    if k > 0 {
      TraceKeeps(host, id, worlds, steps, e, k - 1);
      assert StepTo(host, id, worlds[k - 1], steps[k - 1], worlds[k]);
      StepKeeps(host, id, worlds[k - 1], steps[k - 1], e);
    }
  }

  lemma {:induction false} OnePlaceUpTo(host: Host, id: string, worlds: seq<World>, steps: seq<Step>, e: Essence,
                                        k: nat)
    requires Sane(host) && Trace(host, id, worlds, steps) && k <= |steps| && Inv(host, id, worlds[0], e)
    requires |worlds[0].files| == 1
    requires forall j :: 0 <= j < k ==> FindsItsFile(worlds[j], steps[j])
    ensures |worlds[k].files| == 1
  {
    hide Sane, Inv, Enabled, Take, FindsItsFile;
    if k > 0 {
      OnePlaceUpTo(host, id, worlds, steps, e, k - 1);
      TraceKeeps(host, id, worlds, steps, e, k - 1);
      assert StepTo(host, id, worlds[k - 1], steps[k - 1], worlds[k]);
      StepKeepsOnePlace(host, id, worlds[k - 1], steps[k - 1], e);
    }
  }

  /** In any run, overlapping or not and with calls dying anywhere, the handoff is in exactly one
      directory at every point if and only if every rewrite finds its file where its rename put it. */
  lemma OnePlaceExactlyWhen(host: Host, id: string, h: Handoff, worlds: seq<World>, steps: seq<Step>)
    requires Sane(host) && Creatable(host, h)
    requires Trace(host, id, worlds, steps) && worlds[0] == Created(host, h)
    ensures (forall k :: 0 <= k < |worlds| ==> |worlds[k].files| == 1)
       <==> (forall k :: 0 <= k < |steps| ==> FindsItsFile(worlds[k], steps[k]))
  {
    hide Sane, Creatable, CreatedEssence, Inv, Enabled, Take, FindsItsFile, Render;
    var e := CreatedEssence(h);
    CreatedIsRight(host, id, h);
    OneKey(worlds[0].files, Pending);
    if forall k :: 0 <= k < |worlds| ==> |worlds[k].files| == 1 {
      forall k | 0 <= k < |steps| ensures FindsItsFile(worlds[k], steps[k]) {
        TraceKeeps(host, id, worlds, steps, e, k);
        assert StepTo(host, id, worlds[k], steps[k], worlds[k + 1]);
        StepKeepsOnePlace(host, id, worlds[k], steps[k], e);
      }
    }
    if forall k :: 0 <= k < |steps| ==> FindsItsFile(worlds[k], steps[k]) {
      forall k | 0 <= k < |worlds| ensures |worlds[k].files| == 1 {
        OnePlaceUpTo(host, id, worlds, steps, e, k);
      }
    }
  }

  // ---- overlapping verbs ----

  lemma Extend(host: Host, id: string, start: World, steps: seq<Step>, w: World, step: Step)
    requires Runs(host, id, start, steps, w) && Enabled(host, id, w, step)
    ensures Runs(host, id, start, steps + [step], Take(host, id, w, step))
  {
    hide Take, Enabled;
    var all := steps + [step];
    assert all[..|all| - 1] == steps && all[|all| - 1] == step;
    assert StepTo(host, id, w, step, Take(host, id, w, step));
  }

  /** The newest call, started in w, is at pc; nothing else has changed. */
  predicate Newest(w: World, verb: Verb, pc: Pc, now: World) {
    now == w.(calls := w.calls + [Call(verb, pc)])
  }

  /** A new call finds the file in its only directory. */
  lemma Finds(host: Host, id: string, start: World, steps: seq<Step>, w: World, verb: Verb, d: Dir)
    returns (all: seq<Step>, after: World, f: Found)
    requires Runs(host, id, start, steps, w) && w.files.Keys == {d} && Readable(host, id, w, d)
    requires d == SearchAt(verb, 0) || d == SearchAt(verb, 1)
    ensures Runs(host, id, start, all, after) && Newest(w, verb, Chosen(f), after)
    ensures f == Found(LoadFrom(host, id, w.files, d).value, d)
  {
    hide Load, Runs;
    var p := |w.calls|;
    Extend(host, id, start, steps, w, Invoke(verb));
    all, after := steps + [Invoke(verb)], Take(host, id, w, Invoke(verb));
    if d != SearchAt(verb, 0) {
      assert SearchAt(verb, 0) !in w.files.Keys;
      Extend(host, id, start, all, after, Act(p, Probe));
      all, after := all + [Act(p, Probe)], Take(host, id, after, Act(p, Probe));
    }
    var at := if d == SearchAt(verb, 0) then 0 else 1;
    assert Newest(w, verb, Looking(at, false), after);
    assert d in w.files.Keys;
    Extend(host, id, start, all, after, Act(p, Probe));
    all, after := all + [Act(p, Probe)], Take(host, id, after, Act(p, Probe));
    assert Newest(w, verb, Opening(at, false), after);
    Extend(host, id, start, all, after, Act(p, Open));
    all, after := all + [Act(p, Open)], Take(host, id, after, Act(p, Open));
    f := Found(LoadFrom(host, id, w.files, d).value, d);
    assert Newest(w, verb, Chosen(f), after);
  }

  /** It takes the lock and sees the file still there. */
  lemma Locks(host: Host, id: string, start: World, steps: seq<Step>, w: World, verb: Verb, f: Found, now: World)
    returns (all: seq<Step>, after: World)
    requires Runs(host, id, start, steps, now) && Newest(w, verb, Chosen(f), now)
    requires w.lock == None && f.dir in w.files && Accepts(verb, f.dir) && Allowed(f.dir, Target(verb))
    ensures Runs(host, id, start, all, after) && Newest(w.(lock := Some(|w.calls|)), verb, Renaming(f), after)
  {
    hide Load, Runs;
    var p := |w.calls|;
    var held := w.(lock := Some(p));
    Extend(host, id, start, steps, now, Act(p, Guard));
    all, after := steps + [Act(p, Guard)], Take(host, id, now, Act(p, Guard));
    assert Newest(w, verb, Waiting(f), after);
    Extend(host, id, start, all, after, Act(p, Acquire));
    all, after := all + [Act(p, Acquire)], Take(host, id, after, Act(p, Acquire));
    assert Newest(held, verb, Holding(f), after);
    Extend(host, id, start, all, after, Act(p, Check));
    all, after := all + [Act(p, Check)], Take(host, id, after, Act(p, Check));
    assert Newest(held, verb, Checked(f), after);
    Extend(host, id, start, all, after, Act(p, Rename));
    all, after := all + [Act(p, Rename)], Take(host, id, after, Act(p, Rename));
    assert Newest(held, verb, Renaming(f), after);
  }

  /** It moves the file and lets the lock go, with its rewrite still to come. */
  lemma Moves(host: Host, id: string, start: World, steps: seq<Step>, w: World, verb: Verb, f: Found, now: World)
    returns (all: seq<Step>, after: World)
    requires Runs(host, id, start, steps, now)
    requires Newest(w.(lock := Some(|w.calls|)), verb, Renaming(f), now)
    requires w.lock == None && w.files.Keys == {f.dir}
    ensures Runs(host, id, start, all, after)
    ensures after.files == map[Target(verb) := w.files[f.dir]] && after.lock == None
    ensures after.calls == w.calls + [Call(verb, Writing(f))]
  {
    hide Load, Runs;
    var p := |w.calls|;
    assert f.dir in w.files.Keys;
    Extend(host, id, start, steps, now, Act(p, RenameReturns));
    all, after := steps + [Act(p, RenameReturns)], Take(host, id, now, Act(p, RenameReturns));
    assert w.files - {f.dir} == map[];
    Extend(host, id, start, all, after, Act(p, Release));
    all, after := all + [Act(p, Release)], Take(host, id, after, Act(p, Release));
    assert after.calls == w.calls + [Call(verb, Writing(f))];
  }

  lemma MovesOut(host: Host, id: string, start: World, steps: seq<Step>, w: World, verb: Verb, d: Dir)
    returns (all: seq<Step>, after: World, f: Found)
    requires Runs(host, id, start, steps, w) && w.files.Keys == {d} && Readable(host, id, w, d)
    requires d == SearchAt(verb, 0) || d == SearchAt(verb, 1)
    requires w.lock == None && Accepts(verb, d) && Allowed(d, Target(verb))
    ensures Runs(host, id, start, all, after)
    ensures f == Found(LoadFrom(host, id, w.files, d).value, d)
    ensures after.files == map[Target(verb) := w.files[d]] && after.lock == None
    ensures after.calls == w.calls + [Call(verb, Writing(f))]
  {
    hide Load, Runs;
    all, after, f := Finds(host, id, start, steps, w, verb, d);
    assert d in w.files.Keys;
    all, after := Locks(host, id, start, all, w, verb, f, after);
    all, after := Moves(host, id, start, all, w, verb, f, after);
  }

  /** A call's rewrite lands wherever its rename put the file, whoever has moved it since. */
  lemma Lands(host: Host, id: string, start: World, steps: seq<Step>, w: World, p: nat, now: string)
    returns (all: seq<Step>, after: World)
    requires Runs(host, id, start, steps, w) && p < |w.calls| && w.calls[p].pc.Writing?
    ensures Runs(host, id, start, all, after) && after.lock == w.lock
    ensures var call := w.calls[p];
      after.files == w.files[Target(call.verb) := Render(host, Stamp(host, call.verb, call.pc.f.h, now), now)]
    ensures after.calls == w.calls[p := Call(w.calls[p].verb, Returned(Succeeded))]
  {
    hide Render, Stamp, Runs;
    Extend(host, id, start, steps, w, Act(p, Rewrite(now)));
    all, after := steps + [Act(p, Rewrite(now))], Take(host, id, w, Act(p, Rewrite(now)));
  }

  lemma CarriedIsReadable(host: Host, id: string, w: World, d: Dir, e: Essence)
    requires d in w.files && TextCarries(host, id, w.files[d], e)
    ensures Readable(host, id, w, d)
  {
    hide Load, TextCarries;
    LoadedCarries(host, id, w.files[d], DirName(d), e);
  }

  /** Exactly-one-place needs the verbs apart: whatever the handoff, a complete that comes between a
      claim's rename and its rewrite leaves it in claimed/ and done/ at once, both calls succeeding. */
  lemma OverlapDuplicates(host: Host, id: string, h: Handoff) returns (steps: seq<Step>, w: World)
    requires Sane(host) && Creatable(host, h)
    ensures Runs(host, id, Created(host, h), steps, w)
    ensures w.files.Keys == {Claimed, Finished}
    ensures w.calls == [Call(Claim(""), Returned(Succeeded)), Call(Complete("", ""), Returned(Succeeded))]
  {
    hide Sane, Creatable, Load, Render, Stamp, TextCarries, Runs, CreatedEssence, CallOk, Readable;
    var start, e := Created(host, h), CreatedEssence(h);
    CreatedIsRight(host, id, h);
    assert TextCarries(host, id, start.files[Pending], e);
    CarriedIsReadable(host, id, start, Pending, e);
    assert Runs(host, id, start, [], start) by { NoSteps(host, id, start); }
    var f, g;
    steps, w, f := MovesOut(host, id, start, [], start, Claim(""), Pending);
    CarriedIsReadable(host, id, w, Claimed, e);
    steps, w, g := MovesOut(host, id, start, steps, w, Complete("", ""), Claimed);
    steps, w := Lands(host, id, start, steps, w, 1, "now");
    steps, w := Lands(host, id, start, steps, w, 0, "now");
  }

  lemma NoSteps(host: Host, id: string, w: World)
    ensures Runs(host, id, w, [], w)
  {
  }
}
