/** What holds an entry phase back: anything that raised the recovery flag, until a restart that finds
    nothing open or a clearance; and nothing else. */
module CycleBlocks {
  import opened Wrappers
  import opened Receipts
  import opened CycleWorker
  import opened CycleFence
  import Schedule

  /** The worlds a run goes through, from a blank disk on. */
  ghost predicate Trace(worlds: seq<World>, steps: seq<Step>) {
    && |worlds| == |steps| + 1 && worlds[0] == BLANK
    && forall i :: 0 <= i < |steps| ==> StepTo(worlds[i], steps[i], worlds[i + 1])
  }

  lemma {:induction false} TraceReaches(worlds: seq<World>, steps: seq<Step>, n: nat)
    requires Trace(worlds, steps) && n <= |steps|
    ensures Reaches(steps[..n], worlds[n])
  {
    if n > 0 {
      TraceReaches(worlds, steps, n - 1);
      assert steps[..n][..n - 1] == steps[..n - 1];
    }
  }

  lemma {:induction false} ReachesTraced(steps: seq<Step>, w: World) returns (worlds: seq<World>)
    requires Reaches(steps, w)
    ensures Trace(worlds, steps) && worlds[|steps|] == w
    decreases |steps|
  {
    hide StepTo;
    if steps == [] {
      worlds := [w];
    } else {
      var front, last := steps[..|steps| - 1], steps[|steps| - 1];
      var before :| Reaches(front, before) && StepTo(before, last, w);
      var earlier := ReachesTraced(front, before);
      worlds := earlier + [w];
      forall i | 0 <= i < |steps| ensures StepTo(worlds[i], steps[i], worlds[i + 1]) {
        if i < |front| {
          assert StepTo(earlier[i], front[i], earlier[i + 1]);
        }
      }
    }
  }

  /** A step after which the worker has a reason to hold entries back: the flag was read as raised, a
      pending selection was found, a tick failed at the broker, or the worker came up to unmatched
      ticks or a pending selection. */
  ghost predicate Raises(before: World, step: Step) {
    || (step.Look? && step.flag)
    || (step.Select? && step.flag)
    || step.PickPending?
    || step.Fail?
    || (step.Boot? && (HasUnmatched(before.events) || before.pending != []))
  }

  /** The two steps that may end it: a restart and a completed clearance. */
  predicate Ends(step: Step) {
    step.Boot? || step.EndClear?
  }

  /** The i-th step raised, and neither a restart nor a clearance has come since. */
  ghost predicate StandingSince(worlds: seq<World>, steps: seq<Step>, i: nat) {
    && i < |steps| && i < |worlds| && Raises(worlds[i], steps[i])
    && forall j :: i < j < |steps| ==> !Ends(steps[j])
  }

  ghost predicate Standing(worlds: seq<World>, steps: seq<Step>) {
    exists i: nat :: StandingSince(worlds, steps, i)
  }

  // ---- clearances ----

  /** A clearance has every open tick on its list, all of this session. */
  ghost predicate ClearSound(w: World) {
    w.pc.Clearing? ==>
      && (forall t :: Unmatched(w.events, t) ==> t in w.pc.left)
      && (forall t :: t in w.pc.left ==> t.session == w.session)
      && (forall t :: t in w.pc.left ==> Unmatched(w.events, t) || Seen(w.events, TickReconciled, t))
  }

  lemma StepClears(w: World, step: Step, after: World)
    requires ClearSound(w) && StepTo(w, step, after)
    ensures ClearSound(after)
    ensures step.EndClear? ==> !HasUnmatched(after.events)
  {
    hide Seen, Unmatched;
    match step
    case ClearOne =>
      SeenAfter(w.events, TickEvent(TickReconciled, w.pc.left[0]));
      UnmatchedAfter(w.events, TickEvent(TickReconciled, w.pc.left[0]));
    case EndClear => UnmatchedAfter(w.events, NOTICE(RecoveryCleared));
    case _ =>
  }

  /** A tick newly marked reconciled was open, and of this session. */
  lemma NewlyReconciled(w: World, step: Step, after: World, t: TickId)
    requires ClearSound(w) && StepTo(w, step, after)
    requires Seen(after.events, TickReconciled, t) && !Seen(w.events, TickReconciled, t)
    ensures t.session == w.session && Unmatched(w.events, t)
  {
    hide Seen, Unmatched, HasUnmatched;
    if after.events != w.events {
      SeenAfter(w.events, after.events[|after.events| - 1]);
    }
  }

  lemma {:induction false} TraceClears(worlds: seq<World>, steps: seq<Step>, n: nat)
    requires Trace(worlds, steps) && n <= |steps|
    ensures ClearSound(worlds[n])
  {
    hide ClearSound, StepTo;
    if n > 0 {
      TraceClears(worlds, steps, n - 1);
      StepClears(worlds[n - 1], steps[n - 1], worlds[n]);
    } else {
      assert ClearSound(BLANK) by { BlankClears(); }
    }
  }

  lemma BlankClears()
    ensures ClearSound(BLANK)
  {
  }

  /** A clearance closes every open tick, and a tick of another session none: what it marks reconciled
      is of its own session, and when it ends nothing is unmatched. */
  lemma ClearanceClosesItsOwn(worlds: seq<World>, steps: seq<Step>, n: nat)
    requires Trace(worlds, steps) && n < |steps|
    ensures steps[n] == EndClear ==> !HasUnmatched(worlds[n + 1].events)
    ensures forall t :: Seen(worlds[n + 1].events, TickReconciled, t) && !Seen(worlds[n].events, TickReconciled, t) ==>
      t.session == worlds[n].session && Unmatched(worlds[n].events, t)
  {
    hide Seen, Unmatched, HasUnmatched, StepTo, ClearSound;
    TraceClears(worlds, steps, n);
    StepClears(worlds[n], steps[n], worlds[n + 1]);
    forall t | Seen(worlds[n + 1].events, TickReconciled, t) && !Seen(worlds[n].events, TickReconciled, t)
      ensures t.session == worlds[n].session && Unmatched(worlds[n].events, t)
    {
      NewlyReconciled(worlds[n], steps[n], worlds[n + 1], t);
    }
  }

  // ---- what stands blocks ----

  lemma StandsOver(worlds: seq<World>, steps: seq<Step>, i: nat)
    requires StandingSince(worlds, steps, i)
    ensures Standing(worlds, steps)
  {
  }

  lemma StepBlocks(w: World, step: Step, after: World)
    requires ClearSound(w) && StepTo(w, step, after)
    ensures after.blocked <==> Raises(w, step) || (w.blocked && !Ends(step))
  {
    hide HasUnmatched;
    StepClears(w, step, after);
  }

  lemma StandingNext(worlds: seq<World>, steps: seq<Step>, n: nat)
    requires n < |steps| && n < |worlds|
    ensures Standing(worlds, steps[..n + 1]) <==>
      Raises(worlds[n], steps[n]) || (Standing(worlds, steps[..n]) && !Ends(steps[n]))
  {
    hide Raises;
    var now, next := steps[..n], steps[..n + 1];
    if Raises(worlds[n], steps[n]) {
      assert StandingSince(worlds, next, n);
    }
    if i: nat :| StandingSince(worlds, now, i) && !Ends(steps[n]) {
      forall j | i < j < |next| ensures !Ends(next[j]) {
        if j < n { assert next[j] == now[j]; }
      }
      assert StandingSince(worlds, next, i);
    }
    if i: nat :| StandingSince(worlds, next, i) {
      if i < n {
        assert next[n] == steps[n];
        forall j | i < j < n ensures !Ends(now[j]) {
          assert next[j] == now[j];
        }
        assert StandingSince(worlds, now, i);
      }
    }
  }

  /** The worker holds entries back exactly when something raised the flag and neither a restart nor a
      completed clearance has come since. */
  lemma {:induction false} BlockedExactly(worlds: seq<World>, steps: seq<Step>, n: nat)
    requires Trace(worlds, steps) && n <= |steps|
    ensures worlds[n].blocked <==> Standing(worlds, steps[..n])
  {
    hide StepTo, Raises;
    if n > 0 {
      BlockedExactly(worlds, steps, n - 1);
      TraceClears(worlds, steps, n - 1);
      StepBlocks(worlds[n - 1], steps[n - 1], worlds[n]);
      StandingNext(worlds, steps, n - 1);
    }
  }

  // ---- entries ----

  /** In the broker a tick is as it was acknowledged, until its entry phase has run. */
  lemma EntryStepFollows(worlds: seq<World>, steps: seq<Step>, k: nat)
    requires Trace(worlds, steps) && k < |steps| && steps[k] == RunEntry
    ensures k > 0 && steps[k - 1] == Acknowledge && !worlds[k - 1].blocked
    ensures worlds[k - 1].pc.Started? && EntryDue(worlds[k - 1].pc.due)
  {
    hide HasUnmatched, Seen, Unmatched;
    assert StepTo(worlds[k], steps[k], worlds[k + 1]);
    assert worlds[0].pc == Down;
    assert StepTo(worlds[k - 1], steps[k - 1], worlds[k]);
  }

  /** Whatever raised the flag, no entry phase runs until a restart or a completed clearance, and then only
      in a tick acknowledged after it: the tick that clears a recovery runs none. */
  lemma RaisedFlagBlocks(steps: seq<Step>, w: World, i: nat, k: nat)
    requires Reaches(steps, w) && i < k < |steps| && steps[k] == RunEntry
    requires steps[i] in {Look(true), PickPending, Fail} || (steps[i].Select? && steps[i].flag)
    ensures exists j :: i < j < k - 1 && (steps[j].Boot? || steps[j] == EndClear)
    ensures steps[k - 1] == Acknowledge
  {
    hide Reaches, StepTo;
    var worlds := ReachesTraced(steps, w);
    EntryStepFollows(worlds, steps, k);
    BlockedExactly(worlds, steps, k - 1);
    var past := steps[..k - 1];
    assert i != k - 1;
    assert Raises(worlds[i], steps[i]);
    if forall j :: i < j < k - 1 ==> !Ends(steps[j]) {
      StandsOver(worlds, past, i);
    }
  }

  /** At the moment a tick is acknowledged: its entry phase may run if and only if an entry slot is due and
      nothing stands. */
  lemma EntryRunsExactly(worlds: seq<World>, steps: seq<Step>)
    requires Trace(worlds, steps) && steps != [] && steps[|steps| - 1] == Acknowledge
    ensures var n := |steps| - 1;
      Enabled(worlds[n + 1], RunEntry) <==> EntryDue(worlds[n].pc.due) && !Standing(worlds, steps[..n])
  {
    hide Standing, HasUnmatched, Seen, Unmatched;
    var n := |steps| - 1;
    BlockedExactly(worlds, steps, n);
    assert StepTo(worlds[n], steps[n], worlds[n + 1]);
  }

  /** And it does run: from the head of the loop, with nothing pending and nothing standing, a selection made
      with the flag down that keeps an entry slot goes on to an entry phase of its tick. */
  lemma UnblockedSelectionEnters(worlds: seq<World>, steps: seq<Step>, all: Slots, kept: Slots)
    returns (w: World)
    requires Trace(worlds, steps) && !Standing(worlds, steps)
    requires var now := worlds[|steps|];
      now.pc == Top && now.pending == [] && FreshTick(now, all) && FreshTick(now, kept)
    requires EntryDue(kept) && forall s :: s in kept ==> s in all
    ensures Reaches(steps + [Select(false, all, kept), Discard, Start, Acknowledge, RunEntry], w)
    ensures |w.entries| == |worlds[|steps|].entries| + 1
    ensures w.entries[|w.entries| - 1].tick == Tick(worlds[|steps|].session, kept)
  {
    hide Reaches, HasUnmatched, Seen, Standing;
    var now := worlds[|steps|];
    TraceReaches(worlds, steps, |steps|);
    BlockedExactly(worlds, steps, |steps|);
    assert steps[..|steps|] == steps;
    assert kept[0] in all;
    var select := Select(false, all, kept);
    Extend(steps, now, select);
    var s1, w1 := steps + [select], Take(now, select);
    Extend(s1, w1, Discard);
    var s2, w2 := s1 + [Discard], Take(w1, Discard);
    Extend(s2, w2, Start);
    var s3, w3 := s2 + [Start], Take(w2, Start);
    Extend(s3, w3, Acknowledge);
    var s4, w4 := s3 + [Acknowledge], Take(w3, Acknowledge);
    Extend(s4, w4, RunEntry);
    w := Take(w4, RunEntry);
    assert s4 + [RunEntry] == steps + [Select(false, all, kept), Discard, Start, Acknowledge, RunEntry];
  }

  // ---- what the history holds ----

  /** The j-th step acknowledged that tick. */
  ghost predicate AcknowledgedAt(worlds: seq<World>, steps: seq<Step>, j: nat, t: TickId) {
    && j < |steps| && j < |worlds| && steps[j] == Acknowledge
    && worlds[j].pc.Started? && worlds[j].pc.due != [] && t == Tick(worlds[j].session, worlds[j].pc.due)
  }

  ghost predicate Acknowledged(worlds: seq<World>, steps: seq<Step>, n: nat, t: TickId) {
    exists j: nat :: j < n && AcknowledgedAt(worlds, steps, j, t)
  }

  lemma AcknowledgedNext(worlds: seq<World>, steps: seq<Step>, n: nat, t: TickId)
    ensures Acknowledged(worlds, steps, n + 1, t) <==>
      Acknowledged(worlds, steps, n, t) || AcknowledgedAt(worlds, steps, n, t)
  {
    hide AcknowledgedAt;
    if j: nat :| j < n + 1 && AcknowledgedAt(worlds, steps, j, t) && j != n {
      assert Acknowledged(worlds, steps, n, t);
    }
  }

  lemma StepReaches(before: World, step: Step, after: World, t: TickId)
    requires StepTo(before, step, after)
    ensures t in after.reached <==>
      t in before.reached
      || (step == Acknowledge && before.pc.Started? && before.pc.due != [] && t == Tick(before.session, before.pc.due))
  {
    hide HasUnmatched, Unmatched, Seen;
  }

  /** The ticks counted as having reached the broker are those acknowledged. */
  lemma {:induction false} ReachedAreAcknowledged(worlds: seq<World>, steps: seq<Step>, n: nat, t: TickId)
    requires Trace(worlds, steps) && n <= |steps|
    ensures t in worlds[n].reached <==> Acknowledged(worlds, steps, n, t)
  {
    hide StepTo, Acknowledged;
    if n > 0 {
      ReachedAreAcknowledged(worlds, steps, n - 1, t);
      StepReaches(worlds[n - 1], steps[n - 1], worlds[n], t);
      AcknowledgedNext(worlds, steps, n - 1, t);
    } else {
      NoneYet(worlds, steps, t);
    }
  }

  /** An entry phase is recorded with what was on disk and which ticks had reached the broker just then; no
      other step records one. */
  lemma EntryIsRecorded(before: World, step: Step, after: World)
    requires StepTo(before, step, after)
    ensures step == RunEntry ==>
      before.pc.InBroker?
      && after.entries == before.entries + [EntryRun(before.pc.tick, before.events, before.reached)]
    ensures step != RunEntry ==> after.entries == before.entries
  {
    hide HasUnmatched, Unmatched, Seen;
  }

  lemma NoneYet(worlds: seq<World>, steps: seq<Step>, t: TickId)
    ensures !Acknowledged(worlds, steps, 0, t)
  {
  }
}
