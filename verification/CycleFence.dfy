/** The invariant behind the crash fence, and a run that escapes it. */
module CycleFence {
  import opened Wrappers
  import opened Receipts
  import opened CycleWorker
  import Schedule

  /** A tick whose receipts close it: reconciled, or finished and never unresolved. */
  predicate Resolved(events: seq<Event>, t: TickId) {
    Seen(events, TickReconciled, t) || (Seen(events, TickFinished, t) && !Seen(events, TickUnresolved, t))
  }

  ghost predicate OnlyUnmatched(events: seq<Event>, t: TickId) {
    forall x :: Unmatched(events, x) ==> x == t
  }

  ghost predicate PendingUnreached(w: World) {
    w.pending != [] ==> w.owner.Some? && Tick(w.owner.value, w.pending) !in w.reached
  }

  ghost predicate Bound(w: World) {
    (w.owner == None || w.owner == Some(w.session)) && (w.pending != [] ==> w.owner == Some(w.session))
  }

  ghost predicate PcSound(w: World) {
    match w.pc
    case Down => true
    case Top => Bound(w) && (!w.blocked ==> !HasUnmatched(w.events))
    case Chosen(kept) =>
      && Bound(w) && w.owner == Some(w.session) && (!w.blocked ==> !HasUnmatched(w.events))
      && (kept != [] ==> Tick(w.session, kept) !in w.reached)
    case Ready(due) =>
      Bound(w) && due != [] && w.pending == due && (!w.blocked ==> !HasUnmatched(w.events))
    case Started(due) =>
      && Bound(w) && due != [] && w.pending == due
      && Seen(w.events, TickStarted, Tick(w.session, due))
      && (!w.blocked ==> OnlyUnmatched(w.events, Tick(w.session, due)))
    case Refused(t) =>
      && Bound(w) && w.pending != [] && t == Tick(w.session, w.pending)
      && (!w.blocked ==> OnlyUnmatched(w.events, t))
    case InBroker(t, _, blockedAtStart, _) =>
      && Bound(w) && w.pending == [] && t in w.reached && !Seen(w.events, TickUnresolved, t)
      && (!w.blocked ==> OnlyUnmatched(w.events, t))
      && (!blockedAtStart ==> !w.blocked)
    case Clearing(t, _, _) =>
      Bound(w) && w.pending == [] && t in w.reached && !Seen(w.events, TickUnresolved, t)
    case Failing(t) =>
      Bound(w) && w.pending == [] && t in w.reached
  }

  ghost predicate Inv(w: World) {
    && (forall t :: t in w.reached ==> Seen(w.events, TickStarted, t))
    && (forall t :: Seen(w.events, TickUnresolved, t) ==> t in w.reached)
    && PendingUnreached(w)
    && PcSound(w)
  }

  // ---- one more receipt ----

  lemma SeenAfter(events: seq<Event>, e: Event)
    ensures forall kind, t ::
      Seen(events + [e], kind, t) <==> Seen(events, kind, t) || (e.kind == kind && e.tick == Some(t))
  {
    forall kind, t
      ensures Seen(events + [e], kind, t) <==> Seen(events, kind, t) || (e.kind == kind && e.tick == Some(t))
    {
      SeenAppend(events, e, kind, t);
    }
  }

  /** A receipt changes whether its own tick is unmatched, and no other's. */
  lemma UnmatchedAfter(events: seq<Event>, e: Event)
    ensures forall t :: e.tick != Some(t) ==> (Unmatched(events + [e], t) <==> Unmatched(events, t))
    ensures e.tick.Some? && e.kind in {TickFinished, TickAborted} && !Seen(events, TickUnresolved, e.tick.value) ==>
      !Unmatched(events + [e], e.tick.value)
    ensures e.tick.Some? && e.kind == TickReconciled ==> !Unmatched(events + [e], e.tick.value)
  {
    SeenAfter(events, e);
  }

  // ---- the invariant, step by step ----

  lemma BootKeeps(w: World, session: string)
    requires Inv(w) && Enabled(w, Boot(session))
    ensures Inv(Take(w, Boot(session)))
  {
  }

  lemma QuietKeeps(w: World, step: Step)
    requires Inv(w) && Enabled(w, step)
    requires step.Look? || step.Select? || step.PickPending? || step.Discard? || step.Raise? || step.Crash?
          || step.RemoveSchedule? || step.RunEntry?
    ensures Inv(Take(w, step))
  {
  }

  lemma StartKeeps(w: World)
    requires Inv(w) && Enabled(w, Start)
    ensures Inv(Take(w, Start))
  {
    var e := TickEvent(TickStarted, Tick(w.session, w.pc.due));
    SeenAfter(w.events, e);
    UnmatchedAfter(w.events, e);
  }

  lemma AcknowledgeKeeps(w: World, step: Step)
    requires Inv(w) && Enabled(w, step) && (step.Acknowledge? || step.AcknowledgeRaises?)
    ensures Inv(Take(w, step))
  {
  }

  lemma AbortKeeps(w: World)
    requires Inv(w) && Enabled(w, Abort)
    ensures Inv(Take(w, Abort))
  {
    var e := TickEvent(TickAborted, w.pc.tick);
    SeenAfter(w.events, e);
    UnmatchedAfter(w.events, e);
  }

  lemma ClearKeeps(w: World, step: Step)
    requires Inv(w) && Enabled(w, step) && (step.BeginClear? || step.ClearOne? || step.EndClear?)
    ensures Inv(Take(w, step))
  {
    if step.ClearOne? {
      SeenAfter(w.events, TickEvent(TickReconciled, w.pc.left[0]));
    }
    if step.EndClear? {
      SeenAfter(w.events, NOTICE(RecoveryCleared));
    }
  }

  lemma FinishKeeps(w: World, step: Step)
    requires Inv(w) && Enabled(w, step) && (step.Finish? || step.FinishThenRaise?)
    ensures Inv(Take(w, step))
  {
    var e := TickEvent(TickFinished, w.pc.tick);
    SeenAfter(w.events, e);
    UnmatchedAfter(w.events, e);
  }

  lemma FailKeeps(w: World)
    requires Inv(w) && Enabled(w, Fail)
    ensures Inv(Take(w, Fail))
  {
    SeenAfter(w.events, TickEvent(TickUnresolved, w.pc.tick));
  }

  lemma StepKeeps(w: World, step: Step)
    requires Inv(w) && Enabled(w, step)
    ensures Inv(Take(w, step))
  {
    hide Inv, Enabled, Take;
    match step
    case Boot(session) => BootKeeps(w, session);
    case Look(_) => QuietKeeps(w, step);
    case Select(_, _, _) => QuietKeeps(w, step);
    case PickPending => QuietKeeps(w, step);
    case Discard => QuietKeeps(w, step);
    case Start => StartKeeps(w);
    case Acknowledge => AcknowledgeKeeps(w, step);
    case AcknowledgeRaises => AcknowledgeKeeps(w, step);
    case Abort => AbortKeeps(w);
    case BeginClear(_) => ClearKeeps(w, step);
    case ClearOne => ClearKeeps(w, step);
    case EndClear => ClearKeeps(w, step);
    case RunEntry => QuietKeeps(w, step);
    case Raise => QuietKeeps(w, step);
    case FinishThenRaise => FinishKeeps(w, step);
    case Fail => FailKeeps(w);
    case Finish => FinishKeeps(w, step);
    case Crash => QuietKeeps(w, step);
    case RemoveSchedule => QuietKeeps(w, step);
  }

  lemma {:induction false} ReachedKeep(steps: seq<Step>, w: World)
    requires Reaches(steps, w)
    ensures Inv(w)
    decreases |steps|
  {
    if steps != [] {
      var front, last := steps[..|steps| - 1], steps[|steps| - 1];
      var before :| Reaches(front, before) && StepTo(before, last, w);
      ReachedKeep(front, before);
      StepKeeps(before, last);
    }
  }

  // ---- the exception ----

  ghost predicate Unaborted(w: World) {
    && (forall t :: !Seen(w.events, TickAborted, t))
    && !w.pc.Refused?
    && (forall i :: 0 <= i < |w.entries| ==> forall t :: !Seen(w.entries[i].events, TickAborted, t))
  }

  lemma StepUnaborted(w: World, step: Step)
    requires Unaborted(w) && Inv(w) && Enabled(w, step) && !step.AcknowledgeRaises?
    ensures Unaborted(Take(w, step))
  {
    var after := Take(w, step);
    if after.events != w.events {
      SeenAfter(w.events, after.events[|after.events| - 1]);
    }
  }

  lemma {:induction false} NeverAborted(steps: seq<Step>, w: World)
    requires Reaches(steps, w) && AcknowledgeRaises !in steps
    ensures Unaborted(w)
    decreases |steps|
  {
    if steps != [] {
      var front, last := steps[..|steps| - 1], steps[|steps| - 1];
      var before :| Reaches(front, before) && StepTo(before, last, w);
      NeverAborted(front, before);
      ReachedKeep(front, before);
      StepUnaborted(before, last);
    }
  }

  lemma Extend(steps: seq<Step>, w: World, step: Step)
    requires Reaches(steps, w) && Enabled(w, step)
    requires w.pc.Ready? || w.pc.Started? ==> w.pc.due != []
    ensures Reaches(steps + [step], Take(w, step))
  {
    var all := steps + [step];
    assert all[..|all| - 1] == steps && all[|all| - 1] == step;
    assert StepTo(w, step, Take(w, step));
  }

  const SLOT_ONE := Schedule.Slot(Schedule.Management, 1, 60, 0)
  const SLOT_TWO := Schedule.Slot(Schedule.EntryJob, 2, 120, 0)
  const TICK_ONE := TickId("day", 1)
  const TICK_TWO := TickId("day", 2)

  const REPLAYED: seq<Event> :=
    [TickEvent(TickStarted, TICK_ONE), TickEvent(TickAborted, TICK_ONE)]

  lemma NothingYet()
    ensures Reaches([], BLANK) && !HasUnmatched([]) && forall t :: !Seen([], TickStarted, t)
  {
  }

  /** The owner selects its first slot and emits TICK_STARTED. */
  lemma StartedTick() returns (steps: seq<Step>, w: World)
    ensures Reaches(steps, w)
    ensures w == World([TickEvent(TickStarted, TICK_ONE)], [SLOT_ONE], Some("day"), "day", false,
                       Started([SLOT_ONE]), {}, [])
  {
    hide Reaches, HasUnmatched, Seen;
    steps, w := [], BLANK;
    NothingYet();
    Extend(steps, w, Boot("day"));
    steps, w := steps + [Boot("day")], Take(w, Boot("day"));
    assert w == World([], [], None, "day", false, Top, {}, []);
    assert Tick("day", [SLOT_ONE]) == TICK_ONE;
    var select := Select(false, [SLOT_ONE], [SLOT_ONE]);
    Extend(steps, w, select);
    steps, w := steps + [select], Take(w, select);
    Extend(steps, w, Discard);
    steps, w := steps + [Discard], Take(w, Discard);
    assert w == World([], [SLOT_ONE], Some("day"), "day", false, Ready([SLOT_ONE]), {}, []);
    Extend(steps, w, Start);
    steps, w := steps + [Start], Take(w, Start);
    assert w.events == [TickEvent(TickStarted, TICK_ONE)];
  }

  /** A tick whose acknowledgement raised is left pending with its TICK_ABORTED on disk. */
  lemma AbortedTick() returns (steps: seq<Step>)
    ensures Reaches(steps, World(REPLAYED, [SLOT_ONE], Some("day"), "day", false, Top, {}, []))
  {
    hide Reaches;
    var w;
    steps, w := StartedTick();
    Extend(steps, w, AcknowledgeRaises);
    steps, w := steps + [AcknowledgeRaises], Take(w, AcknowledgeRaises);
    Extend(steps, w, Abort);
    steps, w := steps + [Abort], Take(w, Abort);
    assert w.events == REPLAYED;
  }

  const REPLAY_DONE: seq<Event> := REPLAYED + [TickEvent(TickStarted, TICK_ONE)]

  /** Its replay reaches the broker, and the process dies there. */
  lemma ReplayDies() returns (steps: seq<Step>, w: World)
    ensures Reaches(steps, w) && w.pc == Down && w.owner == Some("day") && w.pending == []
    ensures w.events == REPLAY_DONE && w.reached == {TICK_ONE} && w.entries == []
  {
    hide Reaches;
    steps := AbortedTick();
    w := World(REPLAYED, [SLOT_ONE], Some("day"), "day", false, Top, {}, []);
    Extend(steps, w, PickPending);
    steps, w := steps + [PickPending], Take(w, PickPending);
    assert Tick("day", [SLOT_ONE]) == TICK_ONE;
    Extend(steps, w, Start);
    steps, w := steps + [Start], Take(w, Start);
    Extend(steps, w, Acknowledge);
    steps, w := steps + [Acknowledge], Take(w, Acknowledge);
    Extend(steps, w, Crash);
    steps, w := steps + [Crash], Take(w, Crash);
  }

  lemma AbortedIsNotUnmatched()
    ensures !HasUnmatched(REPLAY_DONE)
    ensures Seen(REPLAY_DONE, TickAborted, TICK_ONE)
    ensures !Resolved(REPLAY_DONE + [TickEvent(TickStarted, TICK_TWO)], TICK_ONE)
    ensures !Seen(REPLAY_DONE, TickStarted, TICK_TWO)
  {
    assert REPLAY_DONE[1] == TickEvent(TickAborted, TICK_ONE);
    forall t ensures !Unmatched(REPLAY_DONE, t) {
      if Seen(REPLAY_DONE, TickStarted, t) {
        assert t == TICK_ONE;
      }
    }
  }

  /** After a restart nothing is unmatched, so the next tick starts unblocked. */
  lemma NextTickStarts() returns (steps: seq<Step>, w: World)
    ensures Reaches(steps, w) && w.session == "day" && w.entries == [] && !w.blocked && w.reached == {TICK_ONE}
    ensures w.pc == Started([SLOT_TWO]) && w.pending == [SLOT_TWO]
    ensures w.events == REPLAY_DONE + [TickEvent(TickStarted, TICK_TWO)]
  {
    hide Reaches, HasUnmatched, Seen, Resolved;
    steps, w := ReplayDies();
    AbortedIsNotUnmatched();
    Extend(steps, w, Boot("day"));
    steps, w := steps + [Boot("day")], Take(w, Boot("day"));
    assert !w.blocked && w.events == REPLAY_DONE;
    assert Tick("day", [SLOT_TWO]) == TICK_TWO;
    var select := Select(false, [SLOT_TWO], [SLOT_TWO]);
    Extend(steps, w, select);
    steps, w := steps + [select], Take(w, select);
    Extend(steps, w, Discard);
    steps, w := steps + [Discard], Take(w, Discard);
    Extend(steps, w, Start);
    steps, w := steps + [Start], Take(w, Start);
  }

  /** The exception is real: the abort receipt of a tick that is replayed hides that its replay
      reached the broker, and after a restart the next entry phase runs with nothing on disk to
      close it. */
  lemma AbortedReplayEscapesTheFence() returns (steps: seq<Step>, w: World)
    ensures Reaches(steps, w) && |w.entries| == 1
    ensures var e := w.entries[0]; TICK_ONE in e.reached && TICK_ONE != e.tick && !Resolved(e.events, TICK_ONE)
  {
    hide Reaches, HasUnmatched, Resolved;
    steps, w := NextTickStarts();
    AbortedIsNotUnmatched();
    assert Tick("day", [SLOT_TWO]) == TICK_TWO;
    Extend(steps, w, Acknowledge);
    steps, w := steps + [Acknowledge], Take(w, Acknowledge);
    Extend(steps, w, RunEntry);
    steps, w := steps + [RunEntry], Take(w, RunEntry);
  }
}
