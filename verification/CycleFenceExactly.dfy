/** The crash fence: what is on disk about every earlier tick when an entry phase runs, and exactly when
    the fence lets one through. */
module CycleFenceExactly {
  import opened Wrappers
  import opened Receipts
  import opened CycleWorker
  import opened CycleFence

  /** The kind of the last receipt about a tick. */
  function LastReceipt(events: seq<Event>, t: TickId): Option<Kind> {
    if events == [] then None
    else if events[|events| - 1].tick == Some(t) then Some(events[|events| - 1].kind)
    else LastReceipt(events[..|events| - 1], t)
  }

  /** Some receipt says how the tick came back from the broker. */
  predicate Accounted(events: seq<Event>, t: TickId) {
    Seen(events, TickFinished, t) || Seen(events, TickUnresolved, t) || Seen(events, TickReconciled, t)
  }

  /** A tick that reached the broker was started last, or accounted for since. */
  predicate Told(events: seq<Event>, t: TickId) {
    LastReceipt(events, t) == Some(TickStarted) <==> !Accounted(events, t)
  }

  /** At an entry phase a tick other than the running one is open on disk exactly when its last receipt is
      its TICK_STARTED; and then it was aborted before. */
  ghost predicate Exact(e: EntryRun) {
    forall t :: t in e.reached && t != e.tick ==>
      && (!Resolved(e.events, t) <==> LastReceipt(e.events, t) == Some(TickStarted))
      && (!Resolved(e.events, t) ==> Seen(e.events, TickAborted, t))
  }

  /** No tick that may yet reach the broker is accounted for already. */
  ghost predicate Unaccounted(w: World) {
    && (w.pending != [] && w.owner.Some? ==> !Accounted(w.events, Tick(w.owner.value, w.pending)))
    && (w.pc.Chosen? && w.pc.kept != [] ==> !Accounted(w.events, Tick(w.session, w.pc.kept)))
    && (w.pc.Started? && w.pc.due != [] ==> LastReceipt(w.events, Tick(w.session, w.pc.due)) == Some(TickStarted))
    && (w.pc.Clearing? ==> forall t :: t in w.pc.left ==> Seen(w.events, TickStarted, t))
  }

  ghost predicate Ordered(w: World) {
    && (forall t :: t in w.reached ==> Told(w.events, t))
    && (forall t :: Accounted(w.events, t) ==> Seen(w.events, TickStarted, t))
    && Unaccounted(w)
    && (forall i :: 0 <= i < |w.entries| ==> Exact(w.entries[i]))
  }

  lemma LastAfter(events: seq<Event>, e: Event)
    ensures forall t ::
      LastReceipt(events + [e], t) == if e.tick == Some(t) then Some(e.kind) else LastReceipt(events, t)
  {
    assert (events + [e])[..|events|] == events;
  }

  lemma AccountedAfter(events: seq<Event>, e: Event)
    ensures forall t :: Accounted(events + [e], t) <==>
      Accounted(events, t) || (e.tick == Some(t) && e.kind in {TickFinished, TickUnresolved, TickReconciled})
  {
    SeenAfter(events, e);
  }

  /** A receipt about no tick, or one that accounts for its tick, keeps every story told. */
  lemma ToldAfter(events: seq<Event>, e: Event, reached: set<TickId>)
    requires forall t :: t in reached ==> Told(events, t)
    requires e.tick.Some? && e.tick.value in reached ==> e.kind in {TickFinished, TickUnresolved, TickReconciled}
    ensures forall t :: t in reached ==> Told(events + [e], t)
  {
    hide Accounted, LastReceipt;
    LastAfter(events, e);
    AccountedAfter(events, e);
  }

  lemma StartedAfter(events: seq<Event>, e: Event)
    requires forall t :: Accounted(events, t) ==> Seen(events, TickStarted, t)
    requires e.tick.Some? && e.kind in {TickFinished, TickUnresolved, TickReconciled} ==>
      Seen(events, TickStarted, e.tick.value)
    ensures forall t :: Accounted(events + [e], t) ==> Seen(events + [e], TickStarted, t)
  {
    AccountedAfter(events, e);
    SeenAfter(events, e);
  }

  lemma QuietOrdered(w: World, step: Step)
    requires Inv(w) && Ordered(w) && Enabled(w, step)
    requires step.Look? || step.PickPending? || step.Discard? || step.Raise? || step.Crash?
          || step.RemoveSchedule? || step.AcknowledgeRaises? || step.BeginClear?
    ensures Ordered(Take(w, step))
  {
    hide Accounted, LastReceipt, Told, Exact;
  }

  lemma SelectOrdered(w: World, step: Step)
    requires Inv(w) && Ordered(w) && Enabled(w, step) && step.Select?
    ensures Ordered(Take(w, step))
  {
    hide Accounted, LastReceipt, Told, Exact;
  }

  /** A receipt that accounts for its tick, or is about none. */
  lemma ReceiptOrdered(w: World, step: Step, e: Event)
    requires Inv(w) && Ordered(w) && Enabled(w, step) && Take(w, step).events == w.events + [e]
    requires step.Boot? || step.ClearOne? || step.EndClear? || step.Finish? || step.FinishThenRaise? || step.Fail?
    ensures Ordered(Take(w, step))
  {
    hide Accounted, LastReceipt, Told, Exact;
    assert Take(w, step).events[|w.events|] == e;
    ToldAfter(w.events, e, w.reached);
    StartedAfter(w.events, e);
    AccountedAfter(w.events, e);
    SeenAfter(w.events, e);
  }

  lemma StartOrdered(w: World)
    requires Inv(w) && Ordered(w) && Enabled(w, Start)
    ensures Ordered(Take(w, Start))
  {
    hide Accounted, LastReceipt, Told, Exact;
    var e := TickEvent(TickStarted, Tick(w.session, w.pc.due));
    ToldAfter(w.events, e, w.reached);
    StartedAfter(w.events, e);
    AccountedAfter(w.events, e);
    LastAfter(w.events, e);
  }

  lemma AbortOrdered(w: World)
    requires Inv(w) && Ordered(w) && Enabled(w, Abort)
    ensures Ordered(Take(w, Abort))
  {
    hide Accounted, LastReceipt, Told, Exact;
    var e := TickEvent(TickAborted, w.pc.tick);
    ToldAfter(w.events, e, w.reached);
    StartedAfter(w.events, e);
    AccountedAfter(w.events, e);
  }

  /** Acknowledging is where a tick reaches the broker: started last, and not accounted for. */
  lemma AcknowledgeOrdered(w: World)
    requires Inv(w) && Ordered(w) && Enabled(w, Acknowledge)
    ensures Ordered(Take(w, Acknowledge))
  {
    hide Accounted, LastReceipt, Exact;
  }

  lemma EntryOrdered(w: World)
    requires Inv(w) && Ordered(w) && Enabled(w, RunEntry)
    ensures Ordered(Take(w, RunEntry))
  {
    hide LastReceipt;
    var e := EntryRun(w.pc.tick, w.events, w.reached);
    forall t | t in e.reached && t != e.tick
      ensures !Resolved(e.events, t) <==> LastReceipt(e.events, t) == Some(TickStarted)
      ensures !Resolved(e.events, t) ==> Seen(e.events, TickAborted, t)
    {
      assert Told(w.events, t) && !Unmatched(w.events, t);
    }
    assert Exact(e);
  }

  lemma StepOrdered(w: World, step: Step)
    requires Inv(w) && Ordered(w) && Enabled(w, step)
    ensures Ordered(Take(w, step))
  {
    hide Inv, Ordered;
    match step
    case Boot(session) =>
      if Take(w, step).events == w.events {
        BootOrdered(w, session);
      } else {
        ReceiptOrdered(w, step, NOTICE(RecoveryRequired));
      }
    case Look(_) => QuietOrdered(w, step);
    case Select(_, _, _) => SelectOrdered(w, step);
    case PickPending => QuietOrdered(w, step);
    case Discard => QuietOrdered(w, step);
    case Start => StartOrdered(w);
    case Acknowledge => AcknowledgeOrdered(w);
    case AcknowledgeRaises => QuietOrdered(w, step);
    case Abort => AbortOrdered(w);
    case BeginClear(_) => QuietOrdered(w, step);
    case ClearOne => ReceiptOrdered(w, step, TickEvent(TickReconciled, w.pc.left[0]));
    case EndClear => ReceiptOrdered(w, step, NOTICE(RecoveryCleared));
    case RunEntry => EntryOrdered(w);
    case Raise => QuietOrdered(w, step);
    case FinishThenRaise => ReceiptOrdered(w, step, TickEvent(TickFinished, w.pc.tick));
    case Fail => ReceiptOrdered(w, step, TickEvent(TickUnresolved, w.pc.tick));
    case Finish => ReceiptOrdered(w, step, TickEvent(TickFinished, w.pc.tick));
    case Crash => QuietOrdered(w, step);
    case RemoveSchedule => QuietOrdered(w, step);
  }

  lemma BootOrdered(w: World, session: string)
    requires Inv(w) && Ordered(w) && Enabled(w, Boot(session)) && Take(w, Boot(session)).events == w.events
    ensures Ordered(Take(w, Boot(session)))
  {
    hide Accounted, LastReceipt, Told, Exact, HasUnmatched;
  }

  lemma {:induction false} ReachedOrdered(steps: seq<Step>, w: World)
    requires Reaches(steps, w)
    ensures Ordered(w)
    decreases |steps|
  {
    hide Inv, Take, Enabled;
    if steps == [] {
      assert Ordered(BLANK);
    } else {
      var front, last := steps[..|steps| - 1], steps[|steps| - 1];
      var before :| Reaches(front, before) && StepTo(before, last, w);
      ReachedOrdered(front, before);
      ReachedKeep(front, before);
      StepOrdered(before, last);
    }
  }

  /** The crash fence, exactly. In every run of selections, starts, acknowledgements, phases, finishes and
      clearances, with crashes and restarts anywhere between, whenever an entry phase runs: an earlier tick
      that reached the broker is left open on disk, neither reconciled nor finished without being
      unresolved, if and only if its last receipt is its TICK_STARTED. */
  lemma EntryEscapesExactly(steps: seq<Step>, w: World, i: nat, t: TickId)
    requires Reaches(steps, w) && i < |w.entries|
    requires t in w.entries[i].reached && t != w.entries[i].tick
    ensures !Resolved(w.entries[i].events, t) <==> LastReceipt(w.entries[i].events, t) == Some(TickStarted)
    ensures !Resolved(w.entries[i].events, t) ==> Seen(w.entries[i].events, TickAborted, t)
  {
    hide LastReceipt, Resolved, Seen;
    ReachedOrdered(steps, w);
    assert Exact(w.entries[i]);
  }

  /** So every earlier tick that reached the broker is closed on disk, or was aborted and then started
      again last; and at the head of the loop anything unmatched blocks. */
  lemma EntryIsFenced(steps: seq<Step>, w: World)
    requires Reaches(steps, w)
    ensures forall i :: 0 <= i < |w.entries| ==> forall t :: t in w.entries[i].reached && t != w.entries[i].tick ==>
      || Resolved(w.entries[i].events, t)
      || (Seen(w.entries[i].events, TickAborted, t) && LastReceipt(w.entries[i].events, t) == Some(TickStarted))
    ensures w.pc.Top? && HasUnmatched(w.events) ==> w.blocked
  {
    hide Reaches, LastReceipt, Resolved, Seen;
    ReachedKeep(steps, w);
    forall i, t | 0 <= i < |w.entries| && t in w.entries[i].reached && t != w.entries[i].tick
      ensures Resolved(w.entries[i].events, t)
        || (Seen(w.entries[i].events, TickAborted, t) && LastReceipt(w.entries[i].events, t) == Some(TickStarted))
    {
      EntryEscapesExactly(steps, w, i, t);
    }
  }

  /** If acknowledging never raises, the fence has no exception. */
  lemma EntryIsFencedOutright(steps: seq<Step>, w: World)
    requires Reaches(steps, w) && AcknowledgeRaises !in steps
    ensures forall i :: 0 <= i < |w.entries| ==>
      forall t :: t in w.entries[i].reached && t != w.entries[i].tick ==> Resolved(w.entries[i].events, t)
  {
    hide Reaches, LastReceipt, Resolved;
    NeverAborted(steps, w);
    forall i, t | 0 <= i < |w.entries| && t in w.entries[i].reached && t != w.entries[i].tick
      ensures Resolved(w.entries[i].events, t)
    {
      EntryEscapesExactly(steps, w, i, t);
    }
  }
}
