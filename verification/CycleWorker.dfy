/** engine/src/engine/autocycle.py, OptionsCycleWorker: the cycle loop as steps over durable state.
    Each durable write is one step and a crash may come between any two; the receipts are the events
    records() returns (ReceiptProofs), the pending list is the schedule's (ScheduleProofs). */
module CycleWorker {
  import opened Wrappers
  import opened Receipts
  import Schedule
  import TickIds

  type Slots = seq<Schedule.Slot>

  datatype Pc =
    | Down                                             // no process
    | Top                                              // at the head of the loop
    | Chosen(kept: Slots)                              // selection durable; skipped jobs still pending
    | Ready(due: Slots)                                // about to run a tick
    | Started(due: Slots)                              // TICK_STARTED durable, not yet acknowledged
    | Refused(tick: TickId)                            // acknowledge raised; its receipt not durable
    | InBroker(tick: TickId, due: Slots, blockedAtStart: bool, entered: bool)   // broker context entered
    | Clearing(tick: TickId, due: Slots, left: seq<TickId>)                     // inside clear_recovery
    | Failing(tick: TickId)                            // a phase raised; its receipt not durable

  // What was on disk when an entry phase ran, and the ticks that had reached the broker by then.
  datatype EntryRun = EntryRun(tick: TickId, events: seq<Event>, reached: set<TickId>)

  datatype World = World(
    events: seq<Event>,            // durable: the receipts
    pending: Slots,                // durable: the schedule's pending list
    owner: Option<string>,         // durable: the session the schedule file is bound to
    session: string,               // the running process's session
    blocked: bool,                 // the running process's _recovery_blocked
    pc: Pc,
    reached: set<TickId>,          // history: ticks that reached the broker
    entries: seq<EntryRun>)        // history: entry phases run

  datatype Step =
    | Boot(session: string)
    | Look(flag: bool)
    | Select(flag: bool, all: Slots, kept: Slots)
    | PickPending
    | Discard
    | Start
    | Acknowledge
    | AcknowledgeRaises
    | Abort
    | BeginClear(left: seq<TickId>)
    | ClearOne
    | EndClear
    | RunEntry
    | Raise
    | FinishThenRaise
    | Fail
    | Finish
    | Crash
    | RemoveSchedule               // the environment: the schedule file is taken away between runs

  function Tick(session: string, due: Slots): TickId
    requires due != []
  {
    TickId(session, TickIds.TickNumber(due))
  }

  function TickEvent(kind: Kind, tick: TickId): Event {
    Event(kind, Some(tick), Some(tick.session))
  }

  const NOTICE: Kind -> Event := kind => Event(kind, None, None)

  ghost predicate HasUnmatched(events: seq<Event>) {
    exists t :: Unmatched(events, t)
  }

  /** No tick of that name has been started. */
  predicate FreshTick(w: World, due: Slots) {
    due != [] ==> !Seen(w.events, TickStarted, Tick(w.session, due))
  }

  /** A slot of the entry job is among them. */
  predicate EntryDue(due: Slots) {
    exists i :: 0 <= i < |due| && due[i].job == Schedule.EntryJob
  }

  ghost predicate Enabled(w: World, step: Step) {
    match step
    case Boot(session) => w.pc.Down? && (w.owner == None || w.owner == Some(session))
    case Look(_) => w.pc.Top? && w.pending == []
    case Select(_, all, kept) =>
      && w.pc.Top? && w.pending == [] && all != [] && (forall s :: s in kept ==> s in all)
      && FreshTick(w, all) && FreshTick(w, kept)
    case PickPending => w.pc.Top? && w.pending != []
    case Discard => w.pc.Chosen?
    case Start => w.pc.Ready?
    case Acknowledge => w.pc.Started? && w.pending == w.pc.due
    case AcknowledgeRaises => w.pc.Started?
    case Abort => w.pc.Refused?
    case BeginClear(left) => w.pc.InBroker? && w.pc.blockedAtStart && forall t :: t in left <==> Unmatched(w.events, t)
    case ClearOne => w.pc.Clearing? && w.pc.left != []
    case EndClear => w.pc.Clearing? && w.pc.left == []
    case RunEntry => w.pc.InBroker? && EntryDue(w.pc.due) && !w.pc.blockedAtStart && !w.pc.entered
    case Raise => w.pc.InBroker? || w.pc.Clearing?
    case FinishThenRaise => w.pc.InBroker?
    case Fail => w.pc.Failing?
    case Finish => w.pc.InBroker?
    case Crash => !w.pc.Down?
    case RemoveSchedule => w.pc.Down?
  }

  ghost function Take(w: World, step: Step): World
    requires Enabled(w, step)
    requires w.pc.Ready? || w.pc.Started? ==> w.pc.due != []
  {
    match step
    case Boot(session) =>
      var blocked := HasUnmatched(w.events) || w.pending != [];
      w.(session := session, blocked := blocked, pc := Top,
         events := if blocked then w.events + [NOTICE(RecoveryRequired)] else w.events)
    case Look(flag) => w.(blocked := w.blocked || flag)
    case Select(flag, all, kept) =>
      w.(blocked := w.blocked || flag, pending := all, owner := Some(w.session), pc := Chosen(kept))
    case PickPending =>
      // recovery_required includes schedule.unresolved(), so a replay always runs blocked.
      w.(blocked := true, pc := Ready(w.pending))
    case Discard => w.(pending := w.pc.kept, pc := if w.pc.kept == [] then Top else Ready(w.pc.kept))
    case Start => w.(events := w.events + [TickEvent(TickStarted, Tick(w.session, w.pc.due))], pc := Started(w.pc.due))
    case Acknowledge =>
      var tick := Tick(w.session, w.pc.due);
      w.(pending := [], pc := InBroker(tick, w.pc.due, w.blocked, false), reached := w.reached + {tick})
    case AcknowledgeRaises => w.(pc := Refused(Tick(w.session, w.pc.due)))
    case Abort => w.(events := w.events + [TickEvent(TickAborted, w.pc.tick)], pc := Top)
    case BeginClear(left) =>
      // The pending witness goes first; ticks of another session raise before any clearance.
      w.(pending := [],
         pc := if exists t :: t in left && t.session != w.session then Failing(w.pc.tick)
               else Clearing(w.pc.tick, w.pc.due, left))
    case ClearOne =>
      w.(events := w.events + [TickEvent(TickReconciled, w.pc.left[0])],
         pc := Clearing(w.pc.tick, w.pc.due, w.pc.left[1..]))
    case EndClear =>
      var events := w.events + [NOTICE(RecoveryCleared)];
      w.(events := events, blocked := HasUnmatched(events), pc := InBroker(w.pc.tick, w.pc.due, true, false))
    case RunEntry =>
      w.(entries := w.entries + [EntryRun(w.pc.tick, w.events, w.reached)], pc := w.pc.(entered := true))
    case Raise => w.(pc := Failing(w.pc.tick))
    case FinishThenRaise => w.(events := w.events + [TickEvent(TickFinished, w.pc.tick)], pc := Failing(w.pc.tick))
    case Fail => w.(events := w.events + [TickEvent(TickUnresolved, w.pc.tick)], blocked := true, pc := Top)
    case Finish => w.(events := w.events + [TickEvent(TickFinished, w.pc.tick)], pc := Top)
    case Crash => w.(pc := Down)
    case RemoveSchedule => w.(pending := [], owner := None)
  }

  // Nothing on disk and nothing running.
  const BLANK := World([], [], None, "", false, Down, {}, [])

  /** w is reached from a blank disk by these steps. */
  ghost predicate Reaches(steps: seq<Step>, w: World)
    decreases |steps|
  {
    if steps == [] then w == BLANK
    else
      var front, last := steps[..|steps| - 1], steps[|steps| - 1];
      exists before :: Reaches(front, before) && StepTo(before, last, w)
  }

  ghost predicate StepTo(before: World, step: Step, after: World) {
    && Enabled(before, step)
    && (before.pc.Ready? || before.pc.Started? ==> before.pc.due != [])
    && after == Take(before, step)
  }
}
