/** engine/src/engine/paperday.py, stop(): a controller winding a session down while another session
    may take its lock. The lock and gate files are fields; before every look at the lock the outside
    world moves. Everything stop() does to the world is logged with what was true of the lock then. */
module StopFence {
  import opened Wrappers
  import Order

  // The lock file: a readable one names a session and its fencing token.
  datatype LockFile = Absent | Unreadable | Lock(session: string, token: Option<string>, details: string)

  datatype Identity = NoSession | InvalidLock | Session(session: string, token: string)

  /** The identity a lock stands for; one without a token is told apart by its other fields. */
  function IdentityOf(lock: LockFile): Identity {
    match lock
    case Absent => NoSession
    case Unreadable => InvalidLock
    case Lock(session, token, details) =>
      Session(session, if token.None? || token.value == "" then "legacy:" + details else token.value)
  }

  // The gate file, as far as stop() reads it back.
  datatype Gate = Gate(session: string, token: Option<string>, open: bool, recoveryRequired: bool)

  // Whether a pending handoff's claim goes through.
  datatype Handoff = Handoff(id: string, pending: bool, claimable: bool)

  // A message of the inbox, and whether it is the reviewer's reply to this stop.
  datatype Message = Message(h: Handoff, isReply: bool)

  // The scheduler's files: no record of it, or one that may name it, match the gate, and lead to a clean exit.
  datatype Scheduler =
    | NoRecord(expected: bool, named: bool, exitedCleanly: bool, pidFile: bool)
    | Recorded(identified: bool, matches: bool, drains: bool)

  // The watcher's record: as it was, at all, of a live process, of this session, and still so after it ended.
  datatype Watcher = Watcher(sameRecord: bool, recorded: bool, alive: bool, ours: bool, stillSame: bool)

  // What everything stop() asks would answer.
  datatype Outside = Outside(
    leftovers: bool,              // without a lock: signs of a scheduler all the same
    scheduler: Scheduler,
    working: set<string>,         // the working entry orders the engine lists
    refused: set<string>,         // the orders whose cancel does not work
    storeOpens: bool,
    outbound: seq<Handoff>,       // open proposals of the builder
    inbound: seq<Handoff>,        // handoffs to the builder
    storeReopens: bool,
    polls: seq<seq<Message>>,     // the inbox at each poll before the deadline
    watcher: Watcher,
    unlinks: bool)                // the lock file can be unlinked

  datatype Effect =
    | CloseGate | WithdrawGate
    | Quiesce | StopScheduler
    | Cancel(order: string, worked: bool)
    | Claim(handoff: string) | Complete(handoff: string)
    | Reconcile | Mark
    | WriteSummary
    | AskReviewer | ClaimReply(handoff: string) | CompleteReply(handoff: string)
    | TerminateWatcher | RemoveWatcherRecord
    | RequireRecovery | WithdrawRecovery
    | RemoveLock
    | PublishShutdown | WithdrawShutdown

  /** Taking back what this controller itself published. */
  predicate Withdraws(e: Effect) {
    e.WithdrawGate? || e.WithdrawRecovery? || e.WithdrawShutdown?
  }

  /** The numbered phases of stop(). */
  function Phase(e: Effect): nat {
    match e
    case CloseGate => 1
    case WithdrawGate => 1
    case Quiesce => 2
    case StopScheduler => 2
    case Cancel(_, _) => 3
    case Claim(_) => 4
    case Complete(_) => 4
    case Reconcile => 5
    case Mark => 5
    case WriteSummary => 6
    case AskReviewer => 7
    case ClaimReply(_) => 7
    case CompleteReply(_) => 7
    case TerminateWatcher => 8
    case RemoveWatcherRecord => 8
    case RequireRecovery => 9
    case WithdrawRecovery => 9
    case RemoveLock => 10
    case PublishShutdown => 11
    case WithdrawShutdown => 11
  }

  // One effect, and whether another session had taken the lock by then.
  datatype Entry = Entry(effect: Effect, taken: bool)

  /** After the takeover nothing but withdrawals. */
  predicate Fenced(log: seq<Entry>) {
    forall i :: 0 <= i < |log| && log[i].taken ==> Withdraws(log[i].effect)
  }

  /** The phases in order, none beyond this one, the gate first. */
  predicate InOrder(log: seq<Entry>, phase: nat) {
    && (forall i, j :: 0 <= i < j < |log| ==> Phase(log[i].effect) <= Phase(log[j].effect))
    && (forall i :: 0 <= i < |log| ==> Phase(log[i].effect) <= phase)
    && (log != [] ==> log[0].effect == CloseGate)
  }

  predicate Did(log: seq<Entry>, e: Effect) {
    exists i :: 0 <= i < |log| && log[i].effect == e
  }

  /** Done while the lock was not another session's. */
  function Untaken(es: seq<Effect>): (r: seq<Entry>)
    ensures |r| == |es|
  {
    seq(|es|, i requires 0 <= i < |es| => Entry(es[i], false))
  }

  /** These effects came next, all of them or as far as the lock was kept. */
  predicate Followed(before: seq<Entry>, after: seq<Entry>, es: seq<Effect>, whole: bool) {
    before <= after <= before + Untaken(es) && (whole ==> after == before + Untaken(es))
  }

  lemma UntakenConcat(a: seq<Effect>, b: seq<Effect>)
    ensures Untaken(a + b) == Untaken(a) + Untaken(b)
  {
  }

  lemma FollowedPart(before: seq<Entry>, after: seq<Entry>, part: seq<Effect>, es: seq<Effect>)
    requires after == before + Untaken(part) && part <= es
    ensures Followed(before, after, es, part == es)
  {
    assert es == part + es[|part|..];
    UntakenConcat(part, es[|part|..]);
  }

  lemma FollowedMore(before: seq<Entry>, mid: seq<Entry>, after: seq<Entry>, a: seq<Effect>, b: seq<Effect>,
                     whole: bool)
    requires Followed(before, mid, a, true) && Followed(mid, after, b, whole)
    ensures Followed(before, after, a + b, whole)
  {
    UntakenConcat(a, b);
    assert before + (Untaken(a) + Untaken(b)) == (before + Untaken(a)) + Untaken(b);
  }

  lemma FollowedThen(before: seq<Entry>, mid: seq<Entry>, a: seq<Effect>, b: seq<Effect>)
    requires Followed(before, mid, a, false)
    ensures Followed(before, mid, a + b, false)
  {
    UntakenConcat(a, b);
    assert before + (Untaken(a) + Untaken(b)) == (before + Untaken(a)) + Untaken(b);
  }

  lemma Nothing(log: seq<Entry>, es: seq<Effect>)
    ensures log == log + Untaken([]) && Followed(log, log, es, false)
    ensures es == [] ==> Followed(log, log, es, true)
  {
  }

  lemma Appended(before: seq<Entry>, log: seq<Entry>, part: seq<Effect>, e: Effect, next: seq<Effect>, es: seq<Effect>)
    requires log == before + Untaken(part) + [Entry(e, false)] && next == part + [e] && next <= es
    ensures log == before + Untaken(next) && Followed(before, log, es, false)
    ensures next == es ==> Followed(before, log, es, true)
  {
    UntakenConcat(part, [e]);
    assert before + Untaken(part) + [Entry(e, false)] == before + (Untaken(part) + [Entry(e, false)]);
    FollowedPart(before, log, next, es);
  }

  lemma FollowedWeak(before: seq<Entry>, after: seq<Entry>, es: seq<Effect>, whole: bool)
    requires Followed(before, after, es, whole)
    ensures Followed(before, after, es, false)
  {
  }

  lemma FollowedWhole(before: seq<Entry>, after: seq<Entry>, es: seq<Effect>)
    requires Followed(before, after, es, true)
    ensures after == before + Untaken(es)
  {
  }

  // ---- what an undisturbed stop does, phase by phase ----

  function DrainEffects(s: Scheduler): (r: seq<Effect>)
    ensures Quiesce in r <==> s.Recorded? || (s.expected && s.named && !s.exitedCleanly && s.pidFile)
    ensures StopScheduler in r <==> s.Recorded? && s.identified && s.matches
    ensures |r| <= 2 && (|r| == 2 ==> r[0] == Quiesce)
  {
    match s
    case NoRecord(expected, named, exitedCleanly, pidFile) =>
      if expected && named && !exitedCleanly && pidFile then [Quiesce] else []
    case Recorded(identified, matches, _) => if identified && matches then [Quiesce, StopScheduler] else [Quiesce]
  }

  /** The scheduler's end is not proven clean. */
  predicate Dirty(s: Scheduler) {
    match s
    case NoRecord(expected, named, exitedCleanly, _) => expected && !(named && exitedCleanly)
    case Recorded(identified, matches, drains) => !(identified && matches && drains)
  }

  /** One cancel for each order, in the order listed, with what came of it. */
  function CancelsOf(listing: seq<string>, refused: set<string>): (r: seq<Effect>)
    ensures |r| == |listing|
    ensures forall i :: 0 <= i < |listing| && listing[i] in refused ==> r[i] == Cancel(listing[i], false)
    ensures forall i :: 0 <= i < |listing| && listing[i] !in refused ==> r[i] == Cancel(listing[i], true)
  {
    seq(|listing|, i requires 0 <= i < |listing| => if listing[i] in refused then Cancel(listing[i], false)
                                                    else Cancel(listing[i], true))
  }

  lemma WorkingDisjoint(listing: seq<string>, working: set<string>, refused: set<string>)
    requires forall o :: o in listing <==> o in working
    ensures (forall k :: 0 <= k < |listing| ==> listing[k] !in refused) <==> working !! refused
  {
    if k :| 0 <= k < |listing| && listing[k] in refused {
      assert listing[k] in working && listing[k] in refused;
    }
  }

  function SettleOne(h: Handoff): seq<Effect> {
    (if h.pending then [Claim(h.id)] else []) + (if h.pending && !h.claimable then [] else [Complete(h.id)])
  }

  /** One listed handoff after the other: claimed if it was pending, and completed unless its claim failed. */
  function Settlement(listed: seq<Handoff>): seq<Effect> {
    if listed == [] then []
    else Settlement(listed[..|listed| - 1]) + SettleOne(listed[|listed| - 1])
  }

  /** A listed handoff is claimed if it was pending, and completed unless that claim failed; nothing else
      is. */
  lemma {:induction false} SettlementSays(listed: seq<Handoff>)
    ensures forall h :: h in listed ==>
      && (h.pending ==> Claim(h.id) in Settlement(listed))
      && ((h.pending ==> h.claimable) ==> Complete(h.id) in Settlement(listed))
    ensures forall e :: e in Settlement(listed) ==> exists h :: h in listed && About(e, h)
  {
    if listed != [] {
      var front, last := listed[..|listed| - 1], listed[|listed| - 1];
      SettlementSays(front);
      assert listed == front + [last];
      forall e | e in Settlement(listed) ensures exists h :: h in listed && About(e, h) {
        if e in Settlement(front) {
          var h :| h in front && About(e, h);
          assert h in listed;
        } else {
          assert e in SettleOne(last);
          assert last in listed && About(e, last);
        }
      }
    }
  }

  predicate About(e: Effect, h: Handoff) {
    (e == Claim(h.id) && h.pending) || (e == Complete(h.id) && (h.pending ==> h.claimable))
  }

  lemma {:induction false} SettlementPart(listed: seq<Handoff>, i: nat)
    requires i <= |listed|
    ensures Settlement(listed[..i]) <= Settlement(listed)
  {
    if i == |listed| {
      assert listed[..i] == listed;
    } else {
      var front := listed[..|listed| - 1];
      SettlementPart(front, i);
      assert front[..i] == listed[..i];
    }
  }

  lemma NoneSettled(log: seq<Entry>, listed: seq<Handoff>)
    ensures Settlement(listed[..0]) == [] && log == log + Untaken([])
    ensures Followed(log, log, Settlement(listed), false)
    ensures listed == [] ==> Followed(log, log, Settlement(listed), true)
  {
  }

  /** What is done about the next handoff is the next part of the whole. */
  lemma OneSettled(listed: seq<Handoff>, i: nat)
    requires i < |listed|
    ensures Settlement(listed[..i + 1]) == Settlement(listed[..i]) + SettleOne(listed[i])
    ensures Settlement(listed[..i + 1]) <= Settlement(listed)
  {
    assert listed[..i + 1][..i] == listed[..i];
    SettlementPart(listed, i + 1);
  }

  lemma OneIs(h: Handoff, before: seq<Effect>)
    ensures h.pending && !h.claimable ==> before + SettleOne(h) == before + [Claim(h.id)]
    ensures h.pending && h.claimable ==> before + SettleOne(h) == before + [Claim(h.id)] + [Complete(h.id)]
    ensures !h.pending ==> before + SettleOne(h) == before + [Complete(h.id)]
  {
  }

  /** The first reply in the inbox. */
  function FirstReply(inbox: seq<Message>): Option<Handoff> {
    if inbox == [] then None
    else if inbox[0].isReply then Some(inbox[0].h)
    else FirstReply(inbox[1..])
  }

  /** And the first of all the polls. */
  function ReplyOf(polls: seq<seq<Message>>): Option<Handoff> {
    if polls == [] then None
    else if FirstReply(polls[0]).Some? then FirstReply(polls[0])
    else ReplyOf(polls[1..])
  }

  predicate Quiet(inbox: seq<Message>) {
    forall j :: 0 <= j < |inbox| ==> !inbox[j].isReply
  }

  /** Its first reply is this one. */
  predicate Replies(inbox: seq<Message>, h: Handoff) {
    exists i :: 0 <= i < |inbox| && inbox[i] == Message(h, true) && Quiet(inbox[..i])
  }

  predicate QuietBefore(polls: seq<seq<Message>>, k: nat) {
    k <= |polls| && forall a :: 0 <= a < k ==> Quiet(polls[a])
  }

  lemma {:induction false} FirstReplyIs(inbox: seq<Message>, h: Handoff)
    requires Replies(inbox, h)
    ensures FirstReply(inbox) == Some(h)
  {
    var i :| 0 <= i < |inbox| && inbox[i] == Message(h, true) && Quiet(inbox[..i]);
    if i > 0 {
      assert !inbox[..i][0].isReply;
      assert inbox[1..][..i - 1] == inbox[..i][1..];
      FirstReplyIs(inbox[1..], h);
    }
  }

  lemma {:induction false} NoReply(inbox: seq<Message>)
    requires Quiet(inbox)
    ensures FirstReply(inbox) == None
  {
    if inbox != [] { NoReply(inbox[1..]); }
  }

  /** The reply acted on is the first one of the first inbox that has one. */
  lemma {:induction false} ReplyIs(polls: seq<seq<Message>>, k: nat, h: Handoff)
    requires k < |polls| && QuietBefore(polls, k) && Replies(polls[k], h)
    ensures ReplyOf(polls) == Some(h)
  {
    hide Replies, Quiet;
    if k == 0 {
      FirstReplyIs(polls[0], h);
    } else {
      NoReply(polls[0]);
      ReplyIs(polls[1..], k - 1, h);
    }
  }

  /** And with none in any inbox there is none. */
  lemma {:induction false} NoReplyAtAll(polls: seq<seq<Message>>)
    requires QuietBefore(polls, |polls|)
    ensures ReplyOf(polls) == None
  {
    hide Quiet;
    if polls != [] {
      NoReply(polls[0]);
      NoReplyAtAll(polls[1..]);
    }
  }

  function AnswerReply(h: Handoff): (r: seq<Effect>)
    ensures ClaimReply(h.id) in r <==> h.pending
    ensures CompleteReply(h.id) in r <==> (h.pending ==> h.claimable)
    ensures forall e :: e in r ==> e in {ClaimReply(h.id), CompleteReply(h.id)}
  {
    (if h.pending then [ClaimReply(h.id)] else [])
    + (if h.pending && !h.claimable then [] else [CompleteReply(h.id)])
  }

  /** The request, and then the first reply that comes. */
  function ReviewEffects(polls: seq<seq<Message>>): (r: seq<Effect>)
    ensures r != [] && r[0] == AskReviewer
    ensures ReplyOf(polls).Some? ==> r == [AskReviewer] + AnswerReply(ReplyOf(polls).value)
    ensures ReplyOf(polls).None? ==> r == [AskReviewer]
  {
    [AskReviewer] + match ReplyOf(polls) case None => [] case Some(h) => AnswerReply(h)
  }

  lemma AskedAndAnswered(polls: seq<seq<Message>>, h: Handoff)
    requires ReplyOf(polls) == Some(h)
    ensures ReviewEffects(polls) == [AskReviewer] + AnswerReply(h)
  {
  }

  function WatcherEffects(w: Watcher): (r: seq<Effect>)
    ensures TerminateWatcher in r <==> w.sameRecord && w.recorded && w.alive && w.ours
    ensures RemoveWatcherRecord in r <==> w.sameRecord && w.recorded && (w.alive ==> w.ours) && w.stillSame
    ensures |r| <= 2 && (|r| == 2 ==> r[0] == TerminateWatcher)
  {
    if !w.sameRecord || !w.recorded || (w.alive && !w.ours) then []
    else (if w.alive then [TerminateWatcher] else []) + (if w.stillSame then [RemoveWatcherRecord] else [])
  }

  /** All that stop() does for a session that keeps its lock, up to releasing it. */
  ghost function Everything(world: Outside): seq<Effect> {
    [CloseGate] + DrainEffects(world.scheduler)
    + (CancelsOf(Order.Listing(world.working), world.refused)
       + if world.storeOpens then Settlement(world.outbound) + Settlement(world.inbound) else [])
    + [Reconcile, Mark, WriteSummary]
    + ((if world.storeReopens then ReviewEffects(world.polls) else []) + WatcherEffects(world.watcher))
    + if Dirty(world.scheduler) then [RequireRecovery] else []
  }

  /** A cancel for the order was transmitted, whatever came of it. */
  predicate Sent(log: seq<Entry>, order: string) {
    Did(log, Cancel(order, true)) || Did(log, Cancel(order, false))
  }

  lemma SentStill(log: seq<Entry>, more: seq<Entry>, order: string)
    requires Sent(log, order) && log <= more
    ensures Sent(more, order)
  {
    if Did(log, Cancel(order, true)) {
      DidStill(log, more, Cancel(order, true));
    } else {
      DidStill(log, more, Cancel(order, false));
    }
  }

  lemma DidStill(log: seq<Entry>, more: seq<Entry>, e: Effect)
    requires Did(log, e) && log <= more
    ensures Did(more, e)
  {
  }

  lemma DidLast(log: seq<Entry>)
    requires log != []
    ensures Did(log, log[|log| - 1].effect)
  {
  }

  lemma FreshLog(log: seq<Entry>)
    requires log == []
    ensures Fenced(log) && forall phase :: InOrder(log, phase)
  {
  }

  class Controller {
    var lock: LockFile
    var gate: Option<Gate>
    var expected: Identity
    var shutdown: bool           // this controller's shutdown record is on disk
    ghost var log: seq<Entry>    // history: what was done
    var taken: bool              // history: a different readable session has held the lock
    var theirs: bool             // history: and has published its own gate
    ghost var lost: bool         // history: some look at the lock did not find the expected owner
    ghost var regained: bool     // history: and a later one found it again

    /** The lock names a session other than the expected owner. */
    predicate Foreign(l: LockFile) reads this`expected {
      l.Lock? && IdentityOf(l) != expected
    }

    /** A gate that is provably this session's. */
    predicate Ours(g: Gate) reads this`expected {
      expected.Session? && g.session == expected.session && g.token == Some(expected.token)
    }

    /** Once another session has the lock it keeps one, and its gate stays. */
    predicate Respected() reads this`lock, this`gate, this`expected, this`taken, this`theirs {
      && (taken <==> Foreign(lock))
      && (theirs ==> taken && gate.Some? && !Ours(gate.value))
    }

    ghost predicate Sound(phase: nat) reads this {
      Fenced(log) && InOrder(log, phase) && Respected()
    }

    /** The outside world: the lock may vanish, be torn, come back, or be replaced by another session,
        which from then on keeps a lock of its own there and may publish its gate. */
    method World()
      requires Respected()
      modifies this`lock, this`gate, this`taken, this`theirs, this`shutdown
      ensures Respected()
      ensures old(taken) ==> taken
      ensures old(theirs) ==> theirs
      ensures gate == old(gate) || theirs
      ensures shutdown ==> old(shutdown)
    {
      var moves: bool, next: LockFile := *, *;
      if moves && (taken ==> Foreign(next)) {
        lock := next;
        taken := taken || Foreign(next);
      }
      var publishes: bool, g: Gate := *, *;
      if publishes && taken && !Ours(g) {
        gate := Some(g);
        theirs := true;
      }
      var overwritten: bool := *;
      if overwritten && taken { shutdown := false; }
    }

    /** _stop_owns, and what its answer means for the rest. */
    method Owns() returns (ok: bool)
      requires Respected()
      modifies this`lock, this`gate, this`taken, this`theirs, this`shutdown, this`lost, this`regained
      ensures Respected()
      ensures old(taken) ==> taken
      ensures old(theirs) ==> theirs
      ensures ok <==> IdentityOf(lock) == expected
      ensures ok ==> !taken && lost == old(lost) && regained == (old(regained) || lost)
      ensures !ok ==> lost && regained == old(regained)
      ensures gate == old(gate) || theirs
      ensures shutdown ==> old(shutdown)
    {
      World();
      ok := IdentityOf(lock) == expected;
      if ok { regained := regained || lost; } else { lost := true; }
    }

    /** One effect, in its phase. */
    ghost method Log(e: Effect, phase: nat)
      requires Sound(phase) && phase <= Phase(e) && (taken ==> Withdraws(e)) && (log == [] ==> e == CloseGate)
      modifies this`log
      ensures Sound(Phase(e)) && log == old(log) + [Entry(e, taken)]
    {
      log := log + [Entry(e, taken)];
    }

    /** A look at the lock and, if it is still owned, the next of these effects. */
    method OwnsAnd(e: Effect, phase: nat, ghost before: seq<Entry>, ghost part: seq<Effect>, ghost next: seq<Effect>,
                   ghost es: seq<Effect>)
      returns (owned: bool)
      requires Sound(phase) && phase <= Phase(e) && log != [] && log == before + Untaken(part)
      requires next == part + [e] && next <= es
      modifies this
      ensures Sound(Phase(e)) && Proceeds() && log != []
      ensures !owned ==> lost && log == old(log)
      ensures owned ==> log == before + Untaken(next) && Followed(before, log, es, false)
      ensures owned && next == es ==> Followed(before, log, es, true)
    {
      hide Fenced, InOrder, Untaken, Followed;
      Looser(log, phase);
      owned := Owns();
      if owned {
        Log(e, phase);
        Appended(before, log, part, e, next, es);
      }
    }

    /** What every part of stop() keeps: the log only grows, and nothing once taken comes back. */
    twostate predicate Grows() reads this {
      && old(log) <= log && expected == old(expected)
      && (old(taken) ==> taken) && (old(theirs) ==> theirs)
      && (old(lost) ==> lost) && (old(regained) ==> regained)
    }

    /** And no shutdown record appears before the lock is released. */
    twostate predicate Continues() reads this {
      Grows() && (shutdown ==> old(shutdown))
    }

    /** Between closing the gate and marking it no part of stop() touches it. */
    twostate predicate Proceeds() reads this {
      Continues() && (gate == old(gate) || theirs)
    }

    /** The gate this stop publishes. */
    function OwnGate(mine: LockFile, recoveryRequired: bool): Gate {
      if mine.Lock? then Gate(mine.session, mine.token, false, recoveryRequired)
      else Gate("unknown-session", None, false, recoveryRequired)
    }

    /** The closed gate is published unless another session provably holds the lock, and taken back when
        the lock is then gone and the gate still this stop's. */
    method CloseEntryGate(mine: LockFile, recoveryRequired: bool) returns (proceed: bool)
      requires Sound(0) && log == [] && !lost
      modifies this
      ensures Sound(1) && Continues()
      ensures log == [] ==> taken && !proceed && (gate == old(gate) || theirs)
      ensures log != [] ==> log[0] == Entry(CloseGate, false) && |log| <= 2
      ensures log != [] && |log| == 1 && !theirs ==> gate == Some(OwnGate(mine, recoveryRequired))
      ensures |log| == 2 ==> log[1] == Entry(WithdrawGate, false) && gate == None && lock.Absent? && !proceed
      ensures log != [] && !proceed && lock.Absent? ==> |log| == 2
      ensures proceed ==> !lost && regained == old(regained) && |log| == 1 && !theirs && gate.Some?
      ensures !proceed ==> lost
      ensures OnlyPhases(old(log), log, 1, 1)
    {
      hide Fenced, InOrder;
      FreshLog(log);
      World();
      if lock.Lock? && IdentityOf(lock) != expected {
        lost := true;
        return false;
      }
      var session := if mine.Lock? then mine.session else "unknown-session";
      var token := if mine.Lock? then mine.token else None;
      gate := Some(Gate(session, token, false, recoveryRequired));
      Log(CloseGate, 0);
      proceed := Owns();
      if !proceed && lock.Absent? && gate.Some? && gate.value.session == session && gate.value.token == token {
        gate := None;
        Log(WithdrawGate, 1);
      }
    }

    /** _stop_scheduler: dirty is whether a failed scheduler step was reported. */
    method StopTheScheduler(scheduler: Scheduler) returns (dirty: bool)
      requires Sound(1) && log != []
      modifies this
      ensures Sound(2) && Proceeds()
      ensures Followed(old(log), log, DrainEffects(scheduler), !lost)
      ensures OnlyPhases(old(log), log, 2, 2)
      ensures dirty ==> Dirty(scheduler)
      ensures !lost ==> (dirty <==> Dirty(scheduler))
    {
      hide Fenced, InOrder, Untaken, Followed;
      dirty := false;
      Nothing(log, DrainEffects(scheduler));
      Looser(log, 1);
      var owned := Owns();
      if !owned { return; }
      match scheduler
      case NoRecord(expects, named, exitedCleanly, pidFile) =>
        if !expects || (named && exitedCleanly) { return; }
        if named && pidFile {
          Log(Quiesce, 1);
          Appended(old(log), log, [], Quiesce, [Quiesce], DrainEffects(scheduler));
        }
        dirty := true;
      case Recorded(identified, matches, drains) =>
        owned := Owns();
        if !owned { return; }
        Log(Quiesce, 1);
        Appended(old(log), log, [], Quiesce, [Quiesce], DrainEffects(scheduler));
        if !identified || !matches { return true; }
        owned := Owns();
        if !owned { return; }
        Log(StopScheduler, 2);
        Appended(old(log), log, [Quiesce], StopScheduler, [Quiesce, StopScheduler], DrainEffects(scheduler));
        dirty := !drains;
    }

    /** _cancel_working_entries: one cancel for every listed order, in ascending order, a look at the lock
        before each; clean when all worked. */
    method CancelWorkingEntries(working: set<string>, refused: set<string>) returns (clean: bool)
      requires Sound(2) && log != []
      modifies this
      ensures Sound(3) && Proceeds()
      ensures Followed(old(log), log, CancelsOf(Order.Listing(working), refused), !lost)
      ensures !lost ==> (clean <==> working !! refused)
    {
      hide Fenced, InOrder, Untaken, Followed, Order.Ascending, Order.Listing, CancelsOf;
      clean := true;
      var listing := Order.Sorted(working);
      ghost var cancels := CancelsOf(listing, refused);
      Nothing(log, cancels);
      Looser(log, 2);
      var owned := Owns();
      if !owned { return; }
      var i := 0;
      while i < |listing|
        invariant 0 <= i <= |listing| && Sound(3) && Proceeds() && log != []
        invariant log == old(log) + Untaken(cancels[..i])
        invariant Followed(old(log), log, cancels, false)
        invariant i == |listing| ==> Followed(old(log), log, cancels, true)
        invariant clean <==> forall k :: 0 <= k < i ==> listing[k] !in refused
      {
        var worked := listing[i] !in refused;
        assert cancels[..i + 1] == cancels[..i] + [cancels[i]];
        assert cancels[i] == Cancel(listing[i], worked);
        owned := OwnsAnd(Cancel(listing[i], worked), 3, old(log), cancels[..i], cancels[..i + 1], cancels);
        if !owned { return; }
        clean := clean && worked;
        i := i + 1;
      }
      assert cancels[..i] == cancels;
      WorkingDisjoint(listing, working, refused);
    }

    /** One loop of _settle_handoffs: claim what is pending, look again, complete. Either call may raise,
        which only ends that handoff. */
    method Settle(listed: seq<Handoff>) returns (owned: bool)
      requires Sound(4) && log != []
      modifies this
      ensures Sound(4) && Proceeds() && (!owned ==> lost)
      ensures Followed(old(log), log, Settlement(listed), owned)
    {
      hide Fenced, InOrder, Untaken, Followed, Settlement, SettleOne;
      var i := 0;
      NoneSettled(log, listed);
      ghost var all := Settlement(listed);
      while i < |listed|
        invariant 0 <= i <= |listed| && Sound(4) && Proceeds() && log != []
        invariant log == old(log) + Untaken(Settlement(listed[..i]))
        invariant Followed(old(log), log, all, false)
        invariant i == |listed| ==> Followed(old(log), log, all, true)
      {
        ghost var before := Settlement(listed[..i]);
        owned := Owns();
        if !owned { return; }
        OneSettled(listed, i);
        OneIs(listed[i], before);
        if listed[i].pending {
          Log(Claim(listed[i].id), 4);
          Appended(old(log), log, before, Claim(listed[i].id), before + [Claim(listed[i].id)], all);
          before := before + [Claim(listed[i].id)];
        }
        if !listed[i].pending || listed[i].claimable {
          owned := OwnsAnd(Complete(listed[i].id), 4, old(log), before, Settlement(listed[..i + 1]), all);
          if !owned { return; }
        }
        i := i + 1;
        assert i == |listed| ==> listed[..i] == listed;
      }
      owned := true;
    }

    method SettleHandoffs(opens: bool, outbound: seq<Handoff>, inbound: seq<Handoff>)
      requires Sound(4) && log != []
      modifies this
      ensures Sound(4) && Proceeds()
      ensures Followed(old(log), log, if opens then Settlement(outbound) + Settlement(inbound) else [], !lost)
    {
      hide Fenced, InOrder, Untaken, Followed, Settlement;
      Nothing(log, if opens then Settlement(outbound) + Settlement(inbound) else []);
      var owned := Owns();
      if !owned || !opens { return; }
      ghost var before := log;
      owned := Settle(outbound);
      ghost var mid := log;
      if !owned {
        FollowedThen(before, mid, Settlement(outbound), Settlement(inbound));
        return;
      }
      owned := Settle(inbound);
      FollowedMore(before, mid, log, Settlement(outbound), Settlement(inbound), owned);
      FollowedWeak(before, log, Settlement(outbound) + Settlement(inbound), owned);
    }

    /** The answer to the reviewer's reply. */
    method Answer(h: Handoff, ghost before: seq<Entry>, ghost all: seq<Effect>)
      requires Sound(7) && log == before + Untaken([AskReviewer]) && all == [AskReviewer] + AnswerReply(h) && !taken
      requires Followed(before, log, all, false)
      modifies this
      ensures Sound(7) && Proceeds() && Followed(before, log, all, !lost)
    {
      hide Fenced, InOrder, Untaken, Followed;
      ghost var asked := [AskReviewer];
      if h.pending {
        Log(ClaimReply(h.id), 7);
        Appended(before, log, asked, ClaimReply(h.id), asked + [ClaimReply(h.id)], all);
        asked := asked + [ClaimReply(h.id)];
        if !h.claimable { return; }
      }
      var _ := OwnsAnd(CompleteReply(h.id), 7, before, asked, all, all);
    }

    /** The inbox of one poll: a look at the lock before every message, up to the first reply. */
    method ReadInbox(inbox: seq<Message>) returns (owned: bool, found: Option<Handoff>)
      requires Sound(7)
      modifies this
      ensures Sound(7) && Proceeds() && log == old(log)
      ensures !owned ==> lost && found.None?
      ensures owned && found.None? ==> Quiet(inbox)
      ensures found.Some? ==> !taken && Replies(inbox, found.value)
    {
      hide Fenced, InOrder, Untaken, Followed;
      var i := 0;
      while i < |inbox|
        invariant 0 <= i <= |inbox| && Sound(7) && Proceeds() && log == old(log)
        invariant Quiet(inbox[..i])
      {
        owned := Owns();
        if !owned { return owned, None; }
        if inbox[i].isReply {
          assert inbox[i] == Message(inbox[i].h, true);
          return owned, Some(inbox[i].h);
        }
        i := i + 1;
      }
      assert inbox[..i] == inbox;
      return true, None;
    }

    /** Poll for the reply until the deadline. */
    method Poll(polls: seq<seq<Message>>) returns (owned: bool, reply: Option<Handoff>)
      requires Sound(7)
      modifies this
      ensures Sound(7) && Proceeds() && log == old(log)
      ensures !owned ==> lost && reply.None?
      ensures owned ==> reply == ReplyOf(polls) && (reply.Some? ==> !taken)
    {
      hide Fenced, InOrder, ReplyOf, Quiet, Replies;
      var k := 0;
      while k < |polls|
        invariant 0 <= k <= |polls| && Sound(7) && Proceeds() && log == old(log) && QuietBefore(polls, k)
      {
        owned, reply := ReadInbox(polls[k]);
        if !owned { return; }
        if reply.Some? {
          ReplyIs(polls, k, reply.value);
          return;
        }
        k := k + 1;
      }
      NoReplyAtAll(polls);
      return true, None;
    }

    /** _reviewer_shutdown: ask once, and answer the reply if one comes. */
    method ReviewerShutdown(opens: bool, polls: seq<seq<Message>>)
      requires Sound(7) && log != []
      modifies this
      ensures Sound(7) && Proceeds()
      ensures Followed(old(log), log, if opens then ReviewEffects(polls) else [], !lost)
    {
      hide Fenced, InOrder, Untaken, Followed, ReplyOf, ReviewEffects, AnswerReply;
      ghost var all := if opens then ReviewEffects(polls) else [];
      Nothing(log, all);
      if !opens {
        var _ := Owns();
        return;
      }
      var owned := OwnsAnd(AskReviewer, 7, log, [], [AskReviewer], all);
      if !owned { return; }
      var reply;
      owned, reply := Poll(polls);
      if owned && reply.Some? {
        AskedAndAnswered(polls, reply.value);
        Answer(reply.value, old(log), all);
      }
    }

    /** _stop_watcher. */
    method StopWatcher(watcher: Watcher)
      requires Sound(8) && log != []
      modifies this
      ensures Sound(8) && Proceeds()
      ensures Followed(old(log), log, WatcherEffects(watcher), !lost)
    {
      hide Fenced, InOrder, Untaken, Followed;
      Nothing(log, WatcherEffects(watcher));
      var owned := Owns();
      if !owned || !watcher.sameRecord || !watcher.recorded { return; }
      ghost var done := [];
      if watcher.alive {
        if !watcher.ours { return; }
        owned := Owns();
        if !owned { return; }
        Log(TerminateWatcher, 8);
        Appended(old(log), log, [], TerminateWatcher, [TerminateWatcher], WatcherEffects(watcher));
        done := [TerminateWatcher];
      }
      owned := Owns();
      if !owned || !watcher.stillSame { return; }
      Log(RemoveWatcherRecord, 8);
      Appended(old(log), log, done, RemoveWatcherRecord, WatcherEffects(watcher), WatcherEffects(watcher));
    }

    /** _mark_recovery_required: publish, look again, withdraw only a gate that is provably this
        session's. */
    method MarkRecoveryRequired()
      requires Sound(9) && log != []
      modifies this
      ensures Sound(9) && Continues()
      ensures !lost && old(gate).Some? ==> log == old(log) + [Entry(RequireRecovery, false)]
      ensures OnlyPhases(old(log), log, 9, 9) && |log| <= |old(log)| + 2
      ensures log == old(log) ==> (gate == old(gate) || theirs) && (IdentityOf(lock) != expected || gate.None?)
      ensures |log| > |old(log)| ==> old(gate).Some? && log[|old(log)|] == Entry(RequireRecovery, false)
      ensures |log| == |old(log)| + 1 && !theirs ==> gate == Some(old(gate).value.(recoveryRequired := true))
      ensures |log| == |old(log)| + 2 ==> gate == None && Ours(old(gate).value) && IdentityOf(lock) != expected
    {
      hide Fenced, InOrder;
      var owned := Owns();
      if !owned || gate.None? { return; }
      gate := Some(gate.value.(recoveryRequired := true));
      Log(RequireRecovery, 9);
      owned := Owns();
      if !owned && gate.Some? && Ours(gate.value) {
        gate := None;
        Log(WithdrawRecovery, 9);
      }
    }

    /** _publish_last_shutdown: only while the lock is free, and taken back if it was not after all. */
    method PublishLastShutdown()
      requires Sound(11) && log != []
      modifies this`lock, this`gate, this`taken, this`theirs, this`shutdown, this`log
      ensures Sound(11) && Respected() && old(log) <= log && (old(taken) ==> taken) && (old(theirs) ==> theirs)
      ensures |log| <= |old(log)| + 2
      ensures |log| > |old(log)| ==> log[|old(log)|] == Entry(PublishShutdown, false)
      ensures |log| == |old(log)| + 2 ==> log[|log| - 1].effect == WithdrawShutdown && !shutdown
      ensures log == old(log) ==> !lock.Absent? && (shutdown ==> old(shutdown))
      ensures gate == old(gate) || theirs
      ensures shutdown && !old(shutdown) ==> lock.Absent?
    {
      hide Fenced, InOrder;
      World();
      if !lock.Absent? { return; }
      shutdown := true;
      Log(PublishShutdown, 11);
      World();
      if !lock.Absent? && shutdown {
        shutdown := false;
        Log(WithdrawShutdown, 11);
      }
    }

    /** Phases 2 and 3: cancel, then settle, each behind a look at the lock. */
    method CancelAndSettle(world: Outside) returns (completed: bool)
      requires Sound(2) && log != []
      modifies this
      ensures Sound(4) && Proceeds() && (!completed ==> lost)
      ensures !lost ==> log == old(log) + Untaken(
        CancelsOf(Order.Listing(world.working), world.refused)
        + if world.storeOpens then Settlement(world.outbound) + Settlement(world.inbound) else [])
    {
      hide Fenced, InOrder, Untaken, Followed, Settlement;
      completed := false;
      ghost var cancels := CancelsOf(Order.Listing(world.working), world.refused);
      ghost var settled := if world.storeOpens then Settlement(world.outbound) + Settlement(world.inbound) else [];
      Looser(log, 2);
      var owned := Owns();
      if !owned { return; }
      ghost var before := log;
      var _ := CancelWorkingEntries(world.working, world.refused);
      Looser(log, 3);
      ghost var mid := log;
      owned := Owns();
      if !owned { return; }
      SettleHandoffs(world.storeOpens, world.outbound, world.inbound);
      completed := true;
      if !lost {
        FollowedMore(before, mid, log, cancels, settled, true);
        FollowedWhole(before, log, cancels + settled);
      }
    }

    /** Phases 4 and 5: reconcile, mark, write the summary. */
    method RecordTheDay() returns (completed: bool)
      requires Sound(4) && log != []
      modifies this
      ensures Sound(6) && Proceeds() && (!completed ==> lost)
      ensures !lost ==> log == old(log) + Untaken([Reconcile, Mark, WriteSummary])
    {
      hide Fenced, InOrder, Untaken, Followed;
      ghost var all := [Reconcile, Mark, WriteSummary];
      Nothing(log, all);
      completed := OwnsAnd(Reconcile, 4, log, [], [Reconcile], all);
      Looser(log, 5);
      if !completed { return; }
      completed := OwnsAnd(Mark, 5, old(log), [Reconcile], [Reconcile, Mark], all);
      Looser(log, 5);
      if !completed { return; }
      completed := OwnsAnd(WriteSummary, 5, old(log), [Reconcile, Mark], all, all);
      Looser(log, 5);
    }

    /** Phases 6 and 7: ask the reviewer, stop the watcher. */
    method NotifyOthers(world: Outside) returns (completed: bool)
      requires Sound(6) && log != []
      modifies this
      ensures Sound(8) && Proceeds() && (!completed ==> lost)
      ensures !lost ==> log == old(log) + Untaken(
        (if world.storeReopens then ReviewEffects(world.polls) else []) + WatcherEffects(world.watcher))
    {
      hide Fenced, InOrder, Untaken, Followed, ReviewEffects, WatcherEffects;
      completed := false;
      ghost var asked, ended :=
        if world.storeReopens then ReviewEffects(world.polls) else [], WatcherEffects(world.watcher);
      Looser(log, 6);
      var owned := Owns();
      if !owned { return; }
      ghost var before := log;
      ReviewerShutdown(world.storeReopens, world.polls);
      Looser(log, 7);
      ghost var mid := log;
      StopWatcher(world.watcher);
      completed := true;
      if !lost {
        FollowedMore(before, mid, log, asked, ended, true);
        FollowedWhole(before, log, asked + ended);
      }
    }

    /** Phase 8 and the shutdown record: remove the lock that is provably this session's. */
    method Release(unlinks: bool)
      requires Sound(10) && log != []
      modifies this
      ensures Sound(11) && Grows()
      ensures Did(log, PublishShutdown) && !Did(old(log), PublishShutdown) ==> Did(log, RemoveLock)
      ensures Did(log, RemoveLock) && !Did(old(log), RemoveLock) ==> !lost || regained
      ensures shutdown && !old(shutdown) ==> lock.Absent? && Did(log, RemoveLock)
      ensures !lost ==> if unlinks then old(log) + [Entry(RemoveLock, false)] <= log else log == old(log)
      ensures gate == old(gate) || theirs
    {
      hide Fenced, InOrder, Did;
      Looser(log, 10);
      var owned := Owns();
      if !owned { return; }
      // The lock is read again, and its identity compared again, before it is unlinked.
      World();
      if lock.Lock? && IdentityOf(lock) == expected {
        if !unlinks { return; }
        lock := Absent;
        Log(RemoveLock, 10);
        Looser(log, 10);
        ghost var released := log;
        DidLast(released);
        PublishLastShutdown();
        DidStill(released, log, RemoveLock);
      } else {
        lost := true;
      }
    }

    /** From the closed gate to the released lock, for a session whose lock could be read. */
    method WindDown(world: Outside)
      requires Sound(1) && log == Untaken([CloseGate]) && !lost && !regained && !shutdown && gate.Some?
      modifies this
      ensures Sound(11) && Grows()
      ensures shutdown ==> lock.Absent? && Did(log, RemoveLock)
      ensures !lost ==>
        && Untaken(Everything(world) + if world.unlinks then [RemoveLock] else []) <= log
        && (!world.unlinks ==> log == Untaken(Everything(world)))
      ensures Did(log, RemoveLock) ==> !lost || regained
      ensures !lost && !theirs ==>
        gate == if Dirty(world.scheduler) then Some(old(gate).value.(recoveryRequired := true)) else old(gate)
    {
      hide Fenced, InOrder, Did, Untaken, Followed, DrainEffects, Settlement, ReviewEffects, WatcherEffects, Everything;
      ghost var closed := log;
      NotReleased(log, 1);
      var dirty := StopTheScheduler(world.scheduler);
      Looser(log, 2);
      NotReleased(log, 2);
      ghost var drained := log;
      var completed := CancelAndSettle(world);
      Looser(log, 4);
      NotReleased(log, 4);
      ghost var settled := log;
      if !completed { return; }
      completed := RecordTheDay();
      Looser(log, 6);
      NotReleased(log, 6);
      ghost var recorded := log;
      if !completed { return; }
      completed := NotifyOthers(world);
      Looser(log, 8);
      NotReleased(log, 8);
      ghost var notified := log;
      if !completed { return; }
      if dirty { MarkRecoveryRequired(); }
      Looser(log, 9);
      NotReleased(log, 9);
      ghost var marked := log;
      if !lost {
        FollowedWhole(closed, drained, DrainEffects(world.scheduler));
        ClosedThen(closed, drained, DrainEffects(world.scheduler));
        Marked(notified, marked, dirty);
        AllWasDone(world, drained, settled, recorded, notified, marked);
      }
      Release(world.unlinks);
      if !lost { ReleasedToo(world, marked, log); }
    }

    /** The whole of stop(). */
    method Stop(world: Outside)
      requires log == [] && !taken && !theirs && !lost && !regained && !shutdown
      modifies this
      // No effect but a withdrawal once another session has taken the lock, and its gate is left alone.
      ensures Fenced(log)
      ensures theirs ==> gate.Some? && !Ours(gate.value)
      // The gate closes before anything else, and the phases come in order.
      ensures InOrder(log, 11)
      // This session's shutdown record is there only if its lock was released and was free at the last look.
      ensures shutdown ==> lock.Absent? && Did(log, RemoveLock)
      // With a lock of its own that no look found missing, stop does everything it is for, in this order.
      ensures old(lock).Lock? && !lost ==>
        && Untaken(Everything(world) + if world.unlinks then [RemoveLock] else []) <= log
        && (!world.unlinks ==> log == Untaken(Everything(world)))
      // The gate it leaves is its own, closed, and marked if it was or if the scheduler's end was not clean.
      ensures old(lock).Lock? && !lost && !theirs ==>
        && gate.Some? && !gate.value.open
        && gate.value.session == old(lock).session && gate.value.token == old(lock).token
        && (gate.value.recoveryRequired <==>
              (old(gate).Some? && old(gate).value.recoveryRequired) || Dirty(world.scheduler))
      // The engine's listing in full: each working order was sent its own cancel.
      ensures old(lock).Lock? && !lost ==>
        && (forall o :: o in world.working - world.refused ==> Did(log, Cancel(o, true)))
        && (forall o :: o in world.working * world.refused ==> Did(log, Cancel(o, false)))
      // Unless the lock was lost and found again, it is not removed before every listed order was sent a cancel.
      ensures Did(log, RemoveLock) ==> old(lock).Lock? && (!lost || regained)
      ensures Did(log, RemoveLock) && !regained ==> forall o :: o in world.working ==> Sent(log, o)
      // A lock that could not be read, or was not there, is never removed, nor is anything cancelled.
      ensures old(lock).Unreadable? && !lost ==> log == Untaken([CloseGate, RequireRecovery])
      ensures old(lock).Absent? && !lost ==>
        log == Untaken([CloseGate] + if world.leftovers then DrainEffects(world.scheduler) else [])
      ensures !old(lock).Lock? ==> forall i :: 0 <= i < |log| ==> Phase(log[i].effect) in {1, 2, 9}
    {
      hide Fenced, InOrder, Did, Untaken, Followed, DrainEffects, Everything, Sent;
      var mine := lock;
      expected := IdentityOf(lock);
      FreshLog(log);
      NothingDone(log);
      var proceed := CloseEntryGate(mine, gate.Some? && gate.value.recoveryRequired);
      Looser(log, 1);
      NotReleased(log, 1);
      if !proceed { return; }
      ghost var closed := log;
      JustClosed(closed);
      if mine.Unreadable? {
        MarkRecoveryRequired();
        Looser(log, 9);
        NotReleased(log, 9);
        if !lost { MarkedFirst(closed, log); }
        return;
      }
      if mine.Absent? {
        if world.leftovers { var _ := StopTheScheduler(world.scheduler); }
        Looser(log, 2);
        NotReleased(log, 2);
        if !lost { DrainedOnly(world, closed, log); }
        return;
      }
      WindDown(world);
      if !lost { EveryOrderCancelled(world, log); }
    }
  }

  lemma JustClosed(log: seq<Entry>)
    ensures |log| == 1 && log[0] == Entry(CloseGate, false) ==> log == Untaken([CloseGate])
  {
  }

  lemma MarkedFirst(closed: seq<Entry>, log: seq<Entry>)
    requires closed == Untaken([CloseGate]) && log == closed + [Entry(RequireRecovery, false)]
    ensures log == Untaken([CloseGate, RequireRecovery])
  {
  }

  lemma DrainedOnly(world: Outside, closed: seq<Entry>, log: seq<Entry>)
    requires closed == Untaken([CloseGate])
    requires if world.leftovers then Followed(closed, log, DrainEffects(world.scheduler), true) else log == closed
    ensures log == Untaken([CloseGate] + if world.leftovers then DrainEffects(world.scheduler) else [])
  {
    UntakenConcat([CloseGate], DrainEffects(world.scheduler));
  }

  lemma Marked(notified: seq<Entry>, marked: seq<Entry>, dirty: bool)
    requires marked == if dirty then notified + [Entry(RequireRecovery, false)] else notified
    ensures marked == notified + Untaken(if dirty then [RequireRecovery] else [])
  {
  }

  lemma ReleasedToo(world: Outside, marked: seq<Entry>, log: seq<Entry>)
    requires marked == Untaken(Everything(world))
    requires if world.unlinks then marked + [Entry(RemoveLock, false)] <= log else log == marked
    ensures Untaken(Everything(world) + if world.unlinks then [RemoveLock] else []) <= log
    ensures Untaken(Everything(world)) <= log
  {
    UntakenConcat(Everything(world), [RemoveLock]);
  }

  lemma ClosedThen(closed: seq<Entry>, log: seq<Entry>, es: seq<Effect>)
    requires closed == Untaken([CloseGate]) && log == closed + Untaken(es)
    ensures log == Untaken([CloseGate] + es)
  {
    UntakenConcat([CloseGate], es);
  }

  lemma AllWasDone(world: Outside, drained: seq<Entry>, settled: seq<Entry>, recorded: seq<Entry>,
                   notified: seq<Entry>, marked: seq<Entry>)
    requires drained == Untaken([CloseGate] + DrainEffects(world.scheduler))
    requires settled == drained + Untaken(
      CancelsOf(Order.Listing(world.working), world.refused)
      + if world.storeOpens then Settlement(world.outbound) + Settlement(world.inbound) else [])
    requires recorded == settled + Untaken([Reconcile, Mark, WriteSummary])
    requires notified == recorded + Untaken(
      (if world.storeReopens then ReviewEffects(world.polls) else []) + WatcherEffects(world.watcher))
    requires marked == notified + Untaken(if Dirty(world.scheduler) then [RequireRecovery] else [])
    ensures marked == Untaken(Everything(world))
  {
    hide Untaken, DrainEffects, Settlement, ReviewEffects, WatcherEffects, CancelsOf, Order.Listing, Dirty;
    var a := [CloseGate] + DrainEffects(world.scheduler);
    var b := CancelsOf(Order.Listing(world.working), world.refused)
      + if world.storeOpens then Settlement(world.outbound) + Settlement(world.inbound) else [];
    var c := [Reconcile, Mark, WriteSummary];
    var d := (if world.storeReopens then ReviewEffects(world.polls) else []) + WatcherEffects(world.watcher);
    var e := if Dirty(world.scheduler) then [RequireRecovery] else [];
    UntakenConcat(a, b);
    UntakenConcat(a + b, c);
    UntakenConcat(a + b + c, d);
    UntakenConcat(a + b + c + d, e);
  }

  lemma InUntaken(es: seq<Effect>, log: seq<Entry>, e: Effect)
    requires Untaken(es) <= log && e in es
    ensures Did(log, e)
  {
    var i :| 0 <= i < |es| && es[i] == e;
    assert log[i] == Untaken(es)[i];
  }

  lemma OrderInEverything(world: Outside, o: string)
    requires o in world.working
    ensures if o in world.refused then Cancel(o, false) in Everything(world) else Cancel(o, true) in Everything(world)
  {
    hide DrainEffects, Settlement, ReviewEffects, WatcherEffects, CancelsOf, Dirty;
    var listing := Order.Listing(world.working);
    var i :| 0 <= i < |listing| && listing[i] == o;
    assert CancelsOf(listing, world.refused)[i] in CancelsOf(listing, world.refused);
  }

  /** What such a stop includes besides the cancels: the drain, each listed handoff, the day's record, the
      request to the reviewer, the watcher, and a mark when the scheduler's end was not proven clean. */
  lemma EverythingIncludes(world: Outside)
    ensures var all := Everything(world);
      && all[0] == CloseGate && Reconcile in all && Mark in all && WriteSummary in all
      && (world.scheduler.Recorded? ==> Quiesce in all)
      && (world.scheduler.Recorded? && world.scheduler.identified && world.scheduler.matches ==> StopScheduler in all)
      && (world.storeOpens ==> forall h :: h in world.outbound + world.inbound ==>
            && (h.pending ==> Claim(h.id) in all) && ((h.pending ==> h.claimable) ==> Complete(h.id) in all))
      && (world.storeReopens ==> AskReviewer in all)
      && (world.watcher == Watcher(true, true, true, true, true) ==>
            TerminateWatcher in all && RemoveWatcherRecord in all)
      && (world.scheduler.Recorded? && !world.scheduler.drains ==> RequireRecovery in all)
  {
    hide DrainEffects, Settlement, ReviewEffects, WatcherEffects, CancelsOf;
    SettlementSays(world.outbound);
    SettlementSays(world.inbound);
    if world.storeReopens {
      assert ReviewEffects(world.polls)[0] in ReviewEffects(world.polls);
    }
  }

  lemma EveryOrderCancelled(world: Outside, log: seq<Entry>)
    requires Untaken(Everything(world) + if world.unlinks then [RemoveLock] else []) <= log
    ensures forall o :: o in world.working - world.refused ==> Did(log, Cancel(o, true))
    ensures forall o :: o in world.working * world.refused ==> Did(log, Cancel(o, false))
    ensures forall o :: o in world.working ==> Sent(log, o)
  {
    hide Did, Untaken, Everything;
    forall o | o in world.working
      ensures if o in world.refused then Did(log, Cancel(o, false)) else Did(log, Cancel(o, true))
    {
      OrderInEverything(world, o);
      InUntaken(Everything(world) + if world.unlinks then [RemoveLock] else [], log,
                if o in world.refused then Cancel(o, false) else Cancel(o, true));
    }
  }

  lemma Looser(log: seq<Entry>, phase: nat)
    ensures forall higher :: higher >= phase && InOrder(log, phase) ==> InOrder(log, higher)
  {
  }

  lemma NothingDone(log: seq<Entry>)
    requires log == []
    ensures forall e :: !Did(log, e)
  {
  }

  lemma NotReleased(log: seq<Entry>, phase: nat)
    requires InOrder(log, phase) && phase < 10
    ensures !Did(log, RemoveLock)
  {
  }

  /** Only effects of these phases were added. */
  predicate OnlyPhases(before: seq<Entry>, after: seq<Entry>, low: nat, high: nat) {
    && before <= after
    && forall i :: |before| <= i < |after| ==> low <= Phase(after[i].effect) <= high
  }
}
