/** engine/src/engine/paperday.py and paperday_recovery_cli.py: the gate and lock files through whole
    start, stop and recover invocations, any of which may die between two durable writes, and the
    recovery_required mark on the gate. Invocations do not overlap and each write is atomic. */
module RecoveryLatch {
  import opened Wrappers

  datatype EntryGate = Open | ProofOnly | Closed

  datatype Gate = Gate(session: string, token: Option<string>, entryGate: EntryGate, recoveryRequired: bool)

  datatype LockFile = Absent | Unreadable | Lock(session: string, token: Option<string>)

  datatype Disk = Disk(gate: Option<Gate>, lock: LockFile)

  datatype State = Ready | Degraded | Blocked

  // What the search for unmatched ticks gave.
  datatype Ticks = NoneUnmatched | SomeUnmatched | Unsearchable

  // What one start finds on its way, and the identity it mints. configured: the configuration loads
  // and the authority inputs are complete. watcherLive: the recorded watcher runs, is bound to the
  // lock, and the lock is today's. later: the state decided again once a scheduler was tried.
  datatype Start = Start(
    session: string, token: string,
    repositoryFound: bool, configured: bool, watcherLive: bool, lockUnlinks: bool, lockFree: bool,
    brokerUp: bool, state: State, ticks: Ticks, later: Option<State>, laterTicks: Ticks)

  // What one stop finds: whether the scheduler's shutdown was clean, and whether the lock unlinks.
  datatype Stop = Stop(dirty: bool, lockUnlinks: bool)

  // A recovery: is the target process alive, is the recovery lock free, what the nine requirements
  // answered, and whether it is a dry run.
  datatype Attempt = Attempt(targetAlive: bool, lockFree: bool, checks: seq<bool>, dryRun: bool)

  datatype Invocation = Starts(start: Start) | Stops(stop: Stop) | Recovers(attempt: Attempt)

  // An invocation that died after this many durable writes, or ran to its end.
  datatype Call = Call(invocation: Invocation, writes: nat)

  predicate Latched(gate: Option<Gate>) {
    gate.Some? && gate.value.recoveryRequired
  }

  /** A gate some session may still be acting on. */
  predicate StandsOpen(gate: Option<Gate>) {
    gate.Some? && gate.value.entryGate != Closed
  }

  predicate AllPassed(checks: seq<bool>) {
    forall i :: 0 <= i < |checks| ==> checks[i]
  }

  predicate Accepted(attempt: Attempt) {
    !attempt.targetAlive && attempt.lockFree && AllPassed(attempt.checks) && !attempt.dryRun
  }

  // ---- the durable states of an invocation ----

  function TokenOf(lock: LockFile): Option<string> {
    if lock.Lock? && lock.token != Some("") then lock.token else None
  }

  function EntryFor(state: State): EntryGate {
    match state
    case Ready => Open
    case Degraded => ProofOnly
    case Blocked => Closed
  }

  function Decided(disk: Disk, session: string, state: State, ticks: Ticks): Disk {
    var required := Latched(disk.gate) || !ticks.NoneUnmatched?;
    disk.(gate := Some(Gate(session, TokenOf(disk.lock), EntryFor(state), required)))
  }

  function Fenced(disk: Disk): Disk
    requires disk.gate.Some?
  {
    disk.(gate := Some(disk.gate.value.(entryGate := Closed, recoveryRequired := true)))
  }

  /** The lock's session is up, and the gate is its own. */
  predicate Running(disk: Disk, s: Start) {
    && disk.lock.Lock? && s.watcherLive && disk.gate.Some?
    && disk.gate.value.session == disk.lock.session && disk.gate.value.token == disk.lock.token
  }

  /** From the broker probe on. */
  function Concluded(disk: Disk, session: string, s: Start): seq<Disk> {
    if !s.brokerUp then [Decided(disk, session, Blocked, s.ticks)]
    else
      var first := Decided(disk, session, s.state, s.ticks);
      [first] + if s.later.None? then [] else [Decided(first, session, s.later.value, s.laterTicks)]
  }

  /** From the old lock out of the way on. */
  function Acquired(disk: Disk, s: Start): seq<Disk> {
    if !s.lockFree then []
    else
      var held := disk.(lock := Lock(s.session, Some(s.token)));
      [held] + Concluded(held, s.session, s)
  }

  /** A stale lock is unlinked; one that will not go stops the start. */
  function Replaced(disk: Disk, s: Start): seq<Disk> {
    if disk.lock.Absent? then Acquired(disk, s)
    else if !s.lockUnlinks then []
    else [disk.(lock := Absent)] + Acquired(disk.(lock := Absent), s)
  }

  function StartStates(disk: Disk, s: Start): seq<Disk> {
    if !s.repositoryFound then []
    else if !s.configured then [Decided(disk, s.session, Blocked, s.ticks)]
    else if disk.lock.Unreadable? then []
    else if Running(disk, s) then Concluded(disk, disk.lock.session, s)
    else if StandsOpen(disk.gate) then [Fenced(disk)] + Replaced(Fenced(disk), s)
    else Replaced(disk, s)
  }

  function StopStates(disk: Disk, p: Stop): seq<Disk> {
    var session := if disk.lock.Lock? then disk.lock.session else "unknown-session";
    var token := if disk.lock.Lock? then disk.lock.token else None;
    var closed := disk.(gate := Some(Gate(session, token, Closed, Latched(disk.gate))));
    match disk.lock
    case Absent => [closed]
    case Unreadable => [closed, Fenced(closed)]
    case Lock(_, _) =>
      var last := if p.dirty then Fenced(closed) else closed;
      [closed] + (if p.dirty then [last] else []) + if p.lockUnlinks then [last.(lock := Absent)] else []
  }

  function RecoverStates(disk: Disk, attempt: Attempt): seq<Disk> {
    if disk.gate.None? || !Accepted(attempt) then []
    else [disk.(gate := Some(disk.gate.value.(recoveryRequired := false)))]
  }

  function States(disk: Disk, inv: Invocation): seq<Disk> {
    match inv
    case Starts(s) => StartStates(disk, s)
    case Stops(p) => StopStates(disk, p)
    case Recovers(attempt) => RecoverStates(disk, attempt)
  }

  function Last(disk: Disk, states: seq<Disk>): Disk {
    if states == [] then disk else states[|states| - 1]
  }

  /** What a call that dies after so many writes leaves on disk. */
  function LeftBy(disk: Disk, call: Call): Disk {
    var states := States(disk, call.invocation);
    Last(disk, if call.writes < |states| then states[..call.writes] else states)
  }

  function AfterAll(disk: Disk, calls: seq<Call>): Disk {
    if calls == [] then disk else LeftBy(AfterAll(disk, calls[..|calls| - 1]), calls[|calls| - 1])
  }

  // ---- the mark over runs ----

  predicate Clears(inv: Invocation) {
    inv.Recovers? && Accepted(inv.attempt)
  }

  /** Whatever start and stop do, and wherever they die, a mark that was there is there. */
  lemma KeepsMark(disk: Disk, inv: Invocation)
    requires Latched(disk.gate) && !Clears(inv)
    ensures forall i :: 0 <= i < |States(disk, inv)| ==> Latched(States(disk, inv)[i].gate)
  {
  }

  lemma CallKeepsMark(disk: Disk, call: Call)
    requires Latched(disk.gate) && !Clears(call.invocation)
    ensures Latched(LeftBy(disk, call).gate)
  {
    KeepsMark(disk, call.invocation);
  }

  /** Over any invocations dying anywhere, the mark stays as long as no recovery is accepted. */
  lemma {:induction false} MarkStays(disk: Disk, calls: seq<Call>)
    requires Latched(disk.gate) && forall i :: 0 <= i < |calls| ==> !Clears(calls[i].invocation)
    ensures Latched(AfterAll(disk, calls).gate)
  {
    hide LeftBy;
    if calls != [] {
      var front := calls[..|calls| - 1];
      assert forall i :: 0 <= i < |front| ==> front[i] == calls[i];
      MarkStays(disk, front);
      CallKeepsMark(AfterAll(disk, front), calls[|calls| - 1]);
    }
  }

  /** A mark that is gone was taken off by an accepted recovery, at a write that left the entry gate,
      the session it names and the lock as they were. */
  lemma {:induction false} OnlyAcceptedRecoveryClears(disk: Disk, calls: seq<Call>) returns (k: nat)
    requires Latched(disk.gate) && !Latched(AfterAll(disk, calls).gate)
    ensures k < |calls| && Clears(calls[k].invocation)
    ensures var before, after := AfterAll(disk, calls[..k]), AfterAll(disk, calls[..k + 1]);
      && Latched(before.gate) && after.gate.Some? && after.lock == before.lock
      && after.gate.value.entryGate == before.gate.value.entryGate
      && after.gate.value.session == before.gate.value.session
  {
    hide LeftBy;
    var front, last := calls[..|calls| - 1], calls[|calls| - 1];
    if Latched(AfterAll(disk, front).gate) {
      k := |calls| - 1;
      assert calls[..k + 1] == calls;
      ClearingCall(AfterAll(disk, front), last);
    } else {
      k := OnlyAcceptedRecoveryClears(disk, front);
      assert calls[..k] == front[..k] && calls[..k + 1] == front[..k + 1];
    }
  }

  lemma ClearingCall(disk: Disk, call: Call)
    requires Latched(disk.gate) && !Latched(LeftBy(disk, call).gate)
    ensures Clears(call.invocation)
    ensures var after := LeftBy(disk, call);
      && after.gate.Some? && after.lock == disk.lock
      && after.gate.value.entryGate == disk.gate.value.entryGate
      && after.gate.value.session == disk.gate.value.session
  {
    if !Clears(call.invocation) { CallKeepsMark(disk, call); }
  }

  // ---- a session that died with its gate open ----

  /** It left its gate open and unmarked, and nothing of it runs any more. */
  predicate DiedOpen(disk: Disk, s: Start) {
    StandsOpen(disk.gate) && !Latched(disk.gate) && !Running(disk, s)
  }

  /** Such a session is marked by the next start that writes anything, from its first write on and
      wherever it then dies, exactly when that start got past its configuration or found ticks it
      cannot account for. */
  lemma DiedOpenIsMarkedExactlyWhen(disk: Disk, s: Start)
    requires DiedOpen(disk, s)
    ensures var states := StartStates(disk, s);
      && (states != [] <==> s.repositoryFound && (s.configured ==> !disk.lock.Unreadable?))
      && forall i :: 0 <= i < |states| ==> (Latched(states[i].gate) <==> s.configured || !s.ticks.NoneUnmatched?)
  {
    if s.configured && StartStates(disk, s) != [] {
      var fenced := Fenced(disk);
      forall i | 0 <= i < |Replaced(fenced, s)| ensures Latched(Replaced(fenced, s)[i].gate) {
        KeepsMarkReplacing(fenced, s);
      }
    }
  }

  lemma KeepsMarkReplacing(disk: Disk, s: Start)
    requires Latched(disk.gate)
    ensures forall i :: 0 <= i < |Replaced(disk, s)| ==> Latched(Replaced(disk, s)[i].gate)
  {
  }

  /** A closed and unmarked gate is not marked by a start, whatever happens, unless it finds ticks. */
  lemma ClosedGateIsNotMarked(disk: Disk, s: Start)
    requires !StandsOpen(disk.gate) && !Latched(disk.gate)
    requires s.ticks.NoneUnmatched? && s.laterTicks.NoneUnmatched?
    ensures forall i :: 0 <= i < |StartStates(disk, s)| ==> !Latched(StartStates(disk, s)[i].gate)
  {
  }

  /** The failing family: whatever session died open, a start whose configuration fails closes the gate
      without marking it, and the start after that has nothing left to see. */
  lemma ConfigurationFailureForgets(disk: Disk, s: Start, next: Start)
    requires DiedOpen(disk, s) && s.repositoryFound && !s.configured && s.ticks.NoneUnmatched?
    requires next.ticks.NoneUnmatched? && next.laterTicks.NoneUnmatched?
    ensures var after := Last(disk, StartStates(disk, s));
      && after.gate.Some? && after.gate.value.entryGate == Closed && !Latched(after.gate)
      && forall i :: 0 <= i < |StartStates(after, next)| ==> !Latched(StartStates(after, next)[i].gate)
  {
    ClosedGateIsNotMarked(Last(disk, StartStates(disk, s)), next);
  }

  // ---- the controller ----

  lemma LockCheckFirst(acquired: bool, others: seq<bool>)
    ensures AllPassed([acquired] + others) <==> acquired && AllPassed(others)
  {
    var all := [acquired] + others;
    assert all[0] == acquired && forall i :: 0 <= i < |others| ==> all[i + 1] == others[i];
  }

  class PaperDay {
    var gate: Option<Gate>
    var lock: LockFile
    var recoveryLock: Option<string>   // the token of the attempt holding it
    ghost var history: seq<Disk>       // the disk after each durable write

    function Now(): Disk reads this {
      Disk(gate, lock)
    }

    /** _write_gate_for: the mark is kept, and set when ticks are unaccounted for. */
    method WriteGateFor(session: string, state: State, ticks: Ticks)
      modifies this`gate, this`history
      ensures gate.Some? && gate.value.session == session && gate.value.token == TokenOf(lock)
      ensures Latched(gate) <==> Latched(old(gate)) || !ticks.NoneUnmatched?
      ensures gate.value.entryGate == Open <==> state.Ready?
      ensures gate.value.entryGate == Closed <==> state.Blocked?
      ensures history == old(history) + [Now()]
    {
      var required := gate.Some? && gate.value.recoveryRequired;
      if !required {
        required := !ticks.NoneUnmatched?;
      }
      var entry := Closed;
      if state.Ready? { entry := Open; } else if state.Degraded? { entry := ProofOnly; }
      gate := Some(Gate(session, if lock.Lock? && lock.token != Some("") then lock.token else None, entry, required));
      history := history + [Now()];
    }

    /** _close_stale_authority, where start calls it: only for a gate that is not closed. */
    method CloseStaleAuthority()
      modifies this`gate, this`history
      ensures StandsOpen(old(gate)) ==> Latched(gate) && gate.value.entryGate == Closed
      ensures StandsOpen(old(gate)) ==> gate.value.session == old(gate).value.session
      ensures StandsOpen(old(gate)) ==> gate.value.token == old(gate).value.token
      ensures !StandsOpen(old(gate)) ==> gate == old(gate)
      ensures history == old(history) + if StandsOpen(old(gate)) then [Now()] else []
    {
      if gate.Some? && gate.value.entryGate != Closed {
        gate := Some(gate.value.(entryGate := Closed, recoveryRequired := true));
        history := history + [Now()];
      }
    }

    /** From the broker probe to the end of start. */
    method Conclude(session: string, s: Start)
      modifies this`gate, this`history
      ensures history == old(history) + Concluded(old(Now()), session, s)
      ensures Now() == Last(old(Now()), Concluded(old(Now()), session, s))
    {
      if !s.brokerUp {
        WriteGateFor(session, Blocked, s.ticks);
        return;
      }
      WriteGateFor(session, s.state, s.ticks);
      if s.later.Some? { WriteGateFor(session, s.later.value, s.laterTicks); }
    }

    /** _acquire_lock, once the gate is fenced: the stale lock goes, this session's comes, and the start
        goes on. */
    method AcquireAndConclude(s: Start)
      requires !lock.Unreadable?
      modifies this`gate, this`lock, this`history
      ensures history == old(history) + Replaced(old(Now()), s)
      ensures Now() == Last(old(Now()), Replaced(old(Now()), s))
    {
      hide Concluded;
      if lock.Lock? {
        if !s.lockUnlinks { return; }
        lock := Absent;
        history := history + [Now()];
      }
      if !s.lockFree { return; }
      lock := Lock(s.session, Some(s.token));
      history := history + [Now()];
      Conclude(s.session, s);
    }

    /** start: its durable states, in order, are those the results above are about. */
    method StartDay(s: Start)
      modifies this`gate, this`lock, this`history
      ensures history == old(history) + StartStates(old(Now()), s)
      ensures Now() == Last(old(Now()), StartStates(old(Now()), s))
    {
      hide Concluded, Replaced;
      if !s.repositoryFound { return; }
      if !s.configured {
        WriteGateFor(s.session, Blocked, s.ticks);
        return;
      }
      if lock.Unreadable? { return; }
      if lock.Lock? {
        var live := s.watcherLive && gate.Some? && gate.value.session == lock.session && gate.value.token == lock.token;
        if live {
          Conclude(lock.session, s);
          return;
        }
      }
      CloseStaleAuthority();
      AcquireAndConclude(s);
    }

    /** The gate write of stop: closed, naming the lock's session, the mark kept. */
    method CloseForStop()
      modifies this`gate, this`history
      ensures gate.Some? && gate.value.entryGate == Closed && (Latched(gate) <==> Latched(old(gate)))
      ensures lock.Lock? ==> gate.value.session == lock.session && gate.value.token == lock.token
      ensures !lock.Lock? ==> gate.value.session == "unknown-session" && gate.value.token == None
      ensures history == old(history) + [Now()]
    {
      var required := gate.Some? && gate.value.recoveryRequired;
      var session, token := "unknown-session", None;
      if lock.Lock? { session, token := lock.session, lock.token; }
      gate := Some(Gate(session, token, Closed, required));
      history := history + [Now()];
    }

    /** _mark_recovery_required: a gate that is there is marked, and is otherwise what it was. */
    method MarkRecoveryRequired()
      modifies this`gate, this`history
      ensures gate.Some? <==> old(gate).Some?
      ensures gate.Some? ==> Latched(gate) && gate.value.entryGate == old(gate).value.entryGate
      ensures gate.Some? ==> gate.value.session == old(gate).value.session && gate.value.token == old(gate).value.token
      ensures history == old(history) + if gate.Some? then [Now()] else []
    {
      if gate.Some? {
        gate := Some(gate.value.(recoveryRequired := true));
        history := history + [Now()];
      }
    }

    /** The gate and lock writes of stop, by the one controller that runs. */
    method StopDay(p: Stop)
      modifies this`gate, this`lock, this`history
      ensures history == old(history) + StopStates(old(Now()), p)
      ensures Now() == Last(old(Now()), StopStates(old(Now()), p))
    {
      CloseForStop();
      if lock.Unreadable? {
        MarkRecoveryRequired();
        return;
      }
      if lock.Absent? { return; }
      if p.dirty { MarkRecoveryRequired(); }
      if p.lockUnlinks {
        lock := Absent;
        history := history + [Now()];
      }
    }

    /** run_recovery: refuse a live target, try the recovery lock, evaluate, apply, and release the
        lock only if it is this attempt's. */
    method RunRecovery(token: string, targetAlive: bool, otherChecks: seq<bool>, dryRun: bool) returns (applied: bool)
      requires recoveryLock != Some(token)
      modifies this
      ensures lock == old(lock) && recoveryLock == old(recoveryLock)
      ensures var attempt := Attempt(targetAlive, old(recoveryLock).None?, otherChecks, dryRun);
        && (applied <==> old(gate).Some? && Accepted(attempt))
        && history == old(history) + RecoverStates(old(Now()), attempt)
        && Now() == Last(old(Now()), RecoverStates(old(Now()), attempt))
    {
      if targetAlive { return false; }
      var acquired := recoveryLock.None?;
      if acquired { recoveryLock := Some(token); }
      applied := false;
      LockCheckFirst(acquired, otherChecks);
      if !dryRun {
        applied := ApplyRecoveryResult([acquired] + otherChecks);
      }
      if recoveryLock == Some(token) { recoveryLock := None; }
    }

    /** apply_recovery_result: with every check passed the mark goes, and the rest of the gate stays. */
    method ApplyRecoveryResult(checks: seq<bool>) returns (applied: bool)
      modifies this`gate, this`history
      ensures applied <==> old(gate).Some? && AllPassed(checks)
      ensures applied ==> gate.Some? && !Latched(gate) && gate.value.entryGate == old(gate).value.entryGate
      ensures applied ==> gate.value.session == old(gate).value.session && gate.value.token == old(gate).value.token
      ensures !applied ==> gate == old(gate)
      ensures history == old(history) + if applied then [Now()] else []
    {
      var i := 0;
      while i < |checks|
        invariant 0 <= i <= |checks| && gate == old(gate) && history == old(history)
        invariant forall k :: 0 <= k < i ==> checks[k]
      {
        if !checks[i] { return false; }
        i := i + 1;
      }
      if gate.None? { return false; }
      gate := Some(gate.value.(recoveryRequired := false));
      history := history + [Now()];
      applied := true;
    }
  }
}
