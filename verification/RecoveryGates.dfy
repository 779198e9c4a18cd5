/** What the gate says after a start or a stop: who may open it, when it stands open, and when it carries
    the recovery mark. */
module RecoveryGates {
  import opened Wrappers
  import opened RecoveryLatch

  /** The lock's session is up: its watcher runs, and the gate carries its name and token. */
  predicate AlreadyUp(disk: Disk, s: Start) {
    && s.watcherLive && disk.lock.Lock? && disk.gate.Some?
    && disk.gate.value.session == disk.lock.session && disk.gate.value.token == disk.lock.token
  }

  /** A gate left open or open for proofs. */
  predicate LeftOpen(gate: Option<Gate>) {
    gate.Some? && gate.value.entryGate in {Open, ProofOnly}
  }

  /** The start got as far as its decision: found its repository and configuration, could read the lock, and
      either found the session already up or put its own lock there. */
  predicate Decides(disk: Disk, s: Start) {
    && s.repositoryFound && s.configured && !disk.lock.Unreadable?
    && (AlreadyUp(disk, s) || ((disk.lock.Absent? || s.lockUnlinks) && s.lockFree))
  }

  /** The state decided last; without a broker there is none to decide. */
  function FinalState(s: Start): State {
    if s.later.Some? then s.later.value else s.state
  }

  lemma ConcludedGate(disk: Disk, session: string, s: Start)
    ensures var states := Concluded(disk, session, s);
      && states != []
      && var last := states[|states| - 1];
         && last.lock == disk.lock && last.gate.Some? && last.gate.value.session == session
         && last.gate.value.token == (if disk.lock.Lock? && disk.lock.token != Some("") then disk.lock.token else None)
         && (last.gate.value.entryGate == Open <==> s.brokerUp && FinalState(s) == Ready)
         && (last.gate.value.entryGate == ProofOnly <==> s.brokerUp && FinalState(s) == Degraded)
         && (Latched(last.gate) <==>
               || Latched(disk.gate) || s.ticks != NoneUnmatched
               || (s.brokerUp && s.later.Some? && s.laterTicks != NoneUnmatched))
  {
  }

  /** A start run to its end. If it got as far as deciding, the gate stands open exactly with the broker up
      and the state ready, for proofs only exactly with it degraded, and is closed otherwise; it names this
      session and its lock, and carries the mark exactly if it did before, a session had died open, or ticks
      are unaccounted for. If not, it opened nothing. */
  lemma GateAfterStart(disk: Disk, s: Start)
    ensures var states := StartStates(disk, s);
      var last := if states == [] then disk else states[|states| - 1];
      if Decides(disk, s) then
        && last.gate.Some? && last.lock.Lock?
        && last.lock == (if AlreadyUp(disk, s) then disk.lock else Lock(s.session, Some(s.token)))
        && last.gate.value.session == last.lock.session
        && (last.gate.value.entryGate == Open <==> s.brokerUp && FinalState(s) == Ready)
        && (last.gate.value.entryGate == ProofOnly <==> s.brokerUp && FinalState(s) == Degraded)
        && (Latched(last.gate) <==>
              || Latched(disk.gate) || (LeftOpen(disk.gate) && !AlreadyUp(disk, s)) || s.ticks != NoneUnmatched
              || (s.brokerUp && s.later.Some? && s.laterTicks != NoneUnmatched))
      else states == [] || !LeftOpen(last.gate)
  {
    hide Concluded;
    if disk.lock.Lock? { ConcludedGate(disk, disk.lock.session, s); }
    var fenced := if LeftOpen(disk.gate) && !AlreadyUp(disk, s) then Fenced(disk) else disk;
    var held := fenced.(lock := Lock(s.session, Some(s.token)));
    ConcludedGate(held, s.session, s);
  }

  /** Wherever a stop dies, once it has written anything the gate is closed; the mark is never taken off, and
      put on exactly when the lock could not be read or the scheduler's shutdown was not clean; the lock only
      goes last, and only when this stop could unlink it. */
  lemma StopCloses(disk: Disk, p: Stop, i: nat)
    requires i < |StopStates(disk, p)|
    ensures var states := StopStates(disk, p);
      && states[i].gate.Some? && states[i].gate.value.entryGate == Closed
      && (Latched(disk.gate) ==> Latched(states[i].gate))
      && (i == |states| - 1 ==>
            && (Latched(states[i].gate) <==>
                  Latched(disk.gate) || disk.lock.Unreadable? || (disk.lock.Lock? && p.dirty))
            && states[i].lock == if disk.lock.Lock? && p.lockUnlinks then LockFile.Absent else disk.lock)
      && (i < |states| - 1 ==> states[i].lock == disk.lock)
  {
  }

  lemma OnlyStartsOpenStep(disk: Disk, call: Call)
    requires !LeftOpen(disk.gate) && LeftOpen(LeftBy(disk, call).gate)
    ensures call.invocation.Starts?
  {
    if call.invocation.Stops? {
      var states := StopStates(disk, call.invocation.stop);
      forall i: nat | i < |states| ensures !LeftOpen(states[i].gate) {
        StopCloses(disk, call.invocation.stop, i);
      }
    }
  }

  /** Over any invocations dying anywhere: a gate that was closed and is found open was opened by a start,
      and has stood open since. */
  lemma {:induction false} OnlyStartsOpen(disk: Disk, calls: seq<Call>) returns (k: nat)
    requires !LeftOpen(disk.gate) && LeftOpen(AfterAll(disk, calls).gate)
    ensures k < |calls| && calls[k].invocation.Starts?
    ensures !LeftOpen(AfterAll(disk, calls[..k]).gate)
    ensures forall j :: k < j <= |calls| ==> LeftOpen(AfterAll(disk, calls[..j]).gate)
  {
    hide LeftBy;
    var front, last := calls[..|calls| - 1], calls[|calls| - 1];
    if LeftOpen(AfterAll(disk, front).gate) {
      k := OnlyStartsOpen(disk, front);
      assert calls[..k] == front[..k] && calls[..|calls|] == calls && front[..|front|] == front;
      forall j | k < j <= |calls| ensures LeftOpen(AfterAll(disk, calls[..j]).gate) {
        if j < |calls| { assert calls[..j] == front[..j]; }
      }
    } else {
      k := |calls| - 1;
      assert calls[..|calls|] == calls;
      OnlyStartsOpenStep(AfterAll(disk, front), last);
    }
  }

  /** What a recovery writes: nothing, unless there is a gate, its target is dead, the recovery lock was free,
      every requirement was met and it is no dry run; and then only the mark goes. */
  lemma RecoveryClearsExactly(disk: Disk, attempt: Attempt)
    ensures var states := RecoverStates(disk, attempt);
      && (states != [] <==>
            && disk.gate.Some? && !attempt.targetAlive && attempt.lockFree && !attempt.dryRun
            && forall i :: 0 <= i < |attempt.checks| ==> attempt.checks[i])
      && (states != [] ==>
            var gate := disk.gate.value;
            states == [Disk(Some(Gate(gate.session, gate.token, gate.entryGate, false)), disk.lock)])
  {
  }
}
