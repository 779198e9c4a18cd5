/** The schedule over whole runs: every file it writes is one it accepts, no slot is selected twice
    or left uncounted, and the cycle loop's calls fit together. */
module ScheduleProofs {
  import opened Schedule

  /** The states the object writes: counters and pending slots agree, one pending slot a job. */
  predicate Sound(st: State) {
    && (forall job :: job in st.slots ==> st.slots[job] >= 0)
    && (forall i :: 0 <= i < |st.pending| ==> SoundSlot(st, st.pending[i]))
    && OneEach(st.pending)
  }

  predicate SoundSlot(st: State, slot: Slot) {
    slot.job in st.slots && st.slots[slot.job] == slot.index && slot.missed >= 0
  }

  predicate OneEach(slots: seq<Slot>) {
    forall i, j :: 0 <= i < j < |slots| ==> slots[i].job != slots[j].job
  }

  lemma NamesInvert(job: Job)
    ensures JobNamed(JobName(job)) == job && JobNameKnown(JobName(job))
  {
  }

  lemma SlotsReadBack(slots: map<Job, int>)
    ensures ReadSlots(WriteSlots(slots)) == slots
    ensures forall name :: name in WriteSlots(slots) ==> JobNameKnown(name) && JobNamed(name) in slots
    ensures forall job :: job in slots ==>
      JobName(job) in WriteSlots(slots) && WriteSlots(slots)[JobName(job)] == slots[job]
  {
    forall job: Job ensures JobNamed(JobName(job)) == job {
      NamesInvert(job);
    }
  }

  lemma PendingReadBack(pending: seq<Slot>)
    ensures ReadPending(WritePending(pending)) == pending
  {
  }

  lemma WrittenSlotsPass(c: Config, st: State)
    requires ValidConfig(c) && Sound(st)
    ensures var f := Write(c, st).file; !UnknownSlot(f) && !NegativeSlot(f)
  {
  }

  lemma WrittenPendingPasses(c: Config, st: State)
    requires ValidConfig(c) && Sound(st)
    ensures var f := Write(c, st).file; !UnknownPending(f) && !NegativePending(f) && !MismatchedPending(f)
  {
    SlotsReadBack(st.slots);
    var f := Write(c, st).file;
    forall i | 0 <= i < |f.pending|
      ensures JobNameKnown(f.pending[i].job) && f.pending[i].slotIndex >= 0 && f.pending[i].missedCount >= 0
      ensures MatchesCounter(f.slots, f.pending[i])
    {
      NamesInvert(st.pending[i].job);
      assert SoundSlot(st, st.pending[i]);
    }
  }

  /** What _write puts down, _read takes up again, every check passed. */
  lemma ReadsBack(c: Config, st: State)
    requires ValidConfig(c) && Sound(st)
    ensures Read(c, Write(c, st)) == Ok(st)
  {
    hide UnknownSlot, NegativeSlot, UnknownPending, NegativePending, MismatchedPending;
    WrittenSlotsPass(c, st);
    WrittenPendingPasses(c, st);
    SlotsReadBack(st.slots);
    PendingReadBack(st.pending);
  }

  // ---- what due selects ----

  /** A late wake-up selects the slot the instant is in, and counts the ones it passed over. */
  ghost predicate SelectedRight(c: Config, slots: map<Job, int>, now: int, slot: Slot)
    requires ValidConfig(c)
  {
    && slot.scheduledAt == c.anchor + slot.index * c.cadences[slot.job]
    && slot.scheduledAt <= now < slot.scheduledAt + c.cadences[slot.job]
    && slot.index >= 0
    && (slot.job in slots ==> slots[slot.job] < slot.index && slot.missed == slot.index - slots[slot.job] - 1)
    && (slot.job !in slots ==> slot.missed == 0)
  }

  lemma IndexBrackets(c: Config, job: Job, now: int)
    requires ValidConfig(c) && now >= c.anchor
    ensures var index := SlotIndex(c, job, now);
      index >= 0 && index * c.cadences[job] <= now - c.anchor < index * c.cadences[job] + c.cadences[job]
  {
  }

  lemma Euclid(a: int, b: int)
    requires a >= 0 && b > 0
    ensures a / b >= 0 && (a / b) * b <= a < (a / b) * b + b
  {
  }

  /** For a job: at most one slot, and one exactly when the instant is past its last. */
  lemma SelectJobRight(c: Config, slots: map<Job, int>, job: Job, now: int)
    requires ValidConfig(c)
    ensures var due := SelectJob(c, slots, job, now);
      && (due != [] <==> now >= c.anchor && (job in slots ==> slots[job] < SlotIndex(c, job, now)))
      && (due != [] ==> due[0].job == job && SelectedRight(c, slots, now, due[0]))
  {
  }

  function OfJob(slots: seq<Slot>, job: Job): seq<Slot> {
    if slots == [] then []
    else (if slots[0].job == job then [slots[0]] else []) + OfJob(slots[1..], job)
  }

  lemma {:induction false} OfJobConcat(a: seq<Slot>, b: seq<Slot>, job: Job)
    ensures OfJob(a + b, job) == OfJob(a, job) + OfJob(b, job)
  {
    if a == [] {
      assert a + b == b;
    } else {
      var first := if a[0].job == job then [a[0]] else [];
      assert (a + b)[0] == a[0] && (a + b)[1..] == a[1..] + b;
      OfJobConcat(a[1..], b, job);
      assert OfJob(a + b, job) == first + (OfJob(a[1..], job) + OfJob(b, job));
      assert OfJob(a, job) == first + OfJob(a[1..], job);
    }
  }

  lemma {:induction false} SelectJobsMembers(c: Config, slots: map<Job, int>, jobs: seq<Job>, now: int)
    requires ValidConfig(c)
    ensures forall s :: s in SelectJobs(c, slots, jobs, now) ==> s.job in jobs
  {
    hide SelectJob;
    if jobs != [] {
      SelectJobsMembers(c, slots, jobs[1..], now);
    }
  }

  lemma {:induction false} SelectJobsOneEach(c: Config, slots: map<Job, int>, jobs: seq<Job>, now: int)
    requires ValidConfig(c)
    requires forall i, j :: 0 <= i < j < |jobs| ==> jobs[i] != jobs[j]
    ensures OneEach(SelectJobs(c, slots, jobs, now))
  {
    hide SelectJob;
    if jobs != [] {
      var first, rest := SelectJob(c, slots, jobs[0], now), SelectJobs(c, slots, jobs[1..], now);
      SelectJobsOneEach(c, slots, jobs[1..], now);
      SelectJobsMembers(c, slots, jobs[1..], now);
      var all: seq<Slot> := first + rest;
      forall i: nat, j: nat | i < j < |all| ensures all[i].job != all[j].job {
        assert all[j] == rest[j - |first|];
        assert all[j] in rest;
      }
    }
  }

  lemma {:induction false} SelectJobsOf(c: Config, slots: map<Job, int>, jobs: seq<Job>, now: int, job: Job)
    requires ValidConfig(c)
    requires forall i, j :: 0 <= i < j < |jobs| ==> jobs[i] != jobs[j]
    ensures OfJob(SelectJobs(c, slots, jobs, now), job) == if job in jobs then SelectJob(c, slots, job, now) else []
  {
    hide SelectJob;
    if jobs != [] {
      var first, rest := SelectJob(c, slots, jobs[0], now), SelectJobs(c, slots, jobs[1..], now);
      SelectJobsOf(c, slots, jobs[1..], now, job);
      OfJobConcat(first, rest, job);
      OfJobOne(first, job);
      if job == jobs[0] {
        assert job !in jobs[1..];
        assert first + [] == first;
      }
    }
  }

  lemma OfJobOne(due: seq<Slot>, job: Job)
    requires |due| <= 1
    ensures OfJob(due, job) == if due != [] && due[0].job == job then due else []
  {
  }

  lemma JobsDistinct()
    ensures forall i, j :: 0 <= i < j < |JOBS| ==> JOBS[i] != JOBS[j]
    ensures forall job: Job :: job in JOBS
  {
    forall job: Job ensures job in JOBS {
      assert job == JOBS[0] || job == JOBS[1] || job == JOBS[2] || job == JOBS[3];
    }
  }

  /** The counters after a selection: the selected jobs at their new slots, the others where they
      were. */
  lemma {:induction false} AdvanceAt(slots: map<Job, int>, due: seq<Slot>, job: Job)
    requires OneEach(due)
    ensures var mine := OfJob(due, job); var after := Advance(slots, due);
      if mine == [] then (job in after <==> job in slots) && (job in slots ==> after[job] == slots[job])
      else |mine| == 1 && job in after && after[job] == mine[0].index
    decreases |due|
  {
    if due != [] {
      AdvanceAt(slots[due[0].job := due[0].index], due[1..], job);
      if due[0].job == job {
        OfJobNone(due[1..], job);
      }
    }
  }

  lemma {:induction false} OfJobNone(due: seq<Slot>, job: Job)
    requires forall i :: 0 <= i < |due| ==> due[i].job != job
    ensures OfJob(due, job) == []
  {
    if due != [] {
      OfJobNone(due[1..], job);
    }
  }

  lemma {:induction false} OfJobMember(due: seq<Slot>, slot: Slot)
    requires slot in due && OneEach(due)
    ensures OfJob(due, slot.job) == [slot]
  {
    if due[0] == slot {
      OfJobNone(due[1..], slot.job);
    } else {
      var j :| 0 <= j < |due| && due[j] == slot;
      assert due[1..][j - 1] == slot;
      OfJobMember(due[1..], slot);
    }
  }

  lemma SelectionSound(c: Config, st: State, now: int)
    requires ValidConfig(c) && Sound(st)
    ensures var due := SelectJobs(c, st.slots, JOBS, now);
      && OneEach(due)
      && Sound(State(Advance(st.slots, due), due))
      && (forall i :: 0 <= i < |due| ==> SelectedRight(c, st.slots, now, due[i]))
  {
    var due := SelectJobs(c, st.slots, JOBS, now);
    JobsDistinct();
    forall job: Job
      ensures OfJob(due, job) == SelectJob(c, st.slots, job, now)
    {
      SelectJobsOf(c, st.slots, JOBS, now, job);
    }
    SelectJobsOneEach(c, st.slots, JOBS, now);
    var after := State(Advance(st.slots, due), due);
    forall i | 0 <= i < |due|
      ensures SelectedRight(c, st.slots, now, due[i]) && SoundSlot(after, due[i])
    {
      OfJobMember(due, due[i]);
      SelectJobRight(c, st.slots, due[i].job, now);
      AdvanceAt(st.slots, due, due[i].job);
    }
    forall job | job in after.slots ensures after.slots[job] >= 0 {
      AdvanceAt(st.slots, due, job);
      SelectJobRight(c, st.slots, job, now);
    }
  }

  // ---- the other two writers ----

  lemma {:induction false} WithoutMembers(pending: seq<Slot>, skipped: seq<Slot>, slot: Slot)
    ensures slot in Without(pending, skipped) <==> slot in pending && !KeyIn(slot, skipped)
  {
    if pending != [] {
      WithoutMembers(pending[1..], skipped, slot);
    }
  }

  lemma {:induction false} WithoutOneEach(pending: seq<Slot>, skipped: seq<Slot>)
    requires OneEach(pending)
    ensures OneEach(Without(pending, skipped))
  {
    if pending != [] {
      var rest := Without(pending[1..], skipped);
      WithoutOneEach(pending[1..], skipped);
      forall i | 0 <= i < |rest| ensures rest[i].job != pending[0].job {
        WithoutMembers(pending[1..], skipped, rest[i]);
        assert rest[i] in pending[1..];
      }
    }
  }

  lemma RemainingSound(st: State, skipped: seq<Slot>)
    requires Sound(st)
    ensures Sound(st.(pending := Without(st.pending, skipped)))
  {
    var after := st.(pending := Without(st.pending, skipped));
    WithoutOneEach(st.pending, skipped);
    forall i | 0 <= i < |after.pending| ensures SoundSlot(after, after.pending[i]) {
      WithoutMembers(st.pending, skipped, after.pending[i]);
      assert after.pending[i] in st.pending;
    }
  }

  // ---- runs ----

  // One call on the file, complete. A process that dies before its write leaves the file as it was,
  // so a crash is a call that does not appear; one that dies after it is a call whose answer nobody
  // used.
  datatype Call = CallDue(now: int) | CallAcknowledge(selected: seq<Slot>) | CallReconcile(selection: Selection)

  // A durable selection and the clock it was made at.
  datatype Selected = Selected(slot: Slot, now: int)

  datatype Run = Run(disk: Disk, history: seq<Selected>)

  function Stamp(due: seq<Slot>, now: int): (r: seq<Selected>)
    ensures |r| == |due|
  {
    seq(|due|, i requires 0 <= i < |due| => Selected(due[i], now))
  }

  function Perform(c: Config, run: Run, call: Call): Run
    requires ValidConfig(c)
  {
    match call
    case CallDue(now) =>
      var (r, disk) := DueSpec(c, run.disk, now);
      Run(disk, if r.Ok? then run.history + Stamp(r.value, now) else run.history)
    case CallAcknowledge(selected) => run.(disk := AcknowledgeSpec(c, run.disk, selected).1)
    case CallReconcile(selection) => run.(disk := ReconcileSpec(c, run.disk, selection).1)
  }

  function PerformAll(c: Config, calls: seq<Call>): Run
    requires ValidConfig(c)
  {
    if calls == [] then Run(Absent, [])
    else Perform(c, PerformAll(c, calls[..|calls| - 1]), calls[|calls| - 1])
  }

  function HistoryOf(history: seq<Selected>, job: Job): seq<Selected> {
    if history == [] then []
    else
      var last := history[|history| - 1];
      HistoryOf(history[..|history| - 1], job) + (if last.slot.job == job then [last] else [])
  }

  lemma {:induction false} HistoryConcat(history: seq<Selected>, due: seq<Slot>, now: int, job: Job)
    ensures HistoryOf(history + Stamp(due, now), job) == HistoryOf(history, job) + Stamp(OfJob(due, job), now)
    decreases |due|
  {
    hide OfJob;
    if due == [] {
      OfJobNone([], job);
      assert history + Stamp(due, now) == history;
      assert HistoryOf(history, job) + Stamp([], now) == HistoryOf(history, job);
    } else {
      var front, last := due[..|due| - 1], due[|due| - 1];
      HistoryConcat(history, front, now, job);
      var all := history + Stamp(due, now);
      assert all[..|all| - 1] == history + Stamp(front, now);
      assert due == front + [last];
      OfJobConcat(front, [last], job);
      OfJobOne([last], job);
      if last.job == job {
        assert Stamp(OfJob(due, job), now) == Stamp(OfJob(front, job), now) + [Selected(last, now)];
      }
    }
  }

  /** One job's selections: each in its slot at its clock, indices rising, each missed count exactly
      the slots passed over, the counter at the last. */
  ghost predicate Accounted(c: Config, slots: map<Job, int>, job: Job, h: seq<Selected>)
    requires ValidConfig(c)
  {
    && (forall i :: 0 <= i < |h| ==> InSlot(c, h[i]) && h[i].slot.job == job)
    && (forall i :: 1 <= i < |h| ==>
          h[i - 1].slot.index + h[i].slot.missed + 1 == h[i].slot.index && h[i].slot.missed >= 0)
    && (h != [] ==> h[0].slot.missed == 0)
    && (h == [] <==> job !in slots)
    && (h != [] ==> slots[job] == h[|h| - 1].slot.index)
  }

  predicate InSlot(c: Config, s: Selected)
    requires ValidConfig(c)
  {
    && s.slot.scheduledAt == c.anchor + s.slot.index * c.cadences[s.slot.job]
    && s.slot.scheduledAt <= s.now < s.slot.scheduledAt + c.cadences[s.slot.job]
  }

  ghost predicate RunSound(c: Config, run: Run)
    requires ValidConfig(c)
  {
    var st := Read(c, run.disk);
    && st.Ok? && Sound(st.value)
    && (forall job: Job :: Accounted(c, st.value.slots, job, HistoryOf(run.history, job)))
  }

  lemma DueKeepsRun(c: Config, run: Run, now: int)
    requires ValidConfig(c) && RunSound(c, run)
    ensures RunSound(c, Perform(c, run, CallDue(now)))
  {
    var st := Read(c, run.disk).value;
    var due := SelectJobs(c, st.slots, JOBS, now);
    if st.pending == [] && due != [] {
      SelectionSound(c, st, now);
      var after := State(Advance(st.slots, due), due);
      ReadsBack(c, after);
      forall job: Job ensures Accounted(c, after.slots, job, HistoryOf(run.history + Stamp(due, now), job)) {
        JobsDistinct();
        SelectJobsOf(c, st.slots, JOBS, now, job);
        AdvanceAt(st.slots, due, job);
        HistoryConcat(run.history, due, now, job);
        AccountedNext(c, st.slots, after.slots, job, HistoryOf(run.history, job), OfJob(due, job), now);
      }
    } else {
      assert run.history + Stamp([], now) == run.history;
    }
  }

  lemma AccountedNext(c: Config, before: map<Job, int>, after: map<Job, int>, job: Job, h: seq<Selected>,
                      mine: seq<Slot>, now: int)
    requires ValidConfig(c) && Accounted(c, before, job, h)
    requires mine == SelectJob(c, before, job, now)
    requires if mine == [] then (job in after <==> job in before) && (job in before ==> after[job] == before[job])
             else job in after && after[job] == mine[0].index
    ensures Accounted(c, after, job, h + Stamp(mine, now))
  {
    var all := h + Stamp(mine, now);
    if mine == [] {
      assert all == h;
    } else {
      SelectJobRight(c, before, job, now);
      assert all == h + [Selected(mine[0], now)];
    }
  }

  lemma RewriteKeepsRun(c: Config, run: Run, after: State)
    requires ValidConfig(c) && RunSound(c, run)
    requires after.slots == Read(c, run.disk).value.slots && Sound(after)
    ensures RunSound(c, run.(disk := Write(c, after)))
  {
    ReadsBack(c, after);
  }

  /** Acknowledging and reconciling touch only the pending list. */
  lemma OnlyPendingRewritten(c: Config, disk: Disk, selected: seq<Slot>, selection: Selection)
    requires ValidConfig(c) && Read(c, disk).Ok? && Sound(Read(c, disk).value)
    ensures var st := Read(c, disk).value;
      && AcknowledgeSpec(c, disk, selected).1 in {disk, Write(c, st.(pending := []))}
      && Sound(st.(pending := []))
      && ReconcileSpec(c, disk, selection).1 in {disk, Write(c, st.(pending := Kept(st, selection)))}
      && Sound(st.(pending := Kept(st, selection)))
  {
    hide Read, Write;
    var st := Read(c, disk).value;
    if selection.These? {
      RemainingSound(st, selection.slots);
    }
  }

  function Kept(st: State, selection: Selection): seq<Slot> {
    if selection.Everything? then [] else Without(st.pending, selection.slots)
  }

  lemma OthersKeepRun(c: Config, run: Run, call: Call)
    requires ValidConfig(c) && RunSound(c, run) && !call.CallDue?
    ensures RunSound(c, Perform(c, run, call))
  {
    hide Accounted, Sound, Read, Write, ReconcileSpec, AcknowledgeSpec, Kept;
    var st := Read(c, run.disk).value;
    var selected := if call.CallAcknowledge? then call.selected else [];
    var selection := if call.CallReconcile? then call.selection else Everything;
    OnlyPendingRewritten(c, run.disk, selected, selection);
    RewriteKeepsRun(c, run, st.(pending := []));
    RewriteKeepsRun(c, run, st.(pending := Kept(st, selection)));
  }

  /** Every file any run of calls leaves behind passes every check of _read, and every job's
      selections are accounted for. */
  lemma {:induction false} RunsAreSound(c: Config, calls: seq<Call>)
    requires ValidConfig(c)
    ensures RunSound(c, PerformAll(c, calls))
  {
    if calls != [] {
      var before := PerformAll(c, calls[..|calls| - 1]);
      var call := calls[|calls| - 1];
      RunsAreSound(c, calls[..|calls| - 1]);
      if call.CallDue? {
        DueKeepsRun(c, before, call.now);
      } else {
        OthersKeepRun(c, before, call);
      }
    }
  }

  function TotalMissed(h: seq<Selected>): int {
    if h == [] then 0 else TotalMissed(h[..|h| - 1]) + h[|h| - 1].slot.missed
  }

  lemma {:induction false} Telescopes(c: Config, slots: map<Job, int>, job: Job, h: seq<Selected>)
    requires ValidConfig(c) && Accounted(c, slots, job, h) && h != []
    ensures |h| + TotalMissed(h) == h[|h| - 1].slot.index - h[0].slot.index + 1
  {
    var front := h[..|h| - 1];
    if front != [] {
      Telescopes(c, slots[job := front[|front| - 1].slot.index], job, front);
    } else {
      assert TotalMissed(front) == 0;
    }
  }

  lemma {:induction false} Rises(c: Config, slots: map<Job, int>, job: Job, h: seq<Selected>, i: nat, j: nat)
    requires ValidConfig(c) && Accounted(c, slots, job, h)
    requires i < j < |h|
    ensures h[i].slot.index < h[j].slot.index
    decreases j
  {
    if i < j - 1 {
      Rises(c, slots, job, h, i, j - 1);
    }
  }

  /** Slot conservation. Over any calls at any clock values: a job's selected indices strictly
      increase, each selection is made while its slot lasts, and the selected slots with the missed
      ones are exactly those from the first to the last. */
  lemma SlotConservation(c: Config, calls: seq<Call>, job: Job)
    requires ValidConfig(c)
    ensures var h := HistoryOf(PerformAll(c, calls).history, job);
      && (forall i, j :: 0 <= i < j < |h| ==> h[i].slot.index < h[j].slot.index)
      && (forall i :: 0 <= i < |h| ==> InSlot(c, h[i]))
      && (h != [] ==> |h| + TotalMissed(h) == h[|h| - 1].slot.index - h[0].slot.index + 1)
  {
    RunsAreSound(c, calls);
    var run := PerformAll(c, calls);
    var h := HistoryOf(run.history, job);
    var slots := Read(c, run.disk).value.slots;
    assert Accounted(c, slots, job, h);
    forall i, j | 0 <= i < j < |h| ensures h[i].slot.index < h[j].slot.index {
      Rises(c, slots, job, h, i, j);
    }
    if h != [] {
      Telescopes(c, slots, job, h);
    }
  }

  /** While a selection is pending, due selects nothing and writes nothing. */
  lemma PendingBlocksSelection(c: Config, calls: seq<Call>, now: int)
    requires ValidConfig(c)
    requires Read(c, PerformAll(c, calls).disk).Ok? && Read(c, PerformAll(c, calls).disk).value.pending != []
    ensures Perform(c, PerformAll(c, calls), CallDue(now)) == PerformAll(c, calls)
  {
  }

  // ---- the cycle loop ----

  function Allowed(slots: seq<Slot>, allowed: set<Job>): seq<Slot> {
    if slots == [] then [] else (if slots[0].job in allowed then [slots[0]] else []) + Allowed(slots[1..], allowed)
  }

  function Skipped(slots: seq<Slot>, allowed: set<Job>): seq<Slot> {
    if slots == [] then [] else (if slots[0].job !in allowed then [slots[0]] else []) + Skipped(slots[1..], allowed)
  }

  lemma {:induction false} AllowedMembers(slots: seq<Slot>, allowed: set<Job>, slot: Slot)
    ensures slot in Allowed(slots, allowed) <==> slot in slots && slot.job in allowed
  {
    if slots != [] {
      AllowedMembers(slots[1..], allowed, slot);
    }
  }

  lemma {:induction false} SkippedMembers(slots: seq<Slot>, allowed: set<Job>, slot: Slot)
    ensures slot in Skipped(slots, allowed) <==> slot in slots && slot.job !in allowed
  {
    if slots != [] {
      SkippedMembers(slots[1..], allowed, slot);
    }
  }

  lemma {:induction false} WithoutSkipped(pending: seq<Slot>, skipped: seq<Slot>, allowed: set<Job>)
    requires forall i :: 0 <= i < |pending| ==> (KeyIn(pending[i], skipped) <==> pending[i].job !in allowed)
    ensures Without(pending, skipped) == Allowed(pending, allowed)
  {
    if pending != [] {
      assert forall i :: 0 <= i < |pending[1..]| ==> pending[1..][i] == pending[i + 1];
      WithoutSkipped(pending[1..], skipped, allowed);
    }
  }

  lemma {:induction false} AllowedOneEach(slots: seq<Slot>, allowed: set<Job>)
    requires OneEach(slots)
    ensures OneEach(Allowed(slots, allowed))
  {
    if slots != [] {
      var rest := Allowed(slots[1..], allowed);
      AllowedOneEach(slots[1..], allowed);
      forall i | 0 <= i < |rest| ensures rest[i].job != slots[0].job {
        AllowedMembers(slots[1..], allowed, rest[i]);
        assert rest[i] in slots[1..];
      }
    }
  }

  lemma KeysOfSkipped(pending: seq<Slot>, allowed: set<Job>, slot: Slot)
    requires OneEach(pending) && slot in pending
    ensures KeyIn(slot, Skipped(pending, allowed)) <==> slot.job !in allowed
  {
    var skipped := Skipped(pending, allowed);
    SkippedMembers(pending, allowed, slot);
    if KeyIn(slot, skipped) {
      var i :| 0 <= i < |skipped| && skipped[i].job == slot.job && skipped[i].index == slot.index;
      SkippedMembers(pending, allowed, skipped[i]);
    }
    if slot in skipped {
      var i :| 0 <= i < |skipped| && skipped[i] == slot;
      assert KeyIn(slot, skipped);
    }
  }

  /** After a selection, discarding the jobs outside their window and acknowledging the rest never
      raises, whatever the window, and leaves nothing pending. */
  lemma WindowThenAcknowledge(c: Config, st: State, allowed: set<Job>)
    requires ValidConfig(c) && Sound(st)
    ensures var disk := Write(c, st);
      var (r1, disk1) := ReconcileSpec(c, disk, These(Skipped(st.pending, allowed)));
      var (r2, disk2) := AcknowledgeSpec(c, disk1, Allowed(st.pending, allowed));
      r1.Ok? && r2.Ok? && Read(c, disk2) == Ok(st.(pending := []))
  {
    var skipped, kept := Skipped(st.pending, allowed), Allowed(st.pending, allowed);
    ReadsBack(c, st);
    forall i | 0 <= i < |skipped| ensures KeyIn(skipped[i], st.pending) {
      SkippedMembers(st.pending, allowed, skipped[i]);
      var k :| 0 <= k < |st.pending| && st.pending[k] == skipped[i];
    }
    forall i | 0 <= i < |st.pending|
      ensures KeyIn(st.pending[i], skipped) <==> st.pending[i].job !in allowed
    {
      KeysOfSkipped(st.pending, allowed, st.pending[i]);
    }
    WithoutSkipped(st.pending, skipped, allowed);
    RemainingSound(st, skipped);
    ReadsBack(c, st.(pending := kept));
    AllowedOneEach(st.pending, allowed);
    ReadsBack(c, st.(pending := []));
  }
}
