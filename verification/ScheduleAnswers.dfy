/** What each call on the schedule answers and leaves in its file, job by job, from the anchor, the
    cadences and the counters alone. */
module ScheduleAnswers {
  import opened Schedule
  import opened ScheduleProofs

  /** The order the jobs are declared in. */
  function Declared(job: Job): nat {
    match job
    case Management => 0
    case Discovery => 1
    case Probe => 2
    case EntryJob => 3
  }

  /** The job has a slot to run: its first, or one past its counter. */
  ghost predicate Owes(c: Config, slots: map<Job, int>, job: Job, now: int)
    requires ValidConfig(c)
  {
    now >= c.anchor && (job in slots ==> slots[job] < (now - c.anchor) / c.cadences[job])
  }

  /** The slot it runs: the one the instant is in, at its own time, with the number it passed over. */
  ghost predicate OwedSlot(c: Config, slots: map<Job, int>, slot: Slot, now: int)
    requires ValidConfig(c)
  {
    && slot.index == (now - c.anchor) / c.cadences[slot.job]
    && slot.scheduledAt == c.anchor + slot.index * c.cadences[slot.job]
    && slot.missed == if slot.job in slots then slot.index - slots[slot.job] - 1 else 0
  }

  predicate Answers(due: seq<Slot>, job: Job) {
    exists i :: 0 <= i < |due| && due[i].job == job
  }

  lemma SelectJobExactly(c: Config, slots: map<Job, int>, job: Job, now: int)
    requires ValidConfig(c)
    ensures var due := SelectJob(c, slots, job, now);
      if Owes(c, slots, job, now) then |due| == 1 && due[0].job == job && OwedSlot(c, slots, due[0], now) else due == []
  {
  }

  lemma JobOf(due: seq<Slot>, job: Job)
    requires OneEach(due)
    ensures OfJob(due, job) != [] <==> Answers(due, job)
  {
    if Answers(due, job) {
      var i :| 0 <= i < |due| && due[i].job == job;
      OfJobMember(due, due[i]);
    } else {
      OfJobNone(due, job);
    }
  }

  predicate DeclaredOrder(due: seq<Slot>) {
    forall i, j :: 0 <= i < j < |due| ==> Declared(due[i].job) < Declared(due[j].job)
  }

  lemma OneBefore(first: seq<Slot>, rest: seq<Slot>)
    requires |first| <= 1 && DeclaredOrder(rest)
    requires first != [] ==> forall k :: 0 <= k < |rest| ==> Declared(first[0].job) < Declared(rest[k].job)
    ensures DeclaredOrder(first + rest)
  {
    if first == [] { assert first + rest == rest; }
  }

  lemma {:induction false} InDeclaredOrder(c: Config, slots: map<Job, int>, jobs: seq<Job>, now: int)
    requires ValidConfig(c) && forall i, j :: 0 <= i < j < |jobs| ==> Declared(jobs[i]) < Declared(jobs[j])
    ensures DeclaredOrder(SelectJobs(c, slots, jobs, now))
  {
    hide SelectJob, DeclaredOrder;
    if jobs == [] {
      NoneInOrder([]);
    } else {
      var first, rest := SelectJob(c, slots, jobs[0], now), SelectJobs(c, slots, jobs[1..], now);
      InDeclaredOrder(c, slots, jobs[1..], now);
      SelectJobsMembers(c, slots, jobs[1..], now);
      forall k | 0 <= k < |rest| ensures Declared(jobs[0]) < Declared(rest[k].job) {
        assert rest[k].job in jobs[1..];
        var j :| 0 <= j < |jobs| - 1 && jobs[1..][j] == rest[k].job;
        assert jobs[j + 1] == rest[k].job;
      }
      OneBefore(first, rest);
    }
  }

  lemma NoneInOrder(due: seq<Slot>)
    requires due == []
    ensures DeclaredOrder(due)
  {
  }

  /** The counters after a selection: at the selected slots, and elsewhere as they were. */
  ghost predicate Moved(before: map<Job, int>, after: map<Job, int>, due: seq<Slot>) {
    && (forall i :: 0 <= i < |due| ==> due[i].job in after && after[due[i].job] == due[i].index)
    && (forall job: Job :: !Answers(due, job) ==> SameCounter(after, before, job))
  }

  /** The slots of one selection: every job that owes one, once, in declaration order. */
  ghost predicate OwedSelection(c: Config, slots: map<Job, int>, now: int, due: seq<Slot>)
    requires ValidConfig(c)
  {
    && (forall job: Job :: Answers(due, job) <==> Owes(c, slots, job, now))
    && DeclaredOrder(due)
    && (forall i :: 0 <= i < |due| ==> OwedSlot(c, slots, due[i], now))
  }

  lemma SelectionIs(c: Config, slots: map<Job, int>, now: int)
    requires ValidConfig(c)
    ensures var due := SelectJobs(c, slots, JOBS, now); OwedSelection(c, slots, now, due) && OneEach(due)
  {
    hide SelectJob, SelectJobs, Owes, OwedSlot, OfJob;
    var due := SelectJobs(c, slots, JOBS, now);
    JobsDistinct();
    SelectJobsOneEach(c, slots, JOBS, now);
    InDeclaredOrder(c, slots, JOBS, now);
    forall job: Job ensures Answers(due, job) <==> Owes(c, slots, job, now) {
      SelectJobsOf(c, slots, JOBS, now, job);
      JobOf(due, job);
      SelectJobExactly(c, slots, job, now);
    }
    forall i | 0 <= i < |due| ensures OwedSlot(c, slots, due[i], now) {
      SelectJobsOf(c, slots, JOBS, now, due[i].job);
      OfJobMember(due, due[i]);
      SelectJobExactly(c, slots, due[i].job, now);
    }
  }

  lemma AdvanceMoves(slots: map<Job, int>, due: seq<Slot>)
    requires OneEach(due)
    ensures Moved(slots, Advance(slots, due), due)
  {
    hide Advance;
    var after := Advance(slots, due);
    forall i | 0 <= i < |due| ensures due[i].job in after && after[due[i].job] == due[i].index {
      OfJobMember(due, due[i]);
      AdvanceAt(slots, due, due[i].job);
    }
    forall job: Job | !Answers(due, job) ensures SameCounter(after, slots, job) {
      JobOf(due, job);
      AdvanceAt(slots, due, job);
    }
  }

  /** With nothing pending, a file that can be read has a sound state. */
  lemma IdleIsSound(c: Config, disk: Disk)
    requires ValidConfig(c) && Read(c, disk).Ok? && Read(c, disk).value.pending == []
    ensures Sound(Read(c, disk).value)
  {
    if disk.Present? {
      forall job | job in Read(c, disk).value.slots ensures Read(c, disk).value.slots[job] >= 0 {
        assert JobName(job) in disk.file.slots;
      }
    }
  }

  /** due, in full. A file that cannot be read is refused with its error, and one with a selection pending
      answers nothing; either is left as it is. Otherwise every job that owes a slot is answered once, in
      declaration order, with the slot the instant is in and what it missed; the file then holds exactly
      these pending and the counters at them, and is not touched when no job owes one. */
  lemma DueExactly(c: Config, disk: Disk, now: int)
    requires ValidConfig(c)
    ensures var (r, after) := DueSpec(c, disk, now);
      match Read(c, disk)
      case Err(e) => r == Err(e) && after == disk
      case Ok(st) =>
        r.Ok?
        && (st.pending != [] ==> r.value == [] && after == disk)
        && (st.pending == [] ==> OwedSelection(c, st.slots, now, r.value))
        && (r.value == [] ==> after == disk)
        && (r.value != [] ==> Read(c, after).Ok? && Read(c, after).value.pending == r.value
                              && Moved(st.slots, Read(c, after).value.slots, r.value))
  {
    hide Read, Write, OwedSelection, Moved, Sound, SelectJobs;
    if Read(c, disk).Ok? && Read(c, disk).value.pending == [] {
      var st := Read(c, disk).value;
      IdleIsSound(c, disk);
      SelectionIs(c, st.slots, now);
      SelectionSound(c, st, now);
      var due := SelectJobs(c, st.slots, JOBS, now);
      AdvanceMoves(st.slots, due);
      ReadsBack(c, State(Advance(st.slots, due), due));
    }
  }

  /** Over whole runs: once due has been called with nothing pending, at or after the anchor, every job has
      been selected for the slot that instant is in, or for a later one. */
  lemma DueCatchesUp(c: Config, calls: seq<Call>, now: int, job: Job)
    requires ValidConfig(c) && now >= c.anchor
    requires Read(c, PerformAll(c, calls).disk).Ok? && Read(c, PerformAll(c, calls).disk).value.pending == []
    ensures var h := HistoryOf(PerformAll(c, calls + [CallDue(now)]).history, job);
      h != [] && h[|h| - 1].slot.index >= (now - c.anchor) / c.cadences[job]
  {
    hide Read, Write, Sound, DueSpec, HistoryOf, OwedSelection, Moved, Accounted;
    var before, all := PerformAll(c, calls), calls + [CallDue(now)];
    assert all[..|all| - 1] == calls;
    RunsAreSound(c, all);
    DueExactly(c, before.disk, now);
    var run, st := PerformAll(c, all), Read(c, before.disk).value;
    var due := DueSpec(c, before.disk, now).0.value;
    assert run.disk == DueSpec(c, before.disk, now).1;
    var slots := Read(c, run.disk).value.slots;
    CaughtUp(c, st.slots, slots, now, due, job);
    LastSelected(c, slots, job, HistoryOf(run.history, job));
  }

  lemma LastSelected(c: Config, slots: map<Job, int>, job: Job, h: seq<Selected>)
    requires ValidConfig(c) && Accounted(c, slots, job, h) && job in slots
    ensures h != [] && h[|h| - 1].slot.index == slots[job]
  {
  }

  lemma CaughtUp(c: Config, before: map<Job, int>, after: map<Job, int>, now: int, due: seq<Slot>, job: Job)
    requires ValidConfig(c) && now >= c.anchor && OwedSelection(c, before, now, due)
    requires if due == [] then after == before else Moved(before, after, due)
    ensures job in after && after[job] >= (now - c.anchor) / c.cadences[job]
  {
    if Answers(due, job) {
      var i :| 0 <= i < |due| && due[i].job == job;
      assert OwedSlot(c, before, due[i], now);
    } else {
      assert !Owes(c, before, job, now);
      assert due != [] ==> SameCounter(after, before, job);
    }
  }

  // ---- reading ----

  /** The four names a file may use. */
  const NAMES: set<string> := {"MANAGEMENT", "UNIVERSE_DISCOVERY", "CANDIDATE_PROBE", "FULL_ENTRY"}

  /** A file the schedule takes for its own: schema, anchor, cadences and identity as configured; known jobs
      with counters that are not negative; and every pending slot the one its job's counter is at. */
  ghost predicate Acceptable(c: Config, f: File)
    requires ValidConfig(c)
  {
    && f.schema == "ibkr.autotrader.schedule/1" && f.anchor == c.anchor && f.identity == c.identity
    && f.cadences.Keys == NAMES
    && f.cadences["MANAGEMENT"] == c.cadences[Management] && f.cadences["UNIVERSE_DISCOVERY"] == c.cadences[Discovery]
    && f.cadences["CANDIDATE_PROBE"] == c.cadences[Probe] && f.cadences["FULL_ENTRY"] == c.cadences[EntryJob]
    && (forall name :: name in f.slots ==> name in NAMES && f.slots[name] >= 0)
    && (forall i :: 0 <= i < |f.pending| ==> PendingFits(f, f.pending[i]))
  }

  predicate PendingFits(f: File, p: PendingRecord) {
    p.job in NAMES && p.job in f.slots && f.slots[p.job] == p.slotIndex && p.slotIndex >= 0 && p.missedCount >= 0
  }

  lemma CadencesAre(c: Config, cadences: map<string, int>)
    requires ValidConfig(c)
    ensures cadences == NamedCadences(c) <==>
      && cadences.Keys == NAMES
      && cadences["MANAGEMENT"] == c.cadences[Management] && cadences["UNIVERSE_DISCOVERY"] == c.cadences[Discovery]
      && cadences["CANDIDATE_PROBE"] == c.cadences[Probe] && cadences["FULL_ENTRY"] == c.cadences[EntryJob]
  {
    assert NamedCadences(c).Keys == NAMES;
  }

  /** What the reader accepts, and what it makes of it: nothing for a missing file; the counters and pending
      slots of an acceptable one; and every other file is refused. */
  lemma ReadExactly(c: Config, disk: Disk)
    requires ValidConfig(c)
    ensures Read(c, disk).Ok? <==> disk.Absent? || (disk.Present? && Acceptable(c, disk.file))
    ensures disk.Absent? ==> Read(c, disk).value == State(map[], [])
    ensures disk.Present? && Read(c, disk).Ok? ==>
      var st := Read(c, disk).value;
      && (forall job: Job :: job in st.slots <==> JobName(job) in disk.file.slots)
      && (forall job: Job :: job in st.slots ==> st.slots[job] == disk.file.slots[JobName(job)])
      && |st.pending| == |disk.file.pending|
      && forall i :: 0 <= i < |st.pending| ==>
           var p := disk.file.pending[i];
           JobName(st.pending[i].job) == p.job && st.pending[i].index == p.slotIndex
           && st.pending[i].scheduledAt == p.scheduledAt && st.pending[i].missed == p.missedCount
  {
    if disk.Present? {
      CadencesAre(c, disk.file.cadences);
      ChecksAre(disk.file);
    }
  }

  lemma ChecksAre(f: File)
    ensures !UnknownSlot(f) && !NegativeSlot(f) <==>
      forall name :: name in f.slots ==> name in NAMES && f.slots[name] >= 0
    ensures !UnknownPending(f) && !NegativePending(f) && !MismatchedPending(f) <==>
      forall i :: 0 <= i < |f.pending| ==> PendingFits(f, f.pending[i])
  {
    if !UnknownPending(f) && !NegativePending(f) && !MismatchedPending(f) {
      forall i | 0 <= i < |f.pending| ensures PendingFits(f, f.pending[i]) {
        assert JobNameKnown(f.pending[i].job) && MatchesCounter(f.slots, f.pending[i]);
      }
    }
    if forall i :: 0 <= i < |f.pending| ==> PendingFits(f, f.pending[i]) {
      forall i | 0 <= i < |f.pending|
        ensures JobNameKnown(f.pending[i].job) && MatchesCounter(f.slots, f.pending[i])
      {
        assert PendingFits(f, f.pending[i]);
      }
    }
  }

  // ---- acknowledging and reconciling ----

  predicate NoneTwice(slots: seq<Slot>) {
    forall i, j :: 0 <= i < j < |slots| ==> slots[i] != slots[j]
  }

  lemma {:induction false} CountOf(slots: seq<Slot>, s: Slot)
    requires NoneTwice(slots)
    ensures multiset(slots)[s] == if s in slots then 1 else 0
  {
    if slots != [] {
      var rest := slots[1..];
      CountOf(rest, s);
      assert slots == [slots[0]] + rest;
    }
  }

  lemma SameSlots(pending: seq<Slot>, selected: seq<Slot>)
    requires NoneTwice(pending) && NoneTwice(selected) && forall s :: s in selected <==> s in pending
    ensures multiset(pending) == multiset(selected)
  {
    forall s ensures multiset(pending)[s] == multiset(selected)[s] {
      CountOf(pending, s);
      CountOf(selected, s);
    }
  }

  lemma SameMembers(pending: seq<Slot>, selected: seq<Slot>, s: Slot)
    requires multiset(pending) == multiset(selected)
    ensures s in selected <==> s in pending
  {
    assert s in selected <==> s in multiset(selected);
    assert s in pending <==> s in multiset(pending);
  }

  /** acknowledge, in full: accepted exactly when it names every pending slot once and nothing else, in any
      order; then nothing is pending and the counters stay. Otherwise the file is not touched. */
  lemma AcknowledgeExactly(c: Config, disk: Disk, selected: seq<Slot>)
    requires ValidConfig(c) && Read(c, disk).Ok? && Sound(Read(c, disk).value)
    ensures var (r, after) := AcknowledgeSpec(c, disk, selected);
      var st := Read(c, disk).value;
      && (r.Ok? <==> NoneTwice(selected) && forall s :: s in selected <==> s in st.pending)
      && (r.Ok? ==> Read(c, after) == Ok(State(st.slots, [])))
      && (r.Err? ==> after == disk && r.error == CadenceDrift)
  {
    hide Read, Write;
    var st := Read(c, disk).value;
    if NoneTwice(selected) {
      if forall s :: s in selected <==> s in st.pending {
        assert NoneTwice(st.pending) by {
          forall i, j | 0 <= i < j < |st.pending| ensures st.pending[i] != st.pending[j] {
            assert st.pending[i].job != st.pending[j].job;
          }
        }
        SameSlots(st.pending, selected);
      }
      if multiset(st.pending) == multiset(selected) {
        forall s ensures s in selected <==> s in st.pending {
          SameMembers(st.pending, selected, s);
        }
      }
    }
    ReadsBack(c, State(st.slots, []));
  }

  lemma {:induction false} WithoutConcat(a: seq<Slot>, b: seq<Slot>, skipped: seq<Slot>)
    ensures Without(a + b, skipped) == Without(a, skipped) + Without(b, skipped)
  {
    if a == [] {
      assert a + b == b;
    } else {
      assert (a + b)[1..] == a[1..] + b;
      WithoutConcat(a[1..], b, skipped);
    }
  }

  /** Same job and index as one of these. */
  predicate NamedIn(slot: Slot, slots: seq<Slot>) {
    exists i :: 0 <= i < |slots| && slots[i].job == slot.job && slots[i].index == slot.index
  }

  /** reconcile_pending, in full: a slot that is not pending is refused and the file not touched; otherwise
      exactly the named slots stop being pending, the counters stay, and a file is only written when
      something changed. */
  lemma ReconcileExactly(c: Config, disk: Disk, selection: Selection)
    requires ValidConfig(c) && Read(c, disk).Ok? && Sound(Read(c, disk).value)
    ensures var (r, after) := ReconcileSpec(c, disk, selection);
      var st := Read(c, disk).value;
      && (r.Ok? <==>
            selection.Everything?
            || forall i :: 0 <= i < |selection.slots| ==> NamedIn(selection.slots[i], st.pending))
      && (r.Err? ==> after == disk && r.error == CadenceDrift)
      && (r.Ok? ==>
            && Read(c, after).Ok? && Read(c, after).value.slots == st.slots
            && forall s :: s in Read(c, after).value.pending <==>
                 s in st.pending && selection.These? && !NamedIn(s, selection.slots))
  {
    hide Read, Write, Sound, Without;
    var st := Read(c, disk).value;
    if selection.These? {
      forall s ensures s in Without(st.pending, selection.slots) <==> s in st.pending && !NamedIn(s, selection.slots) {
        WithoutMembers(st.pending, selection.slots, s);
      }
      forall i | 0 <= i < |selection.slots|
        ensures NamedIn(selection.slots[i], st.pending) <==> KeyIn(selection.slots[i], st.pending)
      {
      }
      RemainingSound(st, selection.slots);
      ReadsBack(c, st.(pending := Without(st.pending, selection.slots)));
    } else {
      IdleSound(st);
      ReadsBack(c, st.(pending := []));
    }
  }

  lemma IdleSound(st: State)
    requires Sound(st)
    ensures Sound(st.(pending := []))
  {
  }
}
