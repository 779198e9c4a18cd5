/** engine/src/engine/autocycle.py, FixedRateSchedule: slots selected at fixed rates, kept in one
    file, with a pending list as the witness of a selection not yet acknowledged. Time is an
    integer in the unit of the cadences. */
module Schedule {
  const SCHEMA := "ibkr.autotrader.schedule/1"

  datatype Job = Management | Discovery | Probe | EntryJob

  const JOBS: seq<Job> := [Management, Discovery, Probe, EntryJob]

  function JobName(job: Job): string {
    match job
    case Management => "MANAGEMENT"
    case Discovery => "UNIVERSE_DISCOVERY"
    case Probe => "CANDIDATE_PROBE"
    case EntryJob => "FULL_ENTRY"
  }

  datatype Identity = Unbound | Bound(sessionId: string, leaseNonce: string, policyHash: string, catalogHash: string)

  datatype Config = Config(anchor: int, cadences: map<Job, int>, identity: Identity)

  /** What the constructor accepts: one positive cadence for every job. */
  predicate ValidConfig(c: Config) {
    forall job: Job :: job in c.cadences && c.cadences[job] > 0
  }

  datatype Slot = Slot(job: Job, index: int, scheduledAt: int, missed: int)

  datatype State = State(slots: map<Job, int>, pending: seq<Slot>)

  // The file: schedule.json as it is on disk. Names and numbers are unchecked until they are read.
  datatype PendingRecord = PendingRecord(job: string, slotIndex: int, scheduledAt: int, missedCount: int)

  datatype File = File(
    schema: string,
    anchor: int,
    identity: Identity,
    cadences: map<string, int>,
    slots: map<string, int>,
    pending: seq<PendingRecord>)

  datatype Disk = Absent | Unreadable | Present(file: File)

  datatype Error = RecoveryBlocked | CadenceDrift | StaleAuthority

  datatype Result<+T> = Ok(value: T) | Err(error: Error)

  // ---- reading ----

  function NamedCadences(c: Config): map<string, int>
    requires ValidConfig(c)
  {
    map["MANAGEMENT" := c.cadences[Management],
        "UNIVERSE_DISCOVERY" := c.cadences[Discovery],
        "CANDIDATE_PROBE" := c.cadences[Probe],
        "FULL_ENTRY" := c.cadences[EntryJob]]
  }

  function JobNamed(name: string): Job {
    if name == "MANAGEMENT" then Management
    else if name == "UNIVERSE_DISCOVERY" then Discovery
    else if name == "CANDIDATE_PROBE" then Probe
    else EntryJob
  }

  predicate JobNameKnown(name: string) {
    name == "MANAGEMENT" || name == "UNIVERSE_DISCOVERY" || name == "CANDIDATE_PROBE" || name == "FULL_ENTRY"
  }

  function ReadSlots(slots: map<string, int>): map<Job, int> {
    map job: Job | JobName(job) in slots :: slots[JobName(job)]
  }

  function ReadPending(records: seq<PendingRecord>): (r: seq<Slot>)
    ensures |r| == |records|
  {
    seq(|records|, i requires 0 <= i < |records| =>
      Slot(JobNamed(records[i].job), records[i].slotIndex, records[i].scheduledAt, records[i].missedCount))
  }

  predicate UnknownSlot(f: File) {
    exists name :: name in f.slots && !JobNameKnown(name)
  }

  predicate NegativeSlot(f: File) {
    exists name :: name in f.slots && f.slots[name] < 0
  }

  predicate UnknownPending(f: File) {
    exists i :: 0 <= i < |f.pending| && !JobNameKnown(f.pending[i].job)
  }

  predicate NegativePending(f: File) {
    exists i :: 0 <= i < |f.pending| && (f.pending[i].slotIndex < 0 || f.pending[i].missedCount < 0)
  }

  predicate MatchesCounter(slots: map<string, int>, record: PendingRecord) {
    record.job in slots && slots[record.job] == record.slotIndex
  }

  predicate MismatchedPending(f: File) {
    exists i :: 0 <= i < |f.pending| && !MatchesCounter(f.slots, f.pending[i])
  }

  /** Every check of _read, in its order. */
  function Read(c: Config, disk: Disk): Result<State>
    requires ValidConfig(c)
  {
    match disk
    case Absent => Ok(State(map[], []))
    case Unreadable => Err(RecoveryBlocked)
    case Present(f) =>
      if f.schema != SCHEMA || f.anchor != c.anchor || f.cadences != NamedCadences(c) then Err(CadenceDrift)
      else if f.identity != c.identity then Err(StaleAuthority)
      else if UnknownSlot(f) then Err(CadenceDrift)
      else if NegativeSlot(f) then Err(RecoveryBlocked)
      else if UnknownPending(f) then Err(CadenceDrift)
      else if NegativePending(f) then Err(RecoveryBlocked)
      else if MismatchedPending(f) then Err(RecoveryBlocked)
      else Ok(State(ReadSlots(f.slots), ReadPending(f.pending)))
  }

  // ---- writing ----

  function WriteSlots(slots: map<Job, int>): map<string, int> {
    map job: Job | job in slots :: JobName(job) := slots[job]
  }

  function WritePending(pending: seq<Slot>): (r: seq<PendingRecord>)
    ensures |r| == |pending|
  {
    seq(|pending|, i requires 0 <= i < |pending| =>
      PendingRecord(JobName(pending[i].job), pending[i].index, pending[i].scheduledAt, pending[i].missed))
  }

  function Write(c: Config, st: State): Disk
    requires ValidConfig(c)
  {
    Present(File(SCHEMA, c.anchor, c.identity, NamedCadences(c), WriteSlots(st.slots), WritePending(st.pending)))
  }

  // ---- selecting ----

  /** The slot a job is in at an instant, late or not. */
  function SlotIndex(c: Config, job: Job, now: int): int
    requires ValidConfig(c)
  {
    (now - c.anchor) / c.cadences[job]
  }

  /** What due appends for one job. */
  function SelectJob(c: Config, slots: map<Job, int>, job: Job, now: int): (due: seq<Slot>)
    requires ValidConfig(c)
    ensures |due| <= 1 && (due != [] ==> due[0].job == job)
  {
    if now < c.anchor then []
    else
      var index := SlotIndex(c, job, now);
      if job in slots && index <= slots[job] then []
      else
        var missed := if job !in slots then 0 else if index - slots[job] - 1 > 0 then index - slots[job] - 1 else 0;
        [Slot(job, index, c.anchor + index * c.cadences[job], missed)]
  }

  function SelectJobs(c: Config, slots: map<Job, int>, jobs: seq<Job>, now: int): seq<Slot>
    requires ValidConfig(c)
  {
    if jobs == [] then [] else SelectJob(c, slots, jobs[0], now) + SelectJobs(c, slots, jobs[1..], now)
  }

  /** The counters after a selection. */
  function Advance(slots: map<Job, int>, due: seq<Slot>): map<Job, int>
    decreases |due|
  {
    if due == [] then slots else Advance(slots[due[0].job := due[0].index], due[1..])
  }

  function DueSpec(c: Config, disk: Disk, now: int): (Result<seq<Slot>>, Disk)
    requires ValidConfig(c)
  {
    var st := Read(c, disk);
    if st.Err? then (Err(st.error), disk)
    else if st.value.pending != [] then (Ok([]), disk)
    else
      var due := SelectJobs(c, st.value.slots, JOBS, now);
      if due == [] then (Ok([]), disk)
      else (Ok(due), Write(c, State(Advance(st.value.slots, due), due)))
  }

  // ---- acknowledging and reconciling ----

  /** The comparison of acknowledge: the same slots in any order, none given twice. */
  predicate SameSelection(pending: seq<Slot>, selected: seq<Slot>) {
    (forall i, j :: 0 <= i < j < |selected| ==> selected[i] != selected[j]) && multiset(pending) == multiset(selected)
  }

  function AcknowledgeSpec(c: Config, disk: Disk, selected: seq<Slot>): (Result<()>, Disk)
    requires ValidConfig(c)
  {
    var st := Read(c, disk);
    if st.Err? then (Err(st.error), disk)
    else if !SameSelection(st.value.pending, selected) then (Err(CadenceDrift), disk)
    else (Ok(()), Write(c, st.value.(pending := [])))
  }

  predicate KeyIn(slot: Slot, slots: seq<Slot>) {
    exists i :: 0 <= i < |slots| && slots[i].job == slot.job && slots[i].index == slot.index
  }

  function Without(pending: seq<Slot>, skipped: seq<Slot>): seq<Slot> {
    if pending == [] then []
    else (if KeyIn(pending[0], skipped) then [] else [pending[0]]) + Without(pending[1..], skipped)
  }

  datatype Selection = Everything | These(slots: seq<Slot>)

  /** Some slot named is not pending. */
  predicate NamesAnother(slots: seq<Slot>, pending: seq<Slot>) {
    exists i :: 0 <= i < |slots| && !KeyIn(slots[i], pending)
  }

  function ReconcileSpec(c: Config, disk: Disk, selection: Selection): (Result<()>, Disk)
    requires ValidConfig(c)
  {
    var st := Read(c, disk);
    if st.Err? then (Err(st.error), disk)
    else if selection.These? && NamesAnother(selection.slots, st.value.pending) then
      (Err(CadenceDrift), disk)
    else
      var remaining := if selection.Everything? then [] else Without(st.value.pending, selection.slots);
      (Ok(()), if remaining == st.value.pending then disk else Write(c, st.value.(pending := remaining)))
  }

  /** The loop of due over the jobs, in declaration order. */
  method SelectSlots(c: Config, jobs: seq<Job>, start: map<Job, int>, now: int)
    returns (slots: map<Job, int>, due: seq<Slot>)
    requires ValidConfig(c)
    requires forall i, j :: 0 <= i < j < |jobs| ==> jobs[i] != jobs[j]
    ensures due == SelectJobs(c, start, jobs, now) && slots == Advance(start, due)
  {
    hide SelectedSoFar;
    slots, due := start, [];
    assert SelectedSoFar(c, jobs, 0, start, slots, due, now) by { NoneSelected(c, jobs, start, now); }
    for k := 0 to |jobs|
      invariant SelectedSoFar(c, jobs, k, start, slots, due, now)
    {
      var job := jobs[k];
      var chosen := SelectJob(c, slots, job, now);
      SelectOne(c, jobs, k, start, slots, due, now);
      if chosen != [] {
        slots := slots[job := chosen[0].index];
      }
      due := due + chosen;
    }
    AllSelected(c, jobs, start, slots, due, now);
  }

  /** The loop after k jobs: the rest is still to be selected, from counters it has not touched. */
  ghost predicate SelectedSoFar(c: Config, jobs: seq<Job>, k: int, start: map<Job, int>, slots: map<Job, int>,
                                due: seq<Slot>, now: int)
    requires ValidConfig(c)
  {
    && 0 <= k <= |jobs|
    && SelectJobs(c, start, jobs, now) == due + SelectJobs(c, start, jobs[k..], now)
    && slots == Advance(start, due)
    && forall i :: k <= i < |jobs| ==> SameCounter(slots, start, jobs[i])
  }

  predicate SameCounter(a: map<Job, int>, b: map<Job, int>, job: Job) {
    (job in a <==> job in b) && (job in a ==> a[job] == b[job])
  }

  lemma NoneSelected(c: Config, jobs: seq<Job>, start: map<Job, int>, now: int)
    requires ValidConfig(c)
    ensures SelectedSoFar(c, jobs, 0, start, start, [], now)
  {
  }

  lemma AllSelected(c: Config, jobs: seq<Job>, start: map<Job, int>, slots: map<Job, int>, due: seq<Slot>, now: int)
    requires ValidConfig(c) && SelectedSoFar(c, jobs, |jobs|, start, slots, due, now)
    ensures due == SelectJobs(c, start, jobs, now) && slots == Advance(start, due)
  {
  }

  lemma SelectOne(c: Config, jobs: seq<Job>, k: nat, start: map<Job, int>, slots: map<Job, int>, due: seq<Slot>,
                  now: int)
    requires ValidConfig(c) && k < |jobs| && SelectedSoFar(c, jobs, k, start, slots, due, now)
    requires forall i, j :: 0 <= i < j < |jobs| ==> jobs[i] != jobs[j]
    ensures var chosen := SelectJob(c, slots, jobs[k], now);
      SelectedSoFar(c, jobs, k + 1, start, if chosen == [] then slots else slots[jobs[k] := chosen[0].index],
                    due + chosen, now)
  {
    hide SelectJob, Advance;
    assert jobs[k..][0] == jobs[k] && jobs[k..][1..] == jobs[k + 1..];
    SelectJobLocal(c, slots, start, jobs[k], now);
    var chosen := SelectJob(c, slots, jobs[k], now);
    if chosen == [] {
      assert due + chosen == due;
    } else {
      AtMostOne(c, slots, jobs[k], now);
      AdvanceAppend(start, due, chosen[0]);
    }
  }

  lemma AtMostOne(c: Config, slots: map<Job, int>, job: Job, now: int)
    requires ValidConfig(c)
    ensures var chosen := SelectJob(c, slots, job, now); chosen != [] ==> chosen == [chosen[0]] && chosen[0].job == job
  {
  }

  lemma SelectJobLocal(c: Config, slots: map<Job, int>, start: map<Job, int>, job: Job, now: int)
    requires ValidConfig(c)
    requires (job in slots <==> job in start) && (job in start ==> slots[job] == start[job])
    ensures SelectJob(c, slots, job, now) == SelectJob(c, start, job, now)
  {
  }

  lemma WithoutFrom(pending: seq<Slot>, skipped: seq<Slot>, i: nat)
    requires i < |pending|
    ensures Without(pending[i..], skipped) ==
      (if KeyIn(pending[i], skipped) then [] else [pending[i]]) + Without(pending[i + 1..], skipped)
  {
    assert pending[i..][1..] == pending[i + 1..];
  }

  method Remaining(pending: seq<Slot>, skipped: seq<Slot>) returns (remaining: seq<Slot>)
    ensures remaining == Without(pending, skipped)
  {
    hide Without, KeyIn;
    remaining := [];
    assert pending[0..] == pending;
    for i := 0 to |pending|
      invariant Without(pending, skipped) == remaining + Without(pending[i..], skipped)
    {
      WithoutFrom(pending, skipped, i);
      if !KeyIn(pending[i], skipped) {
        remaining := remaining + [pending[i]];
      }
    }
    assert pending[|pending|..] == [];
    assert Without([], skipped) == [] by { WithoutNone(skipped); }
  }

  lemma WithoutNone(skipped: seq<Slot>)
    ensures Without([], skipped) == []
  {
  }

  /** The object: its configuration, and the file it rereads on every call. */
  class FixedRateSchedule {
    const config: Config
    var disk: Disk

    constructor (config: Config, disk: Disk)
      requires ValidConfig(config)
      ensures this.config == config && this.disk == disk
    {
      this.config := config;
      this.disk := disk;
    }

    method Due(now: int) returns (r: Result<seq<Slot>>)
      requires ValidConfig(config)
      modifies this
      ensures (r, disk) == DueSpec(config, old(disk), now)
    {
      var st := Read(config, disk);
      if st.Err? {
        return Err(st.error);
      }
      if st.value.pending != [] {
        return Ok([]);
      }
      var slots, due := SelectSlots(config, JOBS, st.value.slots, now);
      if due != [] {
        disk := Write(config, State(slots, due));
      }
      r := Ok(due);
    }

    method PendingSlots() returns (r: Result<seq<Slot>>)
      requires ValidConfig(config)
      ensures r == var st := Read(config, disk); if st.Err? then Err(st.error) else Ok(st.value.pending)
    {
      var st := Read(config, disk);
      r := if st.Err? then Err(st.error) else Ok(st.value.pending);
    }

    method Acknowledge(selected: seq<Slot>) returns (r: Result<()>)
      requires ValidConfig(config)
      modifies this
      ensures (r, disk) == AcknowledgeSpec(config, old(disk), selected)
    {
      var st := Read(config, disk);
      if st.Err? {
        return Err(st.error);
      }
      if !SameSelection(st.value.pending, selected) {
        return Err(CadenceDrift);
      }
      disk := Write(config, st.value.(pending := []));
      r := Ok(());
    }

    method ReconcilePending(selection: Selection) returns (r: Result<()>)
      requires ValidConfig(config)
      modifies this
      ensures (r, disk) == ReconcileSpec(config, old(disk), selection)
    {
      var st := Read(config, disk);
      if st.Err? {
        return Err(st.error);
      }
      var remaining: seq<Slot> := [];
      if selection.These? {
        for i := 0 to |selection.slots|
          invariant disk == old(disk)
          invariant forall k :: 0 <= k < i ==> KeyIn(selection.slots[k], st.value.pending)
        {
          if !KeyIn(selection.slots[i], st.value.pending) {
            return Err(CadenceDrift);
          }
        }
        remaining := Remaining(st.value.pending, selection.slots);
      }
      if remaining != st.value.pending {
        disk := Write(config, st.value.(pending := remaining));
      }
      r := Ok(());
    }
  }

  lemma {:induction false} AdvanceAppend(slots: map<Job, int>, due: seq<Slot>, slot: Slot)
    ensures Advance(slots, due + [slot]) == Advance(slots, due)[slot.job := slot.index]
    decreases |due|
  {
    if due == [] {
      assert [slot][1..] == [];
    } else {
      assert (due + [slot])[1..] == due[1..] + [slot];
      AdvanceAppend(slots[due[0].job := due[0].index], due[1..], slot);
    }
  }
}
