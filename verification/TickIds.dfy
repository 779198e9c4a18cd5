/** engine/src/engine/autocycle.py: a tick is named by the largest slot index among its jobs, whose
    cadences differ. When those names never repeat, and why each condition is needed. */
module TickIds {
  import opened Schedule
  import opened ScheduleProofs

  // One pass of the cycle loop that finds nothing pending: the clock it reads, and which jobs are
  // inside their window.
  datatype Wake = Wake(now: int, allowed: set<Job>)

  /** The number in the tick id: max(slot.slot_index). */
  function TickNumber(due: seq<Slot>): (r: int)
    requires due != []
    ensures exists i :: 0 <= i < |due| && due[i].index == r
    ensures forall i :: 0 <= i < |due| ==> due[i].index <= r
  {
    if |due| == 1 then due[0].index
    else
      var rest := TickNumber(due[1..]);
      assert forall i :: 1 <= i < |due| ==> due[i] == due[1..][i - 1];
      if due[0].index > rest then due[0].index else rest
  }

  /** The numbers of the ticks a run of wake-ups starts, from the durable counters. */
  function Ticks(c: Config, slots: map<Job, int>, wakes: seq<Wake>): seq<int>
    requires ValidConfig(c)
    decreases |wakes|
  {
    if wakes == [] then []
    else
      var due := SelectJobs(c, slots, JOBS, wakes[0].now);
      var kept := Allowed(due, wakes[0].allowed);
      (if kept == [] then [] else [TickNumber(kept)]) + Ticks(c, Advance(slots, due), wakes[1..])
  }

  predicate Monotone(from: int, wakes: seq<Wake>)
    decreases |wakes|
  {
    wakes == [] || (from <= wakes[0].now && Monotone(wakes[0].now, wakes[1..]))
  }

  predicate AlwaysAllowed(wakes: seq<Wake>, job: Job) {
    forall i :: 0 <= i < |wakes| ==> job in wakes[i].allowed
  }

  predicate EveryCadenceAMultipleOf(c: Config, fast: Job)
    requires ValidConfig(c)
  {
    forall job: Job :: c.cadences[job] % c.cadences[fast] == 0
  }

  predicate StrictlyRising(s: seq<int>) {
    forall i, j :: 0 <= i < j < |s| ==> s[i] < s[j]
  }

  /** The counters are where a clock at that instant would leave them. */
  ghost predicate InStep(c: Config, slots: map<Job, int>, clock: int)
    requires ValidConfig(c)
  {
    forall job: Job ::
      if clock < c.anchor then job !in slots else job in slots && slots[job] == SlotIndex(c, job, clock)
  }

  lemma Times(x: int, y: int, d: int)
    requires x <= y && d > 0
    ensures x * d <= y * d
  {
  }

  /** A quotient is at least k once the dividend is at least k times the divisor. */
  lemma QuotientAtLeast(b: int, q: int, k: int, d: int)
    requires d > 0 && q * d <= b < q * d + d && k * d <= b
    ensures k <= q
  {
    if q + 1 <= k {
      Times(q + 1, k, d);
    }
  }

  lemma AtLeast(b: int, k: int, d: int)
    requires b >= 0 && d > 0 && k * d <= b
    ensures k <= b / d
  {
    Euclid(b, d);
    QuotientAtLeast(b, b / d, k, d);
  }

  lemma Below(a: int, k: int, d: int)
    requires a >= 0 && d > 0 && a < k * d
    ensures a / d < k
  {
  }

  lemma DivisionMonotone(a: int, b: int, d: int)
    requires 0 <= a <= b && d > 0
    ensures a / d <= b / d
  {
    Euclid(a, d);
    AtLeast(b, a / d, d);
  }

  lemma MultipleOf(q: int, fine: int, coarse: int)
    requires fine > 0 && coarse > 0 && coarse % fine == 0
    ensures coarse / fine >= 1 && q * coarse == (q * (coarse / fine)) * fine
  {
  }

  lemma NextMultiple(a: int, b: int, coarse: int)
    requires 0 <= a && 0 <= b && coarse > 0 && a / coarse < b / coarse
    ensures a < (b / coarse) * coarse <= b
  {
    Euclid(a, coarse);
    Euclid(b, coarse);
    Times(a / coarse + 1, b / coarse, coarse);
  }

  lemma CoarseStepIsFineStep(a: int, b: int, fine: int, coarse: int)
    requires 0 <= a <= b && fine > 0 && coarse > 0 && coarse % fine == 0
    requires a / coarse < b / coarse
    ensures a / fine < b / fine
  {
    var q := b / coarse;
    NextMultiple(a, b, coarse);
    MultipleOf(q, fine, coarse);
    Below(a, q * (coarse / fine), fine);
    AtLeast(b, q * (coarse / fine), fine);
  }

  lemma FinerIndexIsLarger(a: int, fine: int, coarse: int)
    requires a >= 0 && fine > 0 && coarse > 0 && coarse % fine == 0
    ensures a / coarse <= a / fine
  {
    var q := a / coarse;
    Euclid(a, coarse);
    MultipleOf(q, fine, coarse);
    assert q * (coarse / fine) >= q;
    AtLeast(a, q * (coarse / fine), fine);
  }

  lemma SelectionInStep(c: Config, slots: map<Job, int>, clock: int, now: int)
    requires ValidConfig(c) && InStep(c, slots, clock) && clock <= now
    ensures InStep(c, Advance(slots, SelectJobs(c, slots, JOBS, now)), now)
  {
    hide SelectJobs, Advance;
    var due := SelectJobs(c, slots, JOBS, now);
    JobsDistinct();
    SelectJobsOneEach(c, slots, JOBS, now);
    var after := Advance(slots, due);
    forall job: Job
      ensures if now < c.anchor then job !in after else job in after && after[job] == SlotIndex(c, job, now)
    {
      SelectJobsOf(c, slots, JOBS, now, job);
      AdvanceAt(slots, due, job);
      SelectJobRight(c, slots, job, now);
      if clock >= c.anchor {
        DivisionMonotone(clock - c.anchor, now - c.anchor, c.cadences[job]);
      }
    }
  }

  /** If any job is selected then so is the fastest. */
  lemma FastestIsSelected(c: Config, slots: map<Job, int>, clock: int, now: int, fast: Job, job: Job)
    requires ValidConfig(c) && InStep(c, slots, clock) && clock <= now && EveryCadenceAMultipleOf(c, fast)
    requires SelectJob(c, slots, job, now) != []
    ensures SelectJob(c, slots, fast, now) != []
    ensures SelectJob(c, slots, fast, now)[0].index >= SelectJob(c, slots, job, now)[0].index
  {
    SelectJobRight(c, slots, job, now);
    SelectJobRight(c, slots, fast, now);
    if clock >= c.anchor {
      CoarseStepIsFineStep(clock - c.anchor, now - c.anchor, c.cadences[fast], c.cadences[job]);
    }
    FinerIndexIsLarger(now - c.anchor, c.cadences[fast], c.cadences[job]);
  }

  lemma OfJobIn(due: seq<Slot>, slot: Slot)
    requires OfJob(due, slot.job) == [slot]
    ensures slot in due
  {
    if due[0].job == slot.job {
      assert OfJob(due, slot.job)[0] == due[0];
    } else {
      assert OfJob(due, slot.job) == OfJob(due[1..], slot.job);
      OfJobIn(due[1..], slot);
    }
  }

  /** A tick started at a wake-up is named by the fastest job's slot. */
  lemma TickIsFastestSlot(c: Config, slots: map<Job, int>, clock: int, wake: Wake, fast: Job)
    requires ValidConfig(c) && InStep(c, slots, clock) && clock <= wake.now
    requires EveryCadenceAMultipleOf(c, fast) && fast in wake.allowed
    ensures var due := SelectJobs(c, slots, JOBS, wake.now);
      var kept := Allowed(due, wake.allowed);
      kept != [] ==>
        && wake.now >= c.anchor
        && TickNumber(kept) == SlotIndex(c, fast, wake.now)
        && (fast in slots ==> slots[fast] < TickNumber(kept))
  {
    var due := SelectJobs(c, slots, JOBS, wake.now);
    var kept := Allowed(due, wake.allowed);
    if kept != [] {
      JobsDistinct();
      SelectJobsOneEach(c, slots, JOBS, wake.now);
      forall i | 0 <= i < |kept|
        ensures SelectJob(c, slots, kept[i].job, wake.now) == [kept[i]]
      {
        AllowedMembers(due, wake.allowed, kept[i]);
        OfJobMember(due, kept[i]);
        SelectJobsOf(c, slots, JOBS, wake.now, kept[i].job);
      }
      FastestIsSelected(c, slots, clock, wake.now, fast, kept[0].job);
      SelectJobRight(c, slots, fast, wake.now);
      var quick := SelectJob(c, slots, fast, wake.now)[0];
      SelectJobsOf(c, slots, JOBS, wake.now, fast);
      assert OfJob(due, fast) == [quick];
      OfJobIn(due, quick);
      AllowedMembers(due, wake.allowed, quick);
      forall i | 0 <= i < |kept| ensures kept[i].index <= quick.index {
        FastestIsSelected(c, slots, clock, wake.now, fast, kept[i].job);
      }
      var k :| 0 <= k < |kept| && kept[k] == quick;
    }
  }

  /** One wake-up: the counters stay in step, and a tick started at it is named by the fastest job's
      new counter. */
  lemma WakeInStep(c: Config, slots: map<Job, int>, clock: int, wake: Wake, fast: Job)
    requires ValidConfig(c) && InStep(c, slots, clock) && clock <= wake.now
    requires EveryCadenceAMultipleOf(c, fast) && fast in wake.allowed
    ensures var due := SelectJobs(c, slots, JOBS, wake.now);
      var kept, after := Allowed(due, wake.allowed), Advance(slots, due);
      && InStep(c, after, wake.now)
      && (fast in slots ==> fast in after && slots[fast] <= after[fast])
      && (kept != [] ==>
            && fast in after && TickNumber(kept) == after[fast] >= 0
            && (fast in slots ==> slots[fast] < after[fast]))
  {
    hide SelectJobs, Advance, Allowed, TickNumber, EveryCadenceAMultipleOf;
    SelectionInStep(c, slots, clock, wake.now);
    TickIsFastestSlot(c, slots, clock, wake, fast);
    if wake.now >= c.anchor {
      IndexBrackets(c, fast, wake.now);
    }
    if clock >= c.anchor {
      DivisionMonotone(clock - c.anchor, wake.now - c.anchor, c.cadences[fast]);
    }
  }

  lemma {:induction false} TicksRise(c: Config, slots: map<Job, int>, clock: int, wakes: seq<Wake>, fast: Job)
    requires ValidConfig(c) && InStep(c, slots, clock) && Monotone(clock, wakes)
    requires EveryCadenceAMultipleOf(c, fast) && AlwaysAllowed(wakes, fast)
    ensures var ids := Ticks(c, slots, wakes);
      && StrictlyRising(ids)
      && (forall i :: 0 <= i < |ids| ==> ids[i] >= 0 && (fast in slots ==> slots[fast] < ids[i]))
    decreases |wakes|
  {
    hide SelectJobs, Advance, Allowed, TickNumber, EveryCadenceAMultipleOf, InStep, ValidConfig;
    if wakes != [] {
      var due := SelectJobs(c, slots, JOBS, wakes[0].now);
      WakeInStep(c, slots, clock, wakes[0], fast);
      TicksRise(c, Advance(slots, due), wakes[0].now, wakes[1..], fast);
    }
  }

  /** Within a session, from a schedule with no file yet: if the clock never goes back, every cadence
      is a multiple of the fastest, and the fastest job's window is never shut, then tick numbers
      strictly increase, so no two ticks share an id. */
  lemma {:induction false} TickNumbersIncrease(c: Config, wakes: seq<Wake>, fast: Job)
    requires ValidConfig(c) && EveryCadenceAMultipleOf(c, fast) && AlwaysAllowed(wakes, fast)
    requires wakes != [] ==> Monotone(wakes[0].now, wakes)
    ensures StrictlyRising(Ticks(c, map[], wakes))
  {
    if wakes != [] {
      var clock := if wakes[0].now < c.anchor then wakes[0].now else c.anchor - 1;
      TicksRise(c, map[], clock, wakes, fast);
    }
  }

  // ---- the conditions are needed ----

  const ALTERNATE := Config(0, map[Management := 1, Discovery := 2, Probe := 2, EntryJob := 2], Unbound)
  const UNEVEN := Config(0, map[Management := 2, Discovery := 3, Probe := 3, EntryJob := 3], Unbound)
  const EVERY_JOB: set<Job> := {Management, Discovery, Probe, EntryJob}

  lemma EveryJob(job: Job)
    ensures job in EVERY_JOB
  {
  }

  lemma ExamplesValid()
    ensures ValidConfig(ALTERNATE) && EveryCadenceAMultipleOf(ALTERNATE, Management)
    ensures ValidConfig(UNEVEN)
  {
    forall job: Job
      ensures job in ALTERNATE.cadences && ALTERNATE.cadences[job] > 0
      ensures ALTERNATE.cadences[job] % ALTERNATE.cadences[Management] == 0
      ensures job in UNEVEN.cadences && UNEVEN.cadences[job] > 0
    {
      EveryJob(job);
    }
  }

  lemma SelectFour(c: Config, slots: map<Job, int>, now: int)
    requires ValidConfig(c)
    ensures SelectJobs(c, slots, JOBS, now)
         == SelectJob(c, slots, Management, now) + (SelectJob(c, slots, Discovery, now)
          + (SelectJob(c, slots, Probe, now) + SelectJob(c, slots, EntryJob, now)))
  {
    hide SelectJob;
    assert JOBS[1..] == [Discovery, Probe, EntryJob];
    assert [Discovery, Probe, EntryJob][1..] == [Probe, EntryJob];
    assert [Probe, EntryJob][1..] == [EntryJob];
    assert [EntryJob][1..] == [];
    assert SelectJobs(c, slots, [EntryJob], now) == SelectJob(c, slots, EntryJob, now);
    assert SelectJobs(c, slots, [Probe, EntryJob], now)
        == SelectJob(c, slots, Probe, now) + SelectJob(c, slots, EntryJob, now);
    assert SelectJobs(c, slots, [Discovery, Probe, EntryJob], now)
        == SelectJob(c, slots, Discovery, now) + (SelectJob(c, slots, Probe, now) + SelectJob(c, slots, EntryJob, now));
  }

  lemma {:induction false} AllAllowed(due: seq<Slot>)
    ensures Allowed(due, EVERY_JOB) == due
  {
    if due != [] {
      AllAllowed(due[1..]);
      EveryJob(due[0].job);
      assert due == [due[0]] + due[1..];
    }
  }

  lemma OnlyEntryAllowed(m: Slot, d: Slot, p: Slot, e: Slot)
    requires m.job == Management && d.job == Discovery && p.job == Probe && e.job == EntryJob
    ensures Allowed([m, d, p, e], {EntryJob}) == [e]
  {
    assert [m, d, p, e][1..] == [d, p, e] && [d, p, e][1..] == [p, e] && [p, e][1..] == [e] && [e][1..] == [];
    assert Allowed([e], {EntryJob}) == [e];
    assert Allowed([p, e], {EntryJob}) == [e];
    assert Allowed([d, p, e], {EntryJob}) == [e];
  }

  lemma AdvanceFour(slots: map<Job, int>, m: Slot, d: Slot, p: Slot, e: Slot)
    ensures Advance(slots, [m, d, p, e])
         == slots[m.job := m.index][d.job := d.index][p.job := p.index][e.job := e.index]
  {
    assert [m, d, p, e][1..] == [d, p, e] && [d, p, e][1..] == [p, e] && [p, e][1..] == [e] && [e][1..] == [];
    var s1 := slots[m.job := m.index];
    var s2 := s1[d.job := d.index];
    var s3 := s2[p.job := p.index];
    assert Advance(s3, [e]) == s3[e.job := e.index];
    assert Advance(s2, [p, e]) == s2[p.job := p.index][e.job := e.index];
    assert Advance(s1, [d, p, e]) == Advance(s2, [p, e]);
  }

  lemma OneWake(c: Config, slots: map<Job, int>, wake: Wake, due: seq<Slot>, kept: seq<Slot>)
    requires ValidConfig(c)
    requires due == SelectJobs(c, slots, JOBS, wake.now) && kept == Allowed(due, wake.allowed) && kept != []
    ensures Ticks(c, slots, [wake]) == [TickNumber(kept)]
  {
  }

  lemma TwoWakes(c: Config, slots: map<Job, int>, first: Wake, second: Wake, due: seq<Slot>, kept: seq<Slot>)
    requires ValidConfig(c)
    requires due == SelectJobs(c, slots, JOBS, first.now) && kept == Allowed(due, first.allowed) && kept != []
    ensures Ticks(c, slots, [first, second]) == [TickNumber(kept)] + Ticks(c, Advance(slots, due), [second])
  {
  }

  const AFTER_TWO: map<Job, int> := map[Management := 2, Discovery := 1, Probe := 1, EntryJob := 1]

  lemma AlternateFirst()
    ensures ValidConfig(ALTERNATE) && EveryCadenceAMultipleOf(ALTERNATE, Management)
    ensures Ticks(ALTERNATE, map[], [Wake(2, EVERY_JOB), Wake(4, {EntryJob})])
         == [2] + Ticks(ALTERNATE, AFTER_TWO, [Wake(4, {EntryJob})])
  {
    ExamplesValid();
    var c := ALTERNATE;
    var m, d := Slot(Management, 2, 2, 0), Slot(Discovery, 1, 2, 0);
    var p, e := Slot(Probe, 1, 2, 0), Slot(EntryJob, 1, 2, 0);
    SelectFour(c, map[], 2);
    assert SelectJobs(c, map[], JOBS, 2) == [m, d, p, e];
    AllAllowed([m, d, p, e]);
    AdvanceFour(map[], m, d, p, e);
    TwoWakes(c, map[], Wake(2, EVERY_JOB), Wake(4, {EntryJob}), [m, d, p, e], [m, d, p, e]);
    assert [m, d, p, e][0].index == 2;
  }

  lemma AlternateSecond()
    ensures ValidConfig(ALTERNATE)
    ensures Ticks(ALTERNATE, AFTER_TWO, [Wake(4, {EntryJob})]) == [2]
  {
    ExamplesValid();
    var c := ALTERNATE;
    var m, d := Slot(Management, 4, 4, 1), Slot(Discovery, 2, 4, 0);
    var p, e := Slot(Probe, 2, 4, 0), Slot(EntryJob, 2, 4, 0);
    SelectFour(c, AFTER_TWO, 4);
    assert SelectJobs(c, AFTER_TWO, JOBS, 4) == [m, d, p, e];
    OnlyEntryAllowed(m, d, p, e);
    OneWake(c, AFTER_TWO, Wake(4, {EntryJob}), [m, d, p, e], [e]);
  }

  /** Shutting the fastest job's window lets a tick number come back. */
  lemma ShutWindowRepeatsANumber()
    ensures ValidConfig(ALTERNATE) && EveryCadenceAMultipleOf(ALTERNATE, Management)
    ensures Ticks(ALTERNATE, map[], [Wake(2, EVERY_JOB), Wake(4, {EntryJob})]) == [2, 2]
  {
    AlternateFirst();
    AlternateSecond();
  }

  const AFTER_ONE: map<Job, int> := map[Management := 1, Discovery := 0, Probe := 0, EntryJob := 0]

  lemma UnevenFirst()
    ensures ValidConfig(UNEVEN)
    ensures Ticks(UNEVEN, map[], [Wake(2, EVERY_JOB), Wake(3, EVERY_JOB)])
         == [1] + Ticks(UNEVEN, AFTER_ONE, [Wake(3, EVERY_JOB)])
  {
    ExamplesValid();
    var c := UNEVEN;
    var m, d := Slot(Management, 1, 2, 0), Slot(Discovery, 0, 0, 0);
    var p, e := Slot(Probe, 0, 0, 0), Slot(EntryJob, 0, 0, 0);
    SelectFour(c, map[], 2);
    assert SelectJobs(c, map[], JOBS, 2) == [m, d, p, e];
    AllAllowed([m, d, p, e]);
    AdvanceFour(map[], m, d, p, e);
    TwoWakes(c, map[], Wake(2, EVERY_JOB), Wake(3, EVERY_JOB), [m, d, p, e], [m, d, p, e]);
    assert [m, d, p, e][0].index == 1;
  }

  lemma UnevenSecond()
    ensures ValidConfig(UNEVEN)
    ensures Ticks(UNEVEN, AFTER_ONE, [Wake(3, EVERY_JOB)]) == [1]
  {
    ExamplesValid();
    var c := UNEVEN;
    var d, p, e := Slot(Discovery, 1, 3, 0), Slot(Probe, 1, 3, 0), Slot(EntryJob, 1, 3, 0);
    SelectFour(c, AFTER_ONE, 3);
    assert SelectJobs(c, AFTER_ONE, JOBS, 3) == [d, p, e];
    AllAllowed([d, p, e]);
    OneWake(c, AFTER_ONE, Wake(3, EVERY_JOB), [d, p, e], [d, p, e]);
  }

  /** So does a cadence that is not a multiple of the fastest. */
  lemma UnevenCadenceRepeatsANumber()
    ensures ValidConfig(UNEVEN)
    ensures Ticks(UNEVEN, map[], [Wake(2, EVERY_JOB), Wake(3, EVERY_JOB)]) == [1, 1]
  {
    UnevenFirst();
    UnevenSecond();
  }
}
