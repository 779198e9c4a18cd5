/** Tick numbers strictly increase on every run exactly when the cadences allow it: with every window
    open, when each is a multiple of the fastest; with arbitrary windows, when all are equal. */
module TickIdsExactly {
  import opened Schedule
  import opened ScheduleProofs
  import opened TickIds

  /** The clock never goes back. */
  predicate InOrder(wakes: seq<Wake>) {
    wakes != [] ==> Monotone(wakes[0].now, wakes)
  }

  predicate EveryWindowOpen(wakes: seq<Wake>) {
    forall i :: 0 <= i < |wakes| ==> wakes[i].allowed == EVERY_JOB
  }

  predicate Fastest(c: Config, fast: Job)
    requires ValidConfig(c)
  {
    forall job: Job :: c.cadences[fast] <= c.cadences[job]
  }

  predicate AllEqual(c: Config)
    requires ValidConfig(c)
  {
    forall a: Job, b: Job :: c.cadences[a] == c.cadences[b]
  }

  function KeptAt(c: Config, slots: map<Job, int>, wake: Wake): seq<Slot>
    requires ValidConfig(c)
  {
    Allowed(SelectJobs(c, slots, JOBS, wake.now), wake.allowed)
  }

  /** The slots a tick is given are those of the jobs that are due and inside their window. */
  lemma KeptExactly(c: Config, slots: map<Job, int>, wake: Wake, slot: Slot)
    requires ValidConfig(c)
    ensures slot in KeptAt(c, slots, wake) <==>
      slot.job in wake.allowed && SelectJob(c, slots, slot.job, wake.now) == [slot]
  {
    hide SelectJob, SelectJobs, Allowed, OfJob;
    var due := SelectJobs(c, slots, JOBS, wake.now);
    JobsDistinct();
    SelectJobsOneEach(c, slots, JOBS, wake.now);
    SelectJobsOf(c, slots, JOBS, wake.now, slot.job);
    AllowedMembers(due, wake.allowed, slot);
    if slot in due { OfJobMember(due, slot); }
    if OfJob(due, slot.job) == [slot] { OfJobIn(due, slot); }
  }

  /** From counters in step with a clock, a due job's slot is the one the new instant is in. */
  lemma DueSlot(c: Config, slots: map<Job, int>, clock: int, job: Job, now: int)
    requires ValidConfig(c) && InStep(c, slots, clock) && clock <= now
    ensures var due := SelectJob(c, slots, job, now);
      && (due != [] <==> now >= c.anchor && (clock >= c.anchor ==> SlotIndex(c, job, clock) < SlotIndex(c, job, now)))
      && (due != [] ==> due == [due[0]] && due[0].job == job && due[0].index == SlotIndex(c, job, now))
  {
  }

  lemma ShorterCadenceCountsMore(a: int, small: int, large: int)
    requires a >= 0 && 0 < small <= large
    ensures a / large <= a / small
  {
    Euclid(a, large);
    var q := a / large;
    assert q * small <= q * large;
    AtLeast(a, q, small);
  }

  lemma TicksOfTwo(c: Config, first: Wake, second: Wake)
    requires ValidConfig(c)
    ensures var kept := KeptAt(c, map[], first);
      var slots := Advance(map[], SelectJobs(c, map[], JOBS, first.now));
      var later := KeptAt(c, slots, second);
      kept != [] && later != [] ==> Ticks(c, map[], [first, second]) == [TickNumber(kept), TickNumber(later)]
  {
    hide SelectJobs, Advance, Allowed, TickNumber;
    var slots := Advance(map[], SelectJobs(c, map[], JOBS, first.now));
    assert [first, second][1..] == [second];
    assert [second][1..] == [];
    assert Ticks(c, slots, [second]) ==
      (if KeptAt(c, slots, second) == [] then [] else [TickNumber(KeptAt(c, slots, second))]);
  }

  lemma TwoInOrder(first: Wake, second: Wake)
    requires first.now <= second.now
    ensures InOrder([first, second])
  {
    assert [first, second][1..] == [second] && [second][1..] == [];
    assert Monotone(first.now, [second]);
  }

  /** Two wake-ups whose second tick is named no later than its first: early has the first slot, due is
      due at the second, and nothing allowed there has got further than early had. */
  lemma SecondNoLater(c: Config, first: Wake, second: Wake, early: Job, due: Job)
    requires ValidConfig(c) && c.anchor <= first.now <= second.now
    requires early in first.allowed && due in second.allowed
    requires SlotIndex(c, due, first.now) < SlotIndex(c, due, second.now)
    requires forall job :: job in second.allowed ==> SlotIndex(c, job, second.now) <= SlotIndex(c, early, first.now)
    ensures InOrder([first, second]) && !StrictlyRising(Ticks(c, map[], [first, second]))
  {
    hide SelectJobs, SelectJob, Advance, Allowed, Ticks, SlotIndex;
    var slots := Advance(map[], SelectJobs(c, map[], JOBS, first.now));
    assert InStep(c, map[], c.anchor - 1);
    SelectionInStep(c, map[], c.anchor - 1, first.now);
    DueSlot(c, map[], c.anchor - 1, early, first.now);
    var kept, later := KeptAt(c, map[], first), KeptAt(c, slots, second);
    var one := SelectJob(c, map[], early, first.now)[0];
    KeptExactly(c, map[], first, one);
    DueSlot(c, slots, first.now, due, second.now);
    KeptExactly(c, slots, second, SelectJob(c, slots, due, second.now)[0]);
    TicksOfTwo(c, first, second);
    var i :| 0 <= i < |kept| && kept[i] == one;
    assert TickNumber(kept) >= SlotIndex(c, early, first.now);
    var j :| 0 <= j < |later| && later[j].index == TickNumber(later);
    KeptExactly(c, slots, second, later[j]);
    DueSlot(c, slots, first.now, later[j].job, second.now);
    TwoInOrder(first, second);
    var ids := Ticks(c, map[], [first, second]);
    assert ids[0] >= ids[1];
  }

  /** A cadence that is not a multiple of the fastest: at the fastest job's last slot before the other's
      first, and then at that first slot, all windows open, a number does not increase. */
  lemma UnevenFails(c: Config, fast: Job, slow: Job) returns (wakes: seq<Wake>)
    requires ValidConfig(c) && Fastest(c, fast) && c.cadences[slow] % c.cadences[fast] != 0
    ensures EveryWindowOpen(wakes) && InOrder(wakes) && !StrictlyRising(Ticks(c, map[], wakes))
  {
    var f, s := c.cadences[fast], c.cadences[slow];
    var q := s / f;
    Euclid(s, f);
    assert q * f < s;
    var first, second := Wake(c.anchor + q * f, EVERY_JOB), Wake(c.anchor + s, EVERY_JOB);
    wakes := [first, second];
    EveryJob(fast);
    EveryJob(slow);
    Below(q * f, 1, s);
    AtLeast(s, 1, s);
    AtLeast(q * f, q, f);
    forall job: Job ensures SlotIndex(c, job, second.now) <= SlotIndex(c, fast, first.now) {
      ShorterCadenceCountsMore(s, f, c.cadences[job]);
    }
    SecondNoLater(c, first, second, fast, slow);
  }

  /** With every window open, tick numbers strictly increase on every run of a clock that never goes
      back if and only if every cadence is a multiple of the fastest. */
  lemma IncreaseExactlyForMultiples(c: Config, fast: Job)
    requires ValidConfig(c) && Fastest(c, fast)
    ensures (forall wakes :: EveryWindowOpen(wakes) && InOrder(wakes) ==> StrictlyRising(Ticks(c, map[], wakes)))
       <==> EveryCadenceAMultipleOf(c, fast)
  {
    hide Ticks;
    if EveryCadenceAMultipleOf(c, fast) {
      forall wakes | EveryWindowOpen(wakes) && InOrder(wakes) ensures StrictlyRising(Ticks(c, map[], wakes)) {
        EveryJob(fast);
        TickNumbersIncrease(c, wakes, fast);
      }
    } else {
      var slow: Job :| c.cadences[slow] % c.cadences[fast] != 0;
      var wakes := UnevenFails(c, fast, slow);
    }
  }

  // ---- arbitrary windows ----

  /** Two different cadences: just before the slower's first slot only the quicker job's window is open,
      at that slot only the slower's. */
  lemma UnequalFails(c: Config, quick: Job, slow: Job) returns (wakes: seq<Wake>)
    requires ValidConfig(c) && c.cadences[quick] < c.cadences[slow]
    ensures InOrder(wakes) && !StrictlyRising(Ticks(c, map[], wakes))
  {
    var f, s := c.cadences[quick], c.cadences[slow];
    var first, second := Wake(c.anchor + s - 1, {quick}), Wake(c.anchor + s, {slow});
    wakes := [first, second];
    Below(s - 1, 1, s);
    AtLeast(s, 1, s);
    Below(s, 2, s);
    AtLeast(s - 1, 1, f);
    SecondNoLater(c, first, second, quick, slow);
  }

  /** With equal cadences whatever a tick is given is named by the common slot. */
  lemma EqualWake(c: Config, slots: map<Job, int>, clock: int, wake: Wake, job: Job)
    requires ValidConfig(c) && AllEqual(c) && InStep(c, slots, clock) && clock <= wake.now
    ensures var kept := KeptAt(c, slots, wake);
      var after := Advance(slots, SelectJobs(c, slots, JOBS, wake.now));
      && InStep(c, after, wake.now)
      && (job in slots ==> job in after && slots[job] <= after[job])
      && (kept != [] ==>
            job in after && TickNumber(kept) == after[job] >= 0 && (job in slots ==> slots[job] < after[job]))
  {
    hide SelectJobs, Advance, Allowed, TickNumber, SelectJob;
    SelectionInStep(c, slots, clock, wake.now);
    var kept := KeptAt(c, slots, wake);
    if kept != [] {
      var i :| 0 <= i < |kept| && kept[i].index == TickNumber(kept);
      KeptExactly(c, slots, wake, kept[i]);
      DueSlot(c, slots, clock, kept[i].job, wake.now);
    }
    if wake.now >= c.anchor { IndexBrackets(c, job, wake.now); }
    if clock >= c.anchor { DivisionMonotone(clock - c.anchor, wake.now - c.anchor, c.cadences[job]); }
  }

  lemma {:induction false} EqualTicksRise(c: Config, slots: map<Job, int>, clock: int, wakes: seq<Wake>, job: Job)
    requires ValidConfig(c) && AllEqual(c) && InStep(c, slots, clock) && Monotone(clock, wakes)
    ensures var ids := Ticks(c, slots, wakes);
      && StrictlyRising(ids)
      && (forall i :: 0 <= i < |ids| ==> ids[i] >= 0 && (job in slots ==> slots[job] < ids[i]))
    decreases |wakes|
  {
    hide SelectJobs, Advance, Allowed, TickNumber, InStep, ValidConfig, AllEqual;
    if wakes != [] {
      EqualWake(c, slots, clock, wakes[0], job);
      EqualTicksRise(c, Advance(slots, SelectJobs(c, slots, JOBS, wakes[0].now)), wakes[0].now, wakes[1..], job);
    }
  }

  /** Whatever the windows do, tick numbers strictly increase on every run of a clock that never goes
      back if and only if all cadences are equal. */
  lemma IncreaseExactlyForEqual(c: Config)
    requires ValidConfig(c)
    ensures (forall wakes :: InOrder(wakes) ==> StrictlyRising(Ticks(c, map[], wakes))) <==> AllEqual(c)
  {
    hide Ticks;
    if AllEqual(c) {
      forall wakes: seq<Wake> | InOrder(wakes) ensures StrictlyRising(Ticks(c, map[], wakes)) {
        if wakes != [] {
          var clock := if wakes[0].now < c.anchor then wakes[0].now else c.anchor - 1;
          EqualTicksRise(c, map[], clock, wakes, Management);
        } else {
          NoTicks(c);
        }
      }
    } else {
      var a: Job, b: Job :| c.cadences[a] != c.cadences[b];
      var wakes;
      if c.cadences[a] < c.cadences[b] { wakes := UnequalFails(c, a, b); } else { wakes := UnequalFails(c, b, a); }
    }
  }

  lemma NoTicks(c: Config)
    requires ValidConfig(c)
    ensures Ticks(c, map[], []) == []
  {
  }
}
