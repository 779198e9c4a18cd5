/** The schedule and the cycle worker together: where tick numbers increase, the ticks the worker starts
    have ids no earlier tick had, which is what the fence takes for granted of a selection. */
module CycleTicks {
  import opened Schedule
  import opened ScheduleProofs
  import opened Receipts
  import opened TickIds
  import opened TickIdsExactly
  import CycleWorker

  /** The counters after a run of wake-ups. */
  function SlotsAfter(c: Config, slots: map<Job, int>, wakes: seq<Wake>): map<Job, int>
    requires ValidConfig(c)
    decreases |wakes|
  {
    if wakes == [] then slots
    else SlotsAfter(c, Advance(slots, SelectJobs(c, slots, JOBS, wakes[0].now)), wakes[1..])
  }

  lemma {:induction false} TicksOfMore(c: Config, slots: map<Job, int>, wakes: seq<Wake>, next: Wake)
    requires ValidConfig(c)
    ensures var kept := KeptAt(c, SlotsAfter(c, slots, wakes), next);
      Ticks(c, slots, wakes + [next]) == Ticks(c, slots, wakes) + if kept == [] then [] else [TickNumber(kept)]
    decreases |wakes|
  {
    hide SelectJobs, Advance, Allowed, TickNumber;
    if wakes == [] {
      assert wakes + [next] == [next] && [next][1..] == [];
      assert Ticks(c, Advance(slots, SelectJobs(c, slots, JOBS, next.now)), []) == [];
    } else {
      assert (wakes + [next])[1..] == wakes[1..] + [next];
      TicksOfMore(c, Advance(slots, SelectJobs(c, slots, JOBS, wakes[0].now)), wakes[1..], next);
    }
  }

  /** The number of the next tick is none of those before it. */
  lemma NextNumberIsNew(c: Config, wakes: seq<Wake>, next: Wake, fast: Job)
    requires ValidConfig(c) && EveryCadenceAMultipleOf(c, fast) && AlwaysAllowed(wakes + [next], fast)
    requires InOrder(wakes + [next])
    ensures var kept := KeptAt(c, SlotsAfter(c, map[], wakes), next);
      kept != [] ==> TickNumber(kept) !in Ticks(c, map[], wakes)
  {
    hide Ticks, TickNumber, SlotsAfter, KeptAt;
    TickNumbersIncrease(c, wakes + [next], fast);
    TicksOfMore(c, map[], wakes, next);
    var kept := KeptAt(c, SlotsAfter(c, map[], wakes), next);
    var ids, all := Ticks(c, map[], wakes), Ticks(c, map[], wakes + [next]);
    if kept != [] {
      forall i | 0 <= i < |ids| ensures ids[i] != TickNumber(kept) {
        assert all[i] < all[|ids|];
      }
    }
  }

  /** A world whose ticks of this session were all started by these wake-ups. */
  ghost predicate StartedBy(w: CycleWorker.World, c: Config, wakes: seq<Wake>)
    requires ValidConfig(c)
  {
    forall n :: Seen(w.events, TickStarted, TickId(w.session, n)) ==> n in Ticks(c, map[], wakes)
  }

  lemma {:induction false} OrderedOpen(from: int, wakes: seq<Wake>, next: Wake)
    requires Monotone(from, wakes + [next])
    ensures Monotone(from, wakes + [Wake(next.now, EVERY_JOB)])
    decreases |wakes|
  {
    var open := Wake(next.now, EVERY_JOB);
    if wakes == [] {
      assert wakes + [next] == [next] && wakes + [open] == [open];
      assert [open][1..] == [];
    } else {
      assert (wakes + [next])[1..] == wakes[1..] + [next] && (wakes + [open])[1..] == wakes[1..] + [open];
      OrderedOpen(wakes[0].now, wakes[1..], next);
    }
  }

  /** So a selection of the schedule names fresh ticks, before and after its window is applied. */
  lemma SelectionsAreFresh(w: CycleWorker.World, c: Config, wakes: seq<Wake>, next: Wake, fast: Job)
    requires ValidConfig(c) && EveryCadenceAMultipleOf(c, fast) && AlwaysAllowed(wakes + [next], fast)
    requires InOrder(wakes + [next]) && StartedBy(w, c, wakes)
    ensures var slots := SlotsAfter(c, map[], wakes);
      && CycleWorker.FreshTick(w, KeptAt(c, slots, next))
      && CycleWorker.FreshTick(w, SelectJobs(c, slots, JOBS, next.now))
  {
    hide Ticks, TickNumber, SlotsAfter, SelectJobs, Allowed, EveryCadenceAMultipleOf, Seen;
    var slots, open := SlotsAfter(c, map[], wakes), Wake(next.now, EVERY_JOB);
    NextNumberIsNew(c, wakes, next, fast);
    EveryJob(fast);
    var all, opens := wakes + [next], wakes + [open];
    forall i | 0 <= i < |opens| ensures fast in opens[i].allowed {
      if i < |wakes| { assert opens[i] == all[i]; }
    }
    assert all[0].now == opens[0].now;
    OrderedOpen(all[0].now, wakes, next);
    NextNumberIsNew(c, wakes, open, fast);
    AllAllowed(SelectJobs(c, slots, JOBS, next.now));
  }
}
