/** A time zone as a list of UTC transitions, local readings, and the two fold lookups of PEP 495
    (sections "Mind the DST Gap" and "In the DST Fold"). Times are whole microseconds. */
module Zones {
  // From instant at on, local time is UTC plus offset.
  datatype Transition = Transition(at: int, offset: int)

  datatype Zone = Zone(initial: int, transitions: seq<Transition>)

  function Max(a: int, b: int): int {
    if a < b then b else a
  }

  function Min(a: int, b: int): int {
    if a < b then a else b
  }

  /** The offset in force at a UTC instant: o before the first transition. */
  function OffsetAt(o: int, ts: seq<Transition>, u: int): int
    decreases |ts|
  {
    if ts == [] || u < ts[0].at then o else OffsetAt(ts[0].offset, ts[1..], u)
  }

  /** What a clock in the zone reads at a UTC instant. */
  function Local(z: Zone, u: int): int {
    u + OffsetAt(z.initial, z.transitions, u)
  }

  /** utcoffset of a local reading: a transition has happened, for fold=0, once the clock has passed
      the later of the two readings it jumps between, and for fold=1 once it has passed the earlier. */
  function FoldOffset(o: int, ts: seq<Transition>, wall: int, fold: bool): int
    decreases |ts|
  {
    if ts == [] || wall < ts[0].at + (if fold then Min(o, ts[0].offset) else Max(o, ts[0].offset)) then o
    else FoldOffset(ts[0].offset, ts[1..], wall, fold)
  }

  /** Transitions in order, each one's skipped or repeated readings over before the next's begin. */
  predicate Separated(o: int, ts: seq<Transition>)
    decreases |ts|
  {
    |ts| <= 1
    || (&& ts[0].at < ts[1].at
        && ts[0].at + Max(o, ts[0].offset) <= ts[1].at + Min(ts[0].offset, ts[1].offset)
        && Separated(ts[0].offset, ts[1..]))
  }

  predicate WellSeparated(z: Zone) {
    Separated(z.initial, z.transitions)
  }

  function FirstOffset(z: Zone, wall: int): int {
    FoldOffset(z.initial, z.transitions, wall, false)
  }

  function SecondOffset(z: Zone, wall: int): int {
    FoldOffset(z.initial, z.transitions, wall, true)
  }

  // ---- proofs, on the list of transitions ----

  function Reading(o: int, ts: seq<Transition>, u: int): int {
    u + OffsetAt(o, ts, u)
  }

  /** From the first transition on, the clock never reads less than the earlier of its two sides. */
  lemma {:induction false} ReadingFloor(o: int, ts: seq<Transition>, u: int)
    requires Separated(o, ts) && ts != [] && u >= ts[0].at
    ensures Reading(o, ts, u) >= ts[0].at + Min(o, ts[0].offset)
    ensures |ts| > 1 && u >= ts[1].at ==> Reading(o, ts, u) >= ts[0].at + Max(o, ts[0].offset)
    decreases |ts|
  {
    assert Reading(o, ts, u) == Reading(ts[0].offset, ts[1..], u);
    if |ts| > 1 && u >= ts[1].at {
      ReadingFloor(ts[0].offset, ts[1..], u);
    }
  }

  lemma {:induction false} BeforeNextWall(o: int, ts: seq<Transition>, wall: int, fold: bool)
    requires ts != [] ==> wall < ts[0].at + Min(o, ts[0].offset)
    ensures FoldOffset(o, ts, wall, fold) == o
  {
  }

  ghost predicate ReadsExactly(o: int, ts: seq<Transition>, wall: int, u: int) {
    var first, second := FoldOffset(o, ts, wall, false), FoldOffset(o, ts, wall, true);
    && (Reading(o, ts, u) == wall <==> first >= second && (u == wall - first || u == wall - second))
    && (first >= second && u < wall - first ==> Reading(o, ts, u) < wall)
  }

  /** The instants that read wall are the two the fold offsets give, and none when they are the
      wrong way round; before the first of them the clock reads less. */
  lemma {:induction false} InstantsReading(o: int, ts: seq<Transition>, wall: int, u: int)
    requires Separated(o, ts)
    ensures ReadsExactly(o, ts, wall, u)
    decreases |ts|
  {
    if ts != [] {
      var t, rest := ts[0], ts[1..];
      var lo, hi := t.at + Min(o, t.offset), t.at + Max(o, t.offset);
      if wall < lo {
        if u >= t.at { ReadingFloor(o, ts, u); }
      } else if wall < hi {
        BeforeNextWall(t.offset, rest, wall, true);
        if u >= t.at { ReadingFloor(o, ts, u); }
      } else {
        InstantsReading(t.offset, rest, wall, u);
        if u >= t.at {
          assert Reading(o, ts, u) == Reading(t.offset, rest, u);
        } else {
          assert Reading(t.offset, rest, u) == u + t.offset;
        }
      }
    }
  }

  /** Every fall back is at most back. */
  predicate FallsAtMost(o: int, ts: seq<Transition>, back: int)
    decreases |ts|
  {
    ts == [] || (o - ts[0].offset <= back && FallsAtMost(ts[0].offset, ts[1..], back))
  }

  lemma {:induction false} ReadingCeiling(o: int, ts: seq<Transition>, u: int, back: nat)
    requires Separated(o, ts) && FallsAtMost(o, ts, back)
    requires ts != [] && u >= ts[0].at
    ensures Reading(o, ts, u) >= ts[0].at + o - back
  {
    ReadingFloor(o, ts, u);
  }

  /** The clock never goes back further than its largest single fall. */
  lemma {:induction false} ReadingFalls(o: int, ts: seq<Transition>, u: int, v: int, back: nat)
    requires Separated(o, ts) && FallsAtMost(o, ts, back)
    requires u <= v
    ensures Reading(o, ts, v) >= Reading(o, ts, u) - back
    decreases |ts|
  {
    if ts != [] && v >= ts[0].at {
      if u >= ts[0].at {
        ReadingFalls(ts[0].offset, ts[1..], u, v, back);
      } else {
        ReadingCeiling(o, ts, v, back);
      }
    }
  }
}
