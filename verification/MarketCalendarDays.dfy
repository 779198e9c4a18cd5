/** Which days trade and between which instants, from the calendar's own lists and the local clock. */
module MarketCalendarDays {
  import opened Wrappers
  import opened Zones
  import opened MarketCalendar
  import opened MarketCalendarProofs

  /** Neither a weekend day, by date.weekday(), nor a listed holiday. */
  predicate TradingDay(c: Calendar, day: int) {
    (day + 3) % 7 !in c.weekendDays && day !in c.holidays
  }

  /** The date has an early close of its own. */
  predicate Shortened(c: Calendar, day: int) {
    exists i :: 0 <= i < |c.earlyCloses| && c.earlyCloses[i].day == day
  }

  /** The time the date's session ends on the wall clock: its early close, or the regular one. */
  predicate ClosesAtWall(c: Calendar, day: int, wall: int) {
    if Shortened(c, day) then
      exists i :: 0 <= i < |c.earlyCloses| && c.earlyCloses[i].day == day && wall == c.earlyCloses[i].closesAt
    else wall == c.closesAt
  }

  /** The first instant at which the zone's clock reads this. */
  ghost predicate FirstReads(z: Zone, at: int, reading: int) {
    Local(z, at) == reading && forall u :: u < at ==> Local(z, u) != reading
  }

  /** The first instants of the date's opening and closing times. */
  ghost predicate Spans(c: Calendar, day: int, wall: int, opens: int, closes: int) {
    FirstReads(c.zone, opens, day * DAY + c.opensAt) && FirstReads(c.zone, closes, day * DAY + wall)
  }

  ghost predicate NeverReads(z: Zone, reading: int) {
    forall u :: Local(z, u) != reading
  }

  lemma {:induction false} EarlyCloseFound(entries: seq<EarlyCloseEntry>, day: int, i: nat)
    requires forall i, j :: 0 <= i < j < |entries| ==> entries[i].day != entries[j].day
    requires i < |entries| && entries[i].day == day
    ensures EarlyCloseOn(entries, day) == Some(entries[i].closesAt)
  {
    if i > 0 {
      assert entries[0].day != entries[i].day;
      EarlyCloseFound(entries[1..], day, i - 1);
    }
  }

  lemma {:induction false} EarlyCloseMissing(entries: seq<EarlyCloseEntry>, day: int)
    requires forall i :: 0 <= i < |entries| ==> entries[i].day != day
    ensures EarlyCloseOn(entries, day) == None
  {
    if entries != [] {
      EarlyCloseMissing(entries[1..], day);
    }
  }

  lemma ClosingWallRead(c: Calendar, day: int, wall: int)
    requires Valid(c) && ClosesAtWall(c, day, wall)
    ensures ClosingWall(c, day) == wall && (EarlyCloseOn(c.earlyCloses, day).Some? <==> Shortened(c, day))
    ensures Shortened(c, day) ==> TradingDay(c, day)
    ensures c.opensAt < wall < DAY
  {
    hide EarlyCloseOn;
    if Shortened(c, day) {
      var i :| 0 <= i < |c.earlyCloses| && c.earlyCloses[i].day == day && wall == c.earlyCloses[i].closesAt;
      EarlyCloseFound(c.earlyCloses, day, i);
      assert ValidEarlyClose(c, c.earlyCloses[i]);
    } else {
      EarlyCloseMissing(c.earlyCloses, day);
    }
  }

  /** Later on the wall is later in time: two readings first reached come in their own order. */
  lemma EdgesInOrder(z: Zone, a: int, b: int, first: int, second: int)
    requires Local(z, a) == first && (forall u :: u < a ==> Local(z, u) < first)
    requires Local(z, b) == second && first < second
    ensures a < b
  {
  }

  /** The session of a date, for every date: none exactly when it is not a trading day; refused exactly when
      the clock never reads one of its two edges; and otherwise it runs from the first instant that reads the
      opening time to the first that reads the closing time. The refusal of a collapsed session is never
      reached. */
  lemma SessionExactly(c: Calendar, day: int, wall: int)
    requires Valid(c) && WellSeparated(c.zone) && ClosesAtWall(c, day, wall)
    ensures SessionOn(c, day) == Answer(None) <==> !TradingDay(c, day)
    ensures SessionOn(c, day).Refused? <==>
      TradingDay(c, day) && (NeverReads(c.zone, day * DAY + c.opensAt) || NeverReads(c.zone, day * DAY + wall))
    ensures SessionOn(c, day).Answer? && SessionOn(c, day).value.Some? ==>
      var s := SessionOn(c, day).value.value;
      && s.day == day && s.kind == (if Shortened(c, day) then EarlyClose else Trading)
      && Spans(c, day, wall, s.opensAt, s.closesAt) && s.opensAt < s.closesAt
  {
    hide EarlyCloseOn, Local, Shortened, Resolve, ClosesAtWall;
    ClosingWallRead(c, day, wall);
    ResolveIsEarliest(c, day, c.opensAt);
    ResolveIsEarliest(c, day, wall);
    var opens, closes := Resolve(c, day, c.opensAt), Resolve(c, day, wall);
    if opens.Answer? && closes.Answer? {
      EdgesInOrder(c.zone, opens.value, closes.value, day * DAY + c.opensAt, day * DAY + wall);
    }
  }

  lemma DateHolds(reading: int, day: int)
    requires day * DAY <= reading < (day + 1) * DAY
    ensures reading / DAY == day
  {
  }

  lemma FirstReadsOnce(z: Zone, a: int, b: int, reading: int)
    requires FirstReads(z, a, reading) && FirstReads(z, b, reading)
    ensures a == b
  {
  }

  /** What is_open answers, for every accepted calendar and every instant: yes if and only if the local date
      is a trading day and the instant is at or after the first one that reads its opening time and before the
      first that reads its closing time; refused if and only if the date is a trading day and the clock never
      reads one of the two. */
  lemma IsOpenExactly(c: Calendar, t: int, day: int, wall: int)
    requires Valid(c) && WellSeparated(c.zone) && ClosesAtWall(c, day, wall)
    requires day * DAY <= Local(c.zone, t) < (day + 1) * DAY
    ensures IsOpen(c, t) == Answer(true) <==>
      TradingDay(c, day) && exists opens, closes :: Spans(c, day, wall, opens, closes) && opens <= t < closes
    ensures IsOpen(c, t).Refused? <==>
      TradingDay(c, day) && (NeverReads(c.zone, day * DAY + c.opensAt) || NeverReads(c.zone, day * DAY + wall))
  {
    hide SessionOn, FirstReads, NeverReads, ClosesAtWall, Local, TradingDay;
    SessionExactly(c, day, wall);
    DateHolds(Local(c.zone, t), day);
    var r := SessionOn(c, day);
    if TradingDay(c, day) && r.Answer? {
      var s := r.value.value;
      if opens, closes :| Spans(c, day, wall, opens, closes) && opens <= t < closes {
        FirstReadsOnce(c.zone, opens, s.opensAt, day * DAY + c.opensAt);
        FirstReadsOnce(c.zone, closes, s.closesAt, day * DAY + wall);
      }
    } else if TradingDay(c, day) {
      forall opens, closes ensures !Spans(c, day, wall, opens, closes) {
        ReadSometime(c.zone, opens, day * DAY + c.opensAt);
        ReadSometime(c.zone, closes, day * DAY + wall);
      }
    }
  }

  lemma ReadSometime(z: Zone, at: int, reading: int)
    ensures FirstReads(z, at, reading) ==> !NeverReads(z, reading)
  {
  }

  /** Every date has one closing time, so the lemmas above speak of every instant. */
  lemma EveryDateCloses(c: Calendar, day: int) returns (wall: int)
    requires Valid(c)
    ensures ClosesAtWall(c, day, wall) && forall other :: ClosesAtWall(c, day, other) ==> other == wall
  {
    if Shortened(c, day) {
      var i :| 0 <= i < |c.earlyCloses| && c.earlyCloses[i].day == day;
      wall := c.earlyCloses[i].closesAt;
    } else {
      wall := c.closesAt;
    }
    forall other | ClosesAtWall(c, day, other) ensures other == wall {
      ClosingWallRead(c, day, other);
      ClosingWallRead(c, day, wall);
    }
  }

  /** The k-th date from here is where the search gives up: a year's worth of dates has been passed over,
      or that date is refused. */
  ghost predicate SearchEnds(c: Calendar, t: int, day: int, k: nat) {
    && k <= 367 && (k < 367 ==> SessionOn(c, day + k).Refused?)
    && forall j :: day <= j < day + k ==>
         SessionOn(c, j).Answer? && (SessionOn(c, j).value.Some? ==> SessionOn(c, j).value.value.opensAt <= t)
  }

  /** When next_boundary refuses: today is refused, or nothing is trading and no session opens later within
      the dates it may look at. */
  lemma NextBoundaryRefuses(c: Calendar, t: int, day: int)
    requires day * DAY <= Local(c.zone, t) < (day + 1) * DAY
    ensures NextBoundary(c, t).Refused? <==>
      IsOpen(c, t).Refused? || (IsOpen(c, t) == Answer(false) && exists k: nat :: SearchEnds(c, t, day, k))
  {
    hide SessionOn, ScanFrom;
    DateHolds(Local(c.zone, t), day);
    var left := MAX_SESSION_SEARCH_DAYS + 1;
    ScanRefuses(c, t, day, left);
    if k: nat :| StopsAt(c, t, day, left, k) {
      forall j | day <= j < day + k
        ensures SessionOn(c, j).Answer? && (SessionOn(c, j).value.Some? ==> SessionOn(c, j).value.value.opensAt <= t)
      {
        assert Passed(c, t, j);
      }
      assert SearchEnds(c, t, day, k);
    }
    if k: nat :| SearchEnds(c, t, day, k) {
      assert StopsAt(c, t, day, left, k);
    }
  }

  /** The boundary it answers is an edge of the session it names: the close of the one trading now, or the
      open of the next. */
  lemma BoundaryIsAnEdge(c: Calendar, t: int)
    requires NextBoundary(c, t).Answer?
    ensures var b := NextBoundary(c, t).value;
      && SessionOn(c, b.session.day) == Answer(Some(b.session))
      && (IsOpen(c, t) == Answer(true) ==> b.kind == Close && b.at == b.session.closesAt && b.session.Contains(t))
      && (IsOpen(c, t) == Answer(false) ==> b.kind == Open && b.at == b.session.opensAt > t)
  {
    hide SessionOn;
    SessionDay(c, LocalDate(c, t));
    if !CurrentSession(c, t).value.Some? {
      ScanFinds(c, t, LocalDate(c, t), MAX_SESSION_SEARCH_DAYS + 1);
    }
  }

  // ---- the local clock ----

  lemma {:induction false} OffsetAtIs(o: int, ts: seq<Transition>, u: int, i: nat)
    requires i < |ts| && ts[i].at <= u && (i + 1 < |ts| ==> u < ts[i + 1].at)
    requires forall j :: 0 <= j < i ==> ts[j].at <= ts[j + 1].at
    ensures OffsetAt(o, ts, u) == ts[i].offset
    decreases i
  {
    if i > 0 {
      FirstIsEarliest(ts, i);
      OffsetAtIs(ts[0].offset, ts[1..], u, i - 1);
    }
  }

  lemma {:induction false} FirstIsEarliest(ts: seq<Transition>, i: nat)
    requires i < |ts| && forall j :: 0 <= j < i ==> ts[j].at <= ts[j + 1].at
    ensures ts[0].at <= ts[i].at
  {
    if i > 0 { FirstIsEarliest(ts, i - 1); }
  }

  lemma {:induction false} SeparatedRise(o: int, ts: seq<Transition>, j: nat)
    requires Separated(o, ts) && j + 1 < |ts|
    ensures ts[j].at < ts[j + 1].at
    decreases j
  {
    if j > 0 { SeparatedRise(ts[0].offset, ts[1..], j - 1); }
  }

  /** The i-th transition is the last at or before the instant. */
  predicate LastAt(z: Zone, u: int, i: int) {
    && 0 <= i < |z.transitions| && z.transitions[i].at <= u
    && (i + 1 < |z.transitions| ==> u < z.transitions[i + 1].at)
  }

  /** What the local clock reads: the instant plus the offset of the last transition at or before it, or the
      initial offset before them all. */
  lemma LocalExactly(z: Zone, u: int)
    requires WellSeparated(z)
    ensures forall i :: LastAt(z, u, i) ==> Local(z, u) == u + z.transitions[i].offset
    ensures z.transitions == [] || u < z.transitions[0].at ==> Local(z, u) == u + z.initial
  {
    forall j: nat | j + 1 < |z.transitions| ensures z.transitions[j].at < z.transitions[j + 1].at {
      SeparatedRise(z.initial, z.transitions, j);
    }
    forall i | LastAt(z, u, i)
      ensures Local(z, u) == u + z.transitions[i].offset
    {
      OffsetAtIs(z.initial, z.transitions, u, i);
    }
  }
}
