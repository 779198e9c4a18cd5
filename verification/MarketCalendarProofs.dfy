/** What the calendar's answers mean: a resolved wall time is the earliest instant that reads it,
    and a boundary is the first instant at which the market's state changes. */
module MarketCalendarProofs {
  import opened Wrappers
  import opened Zones
  import opened MarketCalendar

  /** _resolve answers the earliest instant whose local reading is that wall time on that date, and
      refuses exactly when no instant reads it. */
  lemma ResolveIsEarliest(c: Calendar, day: int, wall: int)
    requires WellSeparated(c.zone)
    ensures var r := Resolve(c, day, wall);
      var naive := day * DAY + wall;
      match r
      case Refused => forall u :: Local(c.zone, u) != naive
      case Answer(at) => Local(c.zone, at) == naive && forall u :: u < at ==> Local(c.zone, u) < naive
  {
    var naive := day * DAY + wall;
    var z := c.zone;
    forall u ensures ReadsExactly(z.initial, z.transitions, naive, u)
    {
      InstantsReading(z.initial, z.transitions, naive, u);
    }
    forall u ensures Local(z, u) == Reading(z.initial, z.transitions, u) {
    }
    var r := Resolve(c, day, wall);
    if r.Answer? {
      assert ReadsExactly(z.initial, z.transitions, naive, r.value);
      forall u | u < r.value ensures Local(z, u) < naive {
        assert ReadsExactly(z.initial, z.transitions, naive, u);
      }
    } else {
      forall u ensures Local(z, u) != naive {
        assert ReadsExactly(z.initial, z.transitions, naive, u);
      }
    }
  }

  /** Comparing the two fold offsets classifies a reading: equal, it happens once; the first larger,
      it happens twice; the first smaller, never. */
  lemma FoldsClassify(z: Zone, naive: int, u: int)
    requires WellSeparated(z)
    ensures var first, second := FirstOffset(z, naive), SecondOffset(z, naive);
      && (first == second ==> (Local(z, u) == naive <==> u == naive - first))
      && (first > second ==> (Local(z, u) == naive <==> u == naive - first || u == naive - second))
      && (first < second ==> Local(z, u) != naive)
  {
    InstantsReading(z.initial, z.transitions, naive, u);
    assert ReadsExactly(z.initial, z.transitions, naive, u);
  }

  /** Whether is_open answers true. A refused date does not trade. */
  predicate Trades(c: Calendar, instant: int) {
    IsOpen(c, instant) == Answer(true)
  }

  predicate IsSession(c: Calendar, s: Session) {
    SessionOn(c, s.day) == Answer(Some(s))
  }

  /** While the session lasts, the local date stays its own. */
  ghost predicate Intact(c: Calendar, s: Session) {
    forall u :: s.Contains(u) ==> LocalDate(c, u) == s.day
  }

  ghost predicate SessionsIntact(c: Calendar) {
    forall s :: IsSession(c, s) ==> Intact(c, s)
  }

  /** b is the least instant after t at which trading stops or starts, and says which. */
  ghost predicate NextChange(c: Calendar, t: int, b: Boundary) {
    && b.at > t
    && (b.kind == Close <==> Trades(c, t))
    && (Trades(c, b.at) <==> !Trades(c, t))
    && (forall u :: t <= u < b.at ==> (Trades(c, u) <==> Trades(c, t)))
  }

  lemma {:induction false} EarlyCloseValid(c: Calendar, entries: seq<EarlyCloseEntry>, day: int)
    requires forall i :: 0 <= i < |entries| ==> ValidEarlyClose(c, entries[i])
    ensures var e := EarlyCloseOn(entries, day); e.Some? ==> c.opensAt < e.value < c.closesAt
  {
    if entries != [] {
      EarlyCloseValid(c, entries[1..], day);
    }
  }

  ghost predicate ReachedAt(c: Calendar, at: int, reading: int) {
    Local(c.zone, at) == reading && forall u :: u < at ==> Local(c.zone, u) < reading
  }

  /** The edges of a session as readings of the local clock. */
  lemma SessionEdges(c: Calendar, s: Session)
    requires Valid(c) && WellSeparated(c.zone) && IsSession(c, s)
    ensures s.opensAt < s.closesAt
    ensures ReachedAt(c, s.opensAt, s.day * DAY + c.opensAt)
    ensures ReachedAt(c, s.closesAt, s.day * DAY + ClosingWall(c, s.day))
    ensures c.opensAt < ClosingWall(c, s.day) < DAY
    ensures LocalDate(c, s.opensAt) == s.day && LocalDate(c, s.closesAt) == s.day
  {
    EarlyCloseValid(c, c.earlyCloses, s.day);
    ResolveIsEarliest(c, s.day, c.opensAt);
    ResolveIsEarliest(c, s.day, ClosingWall(c, s.day));
    DateOfReading(s.day, c.opensAt);
    DateOfReading(s.day, ClosingWall(c, s.day));
  }

  lemma DateOfReading(day: int, wall: int)
    requires 0 <= wall < DAY
    ensures (day * DAY + wall) / DAY == day
  {
  }

  /** Before a session's close the local date is not past it; before its open, the clock has not
      reached that date's opening time. */
  lemma DateBefore(c: Calendar, s: Session, u: int)
    requires Valid(c) && WellSeparated(c.zone) && IsSession(c, s)
    requires u < s.closesAt
    ensures LocalDate(c, u) <= s.day
  {
    SessionEdges(c, s);
    var reading := Local(c.zone, u);
    assert reading < s.day * DAY + DAY;
    assert reading < (s.day + 1) * DAY;
    DateBelow(reading, s.day);
  }

  lemma DateBelow(reading: int, day: int)
    requires reading < (day + 1) * DAY
    ensures reading / DAY <= day
  {
  }

  /** A later date's session lies entirely after an earlier date's. */
  lemma SessionsInOrder(c: Calendar, s: Session, s': Session)
    requires Valid(c) && WellSeparated(c.zone) && IsSession(c, s) && IsSession(c, s')
    requires s.day < s'.day
    ensures s.closesAt < s'.opensAt
  {
    SessionEdges(c, s);
    SessionEdges(c, s');
    assert s.day * DAY + ClosingWall(c, s.day) < s'.day * DAY + c.opensAt;
  }

  lemma TradesInSession(c: Calendar, t: int)
    requires Trades(c, t)
    ensures var r := CurrentSession(c, t);
      && r.Answer? && r.value.Some?
      && IsSession(c, r.value.value) && r.value.value.Contains(t) && LocalDate(c, t) == r.value.value.day
  {
  }

  lemma SessionDay(c: Calendar, day: int)
    ensures var s := SessionOn(c, day); s.Answer? && s.value.Some? ==> s.value.value.day == day
  {
  }

  lemma OpenExactlyInItsSession(c: Calendar, s: Session, u: int)
    requires IsSession(c, s) && LocalDate(c, u) == s.day
    ensures Trades(c, u) <==> s.Contains(u)
  {
  }

  /** Inside a session whose local date holds, trading ends first at its close. */
  lemma CloseIsNextChange(c: Calendar, s: Session, t: int)
    requires Valid(c) && WellSeparated(c.zone) && IsSession(c, s) && Intact(c, s)
    requires s.Contains(t) && LocalDate(c, t) == s.day
    ensures NextChange(c, t, Boundary(s.closesAt, Close, s))
  {
    SessionEdges(c, s);
    OpenExactlyInItsSession(c, s, t);
    OpenExactlyInItsSession(c, s, s.closesAt);
    forall u | t <= u < s.closesAt ensures Trades(c, u) {
      assert s.Contains(u);
      OpenExactlyInItsSession(c, s, u);
    }
  }

  /** What the scan of next_session answers: a session that opens later, and no earlier scanned date
      has one. */
  lemma {:induction false} ScanFinds(c: Calendar, t: int, day: int, left: nat)
    requires ScanFrom(c, t, day, left).Answer?
    ensures var s := ScanFrom(c, t, day, left).value;
      && IsSession(c, s) && s.opensAt > t && day <= s.day < day + left
      && forall s' :: IsSession(c, s') && day <= s'.day < s.day ==> s'.opensAt <= t
    decreases left
  {
    SessionDay(c, day);
    var here := SessionOn(c, day);
    if !(here.value.Some? && here.value.value.opensAt > t) {
      ScanFinds(c, t, day + 1, left - 1);
    }
  }

  /** The scan goes past a date without a session, or whose session has opened. */
  predicate Passed(c: Calendar, t: int, day: int) {
    var s := SessionOn(c, day);
    s.Answer? && (s.value.Some? ==> s.value.value.opensAt <= t)
  }

  /** The k-th date is where the scan stops without an answer: the bound, or a refused date. */
  ghost predicate StopsAt(c: Calendar, t: int, day: int, left: nat, k: nat) {
    && k <= left && (k < left ==> SessionOn(c, day + k).Refused?)
    && forall j :: day <= j < day + k ==> Passed(c, t, j)
  }

  /** It refuses exactly when every date before its bound, or before a refused date, is one to go past. */
  lemma {:induction false} ScanRefuses(c: Calendar, t: int, day: int, left: nat)
    ensures ScanFrom(c, t, day, left).Refused? <==> exists k: nat :: StopsAt(c, t, day, left, k)
    decreases left
  {
    hide SessionOn;
    if left == 0 {
      assert StopsAt(c, t, day, left, 0);
    } else if SessionOn(c, day).Refused? {
      assert StopsAt(c, t, day, left, 0);
    } else if Passed(c, t, day) {
      var next, fewer: nat := day + 1, left - 1;
      ScanRefuses(c, t, next, fewer);
      if k: nat :| StopsAt(c, t, next, fewer, k) {
        assert StopsAt(c, t, day, left, k + 1);
      }
      if k: nat :| StopsAt(c, t, day, left, k) {
        assert StopsAt(c, t, next, fewer, k - 1);
      }
    } else {
      forall k: nat ensures !StopsAt(c, t, day, left, k) {
      }
    }
  }

  /** Nothing trades between a closed instant and the open the scan finds. */
  lemma ClosedUntil(c: Calendar, t: int, s: Session, u: int)
    requires Valid(c) && WellSeparated(c.zone) && SessionsIntact(c)
    requires CurrentSession(c, t) == Answer(None) && NextSession(c, t) == Answer(s)
    requires t <= u < s.opensAt
    ensures !Trades(c, u)
  {
    if Trades(c, u) {
      TradesInSession(c, u);
      var s' := CurrentSession(c, u).value.value;
      ScanFinds(c, t, LocalDate(c, t), MAX_SESSION_SEARCH_DAYS + 1);
      assert Intact(c, s');
      if s'.opensAt <= t {
        OpenExactlyInItsSession(c, s', t);
      } else {
        DateBefore(c, s', t);
        if s'.day > s.day {
          SessionsInOrder(c, s, s');
          SessionEdges(c, s);
        }
      }
    }
  }

  lemma OpenIsNextChange(c: Calendar, t: int, s: Session)
    requires Valid(c) && WellSeparated(c.zone) && SessionsIntact(c)
    requires CurrentSession(c, t) == Answer(None) && NextSession(c, t) == Answer(s)
    ensures NextChange(c, t, Boundary(s.opensAt, Open, s))
  {
    ScanFinds(c, t, LocalDate(c, t), MAX_SESSION_SEARCH_DAYS + 1);
    SessionEdges(c, s);
    OpenExactlyInItsSession(c, s, s.opensAt);
    forall u | t <= u < s.opensAt ensures !Trades(c, u) {
      ClosedUntil(c, t, s, u);
    }
  }

  lemma BoundaryIsNextChange(c: Calendar, t: int)
    requires Valid(c) && WellSeparated(c.zone) && SessionsIntact(c)
    requires NextBoundary(c, t).Answer?
    ensures NextChange(c, t, NextBoundary(c, t).value)
  {
    var current := CurrentSession(c, t).value;
    if current.Some? {
      TradesInSession(c, t);
      assert Intact(c, current.value);
      CloseIsNextChange(c, current.value, t);
    } else {
      OpenIsNextChange(c, t, NextSession(c, t).value);
    }
  }

  /** An instant of a session at which the local date has gone back does not trade. */
  lemma LostDateDoesNotTrade(c: Calendar, s: Session, u: int)
    requires Valid(c) && WellSeparated(c.zone) && IsSession(c, s) && s.Contains(u)
    requires LocalDate(c, u) != s.day
    ensures !Trades(c, u)
  {
    if Trades(c, u) {
      TradesInSession(c, u);
      var s' := CurrentSession(c, u).value.value;
      DateBefore(c, s, u);
      SessionsInOrder(c, s', s);
    }
  }

  ghost predicate BoundariesAreNextChanges(c: Calendar) {
    forall t :: NextBoundary(c, t).Answer? ==> NextChange(c, t, NextBoundary(c, t).value)
  }

  /** next_boundary is right at every instant that it answers exactly when no session loses its
      local date while it is trading. */
  lemma NextBoundaryExactly(c: Calendar)
    requires Valid(c) && WellSeparated(c.zone)
    ensures BoundariesAreNextChanges(c) <==> SessionsIntact(c)
  {
    if SessionsIntact(c) {
      forall t | NextBoundary(c, t).Answer? ensures NextChange(c, t, NextBoundary(c, t).value) {
        BoundaryIsNextChange(c, t);
      }
    }
    if BoundariesAreNextChanges(c) {
      forall s | IsSession(c, s) ensures Intact(c, s) {
        SessionEdges(c, s);
        var t := s.opensAt;
        OpenExactlyInItsSession(c, s, t);
        assert NextBoundary(c, t) == Answer(Boundary(s.closesAt, Close, s));
        assert NextChange(c, t, NextBoundary(c, t).value);
        forall u | s.Contains(u) ensures LocalDate(c, u) == s.day {
          if LocalDate(c, u) != s.day {
            LostDateDoesNotTrade(c, s, u);
          }
        }
      }
    }
  }

  /** A condition an operator can read off the zone: no clock falls back by more than the opening
      time, so none can cross midnight inside a session. */
  lemma SmallFallsKeepSessions(c: Calendar)
    requires Valid(c) && WellSeparated(c.zone)
    requires FallsAtMost(c.zone.initial, c.zone.transitions, c.opensAt)
    ensures SessionsIntact(c)
  {
    forall s | IsSession(c, s) ensures Intact(c, s) {
      SessionEdges(c, s);
      forall u | s.Contains(u) ensures LocalDate(c, u) == s.day {
        ReadingFalls(c.zone.initial, c.zone.transitions, s.opensAt, u, c.opensAt);
        DateBefore(c, s, u);
        assert Local(c.zone, u) >= s.day * DAY;
      }
    }
  }

  // ---- the failing side ----

  /** Midnight to eight, every day, in a zone that falls back an hour a minute after midnight. */
  const MIDNIGHT_FALL := Calendar(
    Zone(0, [Transition(60_000_000, -3_600_000_000)]), 0, 28_800_000_000, [], [], [])

  lemma MidnightSession()
    ensures Valid(MIDNIGHT_FALL) && WellSeparated(MIDNIGHT_FALL.zone)
    ensures IsSession(MIDNIGHT_FALL, Session(0, Trading, 0, 32_400_000_000))
    ensures LocalDate(MIDNIGHT_FALL, 60_000_000) == -1
  {
    assert EarlyCloseOn([], 0) == None;
  }

  /** The condition can fail: there is a calendar the constructor accepts, in a well-separated zone, for
      which next_boundary misses a change. */
  lemma BoundariesCanBeWrong()
    ensures Valid(MIDNIGHT_FALL) && WellSeparated(MIDNIGHT_FALL.zone)
    ensures !SessionsIntact(MIDNIGHT_FALL) && !BoundariesAreNextChanges(MIDNIGHT_FALL)
  {
    hide Valid, WellSeparated, IsSession, LocalDate;
    MidnightSession();
    var s := Session(0, Trading, 0, 32_400_000_000);
    assert s.Contains(60_000_000);
    assert !Intact(MIDNIGHT_FALL, s);
    NextBoundaryExactly(MIDNIGHT_FALL);
  }

  /** A scheduler may always sleep for a positive time. */
  lemma SleepIsPositive(c: Calendar, t: int)
    requires Valid(c) && NextBoundary(c, t).Answer?
    ensures NextBoundary(c, t).value.at > t
  {
    if !CurrentSession(c, t).value.Some? {
      ScanFinds(c, t, LocalDate(c, t), MAX_SESSION_SEARCH_DAYS + 1);
    }
  }
}
