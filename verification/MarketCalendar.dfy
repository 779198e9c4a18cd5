/** engine/src/engine/market_calendar.py: sessions declared on a wall clock, answered as instants.
    Days are counted from 1970-01-01; times of day and instants are whole microseconds. */
module MarketCalendar {
  import opened Wrappers
  import opened Zones

  const DAY: int := 86_400_000_000
  const MAX_SESSION_SEARCH_DAYS: nat := 366

  // Refused stands for the CalendarError the code raises.
  datatype Outcome<+T> = Refused | Answer(value: T)

  datatype DayKind = Trading | EarlyClose | Holiday | Weekend {
    predicate HasSession() {
      Trading? || EarlyClose?
    }
  }

  datatype Session = Session(day: int, kind: DayKind, opensAt: int, closesAt: int) {
    predicate Contains(instant: int) {
      opensAt <= instant < closesAt
    }
  }

  datatype BoundaryKind = Open | Close

  datatype Boundary = Boundary(at: int, kind: BoundaryKind, session: Session)

  datatype EarlyCloseEntry = EarlyCloseEntry(day: int, closesAt: int)

  datatype Calendar = Calendar(
    zone: Zone,
    opensAt: int,
    closesAt: int,
    weekendDays: seq<int>,
    holidays: seq<int>,
    earlyCloses: seq<EarlyCloseEntry>)

  /** date.weekday(): 1970-01-01 was a Thursday. */
  function Weekday(day: int): int {
    (day + 3) % 7
  }

  predicate NoRepeats<T(==)>(s: seq<T>) {
    forall i, j :: 0 <= i < j < |s| ==> s[i] != s[j]
  }

  /** What the constructor accepts. */
  predicate Valid(c: Calendar) {
    && 0 <= c.opensAt < c.closesAt < DAY
    && (forall i :: 0 <= i < |c.weekendDays| ==> 0 <= c.weekendDays[i] <= 6)
    && NoRepeats(c.weekendDays) && |c.weekendDays| <= 6
    && NoRepeats(c.holidays)
    && (forall i, j :: 0 <= i < j < |c.earlyCloses| ==> c.earlyCloses[i].day != c.earlyCloses[j].day)
    && (forall i :: 0 <= i < |c.earlyCloses| ==> ValidEarlyClose(c, c.earlyCloses[i]))
  }

  predicate ValidEarlyClose(c: Calendar, e: EarlyCloseEntry) {
    Weekday(e.day) !in c.weekendDays && e.day !in c.holidays && c.opensAt < e.closesAt < c.closesAt
  }

  function LocalDate(c: Calendar, instant: int): int {
    Local(c.zone, instant) / DAY
  }

  /** The instant a wall-clock time on a date names, unless the clock skips it. */
  function Resolve(c: Calendar, day: int, wall: int): Outcome<int> {
    var naive := day * DAY + wall;
    var first, second := FirstOffset(c.zone, naive), SecondOffset(c.zone, naive);
    if first == second then Answer(naive - first)
    else if first > second then Answer(naive - first)
    else Refused
  }

  function EarlyCloseOn(entries: seq<EarlyCloseEntry>, day: int): Option<int> {
    if entries == [] then None
    else if entries[0].day == day then Some(entries[0].closesAt)
    else EarlyCloseOn(entries[1..], day)
  }

  function DayKindOf(c: Calendar, day: int): DayKind {
    if Weekday(day) in c.weekendDays then Weekend
    else if day in c.holidays then Holiday
    else if EarlyCloseOn(c.earlyCloses, day).Some? then EarlyClose
    else Trading
  }

  function ClosingWall(c: Calendar, day: int): int {
    var early := EarlyCloseOn(c.earlyCloses, day);
    if early.Some? then early.value else c.closesAt
  }

  function SessionOn(c: Calendar, day: int): Outcome<Option<Session>> {
    var kind := DayKindOf(c, day);
    if !kind.HasSession() then Answer(None)
    else
      var opens, closes := Resolve(c, day, c.opensAt), Resolve(c, day, ClosingWall(c, day));
      if opens.Refused? || closes.Refused? || closes.value <= opens.value then Refused
      else Answer(Some(Session(day, kind, opens.value, closes.value)))
  }

  function CurrentSession(c: Calendar, instant: int): Outcome<Option<Session>> {
    var s := SessionOn(c, LocalDate(c, instant));
    if s.Refused? then Refused
    else if s.value.Some? && s.value.value.Contains(instant) then s
    else Answer(None)
  }

  function IsOpen(c: Calendar, instant: int): Outcome<bool> {
    var s := CurrentSession(c, instant);
    if s.Refused? then Refused else Answer(s.value.Some?)
  }

  /** The scan of next_session over the next `left` dates. */
  function ScanFrom(c: Calendar, instant: int, day: int, left: nat): Outcome<Session>
    decreases left
  {
    if left == 0 then Refused
    else
      var s := SessionOn(c, day);
      if s.Refused? then Refused
      else if s.value.Some? && s.value.value.opensAt > instant then Answer(s.value.value)
      else ScanFrom(c, instant, day + 1, left - 1)
  }

  function NextSession(c: Calendar, instant: int): Outcome<Session> {
    ScanFrom(c, instant, LocalDate(c, instant), MAX_SESSION_SEARCH_DAYS + 1)
  }

  function NextBoundary(c: Calendar, instant: int): Outcome<Boundary> {
    var current := CurrentSession(c, instant);
    if current.Refused? then Refused
    else if current.value.Some? then Answer(Boundary(current.value.value.closesAt, Close, current.value.value))
    else
      var upcoming := NextSession(c, instant);
      if upcoming.Refused? then Refused else Answer(Boundary(upcoming.value.opensAt, Open, upcoming.value))
  }
}
