/** engine/src/engine/autocycle.py, ReceiptStore: one file per event, named by a durable sequence
    number, and the question a restart asks of them. */
module Receipts {
  import opened Wrappers

  const SCHEMA := "ibkr.autotrader.receipt/1"
  const NAME_WIDTH: nat := 20

  datatype Kind = TickStarted | TickFinished | TickAborted | TickUnresolved | TickReconciled
                | RecoveryRequired | RecoveryCleared

  function EventName(kind: Kind): string {
    match kind
    case TickStarted => "TICK_STARTED"
    case TickFinished => "TICK_FINISHED"
    case TickAborted => "TICK_ABORTED"
    case TickUnresolved => "TICK_UNRESOLVED"
    case TickReconciled => "TICK_RECONCILED"
    case RecoveryRequired => "RECOVERY_REQUIRED"
    case RecoveryCleared => "RECOVERY_CLEARED"
  }

  // The session and the largest slot index: the two parts of the tick_id text.
  datatype TickId = TickId(session: string, number: int)

  // The part of an event's payload recovery reads.
  datatype Event = Event(kind: Kind, tick: Option<TickId>, session: Option<string>)

  datatype Record = Record(schema: string, sequence: int, event: Event)

  datatype Store = Store(sequenceFile: Option<int>, files: map<string, Record>)

  datatype Result<+T> = Ok(value: T) | Blocked

  // ---- names ----

  function Pad(k: nat, width: nat): (s: string)
    ensures |s| == width
  {
    if width == 0 then "" else Pad(k / 10, width - 1) + [('0' as int + k % 10) as char]
  }

  function FileName(sequence: nat, kind: Kind): string {
    Pad(sequence, NAME_WIDTH) + "-" + EventName(kind) + ".json"
  }

  function Power10(n: nat): nat {
    if n == 0 then 1 else 10 * Power10(n - 1)
  }

  /** int() of a run of digits. */
  function DigitsValue(s: string): int {
    if s == "" then 0 else DigitsValue(s[..|s| - 1]) * 10 + (s[|s| - 1] as int - '0' as int)
  }

  /** The text before the first '-'. */
  function BeforeDash(s: string): string {
    if s == "" || s[0] == '-' then "" else [s[0]] + BeforeDash(s[1..])
  }

  // ---- emitting ----

  function NextSequence(store: Store): Result<nat> {
    match store.sequenceFile
    case None => Ok(1)
    case Some(n) => if n <= 0 then Blocked else Ok(n + 1)
  }

  /** The first durable write of emit. */
  function Reserve(store: Store, sequence: nat): Store {
    store.(sequenceFile := Some(sequence))
  }

  /** The second: the event's own file. */
  function Publish(store: Store, sequence: nat, event: Event): Store {
    store.(files := store.files[FileName(sequence, event.kind) := Record(SCHEMA, sequence, event)])
  }

  // ---- reading ----

  /** One file of records(): its own checks, and the number not seen before. */
  predicate Acceptable(name: string, record: Record, seen: set<int>) {
    && record.schema == SCHEMA
    && record.sequence > 0
    && DigitsValue(BeforeDash(name)) == record.sequence
    && record.sequence !in seen
  }

  function ReadRecords(files: map<string, Record>, names: seq<string>, seen: set<int>): Result<seq<Record>>
    requires forall i :: 0 <= i < |names| ==> names[i] in files
  {
    if names == [] then Ok([])
    else
      var record := files[names[0]];
      if !Acceptable(names[0], record, seen) then Blocked
      else
        var rest := ReadRecords(files, names[1..], seen + {record.sequence});
        if rest.Blocked? then Blocked else Ok([record] + rest.value)
  }

  // ---- unmatched ticks ----

  predicate Seen(events: seq<Event>, kind: Kind, tick: TickId) {
    exists i :: 0 <= i < |events| && events[i].kind == kind && events[i].tick == Some(tick)
  }

  predicate Terminal(events: seq<Event>, tick: TickId) {
    || Seen(events, TickFinished, tick) || Seen(events, TickAborted, tick)
    || Seen(events, TickReconciled, tick) || Seen(events, TickUnresolved, tick)
  }

  /** A tick that may have reached the broker and that nothing on disk accounts for. */
  predicate Unmatched(events: seq<Event>, tick: TickId) {
    && Seen(events, TickStarted, tick)
    && !Seen(events, TickReconciled, tick)
    && (!Terminal(events, tick) || Seen(events, TickUnresolved, tick))
  }

  /** The records one session's view keeps; every record without a session asked for. */
  function OfSession(events: seq<Event>, session: Option<string>): seq<Event> {
    if events == [] then []
    else
      var front, last := OfSession(events[..|events| - 1], session), events[|events| - 1];
      if session.Some? && last.session != session then front else front + [last]
  }

  /** The last TICK_STARTED record of a tick. */
  function LastStart(events: seq<Event>, t: TickId): Option<Event> {
    if events == [] then None
    else
      var last := events[|events| - 1];
      if last.kind == TickStarted && last.tick == Some(t) then Some(last) else LastStart(events[..|events| - 1], t)
  }

  // The dict and the three sets of unmatched_ticks: ticks in the order first started, the last start
  // record of each, and what was seen of them since.
  datatype Tally = Tally(
    starts: seq<TickId>, last: map<TickId, Event>,
    terminal: set<TickId>, reconciled: set<TickId>, unresolved: set<TickId>)

  ghost predicate Tallied(tally: Tally, events: seq<Event>) {
    && (forall a, b :: 0 <= a < b < |tally.starts| ==> tally.starts[a] != tally.starts[b])
    && (forall t :: t in tally.starts <==> Seen(events, TickStarted, t))
    && (forall t :: t in tally.starts ==> t in tally.last && LastStart(events, t) == Some(tally.last[t]))
    && (forall t :: t in tally.terminal <==> Terminal(events, t))
    && (forall t :: t in tally.reconciled <==> Seen(events, TickReconciled, t))
    && (forall t :: t in tally.unresolved <==> Seen(events, TickUnresolved, t))
  }

  lemma NothingTallied()
    ensures Tallied(Tally([], map[], {}, {}, {}), [])
  {
  }

  lemma LastStartAppend(events: seq<Event>, e: Event)
    ensures forall t ::
      (LastStart(events + [e], t) ==
        if e.kind == TickStarted && e.tick == Some(t) then Some(e) else LastStart(events, t))
  {
    assert (events + [e])[..|events|] == events;
  }

  /** One record of the loop. */
  method TallyOne(tally: Tally, e: Event, ghost events: seq<Event>) returns (next: Tally)
    requires Tallied(tally, events)
    ensures Tallied(next, events + [e])
  {
    hide LastStart, Seen;
    LastStartAppend(events, e);
    forall kind, t
      ensures Seen(events + [e], kind, t) <==> Seen(events, kind, t) || (e.kind == kind && e.tick == Some(t))
    {
      SeenAppend(events, e, kind, t);
    }
    next := tally;
    if e.tick.Some? {
      var t := e.tick.value;
      match e.kind
      case TickStarted =>
        next := next.(starts := if t in next.starts then next.starts else next.starts + [t], last := next.last[t := e]);
      case TickUnresolved => next := next.(terminal := next.terminal + {t}, unresolved := next.unresolved + {t});
      case TickFinished => next := next.(terminal := next.terminal + {t});
      case TickAborted => next := next.(terminal := next.terminal + {t});
      case TickReconciled => next := next.(terminal := next.terminal + {t}, reconciled := next.reconciled + {t});
      case RecoveryRequired =>
      case RecoveryCleared =>
    }
  }

  /** unmatched_ticks: one record for each unmatched tick of the session asked for, its last start. */
  method UnmatchedTicks(events: seq<Event>, session: Option<string>) returns (ticks: seq<TickId>, records: seq<Event>)
    ensures var seen := OfSession(events, session);
      && (forall t :: t in ticks <==> Unmatched(seen, t))
      && (forall i, j :: 0 <= i < j < |ticks| ==> ticks[i] != ticks[j])
      && |records| == |ticks|
      && (forall i :: 0 <= i < |ticks| ==> LastStart(seen, ticks[i]) == Some(records[i]))
  {
    hide LastStart, Seen, Tallied, Terminal;
    var tally := Tally([], map[], {}, {}, {});
    NothingTallied();
    for i := 0 to |events|
      invariant Tallied(tally, OfSession(events[..i], session))
    {
      var e := events[i];
      assert events[..i + 1][..i] == events[..i];
      if session.None? || e.session == session {
        tally := TallyOne(tally, e, OfSession(events[..i], session));
      }
    }
    assert events[..|events|] == events;
    ticks, records := Unclosed(tally, OfSession(events, session));
  }

  /** The comprehension at the end. */
  method Unclosed(tally: Tally, ghost events: seq<Event>) returns (ticks: seq<TickId>, records: seq<Event>)
    requires Tallied(tally, events)
    ensures forall t :: t in ticks <==> Unmatched(events, t)
    ensures forall i, j :: 0 <= i < j < |ticks| ==> ticks[i] != ticks[j]
    ensures |records| == |ticks| && forall i :: 0 <= i < |ticks| ==> LastStart(events, ticks[i]) == Some(records[i])
  {
    hide LastStart, Seen, Terminal;
    ticks, records := [], [];
    for i := 0 to |tally.starts|
      invariant |records| == |ticks| && forall a, b :: 0 <= a < b < |ticks| ==> ticks[a] != ticks[b]
      invariant forall t :: t in ticks <==> t in tally.starts[..i] && Unmatched(events, t)
      invariant forall k :: 0 <= k < |ticks| ==> LastStart(events, ticks[k]) == Some(records[k])
    {
      var t := tally.starts[i];
      assert tally.starts[..i + 1] == tally.starts[..i] + [t];
      assert t !in tally.starts[..i];
      if t !in tally.reconciled && (t !in tally.terminal || t in tally.unresolved) {
        ticks, records := ticks + [t], records + [tally.last[t]];
      }
    }
    assert tally.starts[..|tally.starts|] == tally.starts;
  }

  lemma SeenAppend(events: seq<Event>, e: Event, kind: Kind, t: TickId)
    ensures Seen(events + [e], kind, t) <==> Seen(events, kind, t) || (e.kind == kind && e.tick == Some(t))
  {
    var all := events + [e];
    if Seen(events, kind, t) {
      var i :| 0 <= i < |events| && events[i].kind == kind && events[i].tick == Some(t);
      assert all[i] == events[i];
    }
    if e.kind == kind && e.tick == Some(t) {
      assert all[|events|] == e;
    }
  }

  /** The store on disk, rewritten in place by emit. */
  class ReceiptStore {
    var store: Store

    constructor (store: Store)
      ensures this.store == store
    {
      this.store := store;
    }

    /** Emits one event, unless the process dies after its number is reserved. */
    method Emit(event: Event, diesAfterReserve: bool) returns (r: Result<nat>)
      modifies this
      ensures r == NextSequence(old(store))
      ensures store == if r.Blocked? then old(store)
                       else if diesAfterReserve then Reserve(old(store), r.value)
                       else Publish(Reserve(old(store), r.value), r.value, event)
    {
      r := NextSequence(store);
      if r.Blocked? {
        return;
      }
      store := Reserve(store, r.value);
      if diesAfterReserve {
        return;
      }
      store := Publish(store, r.value, event);
    }

    method Records(names: seq<string>) returns (r: Result<seq<Record>>)
      requires forall i :: 0 <= i < |names| ==> names[i] in store.files
      ensures r == ReadRecords(store.files, names, {})
    {
      var records: seq<Record> := [];
      var seen: set<int> := {};
      assert names[0..] == names;
      ghost var whole := ReadRecords(store.files, names, {});
      assert whole.Ok? ==> [] + whole.value == whole.value;
      for i := 0 to |names|
        invariant ReadRecords(store.files, names, {}) ==
          var rest := ReadRecords(store.files, names[i..], seen);
          if rest.Blocked? then Blocked else Ok(records + rest.value)
      {
        var record := store.files[names[i]];
        assert names[i..][1..] == names[i + 1..];
        if !Acceptable(names[i], record, seen) {
          return Blocked;
        }
        ghost var rest := ReadRecords(store.files, names[i + 1..], seen + {record.sequence});
        if rest.Ok? {
          assert records + ([record] + rest.value) == (records + [record]) + rest.value;
        }
        records := records + [record];
        seen := seen + {record.sequence};
      }
      assert names[|names|..] == [] && records + [] == records;
      r := Ok(records);
    }
  }
}
