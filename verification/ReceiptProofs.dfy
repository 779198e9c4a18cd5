/** The receipt log over whole runs: numbers rise and are never reused, and records() gives back
    exactly the completed events in the order they were emitted. */
module ReceiptProofs {
  import opened Wrappers
  import opened Order
  import opened Receipts

  // ---- file names sort as their numbers ----

  lemma {:induction false} LessAfterPrefix(p: string, a: string, b: string)
    ensures Less(p + a, p + b) <==> Less(a, b)
  {
    if p == "" {
      assert p + a == a && p + b == b;
    } else {
      assert (p + a)[1..] == p[1..] + a && (p + b)[1..] == p[1..] + b;
      LessAfterPrefix(p[1..], a, b);
    }
  }

  lemma TenTimes(k: nat, m: nat)
    ensures k < m ==> k / 10 < m / 10 || (k / 10 == m / 10 && k % 10 < m % 10)
  {
  }

  /** Padded to one width, the larger number is the later name, whatever follows. */
  lemma {:induction false} PadSorts(k: nat, m: nat, width: nat, x: string, y: string)
    requires k < m < Power10(width)
    ensures Less(Pad(k, width) + x, Pad(m, width) + y)
    decreases width
  {
    if width > 0 {
      TenTimes(k, m);
      var p, q := Pad(k / 10, width - 1), Pad(m / 10, width - 1);
      var c, d := ('0' as int + k % 10) as char, ('0' as int + m % 10) as char;
      assert Pad(k, width) + x == p + ([c] + x);
      assert Pad(m, width) + y == q + ([d] + y);
      if k / 10 < m / 10 {
        PadSorts(k / 10, m / 10, width - 1, [c] + x, [d] + y);
      } else {
        LessAfterPrefix(p, [c] + x, [d] + y);
      }
    }
  }

  lemma {:induction false} PadDigits(k: nat, width: nat)
    requires k < Power10(width)
    ensures '-' !in Pad(k, width) && DigitsValue(Pad(k, width)) == k
    decreases width
  {
    if width > 0 {
      PadDigits(k / 10, width - 1);
      var s := Pad(k, width);
      assert s[..|s| - 1] == Pad(k / 10, width - 1);
    }
  }

  lemma {:induction false} BeforeDashIs(s: string, rest: string)
    requires '-' !in s
    ensures BeforeDash(s + "-" + rest) == s
  {
    if s == "" {
      assert (s + "-" + rest)[0] == '-';
    } else {
      assert (s + "-" + rest)[1..] == s[1..] + "-" + rest;
      BeforeDashIs(s[1..], rest);
      assert s == [s[0]] + s[1..];
    }
  }

  predicate Numbered(k: int) {
    0 < k < Power10(NAME_WIDTH)
  }

  function Suffix(kind: Kind): string {
    "-" + EventName(kind) + ".json"
  }

  lemma NameSplits(k: nat, kind: Kind)
    ensures FileName(k, kind) == Pad(k, NAME_WIDTH) + Suffix(kind)
    ensures FileName(k, kind) == Pad(k, NAME_WIDTH) + "-" + (EventName(kind) + ".json")
  {
    hide Pad, EventName;
    var p, e := Pad(k, NAME_WIDTH), EventName(kind);
    assert p + "-" + e + ".json" == p + ("-" + e + ".json");
    assert p + "-" + e + ".json" == p + "-" + (e + ".json");
  }

  /** The file name says its number. */
  lemma NameSaysNumber(k: nat, kind: Kind)
    requires Numbered(k)
    ensures DigitsValue(BeforeDash(FileName(k, kind))) == k
  {
    hide Pad, EventName, FileName, DigitsValue, BeforeDash;
    PadDigits(k, NAME_WIDTH);
    NameSplits(k, kind);
    BeforeDashIs(Pad(k, NAME_WIDTH), EventName(kind) + ".json");
  }

  /** Below 10^20, file names sort as their numbers. */
  lemma NamesSortAsNumbers(k: nat, m: nat, kind: Kind, kind': Kind)
    requires Numbered(m) && k < m
    ensures Less(FileName(k, kind), FileName(m, kind'))
  {
    hide Pad, EventName, FileName, Less, Suffix;
    NameSplits(k, kind);
    NameSplits(m, kind');
    PadSorts(k, m, NAME_WIDTH, Suffix(kind), Suffix(kind'));
  }

  // ---- runs ----

  // One emit: it completes, or its process dies once the number is durable. One that dies earlier
  // leaves nothing.
  datatype Call = Call(event: Event, dies: bool)

  datatype Run = Run(store: Store, emitted: seq<Record>)

  function Perform(run: Run, call: Call): Run {
    var next := NextSequence(run.store);
    if next.Blocked? then run
    else if call.dies then run.(store := Reserve(run.store, next.value))
    else Run(Publish(Reserve(run.store, next.value), next.value, call.event),
             run.emitted + [Record(SCHEMA, next.value, call.event)])
  }

  function PerformAll(calls: seq<Call>): Run {
    if calls == [] then Run(Store(None, map[]), [])
    else Perform(PerformAll(calls[..|calls| - 1]), calls[|calls| - 1])
  }

  function Last(store: Store): int {
    if store.sequenceFile.None? then 0 else store.sequenceFile.value
  }

  predicate Rising(records: seq<Record>) {
    forall i, j :: 0 <= i < j < |records| ==> records[i].sequence < records[j].sequence
  }

  predicate Filed(files: map<string, Record>, r: Record) {
    && r.schema == SCHEMA && r.sequence > 0
    && FileName(r.sequence, r.event.kind) in files && files[FileName(r.sequence, r.event.kind)] == r
  }

  /** The files are the emitted events, numbered in order, up to the reserved number. */
  ghost predicate Sound(run: Run) {
    && Last(run.store) >= 0
    && (run.store.sequenceFile.Some? ==> run.store.sequenceFile.value > 0)
    && Rising(run.emitted)
    && (forall i :: 0 <= i < |run.emitted| ==>
          Filed(run.store.files, run.emitted[i]) && run.emitted[i].sequence <= Last(run.store))
    && (forall name :: name in run.store.files ==>
          run.store.files[name] in run.emitted
          && name == FileNameOf(run.store.files[name]))
  }

  function FileNameOf(r: Record): string {
    if r.sequence < 0 then "" else FileName(r.sequence, r.event.kind)
  }

  lemma FreshName(run: Run, kind: Kind)
    requires Sound(run) && Numbered(Last(run.store) + 1)
    ensures FileName(Last(run.store) + 1, kind) !in run.store.files
  {
    hide FileName, DigitsValue, BeforeDash, Rising;
    var name := FileName(Last(run.store) + 1, kind);
    if name in run.store.files {
      var r := run.store.files[name];
      assert Numbered(r.sequence);
      NameSaysNumber(Last(run.store) + 1, kind);
      NameSaysNumber(r.sequence, r.event.kind);
    }
  }

  lemma EmittedFiled(run: Run, event: Event)
    requires Sound(run) && FileName(Last(run.store) + 1, event.kind) !in run.store.files
    ensures var after := Perform(run, Call(event, false));
      && Rising(after.emitted)
      && forall i :: 0 <= i < |after.emitted| ==>
           Filed(after.store.files, after.emitted[i]) && after.emitted[i].sequence <= Last(run.store) + 1
  {
    hide FileName;
    var after := Perform(run, Call(event, false));
    forall i | 0 <= i < |after.emitted|
      ensures Filed(after.store.files, after.emitted[i]) && after.emitted[i].sequence <= Last(run.store) + 1
    {
      if i < |run.emitted| {
        assert Filed(run.store.files, run.emitted[i]);
      }
    }
  }

  lemma PublishSound(run: Run, event: Event)
    requires Sound(run) && FileName(Last(run.store) + 1, event.kind) !in run.store.files
    ensures Sound(Perform(run, Call(event, false)))
  {
    hide FileName, Filed, Rising;
    var k: nat := Last(run.store) + 1;
    var after := Perform(run, Call(event, false));
    EmittedFiled(run, event);
    forall name | name in after.store.files
      ensures after.store.files[name] in after.emitted && name == FileNameOf(after.store.files[name])
    {
      if name == FileName(k, event.kind) {
        assert after.emitted[|run.emitted|] == Record(SCHEMA, k, event);
      }
    }
  }

  lemma PerformSound(run: Run, call: Call)
    requires Sound(run) && Numbered(Last(run.store) + 1)
    ensures Sound(Perform(run, call))
    ensures Last(Perform(run, call).store) == Last(run.store) + 1
  {
    hide FileName;
    if !call.dies {
      FreshName(run, call.event.kind);
      PublishSound(run, call.event);
      assert call == Call(call.event, false);
    }
  }

  /** Over any emits and crashes, numbers strictly increase, one per attempt, with a gap for each
      attempt that died. */
  lemma {:induction false} RunsAreSound(calls: seq<Call>)
    requires |calls| < Power10(NAME_WIDTH)
    ensures Sound(PerformAll(calls)) && Last(PerformAll(calls).store) == |calls|
  {
    if calls != [] {
      RunsAreSound(calls[..|calls| - 1]);
      PerformSound(PerformAll(calls[..|calls| - 1]), calls[|calls| - 1]);
    }
  }

  /** A sorted directory listing: every file once, in the order of its names. */
  ghost predicate Listing(files: map<string, Record>, names: seq<string>) {
    && (forall name :: name in names <==> name in files)
    && (forall i, j :: 0 <= i < j < |names| ==> Less(names[i], names[j]))
  }

  function Names(records: seq<Record>): (r: seq<string>)
    ensures |r| == |records|
  {
    seq(|records|, i requires 0 <= i < |records| => FileNameOf(records[i]))
  }

  lemma {:induction false} ReadsEmitted(files: map<string, Record>, records: seq<Record>, seen: set<int>)
    requires Rising(records)
    requires forall i :: 0 <= i < |records| ==> Filed(files, records[i]) && Numbered(records[i].sequence)
    requires forall i :: 0 <= i < |records| ==> records[i].sequence !in seen
    requires forall i :: 0 <= i < |records| ==> Names(records)[i] in files
    ensures ReadRecords(files, Names(records), seen) == Ok(records)
    decreases |records|
  {
    hide FileName, DigitsValue, BeforeDash;
    if records != [] {
      var r := records[0];
      NameSaysNumber(r.sequence, r.event.kind);
      assert Names(records)[1..] == Names(records[1..]);
      assert forall i :: 0 <= i < |records| - 1 ==> records[1..][i] == records[i + 1];
      ReadsEmitted(files, records[1..], seen + {r.sequence});
      assert records == [r] + records[1..];
    }
  }

  lemma NamesAreTheFiles(run: Run)
    requires Sound(run)
    ensures forall name :: name in Names(run.emitted) <==> name in run.store.files
  {
    hide FileName;
    var files, sorted := run.store.files, Names(run.emitted);
    forall name ensures name in sorted <==> name in files {
      if name in files {
        var i :| 0 <= i < |run.emitted| && run.emitted[i] == files[name];
        assert sorted[i] == name;
      }
      if name in sorted {
        var i :| 0 <= i < |sorted| && sorted[i] == name;
        assert Filed(files, run.emitted[i]);
      }
    }
  }

  lemma NamesAscend(records: seq<Record>)
    requires Rising(records)
    requires forall i :: 0 <= i < |records| ==> Numbered(records[i].sequence)
    ensures Ascending(Names(records))
  {
    hide FileName, Less;
    var sorted := Names(records);
    forall i, j | 0 <= i < j < |sorted| ensures Less(sorted[i], sorted[j]) {
      NamesSortAsNumbers(records[i].sequence, records[j].sequence, records[i].event.kind, records[j].event.kind);
    }
  }

  /** The reader refines the log: after any run, records() accepts the store's own files and returns
      exactly the completed events in emission order. */
  lemma RecordsAreTheEmittedEvents(calls: seq<Call>, names: seq<string>)
    requires |calls| < Power10(NAME_WIDTH)
    requires Listing(PerformAll(calls).store.files, names)
    ensures ReadRecords(PerformAll(calls).store.files, names, {}) == Ok(PerformAll(calls).emitted)
    ensures Rising(PerformAll(calls).emitted)
  {
    RunsAreSound(calls);
    var run := PerformAll(calls);
    hide FileName, Less, ReadRecords, PerformAll;
    NamesAscend(run.emitted);
    NamesAreTheFiles(run);
    AscendingUnique(names, Names(run.emitted));
    ReadsEmitted(run.store.files, run.emitted, {});
  }
}
