/** Which receipts a reader takes: the files it accepts, one session's view of them, and the record that
    stands for a tick. */
module ReceiptViews {
  import opened Wrappers
  import opened Receipts

  /** Where the records of one session's view are in the whole. */
  ghost predicate Picks(events: seq<Event>, at: seq<int>, view: seq<Event>) {
    && |at| == |view|
    && (forall k :: 0 <= k < |at| ==> 0 <= at[k] < |events| && events[at[k]] == view[k])
    && (forall j, k :: 0 <= j < k < |at| ==> at[j] < at[k])
  }

  predicate InView(e: Event, session: Option<string>) {
    session == None || e.session == session
  }

  ghost predicate Complete(events: seq<Event>, session: Option<string>, at: seq<int>) {
    forall i :: 0 <= i < |events| ==> (i in at <==> InView(events[i], session))
  }

  lemma PicksOn(events: seq<Event>, e: Event, at: seq<int>, view: seq<Event>)
    requires Picks(events, at, view)
    ensures Picks(events + [e], at, view) && Picks(events + [e], at + [|events|], view + [e])
    ensures |events| !in at
  {
  }

  lemma CompleteOn(events: seq<Event>, e: Event, session: Option<string>, at: seq<int>)
    requires Complete(events, session, at) && |events| !in at
    ensures Complete(events + [e], session, if InView(e, session) then at + [|events|] else at)
  {
    var all, more := events + [e], if InView(e, session) then at + [|events|] else at;
    forall i | 0 <= i < |all| ensures i in more <==> InView(all[i], session) {
      if i < |events| { assert all[i] == events[i]; }
    }
  }

  /** One session's view: its own records and no others, in their order; all of them when none is asked for. */
  lemma {:induction false} OfSessionIs(events: seq<Event>, session: Option<string>) returns (at: seq<int>)
    ensures Picks(events, at, OfSession(events, session)) && Complete(events, session, at)
  {
    hide Picks, Complete;
    if events == [] {
      at := [];
      NonePicked(session);
    } else {
      var n := |events| - 1;
      var front, last := events[..n], events[n];
      at := OfSessionIs(front, session);
      assert events == front + [last];
      PicksOn(front, last, at, OfSession(front, session));
      CompleteOn(front, last, session, at);
      if InView(last, session) { at := at + [n]; }
    }
  }

  lemma NonePicked(session: Option<string>)
    ensures Picks([], [], []) && Complete([], session, [])
  {
  }

  /** The record kept for a tick is its last TICK_STARTED. */
  lemma {:induction false} LastStartIs(events: seq<Event>, t: TickId)
    ensures LastStart(events, t) == None <==> !Seen(events, TickStarted, t)
    ensures LastStart(events, t).Some? ==>
      exists i :: IsLastStart(events, t, i) && LastStart(events, t).value == events[i]
  {
    if events != [] {
      var n := |events| - 1;
      var front := events[..n];
      LastStartIs(front, t);
      assert events == front + [events[n]];
      SeenAppend(front, events[n], TickStarted, t);
      if events[n].kind == TickStarted && events[n].tick == Some(t) {
        assert IsLastStart(events, t, n);
      } else if LastStart(front, t).Some? {
        var i :| IsLastStart(front, t, i) && LastStart(front, t).value == front[i];
        assert IsLastStart(events, t, i);
      }
    }
  }

  predicate IsLastStart(events: seq<Event>, t: TickId, i: int) {
    && 0 <= i < |events| && events[i].kind == TickStarted && events[i].tick == Some(t)
    && forall j :: i < j < |events| && events[j].tick == Some(t) ==> events[j].kind != TickStarted
  }

  /** A file that says what it is: the schema, a positive number, and the same number in its name. */
  predicate Honest(name: string, record: Record) {
    && record.schema == "ibkr.autotrader.receipt/1" && record.sequence > 0
    && DigitsValue(BeforeDash(name)) == record.sequence
  }

  ghost predicate AllHonest(files: map<string, Record>, names: seq<string>, seen: set<int>) {
    && (forall i :: 0 <= i < |names| ==>
          names[i] in files && Honest(names[i], files[names[i]]) && files[names[i]].sequence !in seen)
    && (forall i, j :: 0 <= i < j < |names| && names[i] in files && names[j] in files ==>
          files[names[i]].sequence != files[names[j]].sequence)
  }

  /** records() reads a directory exactly when every file says what it is and no number is there twice, and
      then it returns every record in the order listed. */
  lemma {:induction false} ReadRecordsExactly(files: map<string, Record>, names: seq<string>, seen: set<int>)
    requires forall i :: 0 <= i < |names| ==> names[i] in files
    ensures ReadRecords(files, names, seen).Ok? <==> AllHonest(files, names, seen)
    ensures var r := ReadRecords(files, names, seen);
      r.Ok? ==> |r.value| == |names| && forall i :: 0 <= i < |names| ==> r.value[i] == files[names[i]]
    decreases |names|
  {
    hide DigitsValue, BeforeDash;
    if names != [] {
      var first, rest := names[0], names[1..];
      ReadRecordsExactly(files, rest, seen + {files[first].sequence});
      assert forall i :: 0 <= i < |rest| ==> rest[i] == names[i + 1];
      if AllHonest(files, names, seen) {
        assert Honest(first, files[first]);
        assert AllHonest(files, rest, seen + {files[first].sequence});
      }
      if Acceptable(first, files[first], seen) && AllHonest(files, rest, seen + {files[first].sequence}) {
        forall i, j | 0 <= i < j < |names| ensures files[names[i]].sequence != files[names[j]].sequence {
          assert names[j] == rest[j - 1];
          if i > 0 { assert names[i] == rest[i - 1]; }
        }
      }
    }
  }
}
