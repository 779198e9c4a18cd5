/** tools/telegram-bridge.py, the outbox drain: oldest first, stop at a transient failure, park what
    will never be accepted. File moves succeed and the bridge is not in dry-run; the client answers
    each call as it likes. */
module Outbox {
  import opened Wrappers
  import opened Order
  import opened Text
  import opened MessageSplit

  const MAX_SEND_ATTEMPTS: nat := 5
  const TELEGRAM_MAX_CHARS: nat := 4096

  // A queued file as the pump reads it: the text is the formatted message.
  datatype File = Unreadable | Message(text: string)

  datatype Reply = Accepted | Transient | Permanent

  // One send_message call, with the names that were in the queue then.
  datatype Send = Send(name: string, chunk: string, reply: Reply, queued: set<string>)

  function Blank(file: File): bool {
    file.Message? && Strip(file.text) == ""
  }

  function Chunks(text: string): seq<string> {
    Texts(Split(text, TELEGRAM_MAX_CHARS))
  }

  /** A message the bridge leaves as it is can have an empty chunk. */
  lemma EmptyChunkIsSent()
    ensures var text := Report(TELEGRAM_MAX_CHARS); Strip(text) == text && |Chunks(text)| == 3 && Chunks(text)[1] == ""
  {
    hide Split, Strip, Report;
    EmptyPieceOccurs(TELEGRAM_MAX_CHARS);
  }

  /** The chunks of one file accepted one after the other. */
  function Sends(name: string, chunks: seq<string>, queued: set<string>): (r: seq<Send>)
    ensures |r| == |chunks|
  {
    seq(|chunks|, i requires 0 <= i < |chunks| => Send(name, chunks[i], Accepted, queued))
  }

  /** Somewhere in the log every chunk of the text was accepted, in order, with nothing between. */
  ghost predicate Delivered(log: seq<Send>, name: string, text: string) {
    exists j, queued :: DeliveredAt(log, name, text, j, queued)
  }

  predicate DeliveredAt(log: seq<Send>, name: string, text: string, j: int, queued: set<string>) {
    0 <= j <= |log| - |Chunks(text)| && log[j..j + |Chunks(text)|] == Sends(name, Chunks(text), queued)
  }

  function Tries(attempts: map<string, nat>, name: string): nat {
    if name in attempts then attempts[name] else 0
  }

  /** A failure after which the file is given up: permanent, or one too many. */
  predicate GivenUp(s: Send, attempts: map<string, nat>) {
    s.reply.Permanent? || (s.reply.Transient? && Tries(attempts, s.name) + 1 >= MAX_SEND_ATTEMPTS)
  }

  /** The file sent was the oldest in the queue. */
  predicate OldestFirst(s: Send) {
    forall m :: m in s.queued ==> m == s.name || Less(s.name, m)
  }

  // ---- what is left to try ----

  function Left(attempts: map<string, nat>, name: string): nat {
    if Tries(attempts, name) < MAX_SEND_ATTEMPTS then MAX_SEND_ATTEMPTS - Tries(attempts, name) else 1
  }

  /** The failures the queue can still absorb. */
  ghost function Weight(names: set<string>, attempts: map<string, nat>): nat {
    if names == {} then 0
    else
      var x :| x in names;
      Left(attempts, x) + Weight(names - {x}, attempts)
  }

  lemma {:induction false} WeightRemove(names: set<string>, x: string, attempts: map<string, nat>)
    requires x in names
    ensures Weight(names, attempts) == Left(attempts, x) + Weight(names - {x}, attempts)
    decreases |names|
  {
    hide Left;
    var y :| y in names && Weight(names, attempts) == Left(attempts, y) + Weight(names - {y}, attempts);
    if y != x {
      WeightRemove(names - {y}, x, attempts);
      WeightRemove(names - {x}, y, attempts);
      assert names - {y} - {x} == names - {x} - {y};
    }
  }

  lemma {:induction false} WeightShrinks(names: set<string>, before: map<string, nat>, after: map<string, nat>)
    requires forall x :: x in names ==> Left(after, x) <= Left(before, x)
    ensures Weight(names, after) <= Weight(names, before)
    decreases |names|
  {
    if names != {} {
      var x :| x in names;
      WeightRemove(names, x, before);
      WeightRemove(names, x, after);
      WeightShrinks(names - {x}, before, after);
    }
  }

  lemma {:induction false} WeightOfPart(part: set<string>, whole: set<string>, attempts: map<string, nat>)
    requires part <= whole
    ensures Weight(part, attempts) <= Weight(whole, attempts)
    decreases |whole|
  {
    if part != whole {
      assert exists y :: y in whole && y !in part;
      var x :| x in whole && x !in part;
      WeightRemove(whole, x, attempts);
      WeightOfPart(part, whole - {x}, attempts);
    }
  }

  /** One more failed try at a file, the rest as before or gone. */
  lemma WeightDrops(part: set<string>, whole: set<string>, head: string, before: map<string, nat>, after: map<string,
                    nat>)
    requires part <= whole && head in part
    requires Left(after, head) < Left(before, head)
    requires forall x :: x in part && x != head ==> Left(after, x) == Left(before, x)
    ensures Weight(part, after) < Weight(whole, before)
  {
    hide Left;
    WeightRemove(part, head, before);
    WeightRemove(part, head, after);
    WeightShrinks(part - {head}, before, after);
    WeightOfPart(part, whole, before);
  }

  lemma {:induction false} WeightBound(names: set<string>, attempts: map<string, nat>)
    ensures Weight(names, attempts) <= MAX_SEND_ATTEMPTS * |names|
    decreases |names|
  {
    if names != {} {
      var x :| x in names;
      WeightRemove(names, x, attempts);
      WeightBound(names - {x}, attempts);
    }
  }

  lemma DeliveredStays(log: seq<Send>, more: seq<Send>, name: string, text: string)
    requires Delivered(log, name, text)
    ensures Delivered(log + more, name, text)
  {
    var j, queued :| DeliveredAt(log, name, text, j, queued);
    var n := |Chunks(text)|;
    assert (log + more)[j..j + n] == log[j..j + n];
    assert DeliveredAt(log + more, name, text, j, queued);
  }

  lemma DeliveredLast(log: seq<Send>, name: string, text: string, queued: set<string>)
    ensures Delivered(log + Sends(name, Chunks(text), queued), name, text)
  {
    var all := log + Sends(name, Chunks(text), queued);
    assert all[|log|..|log| + |Chunks(text)|] == Sends(name, Chunks(text), queued);
    assert DeliveredAt(all, name, text, |log|, queued);
  }

  /** The calls made when the k-th chunk is the first not accepted. */
  predicate FailsAt(log: seq<Send>, before: seq<Send>, name: string, chunks: seq<string>, queued: set<string>,
                    reply: Reply, k: int) {
    0 <= k < |chunks| && log == before + Sends(name, chunks[..k], queued) + [Send(name, chunks[k], reply, queued)]
  }

  // ---- one pump ----

  // The three directories.
  datatype Folders = Folders(queue: map<string, File>, archive: map<string, File>, failed: map<string, File>) {
    /** Every name is in one directory at most. */
    ghost predicate Apart() {
      queue.Keys !! archive.Keys && queue.Keys !! failed.Keys && archive.Keys !! failed.Keys
    }

    function Everything(): map<string, File> {
      queue + archive + failed
    }
  }

  /** From before to after, with the sends since: nothing lost or changed, everything still in one
      place, and every file that left had a reason to. */
  ghost predicate Drained(before: Folders, after: Folders, sends: seq<Send>, attempts: map<string, nat>) {
    && after.Apart() && after.Everything() == before.Everything()
    && after.queue.Keys <= before.queue.Keys
    && before.archive.Keys <= after.archive.Keys && before.failed.Keys <= after.failed.Keys
    && AllOldestFirst(sends)
    && (forall n :: n in after.archive && n !in before.archive ==> Archivable(n, after.archive[n], sends))
    && (forall n :: n in after.failed && n !in before.failed ==> Failable(n, after.failed[n], sends, attempts))
  }

  ghost predicate Archivable(name: string, file: File, sends: seq<Send>) {
    file.Message? && (Strip(file.text) == "" || Delivered(sends, name, file.text))
  }

  ghost predicate Failable(name: string, file: File, sends: seq<Send>, attempts: map<string, nat>) {
    file.Unreadable? || exists i :: 0 <= i < |sends| && sends[i].name == name && GivenUp(sends[i], attempts)
  }

  class Bridge {
    var outbox: map<string, File>
    var archived: map<string, File>
    var failed: map<string, File>
    var attempts: map<string, nat>
    var chatBound: bool
    var stopping: bool
    ghost var log: seq<Send>

    ghost function Now(): Folders reads this {
      Folders(outbox, archived, failed)
    }

    /** The client: any reply to any message. */
    method SendMessage(name: string, chunk: string) returns (reply: Reply)
      modifies this`log
      ensures log == old(log) + [Send(name, chunk, reply, outbox.Keys)]
    {
      reply := *;
      log := log + [Send(name, chunk, reply, outbox.Keys)];
    }

    /** The chunks in order until one is not accepted; the reply is that of the last one tried. */
    method Deliver(name: string, text: string) returns (reply: Reply)
      modifies this`log
      ensures reply.Accepted? ==> log == old(log) + Sends(name, Chunks(text), outbox.Keys)
      ensures !reply.Accepted? ==> exists k :: FailsAt(log, old(log), name, Chunks(text), outbox.Keys, reply, k)
    {
      hide Split, Texts;
      var chunks := SplitMessage(text, TELEGRAM_MAX_CHARS);
      var k := 0;
      reply := Accepted;
      while k < |chunks|
        invariant 0 <= k <= |chunks| && reply.Accepted?
        invariant log == old(log) + Sends(name, chunks[..k], outbox.Keys)
      {
        reply := SendMessage(name, chunks[k]);
        if !reply.Accepted? {
          assert FailsAt(log, old(log), name, Chunks(text), outbox.Keys, reply, k);
          return;
        }
        assert Sends(name, chunks[..k + 1], outbox.Keys)
            == Sends(name, chunks[..k], outbox.Keys) + [Send(name, chunks[k], Accepted, outbox.Keys)];
        k := k + 1;
      }
      assert chunks[..k] == chunks;
    }

    method Archive(name: string)
      requires name in outbox
      modifies this`outbox, this`archived
      ensures outbox == old(outbox) - {name} && archived == old(archived)[name := old(outbox)[name]]
    {
      archived := archived[name := outbox[name]];
      outbox := outbox - {name};
    }

    method Quarantine(name: string)
      requires name in outbox
      modifies this`outbox, this`failed, this`attempts
      ensures outbox == old(outbox) - {name} && failed == old(failed)[name := old(outbox)[name]]
      ensures attempts == old(attempts) - {name}
    {
      failed := failed[name := outbox[name]];
      outbox := outbox - {name};
      attempts := attempts - {name};
    }

    /** One file of the listing, the oldest in the queue: it leaves, or it stays at the head with one
        more failed try. */
    method PumpOne(name: string) returns (raised: bool, delivered: bool)
      requires name in outbox && Now().Apart()
      requires Oldest(name, outbox.Keys)
      modifies this`outbox, this`archived, this`failed, this`attempts, this`log
      ensures old(log) <= log && Drained(old(Now()), Now(), log[|old(log)|..], old(attempts))
      ensures !raised ==> outbox == old(outbox) - {name}
      ensures !raised ==> attempts == if Blank(old(outbox)[name]) then old(attempts) else old(attempts) - {name}
      ensures raised ==> Tries(old(attempts), name) < 4
      ensures raised ==> Now() == old(Now()) && Transiently(log, name) && name !in archived
      ensures raised ==> Tries(old(attempts), name) + 1 < MAX_SEND_ATTEMPTS
      ensures raised ==> attempts == old(attempts)[name := Tries(old(attempts), name) + 1]
      ensures archived.Keys == old(archived).Keys + (if name in archived then {name} else {})
      ensures delivered <==> !raised && name in archived && !Blank(old(outbox)[name])
    {
      hide Drained, Archivable, Failable, GivenUp, OldestFirst, Delivered, Transiently, Oldest, Chunks, FailsAt, Strip;
      raised, delivered := false, false;
      var file := outbox[name];
      ghost var before, tries, calls := Now(), attempts, log;
      if file.Unreadable? || Strip(file.text) == "" {
        NothingSent(log, name, file, tries);
        if file.Unreadable? {
          Quarantine(name);
          QuarantinedIsDrained(before, Now(), [], tries, name);
        } else {
          Archive(name);
          ArchivedIsDrained(before, Now(), [], tries, name);
        }
        return;
      }
      var reply := Deliver(name, file.text);
      if !reply.Accepted? {
        FailedSends(calls, log, name, file, Chunks(file.text), outbox.Keys, reply, tries);
        var failures := Tries(attempts, name) + 1;
        attempts := attempts[name := failures];
        if reply.Permanent? || failures >= MAX_SEND_ATTEMPTS {
          Quarantine(name);
          QuarantinedIsDrained(before, Now(), log[|calls|..], tries, name);
          assert attempts == tries - {name};
        } else {
          StaysIsDrained(before, log[|calls|..], tries);
          raised := true;
        }
        return;
      }
      attempts := attempts - {name};
      Archive(name);
      GoodSends(calls, log, name, file, before.queue.Keys);
      ArchivedIsDrained(before, Now(), log[|calls|..], tries, name);
      delivered := true;
    }

    /** One turn of the loop, seen from the start of the pump. */
    method PumpNext(rest: seq<string>, ghost before: Folders, ghost start: seq<Send>, ghost tries: map<string, nat>,
                    ghost delivered: set<string>)
      returns (raised: bool, delivering: bool)
      requires rest != [] && Pumping(before, Now(), start, log, tries, attempts, rest, false)
      requires Counted(before, Now(), delivered)
      modifies this`outbox, this`archived, this`failed, this`attempts, this`log
      ensures Pumping(before, Now(), start, log, tries, attempts, if raised then rest else rest[1..], raised)
      ensures Counted(before, Now(), if delivering then delivered + {rest[0]} else delivered)
      ensures delivering ==> rest[0] !in delivered
    {
      hide Pumping, Counted, Folders.Apart, Folders.Everything, Drained, Transiently, Oldest;
      PumpingHead(before, Now(), start, log, tries, attempts, rest);
      ghost var mid, midTries, midLog := Now(), attempts, log;
      raised, delivering := PumpOne(rest[0]);
      PumpingOn(before, mid, Now(), start, midLog, log, tries, midTries, attempts, rest, raised);
      CountedOn(before, mid, Now(), delivered, rest[0], delivering);
    }

    /** Drain the queue as it was listed: everything listed leaves, in order, unless the head fails transiently
        or a signal to stop comes, after so many files; every raise takes a try away for good. */
    method PumpOutbox(signal: Option<nat>) returns (sent: nat, raised: bool, ghost delivered: set<string>)
      requires Now().Apart()
      modifies this`outbox, this`archived, this`failed, this`attempts, this`log, this`stopping
      ensures old(log) <= log && Drained(old(Now()), Now(), log[|old(log)|..], old(attempts))
      ensures !old(chatBound) ==> !raised && sent == 0 && Now() == old(Now())
      ensures !old(chatBound) ==> log == old(log) && attempts == old(attempts)
      ensures old(chatBound) && !raised && !old(stopping) ==>
        |old(outbox)| - |outbox| == if signal.Some? && signal.value < |old(outbox)| then signal.value else |old(outbox)|
      ensures old(chatBound) && !raised && !old(stopping) && signal.None? ==> outbox == map[]
      ensures old(stopping) ==> !raised && Now() == old(Now()) && log == old(log) && attempts == old(attempts)
      ensures stopping ==> old(stopping) || signal.Some?
      ensures raised ==> exists head :: head in outbox && Oldest(head, outbox.Keys) && Transiently(log, head)
      ensures raised ==> Weight(outbox.Keys, attempts) < Weight(old(outbox).Keys, old(attempts))
      ensures !raised ==> Weight(outbox.Keys, attempts) <= Weight(old(outbox).Keys, old(attempts))
      ensures sent == |delivered|
      ensures Counted(old(Now()), Now(), delivered)
    {
      hide Pumping, Counted, Folders.Apart, Folders.Everything, Drained, Transiently, Strip, Weight, Oldest;
      sent, raised, delivered := 0, false, {};
      ghost var before, tries, start := Now(), attempts, log;
      NothingDrained(before, log, tries);
      NoneCounted(before);
      if !chatBound {
        return;
      }
      var listing := Sorted(outbox.Keys);
      PumpingStarts(before, start, tries, listing);
      // A pump that begins stopped breaks off at its first file.
      if stopping {
        return;
      }
      assert listing[0..] == listing;
      var rest;
      sent, raised, rest, delivered := PumpListed(listing, signal, before, start, tries);
      PumpingEnds(before, Now(), start, log, tries, attempts, rest, raised);
    }

    /** The loop over the listing: what is left of it when it ends, breaks off or raises. */
    method PumpListed(listing: seq<string>, signal: Option<nat>, ghost before: Folders, ghost start: seq<Send>,
                      ghost tries: map<string, nat>)
      returns (sent: nat, raised: bool, rest: seq<string>, ghost delivered: set<string>)
      requires Pumping(before, Now(), start, log, tries, attempts, listing, false) && Counted(before, Now(), {})
      requires !stopping
      modifies this`outbox, this`archived, this`failed, this`attempts, this`log, this`stopping
      ensures Pumping(before, Now(), start, log, tries, attempts, rest, raised)
      ensures Counted(before, Now(), delivered) && sent == |delivered|
      ensures !raised ==>
        |listing| - |rest| == if signal.Some? && signal.value < |listing| then signal.value else |listing|
      ensures stopping ==> signal.Some?
    {
      hide Pumping, Counted, Folders.Apart, Folders.Everything, Drained, Transiently, Strip, Weight, Oldest;
      sent, raised, delivered := 0, false, {};
      var i := 0;
      assert listing[0..] == listing;
      while i < |listing| && !raised
        invariant 0 <= i <= |listing| && (raised ==> i < |listing|)
        invariant Pumping(before, Now(), start, log, tries, attempts, listing[i..], raised)
        invariant sent == |delivered| && Counted(before, Now(), delivered)
        invariant !stopping && (signal.Some? ==> i <= signal.value)
        decreases |listing| - i, !raised
      {
        if signal == Some(i) { stopping := true; }
        if stopping { break; }
        assert listing[i..][0] == listing[i] && listing[i..][1..] == listing[i + 1..];
        var delivering;
        raised, delivering := PumpNext(listing[i..], before, start, tries, delivered);
        if delivering { sent, delivered := sent + 1, delivered + {listing[i]}; }
        if !raised { i := i + 1; }
      }
      rest := listing[i..];
    }
  }

  /** Where the loop stands: the rest of the listing is the queue, everything before it was drained, and
      only a head that raised has been tried more than before. */
  ghost predicate Pumping(before: Folders, now: Folders, start: seq<Send>, log: seq<Send>, tries: map<string, nat>,
                          attempts: map<string, nat>, rest: seq<string>, raised: bool) {
    && Ascending(rest) && now.queue.Keys == Members(rest) && before.Apart()
    && start <= log && Drained(before, now, log[|start|..], tries)
    && (raised ==> rest != [] && Transiently(log, rest[0]))
    && (raised ==> Tries(attempts, rest[0]) == Tries(tries, rest[0]) + 1 < MAX_SEND_ATTEMPTS)
    && (forall x :: x in now.queue && !(raised && x == rest[0]) ==> Tries(attempts, x) == Tries(tries, x))
  }

  lemma PumpingStarts(before: Folders, start: seq<Send>, tries: map<string, nat>, listing: seq<string>)
    requires before.Apart() && Ascending(listing) && forall x :: x in listing <==> x in before.queue
    ensures Pumping(before, before, start, start, tries, tries, listing[0..], false)
    ensures Counted(before, before, {}) && |listing| == |before.queue|
  {
    MembersCount(listing);
    assert Members(listing) == before.queue.Keys;
  }

  lemma {:induction false} MembersCount(names: seq<string>)
    requires Ascending(names)
    ensures |Members(names)| == |names|
  {
    hide Less;
    if names != [] {
      assert names[0..] == names;
      ListedNext(names, 0);
      MembersCount(names[1..]);
    }
  }

  lemma PumpingHead(before: Folders, now: Folders, start: seq<Send>, log: seq<Send>, tries: map<string, nat>,
                    attempts: map<string, nat>, rest: seq<string>)
    requires Pumping(before, now, start, log, tries, attempts, rest, false) && rest != []
    ensures rest[0] in now.queue && Oldest(rest[0], now.queue.Keys) && now.Apart()
  {
  }

  lemma PumpingOn(before: Folders, mid: Folders, now: Folders, start: seq<Send>, midLog: seq<Send>, log: seq<Send>,
                  tries: map<string, nat>, midTries: map<string, nat>, attempts: map<string, nat>,
                  rest: seq<string>, raised: bool)
    requires Pumping(before, mid, start, midLog, tries, midTries, rest, false) && rest != []
    requires midLog <= log && Drained(mid, now, log[|midLog|..], midTries)
    requires !raised ==> now.queue == mid.queue - {rest[0]}
    requires !raised ==> attempts == midTries || attempts == midTries - {rest[0]}
    requires raised ==> now == mid && Transiently(log, rest[0])
    requires raised ==> Tries(midTries, rest[0]) + 1 < MAX_SEND_ATTEMPTS
    requires raised ==> attempts == midTries[rest[0] := Tries(midTries, rest[0]) + 1]
    ensures Pumping(before, now, start, log, tries, attempts, if raised then rest else rest[1..], raised)
  {
    hide Folders.Apart, Drained, Transiently, Less;
    DrainedOn(before, mid, now, midLog[|start|..], log[|midLog|..], tries, midTries);
    assert midLog[|start|..] + log[|midLog|..] == log[|start|..];
    assert rest[0..] == rest;
    ListedNext(rest, 0);
    assert rest[0] in mid.queue.Keys;
  }

  lemma PumpingEnds(before: Folders, now: Folders, start: seq<Send>, log: seq<Send>, tries: map<string, nat>,
                    attempts: map<string, nat>, rest: seq<string>, raised: bool)
    requires Pumping(before, now, start, log, tries, attempts, rest, raised)
    ensures start <= log && Drained(before, now, log[|start|..], tries)
    ensures |now.queue| == |rest| && (rest == [] ==> now.queue == map[])
    ensures raised ==> rest[0] in now.queue && Oldest(rest[0], now.queue.Keys) && Transiently(log, rest[0])
    ensures raised ==> Weight(now.queue.Keys, attempts) < Weight(before.queue.Keys, tries)
    ensures !raised ==> Weight(now.queue.Keys, attempts) <= Weight(before.queue.Keys, tries)
  {
    hide Folders.Apart, Transiently, Weight, Oldest;
    MembersCount(rest);
    if rest != [] {
      assert rest[0..] == rest;
      ListedNext(rest, 0);
    }
    Lighter(before.queue.Keys, now.queue.Keys, tries, attempts, raised, if raised then rest[0] else "");
  }

  predicate Oldest(name: string, queued: set<string>) {
    forall m :: m in queued && m != name ==> Less(name, m)
  }

  /** The last call was for this file and failed transiently. */
  predicate Transiently(log: seq<Send>, name: string) {
    log != [] && log[|log| - 1].name == name && log[|log| - 1].reply == Transient
  }

  ghost predicate AllOldestFirst(sends: seq<Send>) {
    forall i :: 0 <= i < |sends| ==> OldestFirst(sends[i])
  }

  lemma NothingSent(log: seq<Send>, name: string, file: File, attempts: map<string, nat>)
    ensures log[|log|..] == [] && AllOldestFirst([])
    ensures file.Unreadable? ==> Failable(name, file, [], attempts)
    ensures Blank(file) ==> Archivable(name, file, [])
  {
  }

  lemma FailedSends(before: seq<Send>, log: seq<Send>, name: string, file: File, chunks: seq<string>,
                    queued: set<string>, reply: Reply, attempts: map<string, nat>)
    requires exists k :: FailsAt(log, before, name, chunks, queued, reply, k)
    requires Oldest(name, queued) && !reply.Accepted?
    ensures before <= log && AllOldestFirst(log[|before|..])
    ensures reply.Permanent? || Tries(attempts, name) + 1 >= MAX_SEND_ATTEMPTS ==>
      Failable(name, file, log[|before|..], attempts)
    ensures reply.Transient? ==> Transiently(log, name)
  {
    var k :| FailsAt(log, before, name, chunks, queued, reply, k);
    var sends := log[|before|..];
    assert sends == Sends(name, chunks[..k], queued) + [Send(name, chunks[k], reply, queued)];
    assert sends[k] == Send(name, chunks[k], reply, queued);
  }

  lemma GoodSends(before: seq<Send>, log: seq<Send>, name: string, file: File, queued: set<string>)
    requires file.Message? && log == before + Sends(name, Chunks(file.text), queued)
    requires Oldest(name, queued)
    ensures before <= log && AllOldestFirst(log[|before|..]) && Archivable(name, file, log[|before|..])
  {
    hide Chunks;
    assert log[|before|..] == [] + Sends(name, Chunks(file.text), queued);
    DeliveredLast([], name, file.text, queued);
  }

  lemma StaysIsDrained(before: Folders, sends: seq<Send>, attempts: map<string, nat>)
    requires before.Apart() && AllOldestFirst(sends)
    ensures Drained(before, before, sends, attempts)
  {
  }

  lemma QuarantinedIsDrained(before: Folders, after: Folders, sends: seq<Send>, attempts: map<string, nat>,
                             name: string)
    requires before.Apart() && name in before.queue
    requires after == before.(queue := before.queue - {name}, failed := before.failed[name := before.queue[name]])
    requires AllOldestFirst(sends)
    requires Failable(name, before.queue[name], sends, attempts)
    ensures Drained(before, after, sends, attempts)
  {
    assert after.Everything() == before.Everything();
  }

  lemma ArchivedIsDrained(before: Folders, after: Folders, sends: seq<Send>, attempts: map<string, nat>, name: string)
    requires before.Apart() && name in before.queue
    requires after == before.(queue := before.queue - {name}, archive := before.archive[name := before.queue[name]])
    requires AllOldestFirst(sends)
    requires Archivable(name, before.queue[name], sends)
    ensures Drained(before, after, sends, attempts)
  {
    assert after.Everything() == before.Everything();
  }

  lemma NothingDrained(before: Folders, log: seq<Send>, attempts: map<string, nat>)
    requires before.Apart()
    ensures log[|log|..] == [] && Drained(before, before, [], attempts)
  {
  }

  /** These are the files this pump delivered: out of the queue, into the archive, not blank. */
  ghost predicate Counted(before: Folders, now: Folders, delivered: set<string>) {
    && (forall x :: x in now.queue ==> x in before.queue && now.queue[x] == before.queue[x])
    && (forall n :: n in delivered <==> n in before.queue && n in now.archive && !Blank(before.queue[n]))
  }

  lemma NoneCounted(before: Folders)
    requires before.Apart()
    ensures Counted(before, before, {})
  {
  }

  lemma CountedOn(before: Folders, mid: Folders, now: Folders, delivered: set<string>, name: string, delivering: bool)
    requires Counted(before, mid, delivered) && mid.Apart() && name in mid.queue
    requires now.queue == mid.queue || now.queue == mid.queue - {name}
    requires now.archive.Keys == mid.archive.Keys + (if name in now.archive then {name} else {})
    requires name in now.archive ==> now.queue == mid.queue - {name}
    requires delivering <==> name in now.archive && !Blank(mid.queue[name])
    ensures name !in delivered
    ensures Counted(before, now, if delivering then delivered + {name} else delivered)
  {
  }

  function Members(names: seq<string>): set<string> {
    set x | x in names
  }

  lemma ListedNext(listing: seq<string>, i: nat)
    requires Ascending(listing) && i < |listing|
    ensures listing[i] in Members(listing[i..]) && Oldest(listing[i], Members(listing[i..]))
    ensures Members(listing[i..]) - {listing[i]} == Members(listing[i + 1..])
  {
    hide Less;
    LessIrreflexive(listing[i]);
    assert listing[i..] == [listing[i]] + listing[i + 1..];
    forall x | x in listing[i + 1..] ensures Less(listing[i], x) {
      var k :| 0 <= k < |listing| - i - 1 && listing[i + 1..][k] == x;
      assert listing[i + 1 + k] == x;
    }
  }

  /** Two stretches of draining are one. */
  lemma DrainedOn(a: Folders, b: Folders, c: Folders, s: seq<Send>, t: seq<Send>, first: map<string, nat>,
                  second: map<string, nat>)
    requires a.Apart() && Drained(a, b, s, first) && Drained(b, c, t, second)
    requires forall x :: x in b.queue ==> Tries(second, x) == Tries(first, x)
    ensures Drained(a, c, s + t, first)
  {
    hide Delivered, GivenUp, OldestFirst;
    forall n | n in c.archive && n !in a.archive ensures Archivable(n, c.archive[n], s + t) {
      ArchivableOn(a, b, c, s, t, n);
    }
    forall n | n in c.failed && n !in a.failed ensures Failable(n, c.failed[n], s + t, first) {
      FailableOn(a, b, c, s, t, first, second, n);
    }
  }

  lemma SameFile(b: Folders, c: Folders, n: string)
    requires b.Apart() && c.Apart() && b.Everything() == c.Everything()
    ensures n in b.archive && n in c.archive ==> b.archive[n] == c.archive[n]
    ensures n in b.failed && n in c.failed ==> b.failed[n] == c.failed[n]
  {
  }

  lemma ArchivableOn(a: Folders, b: Folders, c: Folders, s: seq<Send>, t: seq<Send>, n: string)
    requires b.Apart() && c.Apart() && b.Everything() == c.Everything()
    requires n in c.archive && n !in a.archive
    requires n in b.archive ==> n in b.archive && Archivable(n, b.archive[n], s)
    requires n !in b.archive ==> Archivable(n, c.archive[n], t)
    ensures Archivable(n, c.archive[n], s + t)
  {
    hide Delivered;
    SameFile(b, c, n);
    var file := c.archive[n];
    if file.Message? && !Blank(file) {
      if n in b.archive { DeliveredStays(s, t, n, file.text); } else { DeliveredLater(s, t, n, file.text); }
    }
  }

  lemma DeliveredLater(log: seq<Send>, more: seq<Send>, name: string, text: string)
    requires Delivered(more, name, text)
    ensures Delivered(log + more, name, text)
  {
    var j, queued :| DeliveredAt(more, name, text, j, queued);
    var n := |Chunks(text)|;
    assert (log + more)[|log| + j..|log| + j + n] == more[j..j + n];
    assert DeliveredAt(log + more, name, text, |log| + j, queued);
  }

  lemma FailableOn(a: Folders, b: Folders, c: Folders, s: seq<Send>, t: seq<Send>,
                   first: map<string, nat>, second: map<string, nat>, n: string)
    requires b.Apart() && c.Apart() && b.Everything() == c.Everything() && c.queue.Keys <= b.queue.Keys
    requires n in c.failed && n !in a.failed
    requires forall x :: x in b.queue ==> Tries(second, x) == Tries(first, x)
    requires n in b.failed ==> Failable(n, b.failed[n], s, first)
    requires n !in b.failed ==> n in b.queue && Failable(n, c.failed[n], t, second)
    ensures Failable(n, c.failed[n], s + t, first)
  {
    SameFile(b, c, n);
    if !c.failed[n].Unreadable? {
      if n in b.failed {
        var i :| 0 <= i < |s| && s[i].name == n && GivenUp(s[i], first);
        assert (s + t)[i] == s[i];
      } else {
        var i :| 0 <= i < |t| && t[i].name == n && GivenUp(t[i], second);
        assert (s + t)[|s| + i] == t[i];
      }
    }
  }

  lemma Lighter(whole: set<string>, part: set<string>, before: map<string, nat>, after: map<string, nat>,
                raised: bool, head: string)
    requires part <= whole
    requires raised ==> head in part && Tries(after, head) == Tries(before, head) + 1 < MAX_SEND_ATTEMPTS
    requires forall x :: x in part && !(raised && x == head) ==> Tries(after, x) == Tries(before, x)
    ensures Weight(part, after) <= Weight(whole, before)
    ensures raised ==> Weight(part, after) < Weight(whole, before)
  {
    if raised {
      WeightDrops(part, whole, head, before, after);
    } else {
      WeightShrinks(part, before, after);
      WeightOfPart(part, whole, before);
    }
  }
}
