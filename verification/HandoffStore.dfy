/** tools/collabkit/store.py and locking.py: one handoff id, four state directories, one lock file,
    and any number of claim, complete and archive calls stepping in any order. A call may die between
    any two steps; a dead holder's lock file stays. Renaming is not assumed to be exclusive. */
module HandoffStore {
  import opened Wrappers
  import opened Text
  import opened Seats
  import opened HandoffModel
  import opened HandoffReload

  datatype Dir = Pending | Claimed | Finished | Archived

  function DirName(d: Dir): string {
    match d
    case Pending => "pending"
    case Claimed => "claimed"
    case Finished => "done"
    case Archived => "archive"
  }

  function Rank(d: Dir): nat {
    match d
    case Pending => 0
    case Claimed => 1
    case Finished => 2
    case Archived => 3
  }

  predicate Allowed(source: Dir, target: Dir) {
    || (source == Pending && (target == Claimed || target == Finished))
    || (source == Claimed && target == Finished)
    || (source == Finished && target == Archived)
  }

  datatype Verb = Claim(claimant: string) | Complete(note: string, finisher: string) | Archive

  function Target(verb: Verb): Dir {
    match verb
    case Claim(_) => Claimed
    case Complete(_, _) => Finished
    case Archive => Archived
  }

  const SEARCH_SIZE := 4

  /** The state directories in the order find looks through them. */
  function SearchAt(verb: Verb, at: nat): Dir
    requires at < SEARCH_SIZE
  {
    (if verb.Archive? then [Finished, Archived, Claimed, Pending] else [Pending, Claimed, Finished, Archived])[at]
  }

  /** The check each verb makes on the status find reported. */
  predicate Accepts(verb: Verb, d: Dir) {
    match verb
    case Claim(_) => d == Pending
    case Complete(_, _) => d != Finished && d != Archived
    case Archive => d == Finished
  }

  // A record as find returned it, and the directory it was read from.
  datatype Found = Found(h: Handoff, dir: Dir)

  datatype Outcome = Succeeded | Missing | Conflict | TimedOut | Failed

  datatype Pc =
    | Looking(at: nat, vanished: bool)                      // is_file, directory by directory
    | Opening(at: nat, vanished: bool)                      // is_file said yes, load is next
    | Scanning(at: nat, hits: seq<Found>, vanished: bool)   // the fallback over iter_state
    | Chosen(f: Found)
    | Waiting(f: Found)                                     // in FileLock.acquire
    | Holding(f: Found)                                     // lock file created
    | Checked(f: Found)                                     // source.is_file() said yes
    | Renaming(f: Found)                                    // os.rename found the source
    | Losing(outcome: Outcome)                              // raising, lock still held
    | Moved(f: Found)                                       // os.rename returned, lock still held
    | Writing(f: Found)                                     // lock released, _rewrite to come
    | Returned(outcome: Outcome)
    | Dead

  datatype Call = Call(verb: Verb, pc: Pc)

  datatype World = World(
    files: map<Dir, string>,
    lock: Option<nat>,         // the call that created the lock file
    calls: seq<Call>,
    movers: seq<nat>)          // history: the calls whose rename out of pending returned

  datatype Action =
    | Probe | Open | OpenFails | Scan | ScanMisses | Resolve | Guard
    | Acquire | TimeOut | Check
    | Rename | RenameRefused | RenameFails | RenameReturns
    | Release | Rewrite(now: string) | RewriteFails | Crash

  datatype Step = Invoke(verb: Verb) | Act(p: nat, action: Action)

  /** The bookkeeping of each verb, with the status its rename gave the record. */
  function Stamp(host: Host, verb: Verb, h: Handoff, now: string): Handoff {
    var moved := h.(status := DirName(Target(verb)));
    match verb
    case Claim(claimant) =>
      var seat := Canonical(host.aliases, claimant, "");
      moved.(claimedBy := Some(if seat == "" then h.recipient else seat), claimedAt := Some(now))
    case Complete(note, finisher) =>
      var noted := if note == "" then moved else moved.(note := Some(note));
      noted.(doneAt := Some(now),
             claimedBy := if finisher != "" && (h.claimedBy == None || h.claimedBy == Some(""))
                          then Some(Canonical(host.aliases, finisher, "")) else h.claimedBy)
    case Archive => moved
  }

  /** The process is between creating the lock file and removing it. */
  predicate InLock(pc: Pc) {
    pc.Holding? || pc.Checked? || pc.Renaming? || pc.Losing? || pc.Moved?
  }

  predicate Over(pc: Pc) {
    pc.Returned? || pc.Dead?
  }

  function LoadFrom(host: Host, id: string, files: map<Dir, string>, d: Dir): Option<Handoff>
    requires d in files
  {
    Load(host, files[d], id, DirName(d))
  }

  predicate Readable(host: Host, id: string, w: World, d: Dir) {
    d in w.files && LoadFrom(host, id, w.files, d).Some?
  }

  predicate Can(host: Host, id: string, w: World, call: Call, action: Action) {
    var pc := call.pc;
    match action
    case Probe => pc.Looking? && pc.at <= SEARCH_SIZE
    case Open => pc.Opening? && pc.at < SEARCH_SIZE && Readable(host, id, w, SearchAt(call.verb, pc.at))
    case OpenFails => pc.Opening?
    case Scan => pc.Scanning? && pc.at < SEARCH_SIZE && Readable(host, id, w, SearchAt(call.verb, pc.at))
    case ScanMisses => pc.Scanning? && pc.at < SEARCH_SIZE
    case Resolve => pc.Scanning? && pc.at == SEARCH_SIZE
    case Guard => pc.Chosen?
    case Acquire => pc.Waiting? && w.lock.None?
    case TimeOut => pc.Waiting?
    case Check => pc.Holding?
    case Rename => pc.Checked?
    case RenameRefused => pc.Checked? && Target(call.verb) in w.files
    case RenameFails => pc.Checked?
    case RenameReturns => pc.Renaming?
    case Release => pc.Losing? || pc.Moved?
    case Rewrite(_) => pc.Writing?
    case RewriteFails => pc.Writing?
    case Crash => !Over(pc)
  }

  /** Where the call stands after the action. */
  function NextPc(host: Host, id: string, w: World, call: Call, action: Action): Pc
    requires Can(host, id, w, call, action)
  {
    var pc := call.pc;
    match action
    case Probe =>
      if pc.at == SEARCH_SIZE then Scanning(0, [], pc.vanished)
      else if SearchAt(call.verb, pc.at) in w.files then Opening(pc.at, pc.vanished)
      else Looking(pc.at + 1, pc.vanished)
    case Open =>
      var d := SearchAt(call.verb, pc.at);
      Chosen(Found(LoadFrom(host, id, w.files, d).value, d))
    case OpenFails => Looking(pc.at + 1, true)
    case Scan =>
      var d := SearchAt(call.verb, pc.at);
      Scanning(pc.at + 1, pc.hits + [Found(LoadFrom(host, id, w.files, d).value, d)], pc.vanished)
    case ScanMisses => Scanning(pc.at + 1, pc.hits, pc.vanished)
    case Resolve =>
      if pc.hits == [] then Returned(if pc.vanished then Conflict else Missing)
      else if |pc.hits| == 1 then Chosen(pc.hits[0])
      else Returned(Conflict)
    case Guard =>
      if Accepts(call.verb, pc.f.dir) && Allowed(pc.f.dir, Target(call.verb)) then Waiting(pc.f) else Returned(Conflict)
    case Acquire => Holding(pc.f)
    case TimeOut => Returned(TimedOut)
    case Check => if pc.f.dir in w.files then Checked(pc.f) else Losing(Conflict)
    case Rename => if pc.f.dir in w.files then Renaming(pc.f) else Losing(Conflict)
    case RenameRefused => Losing(Conflict)
    case RenameFails => Losing(Failed)
    case RenameReturns => Moved(pc.f)
    case Release => if pc.Losing? then Returned(pc.outcome) else Writing(pc.f)
    case Rewrite(_) => Returned(Succeeded)
    case RewriteFails => Returned(Succeeded)
    case Crash => Dead
  }

  /** What the action leaves in the directories. A rename that returns after somebody else moved the
      file reports success and moves nothing. */
  function NextFiles(host: Host, w: World, call: Call, action: Action): map<Dir, string> {
    if action.RenameReturns? && call.pc.Renaming? && call.pc.f.dir in w.files then
      (w.files - {call.pc.f.dir})[Target(call.verb) := w.files[call.pc.f.dir]]
    else if action.Rewrite? && call.pc.Writing? then
      w.files[Target(call.verb) := Render(host, Stamp(host, call.verb, call.pc.f.h, action.now), action.now)]
    else w.files
  }

  predicate Enabled(host: Host, id: string, w: World, step: Step) {
    match step
    case Invoke(_) => true
    case Act(p, action) => p < |w.calls| && Can(host, id, w, w.calls[p], action)
  }

  function Take(host: Host, id: string, w: World, step: Step): World
    requires Enabled(host, id, w, step)
  {
    match step
    case Invoke(verb) => w.(calls := w.calls + [Call(verb, Looking(0, false))])
    case Act(p, action) =>
      var call := w.calls[p];
      World(
        NextFiles(host, w, call, action),
        if action.Acquire? then Some(p) else if action.Release? then None else w.lock,
        w.calls[p := Call(call.verb, NextPc(host, id, w, call, action))],
        if action.RenameReturns? && call.pc.f.dir == Pending then w.movers + [p] else w.movers)
  }

  /** before leads to after by these steps. */
  ghost predicate Runs(host: Host, id: string, before: World, steps: seq<Step>, after: World)
    decreases |steps|
  {
    if steps == [] then after == before
    else
      var front, last := steps[..|steps| - 1], steps[|steps| - 1];
      exists mid :: Runs(host, id, before, front, mid) && StepTo(host, id, mid, last, after)
  }

  ghost predicate StepTo(host: Host, id: string, before: World, step: Step, after: World) {
    Enabled(host, id, before, step) && after == Take(host, id, before, step)
  }

  /** The file create writes and nothing else. */
  function Created(host: Host, h: Handoff): World {
    World(map[Pending := Render(host, h, h.created)], None, [], [])
  }
}
