# Verification of the collab kit and the paper-trading engine

A Dafny model of the parts of the repository whose state survives crashes, whose processes
interleave, or whose compact form has to agree with a simple one. Check it with
`dafny verify dfyconfig.toml`.

| files | models |
|---|---|
| Wrappers, Text, Order | shared: options, Python's string operations, the order of a sorted listing |
| Frontmatter, FrontmatterLoops, FrontmatterScalars, FrontmatterRoundTrip, FrontmatterNumerals, FrontmatterByHand | the printer and parser of handoff headers, and headers written by hand |
| Seats, HandoffModel, HandoffReload, HandoffHeaders | the handoff record, what it is written as, what a reader gets back |
| HandoffStore, HandoffStoreProofs, HandoffStoreSolo, HandoffVerbs, HandoffRecords | claim, complete and archive over four directories and a lock file: every interleaving, the runs without overlap, the verbs of one process, and what they leave on record |
| Zone, MarketCalendar, MarketCalendarDays, MarketCalendarProofs | wall-clock sessions in a zone with transitions, which days trade and when, and the boundary search |
| Schedule, ScheduleProofs, ScheduleAnswers, TickIds, TickIdsExactly | the fixed-rate schedule and the numbers in tick ids |
| Receipts, ReceiptProofs, ReceiptViews | the receipt log |
| CycleWorker, CycleFence, CycleFenceExactly, CycleBlocks, CycleTicks | the cycle worker over durable steps, what holds an entry phase back and what does not, and the schedule that drives it |
| MessageSplit, Outbox | the Telegram bridge: chunking and the outbox drain |
| StopFence, RecoveryLatch, RecoveryGates | stopping a paper day while another session may take the lock; the gate and lock files and the recovery mark through whole start, stop and recover invocations |

How the pieces are stated:

* Loops and objects that change in place are methods and classes here (`FixedRateSchedule`,
  `ReceiptStore`, `Store`, `Bridge`, `Controller`, `PaperDay`, and the loops of frontmatter, the
  schedule, `to_meta` and the splitter); each is proved equal to a function, or states its whole new
  state, and the laws are lemmas about those functions. Where the point is what happens between two
  writes, or between two processes, the code is a transition system with one step per write: the
  cycle worker and the handoff store. `HandoffVerbs.VerbIsARun` ties the two forms of the store
  together.
* Python's `int()`, `float()`, `int(_, 16)`, `repr` of a float and `str()` are fields of a record a
  theorem quantifies over; `Faithful` and `Sane` say what is needed of them, and
  `FrontmatterNumerals.PlainIsFaithful` and `HandoffReload.PlainHostIsSane` show it can be met.
* A replay, a client, another process or another session is a choice the model leaves open. What the broker,
  the engine and the files around `stop()` would answer is a value its contract quantifies over, so that
  what it does with each answer is stated.

Where the code does less than its documentation says, the model follows the code, and the difference
is a theorem with its exact condition:

* `frontmatter.dumps` promises that `parse` gives the dict back. It does exactly when no value is a nan
  or an infinity and no present key is pinned twice in the key order (`MetadataRoundTrip`).
* `next_boundary` is the next change of `is_open` exactly when no session straddles an instant at which
  the local date has gone back (`NextBoundaryExactly`); a calendar the constructor accepts fails it
  (`BoundariesCanBeWrong`), and it suffices that no clock falls back by more than the opening time of day
  (`SmallFallsKeepSessions`).
* With every window open, tick numbers increase on every run exactly when each cadence is a multiple of
  the fastest (`IncreaseExactlyForMultiples`); whatever the windows do, exactly when all cadences are
  equal (`IncreaseExactlyForEqual`).
* An entry phase can run with an earlier tick open on disk, exactly when that tick's last receipt is its
  TICK_STARTED (`EntryEscapesExactly`): its `acknowledge` had raised, it was aborted and left pending, and
  its replay reached the broker and died there. `AbortedReplayEscapesTheFence` is such a run.
* Seats survive a rewrite exactly when no alias leads to another alias's name (`CanonicalIsStable`); an
  override such as `builder=reviewer` breaks it.
* A rewrite runs after the lock is released. In any run the handoff is in exactly one directory throughout
  exactly when every rewrite finds its file where its rename put it (`OnePlaceExactlyWhen`); a claim and
  a complete that overlap break it (`OverlapDuplicates`).
* A text split for Telegram contains an empty chunk exactly where a blank line is followed by a line within
  one character of the limit (`EmptyPieceExactly`), and such texts exist at every limit.
* A start is meant to mark a session that died with its gate open. It does exactly when it gets past its
  configuration or finds ticks it cannot account for (`DiedOpenIsMarkedExactlyWhen`); a start whose
  configuration fails closes the gate without the mark, and the start after it has nothing left to see
  (`ConfigurationFailureForgets`).

## Model

| member | source | states |
|---|---|---|
| FrontmatterScalars.PassesEscapeEachCharacter | tools/collabkit/frontmatter.py:361-377 | the sequential replacement passes of the quoting code are one escape per character, on every string |
| FrontmatterScalars.UnescapeEscape | tools/collabkit/frontmatter.py:266-300 | unescaping inverts that escape on every string, control characters included |
| FrontmatterScalars.ScalarRoundTrip | tools/collabkit/frontmatter.py:209-262 | what is written for a scalar is read back as that scalar, whatever it looks like; a nan or infinity comes back as its text |
| FrontmatterScalars.RenderShape | tools/collabkit/frontmatter.py:336-358 | every rendered scalar is one line, keeps under strip, and is never mistaken for a list or mapping |
| FrontmatterRoundTrip.ParseHeader | tools/collabkit/frontmatter.py:113-162 | printed entries are parsed back one by one, block lists included, and a repeated key is refused |
| FrontmatterRoundTrip.ParseAssembled | tools/collabkit/frontmatter.py:70-103 | reading a header and a tail: the delimiters are found, the header is parsed alone, the tail is the body |
| FrontmatterRoundTrip.DocumentRoundTrip | tools/collabkit/frontmatter.py:70-325 | parse of dumps is the reread entries in written order and the normalised, trimmed body with one newline; the only failure is a key pinned twice |
| FrontmatterRoundTrip.MetadataRoundTrip | tools/collabkit/frontmatter.py:28-31 | the dict comes back equal if and only if it holds no nan or infinity and no present key is pinned twice |
| FrontmatterRoundTrip.OrderedDistinct | tools/collabkit/frontmatter.py:303-325 | the written order repeats a key exactly when a present key is pinned twice |
| FrontmatterRoundTrip.CanonicalForm | tools/collabkit/frontmatter.py:303-377 | printing what was read from a printed document gives the identical text |
| FrontmatterLoops.UnescapeDouble | tools/collabkit/frontmatter.py:266-300 | the loop over an escaped text computes the recursive unescaping, errors included |
| FrontmatterLoops.SplitOnCommas | tools/collabkit/frontmatter.py:185-206 | the loop splits on commas outside quotes only |
| FrontmatterLoops.ParseBlock | tools/collabkit/frontmatter.py:113-162 | the line loop with its pending key and its bare keys computes the block the proofs are about |
| FrontmatterLoops.ParseText | tools/collabkit/frontmatter.py:70-103 | the delimiter search loop and the body are those of the round-trip theorem |
| FrontmatterLoops.OrderItems | tools/collabkit/frontmatter.py:303-325 | pinned keys that are present first, then the others in their order |
| FrontmatterLoops.Dumps | tools/collabkit/frontmatter.py:303-325 | the printed text is the one the round-trip theorem reads |
| FrontmatterByHand.SplitExactly | tools/collabkit/frontmatter.py:185-206 | an inline list is split, for every text, into the one sequence of pieces that joined by commas is the text and is cut exactly at its commas outside quotes |
| FrontmatterByHand.CommentIsDropped | tools/collabkit/frontmatter.py:209-253 | an unquoted value reads the same with any comment after it, and a `#` inside a word is part of it |
| FrontmatterByHand.SingleQuotesRead | tools/collabkit/frontmatter.py:256-263 | any text in single quotes, its own doubled, reads as itself |
| FrontmatterByHand.WordsRead | tools/collabkit/frontmatter.py:225-246 | the words for null and the booleans in any case, then numbers, and a text otherwise |
| FrontmatterByHand.PlainTextIsBare | tools/collabkit/frontmatter.py:336-358 | a plain text is printed as it stands unless it would read as something else |
| FrontmatterNumerals.PlainIsFaithful | tools/collabkit/frontmatter.py:229-246 | the number-reading hypothesis of the round trip can be met |
| Seats.CanonicalIsStable | tools/collabkit/seats.py:62-92 | a seat written back is the seat that was read, for every spelling, if and only if no alias leads to a renamed seat |
| Seats.BuiltInIsSettled | tools/collabkit/seats.py:34-57 | the built-in seat table meets that condition |
| HandoffModel.ToMeta | tools/collabkit/model.py:143-164 | filling the dict field by field gives the known fields in order, absent ones omitted, updated with the unknown keys; for any record, and plainly appended when those keys are new |
| HandoffModel.GetField | tools/collabkit/model.py:103-134 | in any dict with the written items, each known key reads as its field |
| HandoffReload.ParsedIsPrintable | tools/collabkit/frontmatter.py:70-262 | whatever the parser accepts, from any text, has distinct identifier keys and finite values, so the printer can write it back |
| HandoffReload.LoadedIsKnown | tools/collabkit/model.py:91-140 | every record that can be read at all is one whose rewrite reads back: non-empty id, title and priority, stable seats, unknown keys kept apart |
| HandoffReload.Reload | tools/collabkit/model.py:90-167 | reading what was written for such a record gives the same record, with the directory's status, stripped optional texts and the normal body |
| HandoffReload.RewriteKeepsEssence | tools/collabkit/store.py:430-443 | rewriting any readable file with new bookkeeping keeps id, recipient, sender, title, priority, collab, thread, tags, unknown keys and the normalised body |
| HandoffReload.PlainHostIsSane | tools/collabkit/model.py:90-140 | the hypotheses on Python and the seat table that the handoff theorems share can be met |
| HandoffHeaders.HeaderSays | tools/collabkit/model.py:143-167 | a written header says each field under the key of its name, and leaves out what is empty |
| HandoffHeaders.HeaderRead | tools/collabkit/model.py:90-140 | a text under a known key is read as the field of that name |
| HandoffHeaders.HeaderDefaults | tools/collabkit/model.py:103-140 | what stands in for a key that is missing or null |
| HandoffHeaders.TagsBetweenCommas | tools/collabkit/model.py:109-115 | tags written as one text are its non-blank stripped pieces between commas |
| HandoffStoreProofs.DraftIsCreatable | tools/collabkit/store.py:93-133 | every record create builds, from any arguments it accepts, meets what the theorems below ask of a created handoff |
| HandoffStoreProofs.StepKeeps | tools/collabkit/store.py:225-443 | each step of any call, death included, keeps the invariant: one lock holder, a source that stays until its holder moves it, at most one mover out of pending, every copy carrying the original |
| HandoffStoreProofs.SingleWinner | tools/collabkit/store.py:298-428 | for any number of calls in any interleaving, with a rename that is not exclusive, at most one is inside the lock, at most one rename out of pending returns, and at most one claim succeeds |
| HandoffStoreProofs.NothingIsLost | tools/collabkit/store.py:370-443 | under every interleaving and death the handoff is in some directory, and every copy reads as what its creator wrote |
| HandoffStoreProofs.ForwardOnly | tools/collabkit/store.py:72-80 | from any point of any run the handoff never re-enters pending and the furthest directory holding it never goes back |
| HandoffStoreSolo.ExactlyOnePlace | tools/collabkit/store.py:298-345 | when verbs do not overlap, even if calls die anywhere, it is in exactly one directory, and a recorded claimant never changes |
| HandoffStoreSolo.StepKeepsOnePlace | tools/collabkit/store.py:370-443 | from one directory, a step of any call leaves one directory if and only if it is not a rewrite that has lost its file |
| HandoffStoreSolo.OnePlaceExactlyWhen | tools/collabkit/store.py:298-443 | in any run, overlapping or not, the handoff is in one directory at every point if and only if every rewrite finds its file where its rename put it |
| HandoffStoreSolo.OverlapDuplicates | tools/collabkit/store.py:298-330 | a complete between a claim's rename and its rewrite leaves two copies, both calls succeeding |
| HandoffVerbs.Store.Create | tools/collabkit/store.py:93-150 | the id is the first of five minted ones not in pending/, nothing is overwritten, and it fails exactly when all five are taken |
| HandoffVerbs.Store.FindExact | tools/collabkit/store.py:235-257 | the exact name in search order, going past files that cannot be parsed and raising on a wrong type |
| HandoffVerbs.Store.Scan | tools/collabkit/store.py:188-204 | the fallback gathers every record whose id starts with the words, and raises exactly when some file is of the wrong type |
| HandoffVerbs.Store.Find | tools/collabkit/store.py:225-287 | a record, nothing, a file that vanished, an ambiguous prefix, a blank id or a raise, for every store and words |
| HandoffVerbs.Store.Transition | tools/collabkit/store.py:370-428 | moves exactly when the move is allowed, the lock is to be had, the file is there, the platform lets the name be taken and the rename works; otherwise nothing changes and the refusal says why |
| HandoffVerbs.Store.Claim | tools/collabkit/store.py:298-313 | the answer for every store, words, lock and platform; on success the new state of every file |
| HandoffVerbs.Store.Complete | tools/collabkit/store.py:315-330 | the same for completing, with the note and the claimant it may add |
| HandoffVerbs.Store.Archive | tools/collabkit/store.py:332-345 | the same for archiving |
| HandoffVerbs.VerbKeepsEssence | tools/collabkit/store.py:298-443 | a successful verb touches no other file and keeps what a reader saw in the one it moved |
| HandoffVerbs.VerbIsARun | tools/collabkit/store.py:298-443 | a verb on a handoff in one place with its lock free succeeds, and is one complete call of the interleaved model between the same directories |
| HandoffRecords.ClaimIsRecorded | tools/collabkit/store.py:298-313 | what is read back after a claim: the record as it was, claimed now by the seat the caller's spelling names, or by the recipient when it is blank; the header says claimed |
| HandoffRecords.CompletionIsRecorded | tools/collabkit/store.py:315-330 | after a complete: done now, a note that is not empty in the old one's place, the old claimant or, without one, the seat the finisher named |
| HandoffRecords.ArchiveRecordsNothing | tools/collabkit/store.py:332-345 | after an archive all four bookkeeping fields are as they were |
| HandoffRecords.FailedRewriteRecordsNothing | tools/collabkit/store.py:430-443 | when the rewrite fails the move stands and the record is the old one |
| HandoffRecords.VerbSucceedsExactly | tools/collabkit/store.py:298-428 | for a handoff in one place: which verb works from which directory, with the lock free and renaming possible, what each refusal says, and that it changes nothing |
| HandoffRecords.FindsFirst | tools/collabkit/store.py:235-257 | of several copies with the exact name find takes the least advanced, and for archive the done one first |
| HandoffRecords.PrefixDecides | tools/collabkit/store.py:259-287 | without an exact name the words name the only record whose id they start; none is not found, and two are a conflict |
| HandoffRecords.CreateRefusesExactly | tools/collabkit/store.py:93-124 | create refuses exactly a blank title, a blank recipient and an unknown priority |
| HandoffRecords.CreateIsRecorded | tools/collabkit/store.py:93-133 | what is read back after create: every field, the seats by the spellings given, the sender defaulting to the other seat |
| Zones.InstantsReading | engine/src/engine/market_calendar.py:580-623 | the instants that read a wall time are the two the fold offsets name, and none in a gap |
| MarketCalendarProofs.FoldsClassify | engine/src/engine/market_calendar.py:580-623 | comparing the fold offsets tells once, twice and never apart |
| MarketCalendarProofs.ResolveIsEarliest | engine/src/engine/market_calendar.py:580-623 | resolving gives the earliest instant with that reading and refuses exactly when there is none |
| MarketCalendarDays.LocalExactly | engine/src/engine/market_calendar.py:570-578 | the local clock reads the instant plus the offset of the last transition at or before it |
| MarketCalendarDays.SessionExactly | engine/src/engine/market_calendar.py:627-711 | a date has no session exactly on a weekend day or a holiday; is refused exactly when the clock never reads one of its edges, a collapsed session being impossible; and otherwise runs from the first instant that reads the opening time to the first that reads its own closing time |
| MarketCalendarDays.IsOpenExactly | engine/src/engine/market_calendar.py:713-728 | is_open at every instant from the calendar's lists and the local clock alone, refusals included |
| MarketCalendarDays.NextBoundaryRefuses | engine/src/engine/market_calendar.py:730-775 | next_boundary refuses exactly when today is refused, or nothing trades and no session opens later on the 367 dates it looks at |
| MarketCalendarDays.BoundaryIsAnEdge | engine/src/engine/market_calendar.py:758-775 | the boundary is an edge of the session it names: the close of the one trading, or the open of the next |
| MarketCalendarProofs.ScanFinds | engine/src/engine/market_calendar.py:730-756 | the session the date scan answers is the first that opens later |
| MarketCalendarProofs.ScanRefuses | engine/src/engine/market_calendar.py:730-756 | it refuses if and only if every date before a refused one, or before its bound, has no session still to open |
| MarketCalendarProofs.SessionsInOrder | engine/src/engine/market_calendar.py:673-711 | a later date's session lies entirely after an earlier one's |
| MarketCalendarProofs.CloseIsNextChange | engine/src/engine/market_calendar.py:758-775 | inside a session that keeps its date, trading first ends at its close |
| MarketCalendarProofs.OpenIsNextChange | engine/src/engine/market_calendar.py:758-775 | outside, nothing trades before the open the scan finds, and then it does |
| MarketCalendarProofs.NextBoundaryExactly | engine/src/engine/market_calendar.py:758-785 | the boundary is the least later instant at which is_open changes, at every instant it answers, if and only if every session keeps its local date; `IsOpenExactly` says what is_open is |
| MarketCalendarProofs.BoundariesCanBeWrong | engine/src/engine/market_calendar.py:758-785 | a calendar the constructor accepts, in a well-separated zone, for which the boundary misses a change |
| MarketCalendarProofs.SmallFallsKeepSessions | engine/src/engine/market_calendar.py:673-785 | a condition on the zone and the opening time that guarantees it |
| MarketCalendarProofs.SleepIsPositive | engine/src/engine/market_calendar.py:777-785 | the time until the next boundary is strictly positive |
| Schedule.SelectSlots | engine/src/engine/autocycle.py:464-493 | the loop over the jobs gives the late-wake selection and the advanced counters |
| Schedule.FixedRateSchedule.Due | engine/src/engine/autocycle.py:464-493 | the object's answer and new file are those `DueExactly` is about |
| Schedule.FixedRateSchedule.Acknowledge | engine/src/engine/autocycle.py:664-698 | the object's answer and new file are those `AcknowledgeExactly` is about |
| Schedule.FixedRateSchedule.ReconcilePending | engine/src/engine/autocycle.py:704-736 | the object's answer and new file are those `ReconcileExactly` is about |
| ScheduleAnswers.DueExactly | engine/src/engine/autocycle.py:464-493 | every job at or after the anchor whose counter is absent or behind is answered once, in declaration order, with its slot, time and missed count; the file then holds exactly these pending and the counters at them, and is untouched when there is none, when it cannot be read, or when a selection is pending |
| ScheduleAnswers.DueCatchesUp | engine/src/engine/autocycle.py:464-493 | over whole runs: after a due with nothing pending every job has been selected for the slot that instant is in, or a later one |
| ScheduleAnswers.ReadExactly | engine/src/engine/autocycle.py:559-654 | which files the reader accepts, check by check, and what it makes of them |
| ScheduleAnswers.AcknowledgeExactly | engine/src/engine/autocycle.py:664-698 | accepted exactly when every pending slot is named once and nothing else, in any order; then nothing is pending and the counters stay |
| ScheduleAnswers.ReconcileExactly | engine/src/engine/autocycle.py:704-736 | refused exactly when a named slot is not pending; otherwise exactly the named slots, or all, stop being pending |
| ScheduleProofs.ReadsBack | engine/src/engine/autocycle.py:559-654 | every sound state written passes every check of the reader and comes back as it was |
| ScheduleProofs.SelectJobRight | engine/src/engine/autocycle.py:464-493 | a job is selected exactly when its slot moved on, for the slot the instant is in, counting those passed over |
| ScheduleProofs.SelectionSound | engine/src/engine/autocycle.py:464-493 | a selection leaves a sound state: one pending slot a job, counters matching |
| ScheduleProofs.RunsAreSound | engine/src/engine/autocycle.py:464-736 | after any calls with any clock values and crashes the file passes the reader, and every selection is accounted for |
| ScheduleProofs.SlotConservation | engine/src/engine/autocycle.py:464-493 | a job's selected indices strictly increase, each at its own time, and selected plus missed is the whole range |
| ScheduleProofs.PendingBlocksSelection | engine/src/engine/autocycle.py:464-508 | while a selection is pending nothing is selected and nothing is written |
| ScheduleProofs.WindowThenAcknowledge | engine/src/engine/autocycle.py:876-889 | for any window, dropping the skipped jobs and acknowledging the rest never raises and empties pending |
| TickIds.TickNumbersIncrease | engine/src/engine/autocycle.py:876-909 | tick numbers strictly increase with a monotone clock, cadences that are multiples of the fastest and its window open |
| TickIdsExactly.KeptExactly | engine/src/engine/autocycle.py:876-889 | a tick is given exactly the slots of the jobs that are due and inside their window |
| TickIdsExactly.IncreaseExactlyForMultiples | engine/src/engine/autocycle.py:464-493 | with every window open tick numbers increase on every run of a monotone clock if and only if every cadence is a multiple of the fastest |
| TickIdsExactly.IncreaseExactlyForEqual | engine/src/engine/autocycle.py:876-909 | whatever the windows do they increase on every such run if and only if all cadences are equal |
| TickIds.ShutWindowRepeatsANumber | engine/src/engine/autocycle.py:876-909 | a run in which, with the fastest job's window shut, a number comes back |
| TickIds.UnevenCadenceRepeatsANumber | engine/src/engine/autocycle.py:876-909 | a run in which, with a cadence that is not a multiple, a number comes back |
| CycleTicks.NextNumberIsNew | engine/src/engine/autocycle.py:876-909 | where numbers increase, the next tick's number is none of those before it |
| CycleTicks.SelectionsAreFresh | engine/src/engine/autocycle.py:876-909 | so a selection of the schedule names ticks the worker has not started, before and after its window is applied |
| Receipts.UnmatchedTicks | engine/src/engine/autocycle.py:376-409 | of the records of the session asked for, the loop returns the last start record of exactly the ticks nothing accounts for, each once |
| ReceiptViews.OfSessionIs | engine/src/engine/autocycle.py:376-386 | a session's view is its own records, all of them, in their order |
| ReceiptViews.LastStartIs | engine/src/engine/autocycle.py:386-388 | the record kept for a tick is its last TICK_STARTED |
| ReceiptViews.ReadRecordsExactly | engine/src/engine/autocycle.py:334-374 | records() reads a directory exactly when every file has the schema, a positive number that its name says, and none is there twice; it returns them all in listed order |
| Receipts.ReceiptStore.Emit | engine/src/engine/autocycle.py:279-332 | the number and the two durable writes of one event, with a death between them |
| ReceiptProofs.NameSaysNumber | engine/src/engine/autocycle.py:334-374 | the number read from a file name is the one it was named with |
| ReceiptProofs.NamesSortAsNumbers | engine/src/engine/autocycle.py:279-303 | below 10^20 file names sort as their numbers |
| ReceiptProofs.RunsAreSound | engine/src/engine/autocycle.py:279-332 | over any emits and deaths numbers strictly increase, one per attempt, never reused |
| ReceiptProofs.RecordsAreTheEmittedEvents | engine/src/engine/autocycle.py:334-374 | records() accepts the store's own files and returns exactly the completed events in emission order |
| CycleFence.StepKeeps | engine/src/engine/autocycle.py:800-1057 | every durable step, crash and restart keeps the invariant behind the fence: a worker that is not held back has no open tick but its own |
| CycleFenceExactly.StepOrdered | engine/src/engine/autocycle.py:800-1057 | every step keeps that a tick that reached the broker was started last or is accounted for, and that no tick still to run is |
| CycleFenceExactly.EntryEscapesExactly | engine/src/engine/autocycle.py:860-1057 | at every entry phase of every run an earlier tick that reached the broker is open on disk if and only if its last receipt is its TICK_STARTED, and then it was aborted before |
| CycleFenceExactly.EntryIsFenced | engine/src/engine/autocycle.py:860-1057 | at every entry phase each earlier tick that reached the broker is reconciled, or finished and not unresolved, or was aborted and then started again last; at the head of the loop an unmatched tick blocks |
| CycleFenceExactly.EntryIsFencedOutright | engine/src/engine/autocycle.py:860-1057 | without a raising acknowledge the exception is gone |
| CycleFence.AbortedReplayEscapesTheFence | engine/src/engine/autocycle.py:1032-1057 | a run in which the abort of a replayed tick hides that its replay reached the broker |
| CycleBlocks.BlockedExactly | engine/src/engine/autocycle.py:800-868 | the worker holds entries back exactly when the recovery flag was read as raised, a pending selection found, a tick failed at the broker or a start came up to open ticks or a pending selection, and neither a restart nor a clearance has come since |
| CycleBlocks.RaisedFlagBlocks | engine/src/engine/autocycle.py:866-984 | in every run no entry phase follows a raised flag before a restart or a completed clearance, nor in the tick that clears |
| CycleBlocks.EntryRunsExactly | engine/src/engine/autocycle.py:938-984 | when a tick is acknowledged its entry phase may run if and only if an entry slot is due and nothing stands |
| CycleBlocks.UnblockedSelectionEnters | engine/src/engine/autocycle.py:860-984 | and from the head of the loop a fresh selection made with the flag down does go on to an entry phase |
| CycleBlocks.ClearanceClosesItsOwn | engine/src/engine/autocycle.py:811-840 | a clearance reconciles only open ticks of its own session, and when it ends no tick is unmatched |
| CycleBlocks.ReachedAreAcknowledged | engine/src/engine/autocycle.py:929-939 | the ticks the fence counts as having reached the broker are exactly those acknowledged |
| CycleBlocks.EntryIsRecorded | engine/src/engine/autocycle.py:971-973 | an entry phase is recorded with what was on disk and which ticks had reached the broker just then |
| MessageSplit.SplitIsRight | tools/telegram-bridge.py:602-629 | the pieces rejoined are the right-stripped text, each within the limit, cut inside a line only into full pieces, parted at a line only where needed |
| MessageSplit.SplitMessage | tools/telegram-bridge.py:602-629 | the two nested loops terminate for every positive limit and yield those pieces |
| MessageSplit.EmptyPieceExactly | tools/telegram-bridge.py:602-629 | a chunk before the last is empty if and only if the text left starts with a blank line and then a line within one character of the limit; the last one if and only if the text is white space |
| MessageSplit.EmptyPieceOccurs | tools/telegram-bridge.py:602-629 | at every limit from 2 on, a text that stripping leaves alone has an empty chunk |
| Outbox.EmptyChunkIsSent | tools/telegram-bridge.py:395-406 | so has a message of the bridge at Telegram's limit |
| Order.Sorted | tools/telegram-bridge.py:385-393 | the listing holds every name once, in ascending order |
| Outbox.Bridge.Deliver | tools/telegram-bridge.py:401-406 | the chunks in order until one is not accepted, and none after it |
| Outbox.Bridge.PumpOne | tools/telegram-bridge.py:353-383 | one file leaves, delivered, blank, unreadable or given up, or stays at the head with one more failed try; its count of tries is dropped unless it was blank |
| Outbox.Bridge.PumpOutbox | tools/telegram-bridge.py:343-383 | nothing is lost or in two places, only the oldest queued file is ever sent, archived files were delivered in full, parked ones had a reason, every raise uses up a try, and without a raise exactly the files before a signal to stop leave, all of them without one |
| Outbox.WeightDrops | tools/telegram-bridge.py:371-378 | one more failed try at the head makes the queue's remaining tries strictly fewer |
| Outbox.WeightBound | tools/telegram-bridge.py:371-378 | the tries left are at most five a file, so the retries end |
| StopFence.Controller.Owns | engine/src/engine/paperday.py:1535-1582 | the ownership check succeeds only while no other session holds the lock |
| StopFence.Controller.CloseEntryGate | engine/src/engine/paperday.py:1919-1976 | the closed gate is published unless another session has the lock, stays if the lock is still there, and is taken back exactly when the lock is then gone |
| StopFence.Controller.StopTheScheduler | engine/src/engine/paperday.py:1623-1754 | quiesce and termination each come behind their own check; with the lock kept, which of them happen and whether the end counts as clean, for every state of the scheduler's files |
| StopFence.Controller.CancelWorkingEntries | engine/src/engine/paperday.py:2154-2191 | for every listing the engine gives: with the lock kept, exactly one cancel for each listed order, in ascending order, and clean exactly when all worked; with it lost, the first of them |
| StopFence.Controller.SettleHandoffs | engine/src/engine/paperday.py:2193-2247 | a check before every claim and every complete; with the lock kept each listed handoff is claimed if pending and completed unless its claim failed |
| StopFence.Controller.ReviewerShutdown | engine/src/engine/paperday.py:2276-2329 | a check before the request and around every reply; with the lock kept the request, and then the answer to the first reply of the first poll that has one |
| StopFence.Controller.StopWatcher | engine/src/engine/paperday.py:2331-2387 | a check before termination and before removing the record; with the lock kept both happen exactly when the record is the session's own |
| StopFence.Controller.MarkRecoveryRequired | engine/src/engine/paperday.py:2126-2152 | marks an owned gate and nothing else, and withdraws it only when the lock was lost and the gate provably this session's |
| StopFence.Controller.PublishLastShutdown | engine/src/engine/paperday.py:1584-1621 | published only when the lock is free, and still there at the end only if it was free at the last look |
| StopFence.Controller.Release | engine/src/engine/paperday.py:2090-2123 | the lock is unlinked only if it is this session's at two looks, and is if it is |
| StopFence.Controller.Stop | engine/src/engine/paperday.py:1898-2124 | once another session has the lock nothing but withdrawals follows and its gate stays; the gate closes first, the phases keep their order, a shutdown record needs a released lock; a session that keeps its lock does everything in full and in order, every order the engine lists being sent its cancel before the lock goes, and leaves its own closed gate, marked if it was or if the scheduler's end was not clean |
| StopFence.EverythingIncludes | engine/src/engine/paperday.py:2004-2124 | what that includes besides the cancels: drain, each listed handoff, reconcile, mark, summary, the request, the watcher |
| StopFence.SettlementSays | engine/src/engine/paperday.py:2193-2247 | what settling a listing does, and that it does nothing else |
| StopFence.ReplyIs | engine/src/engine/paperday.py:2303-2329 | the reply acted on is the first of the first inbox that has one |
| RecoveryLatch.PaperDay.StartDay | engine/src/engine/paperday.py:941-1109 | the gate and lock writes of start, branch by branch, are the durable states the results below are about |
| RecoveryLatch.PaperDay.StopDay | engine/src/engine/paperday.py:1898-2124 | the same for the gate and lock writes of stop |
| RecoveryLatch.PaperDay.RunRecovery | engine/src/engine/paperday_recovery_cli.py:279-361 | applies exactly when the target is dead, the recovery lock was free, every requirement passed and it is no dry run; both locks are as they were |
| RecoveryLatch.PaperDay.ApplyRecoveryResult | engine/src/engine/paperday_recovery_cli.py:364-386 | with every check passed the mark goes and the entry gate, session and token stay; otherwise nothing changes |
| RecoveryLatch.MarkStays | engine/src/engine/paperday.py:1122-1210 | over any starts, stops and recoveries, each dying after any of its writes, the mark stays until a recovery is accepted |
| RecoveryLatch.OnlyAcceptedRecoveryClears | engine/src/engine/paperday_recovery_cli.py:364-386 | if the mark is gone an accepted recovery took it off, leaving the entry gate, the session and the lock as they were |
| RecoveryLatch.DiedOpenIsMarkedExactlyWhen | engine/src/engine/paperday.py:941-1362 | a session that died with its gate open is marked from the next start's first write on, wherever that start dies, if and only if the start got past its configuration or found unaccounted ticks; and it writes nothing exactly without a repository or with an unreadable lock |
| RecoveryLatch.ClosedGateIsNotMarked | engine/src/engine/paperday.py:941-1362 | a start never marks a closed gate unless it finds ticks |
| RecoveryLatch.ConfigurationFailureForgets | engine/src/engine/paperday.py:959-986 | for every session that died open, a start whose configuration fails leaves the gate closed and unmarked, and the start after it does not mark it either |
| RecoveryGates.GateAfterStart | engine/src/engine/paperday.py:941-1109 | after a start that decides the gate stands open exactly with the broker up and the state ready, for proofs exactly when degraded, names the session whose lock is there, its own unless one was already up, and is marked exactly if it was, a session had died open, or ticks are unaccounted for; any other start opens nothing |
| RecoveryGates.StopCloses | engine/src/engine/paperday.py:1898-2124 | wherever a stop dies once it has written, the gate is closed and no mark is taken off; when it ends, which marks it put on and whether the lock is gone |
| RecoveryGates.RecoveryClearsExactly | engine/src/engine/paperday_recovery_cli.py:279-386 | a recovery writes only with a gate, a dead target, a free recovery lock, every requirement met and no dry run, and then only the mark goes |
| RecoveryGates.OnlyStartsOpen | engine/src/engine/paperday.py:941-2124 | over any invocations dying anywhere, a closed gate that is found open was opened by a start |

## Left out

- Code points in the surrogate range: `\u` escapes naming them are refused here; Python would store them.
- Case folding beyond ASCII: `lower()` is exact for the words the format and the seat table use, except spellings with the Kelvin sign.
- Floats as numbers: a float is a token, and `int()`, `float()` and `repr` are parameters.
- Time zone rules beyond a finite list of transitions, and the range limits of `datetime`.
- Sequence numbers from 10^20 on, where file names stop sorting as numbers.
- The cycle worker as a class: its subject is a crash between two writes, so it is a transition system; `run_tick` always has the connection `run_forever` passes it.
- Distinct tick ids in the cycle worker: a fresh selection is taken to name a tick not started before; `CycleTicks` derives that where tick numbers increase, and `TickIdsExactly` says where they do not.
- The other phases of a tick (management, probe, discovery) and what they answer: they write no receipt and do not touch the fence.
- The handoff store as a class for interleaved calls: it is a transition system for one id; `HandoffVerbs` is the class, for calls that do not overlap.
- Locks that reach their TTL, `SingletonLock`, and a lock file that cannot be unlinked: exclusion is not guaranteed there.
- Ids that extend another id, in the interleaved model: the prefix search of `find` could then return or report the other handoff, as it does in `HandoffVerbs`.
- The `.reason` file of a parked message, dry runs and failing file moves of the bridge; inbound updates.
- A name that is already in the outbox's archive or failed folder: the move would replace the older file, so the three folders are taken to hold distinct names.
- Files that arrive in the outbox during a pump: they are not in its listing and wait for the next.
- A lock that changes between an ownership check and the step right after it: `stop()` does not look there either.
- StopFence.Controller.Stop: for a lock that was lost and then found again between two looks it does not promise that every order was sent a cancel, because the code then goes on.
- The texts of reports and summaries, the reply text of the reviewer seat, the scheduler's drain loop, and `watch.py`.
- A gate withdrawn by `stop` because its lock had vanished: the recovery mark goes with the file; the latch is stated for invocations that do not overlap.
- The nine recovery requirements themselves, and the consumption of stale scheduler records: their answers are inputs.
- Broker, HTTP, subprocess and desktop code, command lines, templates, policy validators, hashing and id minting.
