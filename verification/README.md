# A verified model of the agent and panel of a Minecraft server manager

This project models the parts of the repository whose correctness depends on order, crashes or
several functions together, and proves what each part is for. `dafny verify dfyconfig.toml` checks it.

- **Reliable events** (`Delivery`, `DeliveryObjects`, `DeliverySafety`, `DeliveryAcks`,
  `DeliveryDuties`). The agent journals a critical
  event, sends it, replays it in every session and drops it on acknowledgement; the panel claims,
  handles and acknowledges in batches. A transition system with a lossy FIFO link, memory and disk,
  and crashes on both sides; it includes the hand-over of the launcher's outcome. `StateStore` is the
  serialised writer underneath.
- **Schedules** (`Calendar`, `TimeZone`, `Cron`, `CronFields`, `Scheduler`). The calendar is that of ECMA-262,
  section 21.4.1; a zone is a function from minutes to offsets. The jumping walk is proved equal to a
  minute-by-minute scan, and the backup scheduler to handle every occurrence once.
- **Nested transactions** (`Transactions`). Nested atomic blocks compiled to BEGIN, SAVEPOINT, RELEASE
  and ROLLBACK, against a snapshot meaning.
- **Console** (`Console`, `Utf8`, `ConsoleRelay`, `ConsoleStream`, `ConsoleRestarts`,
  `ConsolePublications`, `ConsoleSessions`). The agent's bounded buffer, the panel's deduplicating ring,
  and the stream between them with catch-ups, losses and restarts.
- **`server.properties`** (`Properties`, `PropertiesFile`, `PropertiesUpdates`, `PropertiesReturns`).
  Escaping, parsing and the update in place, on UTF-16 code units.
- **Tasks** (`Tasks`, `TasksSafety`, `TasksSteps`, `TasksResults`, `TasksOutcomes`, `TasksDuties`,
  `TasksObjects`). The write-ahead journal, the runner, cancellation, cleanup and recovery after a crash.
- **Downloads** (`Download`), **backup browsing** (`Paths`, `Listing`), **partial restore**
  (`Restore`), the **watchdog** (`Watchdog`, `WatchdogDuties`) and **RCON framing** (`Rcon`).

Objects the source updates in place are classes whose methods are proved against functions on
values; the theorems are about those functions and about runs of the state machines built from them.
The modules named after duties, acknowledgements, outcomes, publications and sessions say what must
happen, told from the steps of a run; the others mostly say what must not.

## What the proofs found

Where a promise does not hold as it stands, the model keeps the code as it is, shows the failing
case, and gives the exact condition.

- The task journal's `flush` does not wait for a write that is already under way
  (apps/agent/src/tasks/journal.ts:135-137), unlike the state store's
  (apps/agent/src/state/store.ts:166-169). A checkpoint called at that moment returns early, and a
  crash then makes recovery delete a file the task had kept. A returned checkpoint can be relied on
  exactly when something was unsaved at the call or the file was up to date already.
- An update of `server.properties` rewrites the first line of a key while the parser keeps the last,
  so it is applied exactly when duplicated keys already had their new value, and it is idempotent
  exactly when no key to be removed is duplicated. A carriage return that the update leaves at the end
  of a text without CRLF is lost; both conditions have a second part for these texts.
- The test for a repeated wall clock compares only hour and day (packages/shared/src/timezone.ts:118-121).
  It is exact for one-hour changes; after a backward change by any other amount it fails for exactly
  two families of clocks.
- Console numbers are kept in memory until the next write of the state
  (apps/agent/src/state/store.ts:188-193). If a crash makes them go back, the panel ignores exactly the
  lines printed up to the number it had reached. A line larger than the console buffer empties it, and
  only then the truncation flag can be wrong.
- A partial download without a known size is completed by conforming servers exactly when it is not
  complete already.
- An oversized RCON length drops what arrived with it, so what is lost depends on how the bytes were
  cut, exactly when a byte lies behind it.
- A `catch` inside a transaction that swallows an engine-level rollback, or writes before it throws
  again, leaves writes behind although the whole call throws. Inside a transaction snapshot semantics
  hold exactly when no such rollback is reached; for a call from outside the condition is exact too.

## Model

| member | source | states |
|---|---|---|
| DeliverySafety.AckedOnlyAfterClaim | apps/agent/src/connection/connection.ts:343-349 | In every reachable state, an event an acknowledgement removed from the agent's journal is one the panel had claimed |
| DeliverySafety.HandlerStartsAtMostOnce | apps/panel/src/agents/session.ts:456-479 | Over every run with crashes, replays and duplicates, the handler of an event is started at most once, and only for a claimed event |
| DeliverySafety.HandlersFollowClaims | apps/panel/src/agents/session.ts:462-468 | In a run in which the panel does not die, handlers start one for each claim, in the order of the claims |
| DeliverySafety.DurableUntilClaimed | apps/agent/src/connection/connection.ts:289-296 | An event whose durable emission returned is in the state file until the panel claims it, whatever crashes, unless the cap or a new pairing gave it up |
| DeliverySafety.GivenUpOnlyByCapOrPairing | apps/agent/src/connection/connection.ts:270-275 | Over any run, the only steps that give an event up are an emission past 10 000 pending events, which loses exactly the oldest one, and a pairing that replaces an identity by another one |
| DeliverySafety.FullJournalLosesFirst | apps/agent/src/connection/connection.ts:272-273 | Past the cap the journal keeps everything but its first event |
| DeliverySafety.ClaimsFollowEmission | apps/agent/src/connection/connection.ts:512-523 | While no send has failed, the panel's first claims come in emission order across disconnections, replays and crashes (events given up aside) |
| DeliverySafety.OutcomeNeverLost | apps/agent/src/agent.ts:547-558 | At every crash point a valid launcher outcome is in the result file, in the claimed file, on disk as a pending event, or claimed or given up at the panel |
| DeliverySafety.ReleaseKeepsLauncher | apps/agent/src/update/updater.ts:271-274 | When the claimed file of a valid outcome is deleted, the event that carries it is on disk, claimed by the panel or given up, and every outcome stays safe |
| DeliverySafety.RunKeepsInv | apps/agent/src/connection/connection.ts:397-444 | The whole invariant of agent, link and panel holds in every state of every run of emit, send, deliver, claim, acknowledge, disconnect, reconnect, pair and crash |
| DeliveryAcks.AnswersAreConserved | apps/panel/src/agents/session.ts:481-500 | Over every run, in an open session: what has reached the agent, what is on the wire batch by batch and what is queued are, put together, exactly the duplicates delivered and the handlers of this session that ended since it was opened, in order |
| DeliveryAcks.AnsweredIsNeverLost | apps/panel/src/agents/session.ts:456-479 | So each identifier answered for since the session was opened is queued, in a batch on the wire, or no longer in the agent's journal; a queue that is not empty has its timer set, and a batch on the wire can arrive |
| DeliveryAcks.TimerSendsQueue | apps/panel/src/agents/session.ts:492-500 | The timer on an open session puts one batch on the wire with exactly what was queued, in order |
| DeliveryAcks.FullBatchLeaves | apps/panel/src/agents/session.ts:481-490 | The fiftieth answer sends the batch at once; before that it is queued and nothing leaves |
| DeliveryAcks.EventsStayAsEmitted | apps/agent/src/connection/connection.ts:261-281 | Over every run, each event in memory or on disk carries the launcher outcome it was emitted with, if any |
| DeliveryAcks.AcksTakeExactly | apps/agent/src/connection/connection.ts:343-349 | An acknowledgement that arrives takes exactly its events out of the journal and leaves the others unchanged and in order |
| DeliveryAcks.EmissionAppends | apps/agent/src/connection/connection.ts:269-276 | An emission appends its event to the journal; only a journal that is full loses one, the first |
| DeliveryAcks.PairingKeepsOrEmpties | apps/agent/src/connection/connection.ts:460-468 | The first pairing, and one with the same identity, keeps the journal; another identity empties it |
| DeliveryDuties.HandlersAreConserved | apps/panel/src/agents/session.ts:462-478 | Over every run, each event accepted since the panel started has its handler waiting, running or ended, once, with the session that brought it |
| DeliveryDuties.FailedExactly | apps/agent/src/connection/connection.ts:512-523 | A link counts as failed exactly when a frame of an emission or of a replay was refused |
| DeliveryDuties.OutcomeMovesOn | apps/agent/src/update/updater.ts:243-269 | No stage of a launcher outcome is a dead end: what is there is claimed, what is claimed is read, a valid outcome is emitted, and the claim is released once the emission is on disk, or at once when it is unreadable |
| DeliveryDuties.WritesMoveOn | apps/agent/src/state/store.ts:171-176 | While a write is awaited the next one can start or the one under way can end, and then the file is the memory of its start |
| DeliveryDuties.SessionsOpen | apps/agent/src/connection/connection.ts:512-523 | A closed link can be opened; the new session replays the journal as far as its frames are accepted, in order, and starts without acknowledgements |
| DeliveryDuties.PanelMovesOn | apps/panel/src/agents/session.ts:467-478 | Frames are delivered and handlers started in order, one at a time, and any running handler can end |
| DeliveryDuties.CrashesForget | apps/agent/src/state/store.ts:107-131 | A crash of a side loses what was in its memory only, and the session; what is on disk and the other side stay |
| DeliveryObjects.AgentConnection.Emit | apps/agent/src/connection/connection.ts:261-281 | Journals the event, caps the journal, asks for a write, then sends when a session is open; the new state is the one the protocol's step gives |
| DeliveryObjects.AgentConnection.Acknowledge | apps/agent/src/connection/connection.ts:343-349 | Removes exactly the acknowledged events, in place, and asks for a write |
| DeliveryObjects.AgentConnection.StartSession | apps/agent/src/connection/connection.ts:512-523 | Replays the whole journal in order; a frame that fails does not stop the others |
| DeliveryObjects.AgentSession.Critical | apps/panel/src/agents/session.ts:456-479 | A new identifier is claimed and its handler scheduled; a known one is only acknowledged |
| DeliveryObjects.AgentSession.Acknowledge | apps/panel/src/agents/session.ts:481-490 | Queues an acknowledgement, in the order of the calls; the fiftieth sends the batch of exactly those queued and empties the queue |
| DeliveryObjects.AgentSession.FlushPending | apps/panel/src/agents/session.ts:492-500 | On an open session one batch with exactly what was queued, in order, leaves; on a closed one or with nothing queued none; the queue is empty and the timer off afterwards |
| DeliveryObjects.ProcessedEvents.Claim | apps/panel/src/agents/session.ts:462-465 | True exactly the first time for an identifier |
| StateStore.ResolvedCallIsDurable | apps/agent/src/state/store.ts:150-176 | When the write that flush, save or update waits for has finished, the file holds the memory of the call or a later one, for every interleaving of mutations and coalesced writes |
| StateStore.FileFollowsMemory | apps/agent/src/state/store.ts:171-176 | Over any run, crashes included, successive file contents are past memory contents in memory order |
| StateStore.QuietStoreIsSaved | apps/agent/src/state/store.ts:166-169 | With nothing unsaved and no write pending the file is the memory |
| StateStore.RestartOwesNothing | apps/agent/src/state/store.ts:125-148 | A new process has what the file had, and nothing to save or to wait for |
| StateStore.StateFile.Update | apps/agent/src/state/store.ts:150-153 | Changes the state and chains one more write, and the ticket returned is owed the new version |
| StateStore.StateFile.Flush | apps/agent/src/state/store.ts:166-169 | Chains a write only when something is unsaved, else waits for the last one; the caller is owed the current version either way |
| StateStore.StateFile.BeginWrite | apps/agent/src/state/store.ts:199-200 | A chained write takes its snapshot when it starts, not when it was chained |
| StateStore.StateFile.EndWrite | apps/agent/src/state/store.ts:206-209 | The snapshot replaces the file |
| Calendar.DayRoundTrip | packages/shared/src/cron.ts:194-201 | Every day number is the day made of its own year, month and date (ECMA-262, section 21.4.1), and the fields are in range |
| Calendar.FieldsRoundTrip | packages/shared/src/cron.ts:194-198 | Every valid date is read back from the day made of it |
| Calendar.WallRoundTrip | packages/shared/src/timezone.ts:60-75 | Reading the clock of a minute and making a minute of the fields are inverse |
| Calendar.ClocksGoOn | packages/shared/src/timezone.ts:60-75 | The clock shows the first minute of 1970 at the epoch, and each next minute it shows the next clock: hours of sixty minutes, days of twenty-four hours, months of 28 to 31 days with the Gregorian leap years, years of twelve months |
| TimeZone.InstantInvertsWallClock | packages/shared/src/timezone.ts:102-122 | For zones with one-hour changes more than three days apart the result is the earliest instant that shows the wall clock, and there is none exactly when no instant shows it |
| TimeZone.InstantInvertsAnyWallClock | packages/shared/src/timezone.ts:102-122 | The same for any fields whatever, also ones no calendar has |
| TimeZone.InstantExactly | packages/shared/src/timezone.ts:95-122 | Around any single change of the offset, by any amount, the result is the earliest instant showing the clock, or none exactly when nothing shows it, if and only if the clock is not one of two families around a backward change other than by one hour: shown twice and behind the minute of the change, or shown once within an hour after it with high minutes |
| TimeZone.HalfHourChangeFoolsTheTest | packages/shared/src/timezone.ts:118-121 | After a half-hour backward change there are such clocks: the instant returned shows a clock half an hour earlier than the one asked for |
| Cron.CronNext | packages/shared/src/cron.ts:191-246 | The loop with month, day and hour jumps returns what the naive minute-by-minute scan returns, and ends because the cursor only grows |
| Cron.MonthJump | packages/shared/src/cron.ts:200-204 | Every wall minute the month jump passes over is in a month that does not match |
| Cron.DayJump | packages/shared/src/cron.ts:215-219 | Every wall minute the day jump passes over is on a day that does not match |
| Cron.HourJump | packages/shared/src/cron.ts:220-223 | Every wall minute the hour jump passes over is in an hour that does not match |
| Cron.NextIsFirstOccurrence | packages/shared/src/cron.ts:182-190 | The result is the first occurrence strictly after the given time; there is none exactly when no occurrence is shown before the horizon |
| Cron.NextMatches | packages/shared/src/cron.ts:168-180 | cronMatches holds at every result |
| Cron.NothingFiresBefore | packages/shared/src/cron.ts:191-246 | An instant between the given time and the result matches only if its wall clock had already been shown |
| Cron.NextIsMonotone | packages/shared/src/cron.ts:191-246 | A later question never gets an earlier answer |
| Cron.NextOfList | packages/shared/src/cron.ts:286-297 | The least of the next occurrences of all valid expressions, none when there is none |
| CronFields.EitherDayIsEnough | packages/shared/src/cron.ts:207-214 | With both day fields restricted the answer is the earlier of the answers for each of them alone, and there is none exactly when both have none |
| CronFields.UnrestrictedIsIgnored | packages/shared/src/cron.ts:151-156 | The set of a day field that is not restricted never changes the answer |
| CronFields.ResultShowsFields | packages/shared/src/cron.ts:199-243 | At every result the clock shows a minute, an hour and a month of the expression, the date or the weekday of the field that is restricted alone, and one of the two when both are |
| CronFields.NothingIsMissed | packages/shared/src/cron.ts:199-245 | No later instant that is the first to show a clock with all the fields lies before the result, and there is a result if such a clock lies within five years |
| CronFields.WeekdaysGoRound | packages/shared/src/cron.ts:159-162 | 1 January 1970 was a Thursday and each day is one further round the week |
| Scheduler.BackupScheduler.Tick | apps/agent/src/backup/scheduler.ts:77-163 | One pass over all schedules; a tick that finds another one under way changes nothing |
| Scheduler.TickIsPointwise | apps/agent/src/backup/scheduler.ts:83-158 | What a tick does for a schedule is what it would do if that schedule were alone |
| Scheduler.EveryOccurrenceOnce | apps/agent/src/backup/scheduler.ts:77-163 | With ticks at most a minute apart, also across restarts, exactly one tick handles each occurrence of a live schedule, and that tick says exactly one thing about it: started exactly when the server runs as far as asked, nothing else is running for it and the start succeeds, else the first of these reasons; the other ticks of that minute say nothing |
| Scheduler.OnlyOccurrencesAreMarked | apps/agent/src/backup/scheduler.ts:97-101 | Whatever a tick records is an occurrence of its schedule in the last minute, and is reported with its outcome |
| Scheduler.SaysWhatItMarks | apps/agent/src/backup/scheduler.ts:97-125 | A tick says something about a live schedule exactly when it records an occurrence of the last minute for it |
| Scheduler.OthersAreOnlyReported | apps/agent/src/backup/scheduler.ts:83-112 | A disabled schedule and one of an unknown server are passed over, an expression that does not parse is reported at every tick, and nothing is recorded for them |
| Transactions.MachineRefinesSnapshots | apps/panel/src/db/sqlite.ts:214-250 | For every tree of nested calls with throws, catches and failing BEGIN or COMMIT, the savepoint machine gives the outcome and the data of snapshot semantics and restores the stack of open transactions |
| Transactions.MachineHasMeaning | apps/panel/src/db/sqlite.ts:214-250 | For every program, engine rollbacks and swallowing catches included, and from any stack of savepoints, the machine gives the data, outcome and stack of a meaning that knows no stack and no names |
| Transactions.InsideExactly | apps/panel/src/db/sqlite.ts:221-233 | Inside a transaction snapshot semantics hold if and only if the run reaches no statement for which SQLite rolls everything back; otherwise the stack is gone |
| Transactions.CallExactly | apps/panel/src/db/sqlite.ts:234-243 | A call from outside any transaction follows snapshot semantics if and only if BEGIN fails, or no such statement is reached, or the call is to throw anyway and what runs after the rollback leaves the data as it was |
| Transactions.InsideWithAborts | apps/panel/src/db/sqlite.ts:221-233 | When such failures are at most passed on by a catch, a program that reaches one throws with everything since BEGIN undone |
| Transactions.OutsideWithAborts | apps/panel/src/db/sqlite.ts:234-243 | From outside any transaction snapshot semantics hold for all such programs |
| Transactions.CallIsAtomic | apps/panel/src/db/sqlite.ts:214-244 | A call that throws restores the exact entry state, a call that returns keeps its body's writes |
| Transactions.NamesNeverReused | apps/panel/src/db/sqlite.ts:222-222 | Whatever the statements do, no savepoint name is issued twice |
| Transactions.OpeningIssuesItsName | apps/panel/src/db/sqlite.ts:221-223 | A nested call opens exactly one savepoint, under a name issued with it and never before |
| Transactions.FinishNestedOnTop | apps/panel/src/db/sqlite.ts:224-232 | RELEASE, and ROLLBACK TO followed by RELEASE, take off exactly the call's own savepoint |
| Transactions.SwallowedAbortLeaksWrites | apps/panel/src/db/sqlite.ts:239-243 | A catch that swallows an engine rollback makes a later write stay although the call throws |
| Transactions.ThrowingHandlerLeaksWrites | apps/panel/src/db/sqlite.ts:239-243 | So does a handler that writes before it throws again |
| Transactions.Handle.RunNested | apps/panel/src/db/sqlite.ts:221-233 | The nested branch, statement by statement, is the machine's, and atomic when nothing makes SQLite roll back by itself |
| Transactions.Handle.RunOuter | apps/panel/src/db/sqlite.ts:234-243 | The outermost branch, with its check before ROLLBACK, is the machine's, and atomic in the same way |
| Transactions.Handle.Call | apps/panel/src/db/sqlite.ts:214-244 | What a caller of the closure sees follows snapshot semantics |
| Console.ConsoleBuffer.Push | apps/agent/src/minecraft/console-buffer.ts:24-40 | The buffer shows the longest suffix of everything pushed within both bounds, its byte count is that suffix's, compaction shows nothing, and the backing array stays within max(2 maxLines, maxLines + 1024) |
| Console.ConsoleBuffer.Evict | apps/agent/src/minecraft/console-buffer.ts:27-34 | The eviction loop leaves exactly the longest suffix that fits |
| Console.ConsoleBuffer.SinceLine | apps/agent/src/minecraft/console-buffer.ts:55-61 | Returns the retained lines above the number and the truncation flag; without a number, everything retained, not flagged |
| Console.RetainedIsLongest | apps/agent/src/minecraft/console-buffer.ts:27-34 | What is retained fits both bounds and no longer suffix does |
| Console.RetainedStep | apps/agent/src/minecraft/console-buffer.ts:24-34 | Retaining after each push equals retaining from everything pushed |
| Console.SinceIsExact | apps/agent/src/minecraft/console-buffer.ts:54-61 | For consecutive numbers and a reader however far behind, the answer is exactly the retained lines above its number; while something is retained it is flagged exactly when a number above the reader's, up to the last one, is retained by no line; unflagged, it continues without a gap |
| Console.EmptiedExactly | apps/agent/src/minecraft/console-buffer.ts:27-34 | Nothing is retained if and only if the last line pushed does not fit the bounds on its own |
| Console.FlagIsExact | apps/agent/src/minecraft/console-buffer.ts:58-60 | For every reader, the flag tells whether a line it has not got is missing if and only if the last line pushed fits on its own or the reader has it already |
| Utf8.CountsEncodedBytes | apps/agent/src/minecraft/console-buffer.ts:24-34 | The bytes counted for a text are those of the UTF-8 encoding (RFC 3629, section 3) of its characters, with U+FFFD for an unpaired surrogate |
| Utf8.EveryTextSpells | apps/agent/src/minecraft/console-buffer.ts:24-34 | Every text spells such characters |
| Utf8.EncodingReadsBack | apps/agent/src/minecraft/console-buffer.ts:24-34 | An encoded text is read back character by character |
| ConsoleRelay.OnLinesKeepsPanel | apps/panel/src/agents/console.ts:51-64 | A batch keeps ring and published lines strictly increasing if and only if its new lines carry different numbers |
| ConsoleRelay.MergeKeepsPanel | apps/panel/src/agents/console.ts:131-137 | A subscription answer keeps them too |
| ConsoleRelay.SortSorts | apps/panel/src/agents/console.ts:53-53 | The sort orders by number and keeps exactly the lines given |
| ConsoleRelay.RelayBuffer.HandleLines | apps/panel/src/agents/console.ts:51-57 | Filters, sorts, appends, trims to 1000 and publishes: what is published is exactly the lines of the batch above the latest number, in order, and is what is appended |
| ConsoleRelay.RelayBuffer.MergeAnswer | apps/panel/src/agents/console.ts:131-137 | Appends without publishing anything and takes over the agent's latest number |
| ConsoleStream.RingIsSane | apps/panel/src/agents/console.ts:51-64 | For every interleaving of batches, catch-ups, subscriptions, losses and restarts the ring is strictly increasing with at most 1000 lines and no number is published twice |
| ConsoleStream.RingHasNoGap | apps/agent/src/agent.ts:571-582 | As long as no line was missing from a catch-up and no message was dropped, whatever the counter does in restarts, the numbers of everything that went into the ring are consecutive and the ring is its end |
| ConsoleStream.ChunksKeepGapFree | apps/agent/src/agent.ts:579-581 | Sending a catch-up in chunks of 200 is as good as sending it at once |
| ConsoleStream.FlushKeepsWhole | apps/agent/src/minecraft/server-process.ts:590-597 | Flushing the pending batch, also after a catch-up that already carried its lines, opens no gap |
| ConsoleStream.AnswerKeepsWhole | apps/agent/src/agent.ts:917-928 | A subscription answer, behind whatever is still on the wire, opens no gap when nothing it needs was evicted |
| ConsoleRestarts.DeliveredExactlyAbove | apps/panel/src/agents/console.ts:51-64 | A line of a delivered message is in what went into the ring afterwards if and only if it was before or its number is above the last one known |
| ConsoleRestarts.NothingOldComesIn | apps/panel/src/agents/console.ts:53-53 | Until the panel restarts, over any run with losses and further restarts, no line numbered at or below where it stands comes in |
| ConsoleRestarts.OnlyLaterNumbersArrive | apps/agent/src/state/store.ts:188-193 | After a restart of the agent with any counter, in every run that drops and evicts nothing printed since, what comes in is exactly the lines printed above where the panel stood, in order, and all of them once everything is flushed and delivered |
| ConsoleRestarts.RestartCostsNothingIff | apps/agent/src/state/store.ts:188-193 | So a restart costs no line printed after it if and only if the counter is at least the number the panel had reached, or nothing is printed |
| ConsoleRestarts.ReusedNumberRun | apps/agent/src/state/store.ts:188-193 | A run in which the counter falls back and the next line never shows up |
| ConsolePublications.PublishedExactly | apps/panel/src/agents/console.ts:51-57 | Over every run, what browsers were sent since the panel started is exactly what live batches brought in, in order; subscription answers send nothing |
| ConsolePublications.BatchesArePublished | apps/panel/src/agents/console.ts:51-64 | While only live batches are delivered browsers are sent everything that comes in; from the start of the panel that is its whole history |
| ConsolePublications.LinesGoOutInBatches | apps/agent/src/minecraft/server-process.ts:571-597 | Over every run, fewer than fifty lines wait, they are exactly those printed since the last batch, and the fiftieth line or the timer puts all of them on the wire once when somebody watches |
| ConsolePublications.MissesExactly | apps/agent/src/agent.ts:571-582 | A catch-up counts as having a gap exactly when a number printed and not known to the panel is retained by no line |
| ConsoleSessions.SessionsFollowSteps | apps/panel/src/agents/console.ts:91-122 | Told from the steps of every run: when a session is open, when live lines are sent in it, which number a request under way carries, when one can be made and answered, and what counts as lost |
| ConsoleSessions.AnswersCarryTheRest | apps/agent/src/agent.ts:917-928 | An answer carries exactly the retained lines above the number asked for, in order, and the last number printed |
| Properties.SplitInvertsRender | apps/agent/src/minecraft/properties.ts:49-67 | For all UTF-16 keys and values, reading the line written for a pair gives the pair back |
| Properties.KeyReadsBack | apps/agent/src/minecraft/properties.ts:79-81 | Unescaping an escaped key gives the key back |
| Properties.ValueReadsBack | apps/agent/src/minecraft/properties.ts:83-86 | Unescaping an escaped value gives the value back |
| Properties.WrittenIsPrintable | apps/agent/src/minecraft/properties.ts:79-129 | Every line written is printable ASCII, whatever its key and its value |
| Properties.PlainIsKept | apps/agent/src/minecraft/properties.ts:79-129 | Plain text is written as it is, but for spaces in a key and one at the start of a value |
| Properties.EscapeIsNumber | apps/agent/src/minecraft/properties.ts:17-24 | An escape of four hexadecimal digits is the unit with that number |
| Properties.UnescapeValue | apps/agent/src/minecraft/properties.ts:9-46 | The index loop is the recursive reading of escapes |
| Properties.EscapeAll | apps/agent/src/minecraft/properties.ts:88-129 | The loop over code points writes what escaping unit by unit writes, surrogate pairs included |
| PropertiesFile.SplitInvertsJoin | apps/agent/src/minecraft/properties.ts:137-154 | Joining lines and splitting the text gives the lines back, with the empty one after the last break |
| PropertiesFile.ParseProperties | apps/agent/src/minecraft/properties.ts:69-76 | The parsing loop is the specification's map |
| PropertiesFile.ParseGivesLast | apps/agent/src/minecraft/properties.ts:71-74 | The parser gives each key the value of its last line |
| PropertiesFile.UpdateProperties | apps/agent/src/minecraft/properties.ts:135-155 | The loops over lines, trailing blanks and new keys compute the specification's text |
| PropertiesReturns.UpdateOutcome | apps/agent/src/minecraft/properties.ts:135-155 | For every text, what every key is worth after an update: what was asked if it occurred at most once, and what it was worth before otherwise; a carriage return left at the end of a text without CRLF is lost first |
| PropertiesReturns.UpdateIsApplied | apps/agent/src/minecraft/properties.ts:131-155 | For every text, parsing the updated text gives the parsed map with the updates applied, null removing, if and only if every updated key that occurs more than once already had its new value and losing a carriage return left at the end changes no other key and brings up none to be removed |
| PropertiesReturns.LoneReturnDecides | apps/agent/src/minecraft/properties.ts:136-154 | For a text without CRLF that ends in a carriage return, the last key occurring once: applied if and only if duplicates already had their new value and the last line is no pair or its key is updated |
| PropertiesReturns.ReturnOfPair | apps/agent/src/minecraft/properties.ts:49-67 | A carriage return at the end of a line never decides whether it is a pair; it belongs to the value, or to the key when nothing follows the key |
| PropertiesReturns.UpdateIsIdempotent | apps/agent/src/minecraft/properties.ts:135-155 | For every text, applying an update twice equals applying it once if and only if no key to be removed occurs more than once, or, when a carriage return is left at the end, that line is all that is left of the text, is not empty without it and is not to be updated then |
| PropertiesUpdates.OtherLinesAreKept | apps/agent/src/minecraft/properties.ts:141-149 | Lines the update does not name are all kept, unchanged and in order, except empty ones at the end |
| TasksResults.LaunchedOncePerRecord | apps/agent/src/tasks/runner.ts:92-113 | Between two executor calls for the same task id the journal forgot that id, over every run with crashes |
| TasksResults.OneOutcomePerRun | apps/agent/src/tasks/runner.ts:203-241 | Of one run at most one terminal event is ever emitted |
| TasksResults.OutcomeIsFinal | apps/agent/src/tasks/runner.ts:215-217 | At any later point and after any number of crashes, a run whose outcome was emitted has that status in memory and on disk, or is forgotten |
| TasksResults.NothingLeftRunning | apps/agent/src/tasks/runner.ts:147-163 | Once recovery is over every record that is not finished is being executed by this process |
| TasksResults.FailureRemovesItsArtifacts | apps/agent/src/tasks/runner.ts:224-238 | When a failed or cancelled task is recorded, the files deleted on its behalf are exactly those declared and not kept |
| TasksResults.RecoveryRemovesWhatWasWritten | apps/agent/src/tasks/runner.ts:148-158 | Recovery deletes exactly the files the journal file listed when the process died, whatever else happens meanwhile |
| TasksResults.QuietJournalIsWritten | apps/agent/src/tasks/journal.ts:135-145 | With nothing unsaved and no write pending the journal file is the memory |
| TasksResults.CheckpointIsDurableExactly | apps/agent/src/tasks/journal.ts:135-145 | In every state, a checkpoint that has returned leaves every change made before the call in the file, whatever happens meanwhile, if and only if something was unsaved at the call or the file was up to date already; no write pending at the call is enough |
| TasksResults.KeptFileIsSafeAfterCheckpoint | apps/agent/src/tasks/runner.ts:196-201 | After keep, and any number of steps later a checkpoint that finds something unsaved or no write pending, the file no longer lists the kept file once the checkpoint has returned, so no later crash makes recovery delete it |
| TasksResults.CheckpointMayReturnEarly | apps/agent/src/tasks/journal.ts:135-137 | When the deferred write is already under way checkpoint returns at once, and a crash then makes recovery list the kept file |
| TasksResults.EarlyCheckpointIsReachable | apps/agent/src/tasks/journal.ts:103-116 | Such a moment is reached by declaring a file and letting the deferred write finish |
| TasksResults.ResultStaysListed | apps/agent/src/tasks/journal.ts:126-133 | In every run, the outcome that a success, a failure or recovery writes stays listed unchanged, in memory and in every file as new as it, until it is acknowledged or seven days old, across restarts that come after its write |
| TasksOutcomes.OutcomeIsToldBySteps | apps/agent/src/tasks/runner.ts:203-238 | Over every run: a success is recorded as done; a failure as cancelled if and only if the task was cancelled while its executor ran or the executor threw a cancellation of its own, else as failed; recovery records failed |
| TasksOutcomes.AnnouncedAsTold | apps/agent/src/tasks/runner.ts:215-241 | Every announced outcome is that of a step which ended this run of the task, with the status these steps tell |
| TasksOutcomes.EndIsAnnounced | apps/agent/src/tasks/runner.ts:215-217 | When the last write of a task is on disk its outcome is announced, if its record is still there; recovery announces each failure |
| TasksDuties.StartWritesAhead | apps/agent/src/tasks/runner.ts:92-113 | A new id gets an unacknowledged running record and a chained write before anything runs; a known one changes nothing |
| TasksDuties.AckForgetsExactly | apps/agent/src/tasks/runner.ts:128-136 | An acknowledgement marks its record and forgets exactly the finished records that are acknowledged or more than seven days old; of an unknown or active task it changes nothing |
| TasksDuties.RebootForgetsExactly | apps/agent/src/tasks/journal.ts:59-82 | A starting process has exactly the records of the file that are not old by then, and is to recover exactly the unfinished ones |
| TasksDuties.OthersForgetNothing | apps/agent/src/tasks/journal.ts:118-133 | No other step forgets a record |
| TasksDuties.FilesFollowSteps | apps/agent/src/tasks/runner.ts:307-313 | Over every run a file is there exactly when it was written, or there from the start, and no cleanup of a task or of recovery has reached it since |
| TasksDuties.EveryTaskCanEnd | apps/agent/src/tasks/runner.ts:174-250 | From every reachable state each task in hand can be carried on, through launch, failure, cleanup file by file, record and announcement, until nothing of it is left |
| TasksDuties.RecoveryCompletes | apps/agent/src/tasks/runner.ts:147-163 | From every reachable state recovery can be carried on, by its own steps and the writer's alone, until it is done |
| TasksSteps.RunKeepsInv | apps/agent/src/tasks/runner.ts:92-250 | The invariant of journal, executions and recovery holds in every state of every run with crashes |
| TasksSteps.RebootKeepsInv | apps/agent/src/tasks/journal.ts:59-82 | Loading the file after a crash at any point, purge included, re-establishes it |
| TasksObjects.TaskJournal.PutRecord | apps/agent/src/tasks/journal.ts:98-101 | Changes the record and chains a write the caller waits for |
| TasksObjects.TaskJournal.PatchRecord | apps/agent/src/tasks/journal.ts:104-116 | Changes the record and leaves the write for later |
| TasksObjects.TaskJournal.PurgeOld | apps/agent/src/tasks/journal.ts:127-133 | The loop removes exactly the finished records that are acknowledged or older than seven days |
| TasksObjects.TaskJournal.Flush | apps/agent/src/tasks/journal.ts:135-137 | Chains a write only when something is unsaved, and does not wait otherwise |
| TasksObjects.TaskRunner.StartUp | apps/agent/src/tasks/runner.ts:92-113 | A known id is left alone; a new one is journalled before anything runs |
| TasksObjects.TaskRunner.Stop | apps/agent/src/tasks/runner.ts:115-122 | Aborts an active execution, which is then known to be cancelled, and tells what became of the request |
| TasksObjects.TaskRunner.Ack | apps/agent/src/tasks/runner.ts:128-136 | Marks, purges and flushes, unless the task is active or unknown |
| TasksObjects.TaskRunner.CleanupArtifacts | apps/agent/src/tasks/runner.ts:307-313 | Deletes exactly the listed files |
| Download.AlwaysAPrefix | apps/agent/src/util/download.ts:78-132 | If the sources serve the same content and honour ranges (RFC 9110, section 14.2), the partial file is a prefix of it after any interruptions, cancellations, retries and changes of source |
| Download.NeverPastTheLimit | apps/agent/src/util/download.ts:192-212 | The partial file never grows past maxBytes, whatever is announced and sent |
| Download.SuccessIsVerified | apps/agent/src/util/download.ts:238-276 | Success means the file is there with the size and both digests asked for |
| Download.SuccessIsTheContent | apps/agent/src/util/download.ts:97-101 | With the right size, success means the whole content |
| Download.AnnouncedSuccessIsTheContent | apps/agent/src/util/download.ts:187-214 | Without a size, success still means the whole content when the servers announce its length |
| Download.UnbrokenAnswerCompletes | apps/agent/src/util/download.ts:182-214 | One unbroken answer completes a partial file from wherever it stood |
| Download.CompletePartWithoutSizeFails | apps/agent/src/util/download.ts:171-181 | A complete partial file resumed without knowing the size is answered 416 (RFC 9110, section 15.5.17) and fails at every source |
| Download.ResumeWithoutSizeExactly | apps/agent/src/util/download.ts:134-214 | With servers that send the content undisturbed and answer 416 behind its end, a download without a size succeeds if and only if the partial file is not complete already, and ends with the content either way |
| Download.EverySourceIsReported | apps/agent/src/util/download.ts:120-131 | A failed download reports each source once and in order, unless it was cancelled; its code is unreachable exactly when every source was, that of the only source, and otherwise a plain I/O error |
| Download.RetriesComplete | apps/agent/src/util/download.ts:90-118 | Whatever the answers to earlier attempts brought before they broke off, one undisturbed answer to a later attempt at the source completes the file |
| Download.AnswerDecides | apps/agent/src/util/download.ts:155-200 | An unreachable source, a refusal (403, 404 or 410) and an announcement past the limit end the source at once and leave the file alone, a cancellation ends the download, and any other answer without a body is worth another attempt |
| Download.BodyDecides | apps/agent/src/util/download.ts:182-214 | A body goes behind what is there after a 206 and replaces it otherwise, up to the chunk that passes the limit or at which the caller cancelled; a broken or short one is worth another attempt from there, and a whole one is verified |
| Download.LongEnoughIsVerified | apps/agent/src/util/download.ts:143-145 | A file as long as asked for is verified without a body: found, or deleted as a mismatch |
| Download.FailuresHaveReasons | apps/agent/src/util/download.ts:99-131 | Each reported failure has its reason in what that source answered, and a download is cancelled only by the caller |
| Download.Downloader.DownloadWithResume | apps/agent/src/util/download.ts:78-132 | The nested loops over sources and attempts end and compute the specification's file and result |
| Download.Downloader.FetchChunk | apps/agent/src/util/download.ts:134-221 | One request, branch by branch, is the specification's |
| Download.Downloader.WriteChunks | apps/agent/src/util/download.ts:201-212 | Writing each chunk at the moving offset appends it |
| Download.Downloader.VerifyPart | apps/agent/src/util/download.ts:238-276 | A missing file is an I/O error, one that lacks the size or a digest asked for a mismatch, and any other no problem; a mismatching file is deleted, and no other |
| Listing.SummarizeListing | apps/agent/src/backup/backup-service.ts:1132-1196 | Each known directory once, field by field with the size, number and latest time of all files below it and whether it has more files than listed; each listed file with its path, size and time; totals over all files; both caps; flagged exactly when a directory or file is missing from the answer |
| Listing.ListedPerDir | apps/agent/src/backup/backup-service.ts:1175-1186 | Of each directory as many files are listed as it has, up to the limit, and every listed one is a file of the archive |
| Listing.KnownIsClosed | apps/agent/src/backup/backup-service.ts:1149-1158 | Whatever lies above a known directory is known |
| Listing.Collector.DirOf | apps/agent/src/backup/backup-service.ts:1149-1158 | Adds the path and those above it that are missing, empty, and changes no other |
| Listing.Collector.CountUp | apps/agent/src/backup/backup-service.ts:1168-1173 | Walking up from the parent adds the file to exactly the directories above it |
| Listing.Collector.AddFile | apps/agent/src/backup/backup-service.ts:1165-1186 | One file entry keeps all sums, counts and flags those of the entries seen so far |
| Listing.SortSorts | apps/agent/src/backup/backup-service.ts:1188-1190 | The sort by path orders and keeps exactly the entries given |
| Paths.BelowParent | apps/agent/src/backup/backup-service.ts:1120-1123 | What lies above a path is its parent and what lies above that |
| Paths.CoversByNames | apps/agent/src/backup/backup-service.ts:1098-1101 | A path covers another one exactly when its names are the first names of the other |
| Restore.NormalizeRestorePaths | apps/agent/src/backup/backup-service.ts:1069-1087 | Refuses at the first invalid or reserved path; otherwise sorted, without a path another one covers, and standing for exactly the region asked for |
| Restore.IsReservedPath | apps/agent/src/backup/backup-service.ts:1089-1096 | The loop over prefixes finds exactly whether the path or one above it is excluded, as a directory or as a file |
| Restore.SameRegion | apps/agent/src/backup/backup-service.ts:1098-1101 | The reduced list includes exactly the paths the whole list includes |
| Restore.SomethingCovers | apps/agent/src/backup/backup-service.ts:1086-1086 | Every dropped path is covered by one that is kept |
| Restore.ServerFolder.RestoreInPlace | apps/agent/src/backup/backup-service.ts:912-1011 | Refuses untouched when a path is not in the archive; when done, the tree is the archive inside the region and the old tree outside it; outside is unchanged even when cancelled midway |
| Restore.ServerFolder.Clear | apps/agent/src/backup/backup-service.ts:993-999 | Removes exactly the region |
| Watchdog.RestartsAreBounded | apps/agent/src/monitoring/watchdog.ts:92-99 | Between resets any closed window of the configured length holds at most crashLoopMax decisions to restart, for every run; each restart carries out one decision after its delay |
| Watchdog.KillsNeedTimeouts | apps/agent/src/monitoring/watchdog.ts:275-284 | A kill comes after at least freezeFailures counted timeouts since the last answer or entry, and once per such period |
| Watchdog.RestartsFollowDecisions | apps/agent/src/monitoring/watchdog.ts:216-228 | Every restart carries out one decision made after the last cancellation, once |
| WatchdogDuties.CrashDecidesExactly | apps/agent/src/monitoring/watchdog.ts:169-229 | Over every run: a crash with automatic restarts on and fewer decisions than the limit since the window began decides a restart, due after a delay that is the number of the attempt times the basic delay or the maximum, whichever is less; past the limit it gives up; without automatic restarts it does nothing |
| WatchdogDuties.PendingRestartIsDue | apps/agent/src/monitoring/watchdog.ts:220-228 | A decided restart stays pending until it is cancelled, replaced or carried out, and can be carried out once it is due |
| WatchdogDuties.FrozenServerIsKilled | apps/agent/src/monitoring/watchdog.ts:259-312 | Over every run, told from what happened: an answer ends a freeze, only a timeout of a live, running server counts, and the first one past the limit kills when the policy says so |
| WatchdogDuties.ProbesWhenDue | apps/agent/src/monitoring/watchdog.ts:233-251 | The probe timer is on exactly while the server runs, can be probed and nothing stopped probing |
| WatchdogDuties.FlagsFollowSteps | apps/agent/src/monitoring/watchdog.ts:247-287 | Over every run: a probe starts exactly while probing is due and none counts as under way, as many are under way as started and did not end, and the memory alert stands until the server starts anew |
| Watchdog.ServerWatch.HandleCrash | apps/agent/src/monitoring/watchdog.ts:169-229 | Decides, gives up or only reports, with the counter pruned to the window; keeps what the three results above rest on |
| Watchdog.ServerWatch.CountAttempts | apps/agent/src/monitoring/watchdog.ts:93-99 | Keeps exactly the restarts inside the window, in order; keeps what the three results above rest on |
| Watchdog.ServerWatch.HandleState | apps/agent/src/monitoring/watchdog.ts:112-142 | Each state resets exactly what it should; keeps what the three results above rest on |
| Watchdog.ServerWatch.CancelRestart | apps/agent/src/monitoring/watchdog.ts:102-109 | Drops the pending restart and the counter; keeps what the three results above rest on |
| Watchdog.ServerWatch.EndProbe | apps/agent/src/monitoring/watchdog.ts:259-287 | Only a timeout of a live, running server counts, and only the first one past the limit kills; keeps what the three results above rest on |
| Rcon.DecodeInvertsEncode | apps/agent/src/minecraft/rcon.ts:25-59 | Decoding packets written one after the other gives exactly those packets and nothing left over |
| Rcon.EncodeLayout | apps/agent/src/minecraft/rcon.ts:25-33 | On the wire come the length of what follows, the identifier, the kind, each in four bytes with the least significant first, the body and two zero bytes |
| Rcon.ReadBackExactlyWhenReadable | apps/agent/src/minecraft/rcon.ts:47-50 | A packet is read back if and only if its length is within 1 << 20; a longer one is dropped with everything behind it |
| Rcon.AnyChunking | apps/agent/src/minecraft/rcon.ts:231-238 | The same bytes in any pieces give the same packets and the same bytes left over, for every stream in which no byte lies behind a refused length |
| Rcon.PacketsArrive | apps/agent/src/minecraft/rcon.ts:231-238 | Whatever the pieces in which packets arrive, the client gets exactly these packets |
| Rcon.PiecesMatterExactly | apps/agent/src/minecraft/rcon.ts:231-238 | For every stream, all ways of cutting it have the same outcome if and only if it has no refused length or the first one is its last four bytes |
| Rcon.ReadInvertsWrite | apps/agent/src/minecraft/rcon.ts:28-30 | Every signed 32-bit integer is read back from its little-endian bytes |
| Rcon.DecodePackets | apps/agent/src/minecraft/rcon.ts:42-59 | The consuming loop is the recursive decoding |
| Rcon.RconClient.HandleData | apps/agent/src/minecraft/rcon.ts:231-238 | Keeps what is left over, appends the packets, and wakes the waiter exactly when there are some |

## Left out

Delivery and state:

- Sockets, WebSocket frames, timers and the wall clock itself: their effect is a step that may happen at any time, or a parameter.
- Failing writes of the state file or the task journal: a write that throws leaves later ones skipped (apps/agent/src/state/store.ts:174) and a missing directory is ignored (apps/agent/src/state/store.ts:212); both models assume that writes succeed or the process dies.
- The table of processed events behind `claim` is not part of this model; it is taken to answer true exactly the first time for an identifier, and to survive a crash of the panel.
- A second launcher outcome while a claim is not yet released: the rename would replace the claim (apps/agent/src/update/updater.ts:250). The launcher's steps are enabled only otherwise.
- HandlerStartsAtMostOnce: at most once, not exactly once, because the claim comes before the handler and a crash of the panel between the two leaves a claimed event unhandled (apps/panel/src/agents/session.ts:462-467).
- ClaimsFollowEmission: for links whose sends have not failed so far; after a failed send a later event can overtake an earlier one until the next replay.

Schedules:

- InstantInvertsWallClock: for zones with one-hour changes more than three days apart; InstantExactly gives the exact condition for a change by any amount.
- InstantExactly: for whole-minute offsets within 16 hours, and at most one change within 33 hours of the clock asked for.
- Dates outside the range of JavaScript's `Date`, years 0 to 99 (which `Date.UTC` maps to 1900 to 1999) and the process's own zone when none is given.
- Parsing cron text (`parseField`, `parseCron`, `splitCronList`): an expression is its sets of values, an invalid one is `None`.
- EveryOccurrenceOnce: the agent may be restarted between ticks but does not die within one; a crash between recording an occurrence and starting its backup loses that occurrence (apps/agent/src/backup/scheduler.ts:126-142).

The other models:

- Tasks: while the outcome of a task whose record was already forgotten is still being written, its id is not started anew; deleting an artifact succeeds; an executor stops calling its context when it ends; progress events and the content of results are not modelled.
- OneOutcomePerRun: at most once, not exactly once, because a crash between the last journal write and the emission loses the event (apps/agent/src/tasks/runner.ts:206-217), and a record acknowledged while its start was being written can be forgotten before its outcome is announced (apps/agent/src/tasks/runner.ts:128-136).
- Console: several servers, browsers and their snapshots; a browser may miss lines that `merge` appends without publishing (apps/panel/src/agents/console.ts:131-137). Lines on their way when a session ends do not arrive.
- Transactions: statements are writes, failures and engine rollbacks; SQL itself, prepared statements and the kinds of locks are not modelled.
- Properties: strings are sequences of UTF-16 code units; reading and writing the file is left out, and the order of an update's keys is a parameter.
- Downloads: URL resolution, headers, redirects and timeouts are part of what the network answers; digests are functions given as parameters.
- Listing: `files` of a file entry is 0 where the source leaves it out; the entries come from a parsed archive.
- Restore: directories, permissions and files in the way of a directory; validation of a path (`safeRelative`) and the reserved names are parameters; stopping, backing up and restarting the server, and restoring side by side.
- Watchdog: the clock does not go back, the policy does not change during a run, and one server is followed; alerts themselves are not modelled.
- RCON: bodies are bytes, without UTF-8 decoding; queueing of commands, authentication and timeouts.

Not modelled at all, because it would add only easy members or only foreign calls: request routing, process
spawning, metrics, the RPC peer and the transfer engine, archive formats, signatures, the web front
end, and small helpers with a single branch.
