# Frame Social: a verified model of the message path, its limiters and its groups

This Dafny project models the parts of the Frame Social API (a Go service over SurrealDB) that keep state, and
proves what they promise over whole runs. `dafny verify dfyconfig.toml` checks all of it.

A *machine* describes one critical section, or one database transaction, as a step; runs are sequences of steps
in any order the locks allow, and the theorems speak of every run. Where the original keeps state in an object,
a *class* is the code itself, with the fields and loops of the original, and each of its methods is proved to be
a step of the machine. What spans handlers without an object of its own is a machine alone: admission, whose
only code here is the choice of a lock shard, and the races over the rate row and the cached member list. The
database is a set of tables changed by atomic transactions. Time, random ids, the database's answers and the
choices of map iteration are arguments.

| Files | Component |
|---|---|
| `message_db.dfy`, `pending_store.dfy`, `write_behind.dfy`, `persister.dfy` | a message is accepted into a bounded RAM store and queue, one worker writes it with unlimited retries, and deletions mark the database and edit RAM under the worker's lock |
| `write_through.dfy` | the simple system that writes and deletes at once, and the refinement between the two |
| `delivery.dfy`, `worker.dfy` | conservation, finality of deletion, order, counting, and the drain |
| `pages.dfy`, `reading.dfy`, `duplicates.dfy` | listing: top rows merged with RAM, sorted, cut, and followed by cursor; and the message a repeated send is answered with |
| `event_log.dfy`, `event_answers.dfy`, `event_cursors.dfy`, `event_broker.dfy` | per-account versions, the pruned index of changes, long-poll waiters, and cursors that outlive their account's state |
| `memory_limiter.dfy`, `surreal_limiter.dfy`, `surreal_races.dfy`, `limiter_agreement.dfy` | the two message rate limiters, each compared with a ledger that forgets nothing, and the races of the second |
| `admission.dfy` | concurrent sends: the lock shard held from limiter check to outcome |
| `http_limiter.dfy` | the fixed-window limiter of the HTTP endpoints |
| `groups.dfy`, `member_cache.dfy`, `group_server.dfy`, `group_rights.dfy`, `group_effects.dfy`, `cache_races.dfy` | group membership, ownership, invitations, join requests, the cache of member lists, and its races |

Where a property one would like is false of the code, the code is kept, one lemma gives the failing input or run
and another says exactly when the property holds:

| property | holds exactly when | fails in |
|---|---|---|
| a page is the newest visible messages | `Pages.PageRightIff` | `Pages.SharedClientIdLosesMessage` |
| a listing misses no visible message | `Reading.SplitReadShowsIff` | `Reading.WriteBetweenReadsHides` |
| the deletion handler finds a live message | `Reading.SplitLookupFailsIff` | `Reading.WriteBetweenLooksMisses` |
| readers see the write-through system | `WriteThrough.HalfDoneHides` | `WriteThrough.HalfHideStillShows` |
| a cursor is told all that was published since | `EventCursors.CursorCompleteIff` | `EventCursors.SurvivingCursorMisses` |
| a timeout's version skips nothing | `EventCursors.TimeoutSkipsIff` | `EventCursors.TimeoutSkipsPublish` |
| deleting an expired rate row loses nothing | `SurrealLimiter.DeleteLosesIff` | `SurrealRaces.DeleteLosesAdmission` |
| a swap that succeeds replaces the row it was computed from | `SurrealLimiter.SwapSucceedsIff` | `SurrealRaces.SwapAfterDeleteLosesAdmission` |
| the two limiters agree | `LimiterAgreement.AgreeExactlyWhileRemembered` | `LimiterAgreement.LimitersDiffer` |
| a duplicate answer means a message | `Admission.DuplicateWithoutMessageIff` | `Admission.DuplicateOfNothing` |
| a repeated send is answered with the sender's own message | `Duplicates.OwnAnswerIff` | `Duplicates.AnotherMembersMessage` |
| a cached member list is current once every drop has run | `CacheRaces.CacheRightIff` | `CacheRaces.LateFillStaysStale` |
| a transfer leaves one owner | `GroupRights.TransferKeepsOneOwnerIff` | `GroupRights.OverlappingTransfersMakeTwoOwners` |

The original's README and its code differ in two places, and the model follows the code. The README gives the
client-id memory as "24s" where the code keeps 24 hours (`internal/api/rate_limit.go:23`), and it lists the limiter
check before the send lock where the code locks first (`internal/api/messages.go:221-224`).

## Model

| member | source | states |
|---|---|---|
| MessageDb.NoResurrection | internal/api/message_deletion_store.go:67-86 | Over every history of writes, marks and hides, in any order and with any repetition: a marked message shows no text, its row carries the strongest mark ever made ("everyone" absorbs "retracted" in either order), and a message deleted for everyone before its write is never written. |
| MessageDb.TombstoneSummary | internal/api/message_deletion_store.go:68-77 | A tombstone depends only on which marks were made, not on their order or on interleaved writes. |
| MessageDb.RowExistsIff | internal/api/persist.go:124-150 | A row exists if and only if it did before, or some write of the message came before every delete-for-everyone. |
| MessageDb.CommitIsFinal | internal/api/persist.go:127-149 | Repeating a job's transaction after its first commit changes nothing, whatever ran in between: retries are idempotent. |
| MessageDb.ApplyKeepsDbOk | internal/api/persist.go:130-136 | Each transaction keeps every row in agreement with its tombstone, and marked rows without text. |
| MessageDb.ApplyKeepsReceipts | internal/api/persist.go:144-147 | Each transaction keeps at most one receipt per recipient and message, and none without a row. |
| MessageDb.RowTellsItsJob | internal/api/persist.go:130-143 | Over every history: a row that was not there at first carries the conversation, sender, client id and time of one of the writes of its message, and its very text unless it has been marked. |
| MessageDb.HiddenIff | internal/api/message_deletion_store.go:58-64 | Over every history: a message is hidden from exactly the accounts that hid it. |
| Pending.PendingStore.TryAppend | internal/api/cache.go:84-93 | Appends exactly when the sum of all list lengths is below the limit; the counter stays that sum. |
| Pending.PendingStore.Remove | internal/api/cache.go:108-122 | Takes the message out of its conversation's list, drops an emptied list, and counts off only what it removed. |
| Pending.PendingStore.Find | internal/api/cache.go:124-135 | Finds an entry if and only if some list holds the id. |
| Pending.PendingStore.Hide | internal/api/cache.go:137-144 | Adds one account to the message's hidden set and changes nothing else. |
| Pending.PendingStore.Retract | internal/api/cache.go:153-170 | Scrubs the entry wherever it is, keeps its place, and leaves the counter alone. |
| Pending.PendingStore.DeleteEverywhere | internal/api/cache.go:172-188 | Removes the entry from every list and counts it off exactly once. |
| Pending.TotalUpdate | internal/api/cache.go:84-93 | The sum of list lengths moves by exactly the change of one list. |
| WriteBehind.StepKeepsInv | internal/api/persist.go:65-168 | Every accept, take, write attempt (failed, committed without report, or reported), hide and deletion keeps: RAM lists equal the unfinished jobs in order, rendered under their tombstones, less those deleted for everyone; jobs strictly ordered; rows signed by their senders; both bounds. |
| WriteBehind.RunKeepsInv | internal/api/persist.go:65-168 | The same over every run. |
| WriteBehind.AcceptKeepsInv | internal/api/persist.go:65-85 | Accepting keeps the queue, RAM and the database in agreement for any clock. |
| WriteBehind.StampIsLeast | internal/api/persist.go:68-73 | A message is stamped with the first instant that is not before the clock and after every earlier stamp. |
| WriteBehind.AttemptKeepsInv | internal/api/persist.go:118-168 | So does an attempt in each of its three outcomes. |
| WriteBehind.DeleteKeepsInv | internal/api/message_deletion.go:38-47 | So does a deletion that marks the row and edits RAM under the worker's lock. |
| WriteBehind.RenderedRetract | internal/api/cache.go:153-170 | Retracting a waiting message changes the expected RAM list exactly as scrubbing its entry does. |
| WriteBehind.RenderedDelete | internal/api/cache.go:172-188 | Deleting a waiting message for everyone changes the expected RAM list exactly as removing its entry does. |
| WriteThrough.WriteBehindRefinesWriteThrough | internal/api/persist.go:63-168 | After every interleaving an account sees at least what a system that writes and deletes at once shows with every begun hide applied, and at most what it shows with every finished hide applied; the two are equal when no hide is between its database and RAM writes. |
| WriteThrough.HidesAre | internal/api/message_deletion.go:12-16 | In the simple system a hide is begun exactly by its database write, finished exactly by its RAM write, and never undone. |
| WriteThrough.HalfDoneHides | internal/api/message_deletion.go:12-16 | In every reachable state an account sees exactly what the simple system shows with every begun hide applied, and besides it the messages that wait in RAM with their hide in the database and not yet in RAM; so the two are equal if and only if there are none. |
| WriteThrough.HalfHideStillShows | internal/api/message_deletion.go:12-16 | A run of two steps that ends between the two writes of a hide: the account still sees the message. |
| WriteThrough.StepRefines | internal/api/persist.go:118-168 | Each step keeps the write-behind state in the refinement relation with the write-through one. |
| WriteThrough.NothingExtra | internal/api/messages.go:79-122 | Everything shown is in the simple system. |
| WriteThrough.NothingMissing | internal/api/messages.go:79-122 | Everything in the simple system is shown. |
| WriteThrough.QueryAnswers | internal/api/messages.go:80-92 | The query returns exactly the rows of the conversation that are neither hidden by the account nor deleted for everyone, each with its own id, client id, sender, text, time and deleted flag. |
| Delivery.Conservation | internal/api/persist.go:63-91 | Every accepted message has a row, or waits in RAM with an unfinished job, or was deleted for everyone; RAM holds an id exactly while its job is unfinished and it is not deleted for everyone; at most one receipt each. |
| Delivery.DeletionIsFinal | internal/api/message_deletion.go:38-47 | After a deletion by the sender, through any later steps, nobody sees the text again; after delete-for-everyone nobody sees the message and RAM never holds it again. |
| Delivery.AcceptedStaysVisible | internal/api/persist.go:63-85 | From acceptance on, through failures and repeated writes, an undeleted message is shown with its text and time to every account that did not hide it. |
| Delivery.ShownAsSent | internal/api/messages.go:79-122 | Whoever sees an accepted message, at any later time and whatever was deleted or hidden, sees it in its conversation under its sender, client id and timestamp, with its very text, or without text and as deleted once it is retracted. |
| Delivery.LookupAuthorizes | internal/api/message_deletion.go:72-84 | The sender found in the row or else in RAM is the sender of the message, now and after any further steps. |
| Delivery.MarksGrow | internal/api/message_deletion_store.go:68-77 | Tombstones are never lost, and "everyone" never goes back. |
| Delivery.QueueOrder | internal/api/persist.go:68-83 | For any clock, even one running backwards: accepted timestamps strictly increase, each RAM list is the job order restricted to its conversation, rows appear in acceptance order, and last_message is the newest row written. |
| Delivery.CountIsUnfinishedJobs | internal/api/cache.go:84-122 | The RAM counter is always the number of unfinished jobs not deleted for everyone, within the limit. |
| Worker.WorkerWritesEachJobOnce | internal/api/persist.go:87-112 | If the database fails finitely often on each job the drain ends with the queue and RAM empty and the database as if each job had been written once. |
| Worker.EachJobHasItsRow | internal/api/persist.go:127-149 | After the drain each surviving job has its row and exactly one receipt per member, except the sender, read by its first committed attempt. |
| Worker.OthersKept | internal/api/persist.go:127-149 | The drain leaves every other row, mark and receipt alone. |
| Worker.BackoffSettles | internal/api/persist.go:94-110 | The pause between attempts never shrinks and is ten seconds from the seventh failure on. |
| Worker.FirstPauses | internal/api/persist.go:94-110 | The first six pauses are 200, 400, 800, 1600, 3200 and 6400 milliseconds. |
| Persistence.Persister.Accept | internal/api/persist.go:65-85 | One accept step: succeeds exactly when queue and RAM have room, with a stamp later than every earlier one; the rollback after the capacity test is unreachable. |
| Persistence.Persister.DoPersist | internal/api/persist.go:118-168 | One attempt step, including a commit that is not reported. |
| Persistence.Persister.PersistWithRetry | internal/api/persist.go:93-112 | Runs attempts until one is reported, pausing by the doubling, capped backoff. |
| Persistence.Persister.Drain | internal/api/persist.go:87-91 | Empties queue and RAM and leaves the database with each job written once. |
| Persistence.Persister.Lookup | internal/api/message_deletion.go:72-84 | In one state: finds the sender in the row first, else in RAM, and nobody only when neither holds the message. |
| Persistence.Persister.DeleteShared | internal/api/message_deletion.go:29-54 | One deletion step; a failed mark changes nothing. |
| Persistence.Persister.HideInDatabase | internal/api/message_deletion.go:12-15 | The database half of delete-for-me. |
| Persistence.Persister.HideInRam | internal/api/message_deletion.go:16-16 | The RAM half of delete-for-me. |
| Pages.ListPage | internal/api/messages.go:99-152 | From the query's top rows and RAM the handler returns the newest `limit` messages before the cursor of both together, less only the entries without a row that clash in client id with a fetched row or an earlier eligible entry, and a cursor exactly when the page is full. |
| Pages.MergedPage | internal/api/messages.go:79-128 | Taking the database top rows before merging loses nothing, even when a waiting message's row lies outside them. |
| Pages.PageRightIff | internal/api/messages.go:111-121 | The page is right if and only if no message of the right page is an entry without a row whose nonempty client id a fetched row or an earlier eligible entry carries; so always when client ids are distinct. |
| Pages.MergeCollectsIff | internal/api/messages.go:103-122 | The merge collects an eligible entry if and only if it is already there or stands in the list without such a clash. |
| Pages.LostSharesClientId | internal/api/messages.go:112-117 | A dropped message shares a nonempty client id with another message of the conversation. |
| Pages.SharedClientIdLosesMessage | internal/api/messages.go:113-114 | A concrete conversation in which the comparison drops the newer of two messages by different senders. |
| Pages.MergeElements | internal/api/messages.go:103-122 | The merge keeps what was fetched, adds only eligible candidates, adds none twice, and skips one only for a message with its id or client id. |
| Pages.SortNewestFirst | internal/api/messages.go:123-125 | Sorts newest first without gaining or losing a message. |
| Pages.Collect | internal/api/messages.go:103-122 | The merge loop. |
| Pages.PageIsUnique | internal/api/messages.go:123-128 | A conversation has one right page per cursor and limit. |
| Pages.WalkListsEachOnce | internal/api/messages.go:148-152 | Following the cursors over an unchanging conversation lists each message exactly once, newest first. |
| Pages.WalkEnds | internal/api/messages.go:148-152 | Following the cursors ends. |
| Reading.ListMessages | internal/api/messages.go:79-152 | On the live object the page is the page of everything the account can see in that state, less what clashes in client id; with distinct client ids, of everything. |
| Reading.PageMatchesSimpleSystem | internal/api/messages.go:79-129 | In every reachable state with no hide half done, the page equals the page of the write-through system. |
| Reading.TimesTellInEveryRun | internal/api/persist.go:68-73 | Timestamps stay distinct in every run whose clock is past the stored rows. |
| Reading.SplitReadShowsIff | internal/api/messages.go:80-101 | Whatever runs between the database read and the RAM read: a visible message that the first read did not return, standing at place i of the worker's jobs, is shown if and only if at most i writes were reported in between, nobody deleted it for everyone and the account did not finish hiding it. |
| Reading.VisibleIsReadOrJob | internal/api/messages.go:80-122 | Every visible message is in the first read or has such a place. |
| Reading.UnfinishedIff | internal/api/persist.go:87-112 | The job at place i is unfinished after a run if and only if the run reported at most i writes. |
| Reading.WriteBetweenReadsHides | internal/api/messages.go:80-101 | In every state with an unwritten job in flight, a write reported between the two reads hides that message from the page. |
| Reading.SplitLookupFailsIff | internal/api/message_deletion.go:72-84 | Whatever runs between the two looks of the deletion handler, the lookup of the message at place i of the worker's jobs fails if and only if it had no row at the first look and by the second more than i writes had been reported or it had been deleted for everyone. |
| Reading.WriteBetweenLooksMisses | internal/api/message_deletion.go:72-84 | A write reported between the two looks: nothing is found, yet the message is stored with its text. |
| Duplicates.UnansweredIff | internal/api/messages.go:233-249 | Whatever runs between the look in RAM and the query: a message of the sender's own that it could see at the first is answered with something unless in between it was deleted for everyone or its row was hidden; when it is the only one the account sent under the client id, nothing is answered if and only if that happened and no unwritten message of the conversation with that client id was in its sight. |
| Duplicates.OwnAnswerIff | internal/api/messages.go:233-249 | The answer to a message not so removed carries its client id, and is the sender's own if and only if no unwritten message of the conversation with that client id is in its sight or the earliest of those is its own; an own answer is the very message when the account sent no other under the client id. |
| Duplicates.AnotherMembersMessage | internal/api/messages.go:234-239 | A run of two sends with one client id: the second sender's repeated send is answered with the first sender's message. |
| Duplicates.AnswerDuplicate | internal/api/messages.go:233-249 | The scan of the RAM list and the fallback to the query's row. |
| EventAnswers.AnswerIsExact | internal/api/events.go:94-114 | For a cursor of the present incarnation an answer is a resync or exactly the conversations published after the cursor; a caller waits only if there were none; a resync has a stale cursor or a full table as its reason. |
| EventAnswers.ResyncIsDeserved | internal/api/events.go:79-118 | After every run and for any cursor: a resync carries the account's version, or zero when the full table gives it no state; an account with a state answers one only to a cursor beyond its version (and then always), to one more than 1000 publishes behind, or to a current one when no more waiters fit. |
| EventAnswers.FollowerMissesNothing | internal/api/events.go:79-109 | A client that moves its cursor only on answers has, until a resync or the loss of its state, been told exactly the conversations published since it began. |
| EventAnswers.NoLostWakeup | internal/api/events.go:71-75 | In every run: a registered waiter is at its account's current version; a publish to the account closes and removes it; it leaves otherwise only by its own timeout; the waiter count is the number of registered waiters; the account, waiter and per-account caps hold. |
| EventLog.BumpKeepsIndex | internal/api/events.go:61-70 | A publish keeps the pruned index equal to the full log above the floor; pruning never underflows, never lowers the floor, and leaves at most 1000 entries. |
| EventLog.IndexSize | internal/api/events.go:63-69 | Distinct conversations have distinct versions, so an index above a floor has at most version minus floor entries. |
| Broker.MessageEventBroker.Open | internal/api/events.go:51-60 | Finds or makes the account's state, trimming once when the table is full; it refuses one only when all 10000 states have waiters, and removes none that has. |
| EventLog.StepKeepsInv | internal/api/events.go:42-139 | Every publish, wait and timeout keeps index, waiters, counters and caps in order. |
| EventLog.RunKeepsInv | internal/api/events.go:42-139 | The same over every run. |
| EventCursors.TimeoutSkipsIff | internal/api/events.go:120-135 | Adopting the version a timeout returns, zero included when the state was trimmed after the wake-up, resumes at the end of all that was published, so it skips nothing if and only if no publish had closed the waiter before the timeout took the lock. |
| EventCursors.TimeoutSkipsPublish | internal/api/events.go:120-135 | A run in which a publish wins the lock just before the timeout: the wait returns its version and no ids. |
| EventCursors.CursorCompleteIff | internal/api/events.go:79-135 | A cursor used at any later moment and not met with a resync, across lost states, new incarnations and publishes dropped because every state was busy; the cursor is the account's version, or the zero told to a reader by a full table or by a timeout after its state was trimmed. The answer is everything published to the account since the cursor was issued if and only if all of the gap (what came after it but at or below its number in the present incarnation) was published again after the gap; within one incarnation the gap is empty. |
| EventCursors.SurvivingCursorMisses | internal/api/events.go:143-161 | A run that fills the table with 10000 accounts, takes the reader's state and gives it back: of three publishes since its cursor the answer leaves out a conversation. |
| EventCursors.StepKeepsHistory | internal/api/events.go:42-139 | While an account has a state its log is the part of everything published to it since the state began; open waiters stand at the end of it and woken ones behind. |
| Broker.MessageEventBroker.PublishAll | internal/api/events.go:42-77 | Publishes once to each distinct account of the list, as a run of the machine. |
| Broker.MessageEventBroker.PublishOne | internal/api/events.go:51-75 | One publish step. |
| Broker.MessageEventBroker.TrimInactiveStates | internal/api/events.go:143-152 | Removes one state without waiters if there is one, and nothing else. |
| Broker.MessageEventBroker.Prune | internal/api/events.go:63-69 | The pruning loop keeps exactly the entries above the floor. |
| Broker.MessageEventBroker.WakeAll | internal/api/events.go:71-75 | Closes and forgets every waiter of the account and counts each off once. |
| Broker.MessageEventBroker.BeginWait | internal/api/events.go:79-118 | Answers or registers as the machine does; a list of ids has no repetition. |
| Broker.MessageEventBroker.TimeOut | internal/api/events.go:120-135 | Forgets the waiter if it is still registered and reports the version found. |
| MemoryLimiter.ForgettingIsUnobservable | internal/api/rate_limit.go:80-136 | Every run of checks, forgets and cleanups with a clock that does not run backwards gets the same answers from the compacting, cleaned-up limiter as from one that keeps every admission and client id forever. |
| MemoryLimiter.WindowBound | internal/api/rate_limit.go:100-116 | Every half-open minute of any such run holds at most 50 of an account's non-duplicate admissions, across compaction, penalties, forgets and cleanups. |
| MemoryLimiter.LedgerAdmissions | internal/api/rate_limit.go:100-116 | The forever-kept ledger holds exactly the admissions read off the answers. |
| MemoryLimiter.AdmitsExactly | internal/api/rate_limit.go:80-117 | After every such run a check is let through if and only if its client id was admitted and has neither expired nor been forgotten, or no penalty ever given still runs and fewer than 50 messages of the account were admitted in the minute that ends now; a refusal names the penalty's end. |
| MemoryLimiter.AllowedIff | internal/api/rate_limit.go:84-116 | In any state: who is let through, who is called a duplicate, and that a refusal names the block now in force and the whole seconds until it ends, at least one. |
| MemoryLimiter.FiftyFirstRefused | internal/api/rate_limit.go:108-112 | The fifty-first message within a minute is refused for 300 seconds. |
| MemoryLimiter.CleanupAgrees | internal/api/rate_limit.go:119-136 | Dropping expired client ids, or a whole idle account, changes nothing that can still matter. |
| MemoryLimiter.CleanedExactly | internal/api/rate_limit.go:119-136 | A cleanup forgets exactly the expired client ids, and an account unseen for a day that has no others. |
| MemoryLimiter.CompactInPlace | internal/api/rate_limit.go:100-107 | Filters the timestamps into the front of their own buffer. |
| MemoryLimiter.MemoryMessageRateLimiter.CheckMessage | internal/api/rate_limit.go:80-117 | One check step and its answer. |
| MemoryLimiter.MemoryMessageRateLimiter.ForgetClient | internal/api/rate_limit.go:53-62 | One forget step; an empty client id does nothing. |
| MemoryLimiter.MemoryMessageRateLimiter.CleanUp | internal/api/rate_limit.go:119-136 | One cleanup tick over all accounts. |
| Common.RetrySeconds | internal/api/rate_limit.go:94-97 | Seconds until an instant, rounded up, at least one. |
| SurrealLimiter.CommitsFormAChain | internal/api/rate_limit.go:310-438 | In every interleaving of concurrent checks in which no stale swap succeeds, whatever its deletes: each row written was computed from the one right before it and holds at most 50 timestamps, and a timestamp goes only when a later change's window has passed it or a delete loses it; a delete that finds the row as it was read, or already deleted, loses nothing. |
| SurrealLimiter.DeleteLosesIff | internal/api/rate_limit.go:355-366 | In every interleaving: a check about to delete destroys an admission in its window or a live penalty only if the row was written since it read it and not deleted since, and it does if the last writer began less than a window before it. If no stale swap succeeded it does so if and only if some check that wrote since its read and since the last delete is still in force: an admission in its window or a penalty that has not run out. |
| SurrealLimiter.SwapSucceedsIff | internal/api/rate_limit.go:389-438 | In every interleaving: a swap succeeds if and only if the row has not changed since it was read, or no row was read and the last change is a delete, or the row was deleted since and written exactly as many times after as the version read (a stale swap). Except in that last case the row replaced is the row it was computed from; in it the row replaced was written after the read. |
| SurrealLimiter.GivingUpMeansRivals | internal/api/rate_limit.go:310-456 | From any state and through any run: when a check gives up, others have changed the row at least five times since it arrived. |
| SurrealRaces.GivingUpAfterFourRows | internal/api/rate_limit.go:310-456 | A run from no row in which only four of those five changes are rows written: the first is the delete of the row it had read. |
| SurrealLimiter.CreateBlockedIsDead | internal/api/rate_limit.go:372-388 | A penalty is never written over a missing row. |
| SurrealRaces.DeleteLosesAdmission | internal/api/rate_limit.go:355-366 | A run from no row: fifty admissions, a penalty, and when it has run out two checks that both read the row; the second deletes the admission the first was given. |
| SurrealRaces.SwapAfterDeleteLosesAdmission | internal/api/rate_limit.go:413-438 | A run in which a check stalls with version 1 in hand while the row is penalized, deleted and made anew with version 1: its swap succeeds and the new admission is lost. |
| LimiterAgreement.TheTwoLimitersAgree | internal/api/rate_limit.go:267-457 | On every sequential run of checks, cleanups of either, persisted messages and forgets of messages that were not, with a clock that does not run backwards and client ids repeated only while remembered, both limiters return the same allowed, duplicate, retry and blocked-until values. |
| LimiterAgreement.AgreeExactlyWhileRemembered | internal/api/rate_limit.go:275-306 | One check gets the same answer from the in-memory limiter and from the tables if and only if the tables do not know its client id or the memory still remembers it. |
| LimiterAgreement.LimitersDiffer | internal/api/rate_limit.go:275-306 | A run in which a client id comes again after its lifetime: admitted by one limiter, a duplicate for the other. |
| LimiterAgreement.SettleRunsTheMachine | internal/api/rate_limit.go:310-454 | The sequential check is what the concurrent machine does for a lone caller. |
| LimiterAgreement.MessagesAre | internal/api/rate_limit.go:289-304 | The tables know exactly the messages that have been persisted. |
| LimiterAgreement.SurrealRateLimiter.CheckMessage | internal/api/rate_limit.go:267-457 | One check on the tables; alone, the first swap succeeds and the retries are never used up. |
| Admission.AtMostOncePerLifetime | internal/api/messages.go:221-256 | Over all concurrent sends, full queues, reopened ids, abandoned sends and cleanups, two accepted messages with one account and client id have check times at least 24 hours apart; times need be in order only between checks of one client id and against cleanups. |
| Admission.DuplicateWithoutMessageIff | internal/api/messages.go:264-298 | After a send that ended without a message, and after any run that follows without another check of its client id, cleanups included: within the lifetime the client id is answered as a duplicate if and only if the send was abandoned on the block check rather than turned away by a full queue. |
| Admission.DuplicateOfNothing | internal/api/messages.go:264-273 | A run in which a send is abandoned and its repetition answered as a duplicate though nothing was accepted. |
| Admission.StepKeepsInv | internal/api/messages.go:221-298 | Every step of a send keeps its shard held from check to outcome and its admission remembered. |
| Admission.NoDeadlock | internal/api/messages.go:221-222 | After every run a shard is held exactly by a send between its lock and its outcome, and a waiting send either gets its shard or waits for one that can go on. |
| Admission.OutcomeIsFinal | internal/api/messages.go:222-301 | Once a send is accepted, abandoned, refused or turned away its shard is free and it takes no further step in any run. |
| Admission.TurnedAwayOnlyReopens | internal/api/messages.go:292-298 | A send turned away by a full queue is never accepted in any run that follows: all it still does is to forget its client id. |
| Admission.HistoryIs | internal/api/messages.go:221-301 | The accepted history is what the run's accept steps read, and the limiter's state is that of its own checks, forgets and cleanups in order, so the limiter's theorems hold inside admission. |
| Admission.PickShard | internal/api/messages.go:305-314 | The hash loop picks one of 64 shards, the same for equal account and client id. |
| Admission.ShardVectors | internal/api/messages.go:305-311 | The key is the account, a zero and the client id, in that order, and the shard its hash modulo 64. |
| HttpLimiter.FixedWindowBound | internal/api/http_rate_limit.go:33-53 | Any closed interval of one window length admits fewer than twice the limit per key, and nothing when the limit is not positive. |
| HttpLimiter.BoundIsAttained | internal/api/http_rate_limit.go:45-53 | For every limit some run admits exactly one less than twice the limit in such an interval, so the bound cannot be improved. |
| HttpLimiter.SweepIsUnobservable | internal/api/http_rate_limit.go:37-43 | Sweeping stale entries changes no later answer. |
| HttpLimiter.TwoWindowsApart | internal/api/http_rate_limit.go:45-50 | Any 2 * limit consecutive admissions of a key span more than one window length. |
| HttpLimiter.RefusedUntilReset | internal/api/http_rate_limit.go:33-57 | A refusal tells the truth: until its reset time, through any other requests made by then, the key is refused with the same reset and the seconds left rounded up, and the first request after it is allowed if the limit is positive. |
| HttpLimiter.RateLimiter.AllowWithInfo | internal/api/http_rate_limit.go:33-58 | One request: its answer and the new table. The endpoint limiter has the same code. |
| HttpLimiter.RateLimiter.Sweep | internal/api/http_rate_limit.go:38-42 | The sweep loop removes exactly the stale entries. |
| Groups.OwnersAndCaches | internal/api/group_members.go:23-168 | After any run of the handlers: each group has exactly one active owner, no account has two active rows in a group, and a cached member list holds exactly the active members. |
| Groups.StepKeepsInv | internal/api/group_members.go:23-168 | Every handler keeps this, and publishes to exactly the members it leaves behind. |
| Groups.RunKeepsInv | internal/api/group_members.go:23-168 | The same over every run, with any choice of evicted cache entry. |
| Groups.LeaveKeepsInv | internal/api/group_members.go:28-37 | An owner who tries to leave is always refused. |
| Groups.MembersListed | internal/api/messages.go:165-171 | The member query lists exactly the active members, each once. |
| Groups.OwnersListed | internal/api/group_members.go:29-33 | The owner query returns the one owner. |
| Groups.CacheSetSize | internal/api/cache.go:31-43 | Storing a list keeps the cache within its bound. |
| Groups.CacheSetStores | internal/api/cache.go:31-43 | The list is stored, and only a full cache that does not know the conversation gives up another. |
| Groups.AdditionKeepsRows | internal/api/group_store.go:92-101 | Adding a member keeps at most one active row per account and the owner. |
| Groups.HandoverKeepsRows | internal/api/group_members.go:110-113 | A transfer by the owner to a member leaves that member the one owner. |
| Groups.PetitionKeepsOk | internal/api/group_store.go:115-147 | At most one invitation, and one join request, of an account for a group is pending. |
| GroupRights.StandingChangesByRight | internal/api/group_members.go:47-168 | Over all handlers: a creator owns the new group; a newcomer joins only through an open door, a password, an invitation it accepts or a request an admin accepts; members leave by themselves or are removed by a higher rank; only the owner changes roles. |
| GroupRights.OwnerMovesOnlyByTransfer | internal/api/group_members.go:79-119 | A group changes hands only when its owner transfers it to the account that then owns it. |
| GroupRights.ClosedGroupNeedsConsent | internal/api/groups.go:297-333 | Over every run in which a group is invite-only or by approval before and after each call, whatever else is changed about it, whoever becomes a member had an invitation or a join request accepted in that run. |
| GroupRights.PetitionsAreFinal | internal/api/group_requests.go:97-106 | Invitations and join requests are never lost and, once answered or withdrawn, never change. |
| GroupRights.InvitingAgain | internal/api/group_store.go:115-123 | Inviting again while an invitation is pending returns the same id and changes nothing. |
| GroupRights.TransferKeepsOneOwnerIff | internal/api/group_members.go:110-113 | The ownership transaction by itself leaves exactly one owner if and only if the target already owned the group, or the target is a member exactly when the sender owned it. |
| GroupRights.OverlappingTransfersMakeTwoOwners | internal/api/group_members.go:84-113 | Two transfers by the owner that both checked before either wrote leave the group with two owners, both targets, and the sender an admin. |
| GroupRights.OneOfTwoOwnersMayLeave | internal/api/group_members.go:28-43 | Of two owners either may leave, and leaves the other an owner. |
| GroupEffects.AnsweredIff | internal/api/group_members.go:23-168 | Over all handlers: a call is answered if and only if it is made by right, spelled out by rank, join rule and petition; a refused call changes and announces nothing. |
| GroupEffects.StandingIs | internal/api/group_members.go:38-160 | Every call leaves every account with exactly the role it is said to give it: a creator or transfer target owner, a former owner admin, a newcomer member, the leaving and the removed none, a changed role the one asked for, everyone else as before. |
| GroupEffects.RulesAre | internal/api/groups.go:78-86 | A group's join rule is the one it was created with or last changed to by an admin. |
| GroupEffects.InvitesAre | internal/api/group_requests.go:38-110 | An invitation is made for its target by its sender, or the pending one found; accepting, rejecting and withdrawing set exactly that status on it; nothing else touches invitations. |
| GroupEffects.RequestsAre | internal/api/group_requests.go:112-203 | The same for join requests. |
| GroupEffects.AnnouncedIff | internal/api/group_members.go:42-44 | An answered call is announced exactly when it may have changed the group, to the members it leaves. |
| GroupEffects.CacheIs | internal/api/events.go:213-230 | A list that is announced to or read is remembered, and apart from a clearing nothing else touches the cache. |
| GroupEffects.RefusalsAreTrue | internal/api/group_members.go:28-68 | The reason given for a refusal is true of the call. |
| Members.MemberCache.Set | internal/api/cache.go:31-43 | Stores the list; a full cache gives up one entry of its choosing, never otherwise. |
| Members.MemberCache.IsMember | internal/api/cache.go:57-70 | Tells whether the cache knows the conversation and whether its list names the account. |
| CacheRaces.CacheRightIff | internal/api/messages.go:159-174 | With handlers that are not atomic (look in the cache, query, store; change the members, drop the list), in every interleaving: the cached list is the current one at every moment with no drop outstanding if and only if no handler stores a list that a change has overtaken after every change so far has had its drop. A handler that fails after its change never drops. |
| CacheRaces.LateFillStaysStale | internal/api/group_members.go:38-43 | A run in which a leave's update and drop come between another handler's query and its store: nothing is outstanding and the cached list names the account that left. |
| GroupServer.Handlers.TransferGroupOwnership | internal/api/group_members.go:79-119 | The handler is one transfer step of the group machine: new rows and cache, reply and notified accounts, with the invariant kept. The other handlers of the class are shown to be their steps in the same way. |
| GroupServer.Handlers.RespondGroupInvitation | internal/api/group_requests.go:66-110 | The handler is one invitation-answer step of the group machine. |
| GroupServer.Handlers.GetMembersCached | internal/api/messages.go:159-174 | Returns exactly the active members, cached or not. |

## Left out

- HTTP decoding, JSON, routing, middleware, logging, response bodies and status codes; a handler's outcome is a reply value.
- The SurrealDB client, schema definitions and query parsing: each query is the table update it describes, and transactions are atomic.
- OTP, JWT, bcrypt and SHA-256: ids are opaque and fresh, tombstone and client-id keys are taken as injective, and whether a group password matches is an input.
- Push notifications, auth, profiles, privacy settings, search, friends, blocks, reactions, saved messages, reply links and read receipts: single queries that keep no state of their own. The block check of a send or an invitation is an input.
- A process crash, which loses what is only in RAM.
- Persistence.Persister.DeleteShared: a mark that commits but is reported as failed is treated as having had no effect, as is a failed hide; `MessageDb.NoResurrection` covers every sequence of transactions all the same.
- Persistence.Persister.PersistWithRetry: takes the outcomes of its attempts as an argument and so covers finitely many failures; the attempt's ten-second timeout is one of those outcomes.
- WriteThrough.WriteBehindRefinesWriteThrough: equality is stated when no hide is between its two writes, because the handler makes them one after the other; what is seen in between is stated exactly by `WriteThrough.HalfDoneHides`.
- Reading.ListMessages: both reads are taken from one state; what anything between them does is stated by `Reading.SplitReadShowsIff`.
- Persistence.Persister.Lookup: both looks are taken in one state; what anything between them does is stated by `Reading.SplitLookupFailsIff`.
- Pages.SortNewestFirst: timestamps are integers, so it does not capture the comparison of timestamps as text, in which RFC3339Nano drops trailing zeros.
- Pages.ListPage: needs timestamps within a conversation to be distinct, which `Reading.TimesTellInEveryRun` provides for everything this process accepts.
- EventAnswers.FollowerMissesNothing: the event stream also adopts the version returned on a timeout, and a client cannot tell that its account's state was lost; `EventCursors.TimeoutSkipsIff` and `EventCursors.CursorCompleteIff` say what that costs.
- EventLog.BumpKeepsIndex: versions are unbounded, so the wrap-around of a 64-bit counter is not modelled; the subtraction is shown not to underflow.
- MemoryLimiter.ForgettingIsUnobservable: assumes the clock does not run backwards between steps in lock order, over all accounts, since the code reads it before taking the lock; so do the other window claims.
- HttpLimiter.FixedWindowBound: makes the same assumption about the clock. Retry-After is the exact ceiling, where the code rounds a floating-point number of seconds up.
- SurrealLimiter.CommitsFormAChain: excludes runs in which a stale swap succeeds, which `SurrealLimiter.SwapSucceedsIff` states exactly. Unreadable timestamps and database failures are not modelled; the periodic cleanup deletes only rows without timestamps, and no check writes one.
- SurrealLimiter.DeleteLosesIff: in runs in which a stale swap succeeded it is two implications, not an equivalence, because such a swap can itself remove what was in force.
- Duplicates.UnansweredIff: the RAM list and the hidden marks are read in one state; a failed query is answered like an empty one by the code and is not modelled.
- CacheRaces.CacheRightIff: one conversation, with its lists as sets; a newly made group or direct conversation stores the list it was made with, which is a query and a store like the others.
- LimiterAgreement.TheTwoLimitersAgree: no database failure and no concurrent check of the same account.
- LimiterAgreement.SurrealRateLimiter.CheckMessage: one account's tables, without a rival; rivals are the machine of `SurrealLimiter`.
- Admission.AtMostOncePerLifetime: sends use the in-memory limiter, as the service does. A check of a client id is taken not to carry an earlier time than the one before it, which the held lock gives, nor than a cleanup before it, which the code does not ensure because the limiter reads the clock before its own lock.
- Groups.StepKeepsInv: each handler is one step and its database calls succeed; overlapping transfers are `GroupRights.OverlappingTransfersMakeTwoOwners`, and stores of overtaken member lists are `CacheRaces.CacheRightIff`. Direct conversations are not modelled, nor is the order in which the database lists members.
- GroupServer.Handlers.UpdateGroup: the step of a group update; name, description, image and privacy are not stored; only a change of join rule is.
