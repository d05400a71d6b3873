# A verified model of the stateful personal assistant

The assistant runs one agent graph per chat turn, asks a person before it uses a sensitive tool,
streams every turn to a client that may reconnect, and limits how often it is used.  This project
models the parts of it that keep state and proves, with Dafny, what they guarantee on every input,
every run and every interleaving.

| file | part of the system |
|---|---|
| `HitlTables.dfy` | the approval and audit tables, the repository's statements, the approve endpoint and one sweep, as methods of a database session |
| `HitlProtocol.dfy`, `HitlInvariant.dfy`, `HitlResults.dfy`, `HitlRetention.dfy` | approve requests, sweepers, approval gates and retention jobs running at once, one SQL statement, commit or rollback at a time, with row locks as at READ COMMITTED |
| `SseCodec.dfy` | the event printer, line splitting and the client's parser |
| `SseLog.dfy` | the stored event list, the live queue and the turn runner |
| `SseWriters.dfy` | any number of emitters on one list, one Redis command at a time |
| `SseClient.dfy` | the replay endpoint, exactly-once delivery, and the reconnect loop after an approval |
| `Quota.dfy`, `QuotaWindows.dfy` | the quota limiter: one call, serial runs, and counters that lose their expiry |
| `QuotaSliding.dfy` | for which limits the promise of sliding windows holds |
| `QuotaRace.dfy` | concurrent calls of the limiter, one Redis command at a time |
| `Login.dfy` | the login throttle |
| `Nodes.dfy`, `AgentGraph.dfy` | the loops inside the graph's nodes, and one turn of the graph with suspension and resume |
| `Conversations.dfy` | unique titles and cursor paging |
| `WebSearch.dfy` | budgeted truncation of search results |
| `Prelude.dfy`, `Decimals.dfy` | options, white space and decimal numerals |

Whatever comes from outside (the clock, model replies, tool results, graph events, the place where
a connection breaks, which transaction moves next) is an arbitrary input of the theorems.  Code
that updates state step by step is written as classes and loops and proved against functions on
values; the theorems about whole runs are about those functions.

## Where the code does not do what it promises

Each of these is a lemma, with the exact condition where there is one.

- **The answer after an approval is never shown.**  The client saves the id of the approval
  request, but the suspended turn stores its own `done` after that id, and the reconnect loop stops
  at it (`SseClient.ResumedEventsAreNeverShown`, `SseClient.ResumedShownIff`).
- **An approval can be resumed twice.**  The resume task starts before the request commits, so a
  commit that is lost leaves the approval open (`HitlResults.OneResumeIffNoCommitIsLost`,
  `HitlResults.ALostCommitResumesTwice`).
- **A user can log a timeout.**  The request's decision is any text and the column accepts
  "timeout" (`HitlResults.TimeoutDecisionIff`).
- **A sweep can miss an overdue approval:** it leaves one open exactly when an insert that was
  already over ten minutes old when the sweep began is committed before the sweep is
  (`HitlRetention.SweepIsCleanIff`, `HitlRetention.ALateInsertEscapesTheSweep`).
- **The retention job deletes nothing when one of its victims has an approval that was used or has
  expired:** the audit row's foreign key has no ON DELETE rule, so the whole delete is refused
  (`HitlInvariant.PurgeBlockedIff`, `HitlRetention.ARefusedPurgeIsReachable`).
- **The retention job can delete an open approval with its conversation:** exactly when an approval
  was committed for a victim between the job's snapshot and its lock on the row, and no victim has a
  closed approval to stop the delete
  (`HitlRetention.PurgeTakesAnOpenApprovalIff`, `HitlRetention.AnOpenApprovalIsPurged`).
- **A turn can stay suspended for ever.**  Only the approve endpoint resumes, and it needs an open
  approval.  There is none after a failed approval write, after the sweeper expired it, after the
  retention job deleted it, or after a resume that raised before the graph moved; none of these
  reaches the error handler as documented (`AgentGraph.StrandedIff`, `AgentGraph.TurnsAreStranded`).
- **Guests never get an approval:** the gate stores the nil conversation id for them, which the
  foreign key refuses, so their turns with a sensitive call are always stranded
  (`AgentGraph.GuestTurnsAreStranded`).  The same holds for every user whose conversation has no row
  (`AgentGraph.NoRowStrands`), and nothing under `src` calls `create_conversation`.
- **A broken live connection kills its turn:** the response cancels the task, and a cancellation is
  no Exception, so neither an error nor `done` is stored and no reconnect ever sees the turn end
  (`SseLog.CutTurnHasDoneIff`, `SseClient.ABrokenTurnNeverEnds`).
- **A reconnect without an id re-executes the graph:** within 300 seconds of posting a second whole
  turn goes onto the same list (`SseClient.RunsGraphIff`, `SseClient.ASecondRunRepeatsTheTurn`).
- **Reconnection ends 300 seconds after posting**, not after 15 minutes: the owner key is never
  extended, so an approval granted later cannot be followed although every event is still stored
  (`SseClient.ReplayServedIff`, `SseClient.AnApprovalAfterFiveMinutesIsNotReplayed`).  The resume's
  emitter also takes the list itself back to five minutes (`SseLog.ResumeCutsTheListIff`).
- **A resumed turn whose graph raises stores no `done`** (`SseLog.ResumeEndsIff`), and **two writers
  on one stream store an id twice** exactly when a push does not land at the length its writer read
  (`SseWriters.NumberingSurvivesIff`, `SseWriters.TwoWritersShareAnId`).
- **The quota windows do not slide**, although the module's first line says so.  The promise holds
  only for the few combinations of limits in `QuotaSliding.Slides`, where limits of one keep calls
  far apart or nothing is allowed; for all others some run of calls breaks it
  (`QuotaSliding.WindowsSlideIff`).  An interval as long as the window holds at most twice the limit
  less one (`QuotaWindows.AnyIntervalBound`), and that is reached when the other windows leave room
  (`QuotaSliding.IntervalBoundIsTight`).
- **A quota counter can lose its expiry** when its key expires between its GET and its INCR
  (`QuotaWindows.ExpiryKeptIff`, `QuotaWindows.AnExpiryIsLost`); it then counts up to its limit and
  denies for ever (`QuotaWindows.StuckForEver`).  Token windows with positive limits never deny,
  because the chat endpoint charges 0 tokens (`QuotaWindows.TokenWindowsNeverDeny`).
- **The per-address login limit never fires**, because nothing increments its counter
  (`Login.NeverOverTen`).
- **The limit of ten failures per email is out of reach exactly when a lockout lasts at least three
  minutes**, because from the fifth failure on they are a lockout apart
  (`Login.TheLimitIsOutOfReachIff`).  With a lockout of at least 15 minutes the counter never passes
  five (`Login.StaysAtFiveIff`).  A lockout that is not positive never locks: setting it is an error,
  and the limit of ten is met.
- **Tools that all time out count as success**, because a time-out's text is empty
  (`AgentGraph.AllFailedRoutesToErrorIff`, `AgentGraph.TimeoutsCountAsSuccess`).
- **Denials and failed tools get the generic message:** no node sets the codes that the error
  handler's other messages need (`AgentGraph.OnlyTwoNotices`, `AgentGraph.DenialReadsGeneric`).
- **Paging skips conversations** exactly when a tie of `last_accessed` straddles a page boundary
  (`Conversations.PagingIsCompleteIff`), and **a repeated title of 97 to 100 characters cannot be
  stored** (`Conversations.LongTitleCannotRepeat`).

## Model

| member | source | states |
|---|---|---|
| HitlTables.Session.Commit | src/persistence/database.py:96-99 | a clean exit makes exactly the session's working tables the committed ones |
| HitlTables.Session.Rollback | src/persistence/database.py:100-102 | an exception restores exactly the committed tables |
| HitlTables.Session.CreateApproval | src/persistence/repositories/hitl_repo.py:30-65 | adds one open approval that expires ten minutes from now, changing no other row |
| HitlTables.Session.GetApproval | src/persistence/repositories/hitl_repo.py:160-174 | finds a row exactly when it exists, whatever its state |
| HitlTables.Session.GetOpenApprovalIds | src/persistence/repositories/hitl_repo.py:176-194 | returns an id if and only if it is an open approval of the conversation |
| HitlTables.Session.ConsumeApproval | src/persistence/repositories/hitl_repo.py:67-98 | succeeds if and only if the row exists and is open, overdue or not; then only that row changes, to used |
| HitlTables.Session.ExpireStaleApprovals | src/persistence/repositories/hitl_repo.py:100-122 | expires exactly the overdue open rows and returns each of them once |
| HitlTables.Session.InsertAuditLog | src/persistence/repositories/hitl_repo.py:124-158 | appends the row, or raises exactly when the CHECK constraint refuses its decision |
| HitlTables.Session.ApproveHitl | src/api/routers/sessions.py:169-224 | with any commits of other sessions between its two reads: 410, 409, rollback or 200 exactly as specified; only 200 launches a resume, with the row's thread and the decision |
| HitlTables.Session.SweepOnce | src/api/main.py:33-52 | alone, it leaves no overdue approval open, adds one audit row for each it closed, and keeps audit conservation |
| HitlTables.ApproveConserves | src/api/routers/sessions.py:191-213 | the endpoint keeps one audit row per closed approval and none for open ones, whatever its pre-check saw |
| HitlTables.ApproveIsOnceOnly | src/persistence/repositories/hitl_repo.py:74-75 | after a 200, approving again changes nothing and answers 410 |
| HitlTables.SweepConserves | src/api/main.py:37-47 | expiring a duplicate-free list of open approvals and logging their timeouts keeps audit conservation |
| HitlTables.RowsForTimeouts | src/api/main.py:38-47 | the sweeper's loop adds exactly one row for each approval on its list |
| HitlInvariant.StepKeepsInv | src/persistence/repositories/hitl_repo.py:87-122 | every statement, commit and rollback of every transaction in flight keeps the protocol invariant: exclusive row locks, one winner per approval, audit conservation |
| HitlInvariant.PurgeBlockedIff | alembic/versions/001_initial_schema.py:173-177 | in a reachable state the retention delete is refused if and only if a victim has an approval that was used or has expired |
| HitlInvariant.CommitRequestKeepsInv | src/api/routers/sessions.py:199-222 | committing a consume with its audit row keeps the invariant next to every other transaction in flight |
| HitlInvariant.SweepCommitKeepsInv | src/api/main.py:35-47 | committing a sweep keeps the invariant next to every other transaction in flight |
| HitlInvariant.GateCommitKeepsInv | src/graph/nodes/hitl_gate.py:51-60 | committing a new approval keeps the invariant next to every other transaction in flight |
| HitlInvariant.PurgeDeleteKeepsInv | src/persistence/repositories/conversation_repo.py:259-260 | the retention delete with its cascade keeps the invariant next to every other transaction in flight |
| HitlResults.RunKeepsInv | src/persistence/database.py:95-102 | the invariant holds after every run of the protocol |
| HitlResults.ApprovalsOnlyClose | src/persistence/repositories/hitl_repo.py:87-122 | between any two points of any interleaving, approvals only move open to used or open to expired, only an open one may disappear, for good, and the audit log only grows at its end |
| HitlResults.AuditConservation | src/api/routers/sessions.py:203-213 | in every reachable state each used or expired approval has exactly one audit row, with its conversation and tool, and no other row exists |
| HitlResults.AtMostOneOk | src/persistence/repositories/hitl_repo.py:87-96 | no two requests on one approval can both hold it or both have answered 200 |
| HitlResults.ExactlyOneWinner | src/api/routers/sessions.py:192-224 | any number of racing requests, in any interleaving: if all answered and none through an exception, then one got 200 and launched the only resume and every other got 409 or 410, if and only if neither a sweep nor a purge got there first |
| HitlResults.LosingARaceIs409 | src/api/routers/sessions.py:191-201 | a request whose pre-check saw the approval open never answers 410 |
| HitlResults.AnswersStand | src/api/routers/sessions.py:192-224 | an answered request never changes its answer |
| HitlResults.OneResumeIffNoCommitIsLost | src/api/routers/sessions.py:215-222 | a used approval has exactly one resume if and only if no request lost its commit after launching one |
| HitlResults.ALostCommitResumesTwice | src/api/routers/sessions.py:215-222 | a reachable state in which two requests have resumed one approval |
| HitlResults.SoloRunIsApprove | src/api/routers/sessions.py:191-224 | without interference the statement-by-statement protocol does exactly what the endpoint does in one piece |
| HitlRetention.SweepIsCleanIff | src/api/main.py:35-47 | when a sweep commits, it leaves no approval open that is overdue by its clock if and only if no insert that was overdue in flight at its start has an open row; each approval it took has exactly one row, its timeout |
| HitlRetention.ALateInsertEscapesTheSweep | src/persistence/repositories/hitl_repo.py:110-120 | a reachable state in which a sweep commits and leaves an approval open that is overdue by the sweep's own clock |
| HitlRetention.SoloPurge | src/persistence/repositories/conversation_repo.py:233-261 | alone, the job deletes exactly the conversations idle for 90 days that are low-access or soft-deleted and have no open approval, counted, unless one of them ever had an approval; then it deletes nothing |
| HitlRetention.RetentionAccountsForEveryRow | src/persistence/repositories/conversation_repo.py:240-254 | in every interleaving, when the job comes to delete, every row its query selected is a victim, or was held by another transaction, or was written or gone in between; victims are selected rows only |
| HitlRetention.RetentionDeletesExactlyItsVictims | src/persistence/repositories/conversation_repo.py:256-261 | every victim is stale; if one has an approval that was used or has expired nothing changes, otherwise exactly the victims go, counted, with exactly their approvals and no audit row |
| HitlRetention.PurgeTakesAnOpenApprovalIff | src/persistence/repositories/conversation_repo.py:235-260 | the job destroys an open approval if and only if one was committed for a victim after the snapshot of its SELECT and no victim has a closed one |
| HitlRetention.AnOpenApprovalIsPurged | src/persistence/repositories/conversation_repo.py:235-260 | a reachable state in which the job is about to delete an open approval |
| HitlRetention.ARefusedPurgeIsReachable | src/persistence/repositories/conversation_repo.py:253-260 | a reachable state in which the job has selected and locked a stale conversation and its delete is refused |
| HitlResults.TimeoutDecisionIff | src/api/routers/sessions.py:24-28 | the one row an accepted request logs says "timeout" if and only if the request posted "timeout" |
| HitlResults.AUserCanLogATimeout | alembic/versions/001_initial_schema.py:169-172 | a table on which posting "timeout" is answered 200 |
| HitlResults.NoDeadlock | src/persistence/repositories/hitl_repo.py:87-122 | with at most one sweeper running, while any transaction is in flight some transaction can advance |
| Decimals.ParseOfDecimal | src/streaming/emitter.py:31 | a printed id is read back as the same number |
| SseCodec.SseEvents | src/frontend/app.py:354-371 | the client's loop yields exactly the events of the line grammar |
| SseCodec.ReceiveBlock | src/streaming/emitter.py:28-31 | the client reads back one printed event and continues with the rest of the stream |
| SseCodec.SafeRoundTrip | src/streaming/emitter.py:28-31 | every stream of safe events, with any keep-alives between them, is read back exactly |
| SseCodec.RoundTripIff | src/frontend/app.py:354-371 | a stream is read back exactly if and only if no field holds a line break or starts with a blank |
| SseCodec.IdRoundTrip | src/frontend/app.py:457 | the id the client reads is the id that was printed |
| SseCodec.CutDeliversAPrefix | src/frontend/app.py:354-371 | a connection cut after any number of characters delivers a prefix of the events, never part of one |
| SseLog.Emitter.EmitMsg | src/streaming/emitter.py:33-47 | one emit stores the event numbered one above the length, sets the key's expiry by the stream's mode, and queues the stored text and the sentinel after `done` when live |
| SseLog.Emitter.RunTurn | src/agents/runner.py:58-87 | stores the translation of the events up to the first that raises, and `done` exactly when none does |
| SseLog.Emitter.RunGraph | src/api/routers/chat.py:246-257 | stores a first turn's events: the translation, an error if the graph raised, one `done` |
| SseLog.Emitter.ResumeGraph | src/api/routers/sessions.py:227-250 | a second emitter goes on numbering the same list and swallows an exception |
| SseLog.Emitter.Drain | src/api/routers/chat.py:72-82 | yields the queued texts up to the first sentinel, with any keep-alives between them, and leaves the rest queued |
| SseLog.LogGrows | src/streaming/emitter.py:42-47 | while the key lives the list only grows at its end and event i has id i, whichever emitter writes |
| SseLog.QueueIsLog | src/api/routers/chat.py:62-70 | the live queue gains exactly the events stored since |
| SseLog.TurnLogShape | src/api/routers/chat.py:246-257 | for every event sequence and every point at which the graph raises, if the task is not cancelled: the list gains the translated prefix, one error if and only if the graph raised, one final `done`; the queue gains the same and the sentinel |
| SseLog.CutTurnHasDoneIff | src/api/routers/chat.py:259-270 | if the live connection breaks after any n emits of a turn on a new stream, the list holds exactly those, and a `done` if and only if they were all |
| SseLog.ListDeadline | src/streaming/emitter.py:36-47 | the list expires 15 minutes after the last emit if that emitter object ever emitted an approval request, 5 minutes after it if not, whatever other emitters did |
| SseLog.ApprovalOutlived | src/streaming/emitter.py:36-47 | while the emitter that requested the approval is the last to write, the list expires later than the approval does |
| SseLog.ResumeCutsTheListIff | src/api/routers/sessions.py:245-248 | after a resume's emits the list lives 5 minutes past the last one, which is earlier than the suspended turn left it if and only if that emit comes within 10 minutes of the turn's last |
| SseWriters.NumberingSurvivesIff | src/streaming/emitter.py:43-46 | after any interleaving of any number of emitters event i has id i, and no id occurs twice, if and only if every push landed at the length its emitter read |
| SseWriters.TakingTurnsIsSafe | src/streaming/emitter.py:43-46 | emitters that take turns always land, and store the same list as one emitter would |
| SseWriters.TwoWritersShareAnId | src/api/routers/sessions.py:245-248 | from every numbered list, a resume that starts between the two commands of the turn's emitter repeats an id |
| SseClient.GetEventsAfter | src/streaming/replay.py:33-45 | None exactly for a missing key; otherwise exactly the stored events with a greater id |
| SseClient.RunsGraphIff | src/api/routers/chat.py:184-198 | a request runs the graph, whether or not it has run already, if and only if its owner sends it without a positive id within 300 seconds of posting |
| SseClient.ASecondRunRepeatsTheTurn | src/api/routers/chat.py:213-257 | such a request puts a second whole turn with its own `done` onto whatever the list holds |
| SseClient.AnApprovalAfterFiveMinutesIsNotReplayed | src/api/routers/chat.py:158-161 | after any emits with an approval request, from 300 seconds after posting until the list expires every reconnect is refused while every event is still stored |
| SseClient.ExactlyOnce | src/frontend/app.py:494 | however often a client that has seen something reconnects, wherever connections break, whatever is appended: it holds a gap-free, duplicate-free prefix of the log and takes nothing back |
| SseClient.CatchesUp | src/streaming/replay.py:42-45 | one uncut reconnect brings the client level with the log |
| SseClient.ABrokenTurnNeverEnds | src/api/routers/chat.py:259-270 | after a live connection that broke before the turn was over, no number of reconnects ever shows a `done` |
| SseClient.LiveConnectionInStep | src/api/routers/chat.py:72-82 | a live connection, with keep-alives and cut anywhere, leaves the client holding a prefix of the log and its length as last id |
| SseClient.ReconnectAfterHitl | src/frontend/app.py:448-505 | the client's six attempts amount to the specified reading of the log at each attempt |
| SseClient.SuspendedLog | src/frontend/app.py:587-594 | a suspended turn's log ends with `done` and has a saved approval id |
| SseClient.ResumedEventsAreNeverShown | src/frontend/app.py:484-492 | from the saved id the loop always closes on the suspended turn's own `done`, whatever the resumed graph stores |
| SseClient.TheResumedAnswerIsNeverShown | src/agents/runner.py:87 | the same from the first emit of a stream to the last attempt of the client |
| SseClient.ResumedShownIff | src/frontend/app.py:478-492 | an attempt shows resumed events if and only if the suspended turn stored no `done` or error after the saved id and the resumed log does not open with one |
| Quota.Limiter.CheckAndIncrement | src/quota/limiter.py:78-143 | a denied call changes nothing and reports the first exceeded check; an allowed one charges every counter of the table once and nothing else, keys lost between the passes included |
| Quota.Limiter.Exceeded | src/quota/limiter.py:122-132 | the loop finds the first check in order whose counter is at its limit |
| Quota.Limiter.Table | src/quota/limiter.py:96-114 | the loops build the ordered table of six checks, or nine with an address |
| Quota.ChecksAreDistinct | src/quota/limiter.py:96-114 | no counter appears twice in a call's table |
| Quota.ChargedAt | src/quota/limiter.py:134-141 | charging a table of distinct keys in turn charges each as if it were alone |
| Quota.ChargedAllIsExact | src/quota/limiter.py:116-141 | the charge pass leaves every counter of the table at its specified value and expiry and every other one alone |
| QuotaWindows.ExpiryKeptIff | src/quota/limiter.py:140-141 | an allowed call leaves every counter with an expiry within its window if and only if no counter it had read as non-zero expired between its passes |
| QuotaWindows.StuckForEver | src/quota/limiter.py:122-141 | over any later calls a request counter without an expiry never regains one and never falls, equals its old value plus the allowed calls that charge it, stops at the limit, and from then on denies every call that mentions it |
| QuotaWindows.AnExpiryIsLost | src/quota/limiter.py:117-141 | for every request counter, two calls after which it has no expiry |
| QuotaWindows.TokenOvershoot | src/quota/limiter.py:136-137 | after an allowed call a token counter exceeds its limit by less than that charge |
| QuotaWindows.TokensStayBelow | src/quota/limiter.py:136-137 | over every serial run of calls of at most m tokens a token counter is at most its limit - 1 + m |
| QuotaWindows.CountersExpire | src/quota/limiter.py:134-141 | over every serial run every counter has an expiry, at most its window after the last call |
| QuotaWindows.CounterRefinesLives | src/quota/limiter.py:116-141 | over every serial run a request counter equals the allowed calls in its key's current life, its expiry is one window after that life began, and no life holds more than the limit |
| QuotaWindows.MethodIsAfterCall | src/quota/limiter.py:134-143 | the imperative limiter and the serial runs agree on what an allowed call leaves |
| QuotaWindows.TokenWindowsNeverDeny | src/api/routers/chat.py:115-118 | as every call is charged 0 tokens, with positive token limits the check that denies is never a token window |
| QuotaWindows.AnyIntervalBound | src/quota/limiter.py:116-141 | in any interval as long as the window a key allows at most twice its limit less one |
| QuotaSliding.IntervalBoundIsTight | src/quota/limiter.py:96-141 | that bound is reached by a run of calls, on every request counter whose longer windows allow twice its limit and whose shorter ones one less |
| QuotaSliding.AllAllowed | src/quota/limiter.py:116-143 | calls of one user whose lives fit all three windows are all allowed |
| QuotaSliding.PromiseKept | src/quota/limiter.py:1 | for the limits of Slides, no interval as long as a window ever holds more allowed calls than the window's limit |
| QuotaSliding.SomeRunBreaks | src/quota/limiter.py:29-33 | for all other limits, times of calls that all three windows allow and that overfill an interval of one of them |
| QuotaSliding.WindowsSlideIff | src/quota/limiter.py:1 | over every user and address, window, run and interval the promise of sliding windows is kept if and only if some limit is not positive, or the week's is 1, or the day's is 1 and the week's at least 7, or the four hours' is 1, the day's at least 6 and the week's at least 42 |
| QuotaRace.StepKeepsInv | src/quota/limiter.py:116-141 | every GET, check, INCR, EXPIRE and expiry keeps: counter plus calls that may still charge it is at most limit + K - 1 |
| QuotaRace.RaceBound | src/quota/limiter.py:116-141 | with at most K calls in flight, no interleaving with each other and with expiries lifts a request counter above limit + K - 1 |
| QuotaRace.RaceBoundIsTight | src/quota/limiter.py:117-139 | for every K and all positive limits, calls of the real table reach limit + K - 1 on each of its request counters |
| Login.Throttle.CheckIp | src/auth/rate_limit.py:17-29 | denies exactly a live address counter of ten or more, with the time it has left |
| Login.Throttle.IsLocked | src/auth/rate_limit.py:67-78 | locked exactly while the lockout key lives, with the time it has left |
| Login.Throttle.CheckEmail | src/auth/rate_limit.py:32-44 | allowed exactly below ten live failures |
| Login.Throttle.RecordFailed | src/auth/rate_limit.py:47-64 | counts one failure, starts the window on the first, locks from the fifth on, and fails on a lockout time that is not positive |
| Login.Throttle.Reset | src/auth/rate_limit.py:81-91 | clears the failures and the lock and nothing else |
| Login.Throttle.LogIn | src/api/routers/auth.py:181-233 | one login is one step of the throttle, in the endpoint's order of checks |
| Login.NeverOverTen | src/auth/rate_limit.py:47-64 | in every run, with any lockout setting, the failure counter never exceeds ten and the address check never denies |
| Login.LockCoversLife | src/api/routers/auth.py:194-218 | with a lockout of at least the window, a run never counts a sixth failure in a life and the failure limit never denies |
| Login.StaysAtFiveIff | src/auth/rate_limit.py:57-64 | the counter stays at five or below in every run if and only if the lockout is at least 15 minutes |
| Login.TheLimitIsOutOfReachIff | src/auth/rate_limit.py:32-64 | no attempt of any run meets the limit of ten failures if and only if the lockout is at least three minutes, for every setting |
| Login.FailuresStayApart | src/auth/rate_limit.py:57-64 | in every run the counted failures from the fifth on are a lockout apart within one 900-second life |
| Login.SixthFailureCounts | src/auth/rate_limit.py:57-64 | a run that reaches six, for every shorter lockout |
| Login.LockStands | src/api/routers/auth.py:194-205 | while a lock stands every attempt is answered 429 and no key changes |
| Login.ChecksAreALockoutApart | src/auth/rate_limit.py:61-64 | from the fifth failure in a counter's life on, password checks are at least the lockout apart |
| Nodes.SelectTools | src/graph/nodes/router.py:53-65 | keeps the proposals that name a registered tool, in order, each with the tool's own sensitivity |
| Nodes.RunOne | src/graph/nodes/tool_executor.py:27-56 | the first success of four attempts, or the last attempt's text; the attempts made; at most 19 seconds |
| Nodes.ExecuteTools | src/graph/nodes/tool_executor.py:58-61 | result i belongs to call i, all within 19 seconds |
| Nodes.AskModels | src/graph/nodes/llm.py:67-91 | the first answer that is not blank of three primary tries and then the fallbacks, in at most 3 + n calls and 96 + 30 n seconds |
| AgentGraph.Builder.Build | src/agents/graph.py:45-85 | the builder's calls give exactly the transition table, with the interrupt after the gate only |
| AgentGraph.RoutingIsTotal | src/graph/edges.py:8-76 | whatever the state, the label returned after a node has an edge |
| AgentGraph.TurnsTerminate | src/agents/graph.py:45-80 | every turn is over after at most six moves, whatever the world answers |
| AgentGraph.CanGoOnIff | src/agents/graph.py:45-85 | a turn can move if and only if it has not ended, was not broken off by an exception, and is not suspended without an open approval |
| AgentGraph.StrandedIff | src/api/routers/sessions.py:192-250 | on every turn that is suspended: it can go on, and be resumed, if and only if the gate stored its approval and neither the sweeper, nor the retention job, nor a resume that failed at once has taken it away |
| AgentGraph.TurnsAreStranded | src/graph/nodes/hitl_gate.py:61-69 | each of the four causes leaves a reachable turn suspended with no move left |
| AgentGraph.NoRowStrands | src/graph/nodes/hitl_gate.py:45-69 | a turn whose conversation has no row is stranded as soon as it is suspended and never executes a sensitive list |
| AgentGraph.GuestTurnsAreStranded | src/graph/nodes/hitl_gate.py:55 | the same for every guest's turn, as no conversation has the nil id |
| Nodes.GuestsHaveNoConversation | src/graph/nodes/hitl_gate.py:18-29 | the approval of a guest's thread refers to the nil conversation |
| Nodes.UsersHaveTheirConversation | src/graph/nodes/hitl_gate.py:18-29 | the approval of a user's thread refers to the conversation it names if the name is a UUID, and to the nil one otherwise |
| AgentGraph.EndIsClean | src/graph/nodes/error_handler.py:29-54 | every turn that reaches the end leaves no error and a last message of the assistant that is not empty |
| AgentGraph.LookupsAreDefined | src/graph/nodes/tool_executor.py:29 | on every turn the executor looks up registered tools only |
| AgentGraph.SensitiveNeedsApproval | src/graph/edges.py:8-43 | on every turn the executor starts on a list with a sensitive call, and such a list has results, only after a suspension at the gate with that very list that was resumed with "approve" |
| AgentGraph.DeniedRunsNoTool | src/graph/edges.py:38-43 | a turn resumed with anything else never reaches the executor |
| AgentGraph.DeniedHasNoResults | src/graph/edges.py:38-43 | nor does such a turn hold a tool result at any point |
| AgentGraph.OnlyTwoNotices | src/graph/nodes/error_handler.py:29-49 | the error handler only ever sends the unavailable-models message, exactly after a failed model node, or the generic one |
| AgentGraph.DenialReadsGeneric | src/graph/nodes/error_handler.py:32-33 | after a denial the turn stands at the error handler with the generic message |
| AgentGraph.AllFailedRoutesToErrorIff | src/graph/edges.py:59-61 | when every tool failed, the turn goes to the error handler if and only if no failure has an empty text |
| AgentGraph.TimeoutsCountAsSuccess | src/graph/nodes/tool_executor.py:36-48 | when every attempt of every tool times out, every result is an error and yet the model is asked |
| Conversations.Repository.UniqueTitle | src/persistence/repositories/conversation_repo.py:121-156 | ends within as many rounds as the user has visible rows, with the title if it is free and otherwise the least free suffix from 2 on |
| Conversations.Repository.Create | src/persistence/repositories/conversation_repo.py:102-119 | adds one row with the unique title, or fails exactly when that title is over 100 characters; visible titles stay distinct |
| Conversations.Repository.SoftDelete | src/persistence/repositories/conversation_repo.py:158-179 | hides exactly the user's own row and keeps visible titles distinct |
| Conversations.TakenBound | src/persistence/repositories/conversation_repo.py:141-156 | pigeonhole: n visible rows cannot occupy the title and n of its numbered forms |
| Conversations.CandidateInjective | src/persistence/repositories/conversation_repo.py:143 | different suffixes give different titles |
| Conversations.UniqueTitleIsUnique | src/persistence/repositories/conversation_repo.py:121-156 | a create has one possible title |
| Conversations.TitlesStayDistinct | src/persistence/repositories/conversation_repo.py:115-179 | in every serial run of creates and soft deletes a user's visible titles are distinct |
| Conversations.LongTitleCannotRepeat | src/persistence/models/conversation.py:21 | a taken title of more than 96 characters has no storable numbered form |
| Conversations.ListConversations | src/persistence/repositories/conversation_repo.py:61-78 | the first `limit` rows below the cursor, a next cursor exactly when more follow, and the limits for which the code fails |
| Conversations.FollowCursor | src/persistence/repositories/conversation_repo.py:40-51 | following the cursor from the start ends, with the specified pages |
| Conversations.CursorsCompose | src/persistence/repositories/conversation_repo.py:65-66 | filtering the whole view by a later cursor is filtering what the earlier request saw |
| Conversations.PagingIsCompleteIff | src/persistence/repositories/conversation_repo.py:65-76 | the pages together are the sorted list if and only if no tie straddles a page boundary |
| Conversations.PageCount | src/persistence/repositories/conversation_repo.py:72-76 | without such ties there are max(1, ceil(n / limit)) pages |
| Conversations.PagingRefinesTheSortedList | src/persistence/repositories/conversation_repo.py:53-78 | with distinct times every visible conversation of the user is listed exactly once, newest first, in that many pages |
| Conversations.EveryUserHasAView | src/persistence/repositories/conversation_repo.py:61-67 | every table has a sorted view for every user |
| WebSearch.KeptText | src/tools/web_search.py:64-75 | the kept text is exactly the first characters of the whole text, as many as the budget |
| WebSearch.KeptShape | src/tools/web_search.py:64-75 | kept items keep place, address and score; only the last may be shortened, and items are dropped only when the budget is spent |
| WebSearch.FilterAndTruncate | src/tools/web_search.py:58-76 | at most five items at or above the threshold, in order, whose text is the first 8000 characters of the capped items' text |

## Left out

- HitlProtocol: the sweeper's UPDATE and the retention job's SELECT take their rows one at a time in any order; requests that write a conversation hold its row from `LockConversation` to `ReleaseConversation`, and the delete runs in one step once the approvals it removes are not locked.
- HitlProtocol: the cascades of a conversation delete beyond its approvals, and what requests write to a conversation other than as an arbitrary new row.
- HitlResults.NoDeadlock: assumes at most one sweeper; two processes that sweep at once may lock rows in different orders, and PostgreSQL then aborts one of them (the step `Abort`).
- HitlResults.ExactlyOneWinner: is about requests that all answered without an exception, since a lost commit leaves the approval open; what then happens is `OneResumeIffNoCommitIsLost`.
- HitlTables.Session.CreateApproval: the new id is fresh, as random UUIDs are taken to be; `checkpoint_id`, `decision_reason` and row timestamps other than the deadline are not modelled.
- HitlTables.Session.ApproveHitl: the malformed-id answer 422 and authentication are plumbing and left out; the session id is accepted and unused, as in the code.
- SseCodec: JSON encoding is opaque text; the printer's payloads are objects on one line, so they meet `WireSafe`.  `iter_lines` is modelled on the whole text; how it joins a CR and an LF that arrive in different network chunks is not.
- SseLog: a stored list item stands for its printed text, and reading the last item back after a push gives that item; `SseWriters` splits the length read from the push, but not the read-back of the live emitter.
- SseLog.LogGrows: assumes every emit comes before the key expires; after an expiry the list starts again at id 1.
- SseLog.CutTurnHasDoneIff: a cancellation takes effect between two emits, not between the Redis commands of one.
- SseClient.ExactlyOnce: is about a client with a last id, as one without is not replayed to; each reconnect it makes is taken to be served (`ReplayServedIff` says when).
- SseClient.ReconnectAfterHitl: every attempt is answered with a replay; a refused or broken connection yields a synthetic error event, which ends the loop as any error does.
- Quota: a key is modelled by its parts; the test for "tokens" in its text is taken to hold exactly for token keys, so user and address identifiers do not contain that word.
- QuotaRace.RaceBound: bounds request counters only; the token amount is one number for all calls of a run.
- QuotaRace.RaceBoundIsTight: keys may expire at any moment, so the other counters of the table may expire in between; when their windows do not end in time, the smallest limit holds the others down.
- QuotaSliding.IntervalBoundIsTight: gives a sufficient condition on the other windows; the exact condition for breaking the promise of all windows together is `WindowsSlideIff`, and the exact condition for each window on its own, and the most it can hold under tighter limits of the others, are not computed.
- QuotaWindows.CounterRefinesLives: calls are serial and no key expires inside a call; what such an expiry does is `ExpiryKeptIff`, and concurrent calls are in `QuotaRace`.
- Login: one email and one client address; times are whole seconds; password hashing, tokens and refresh are left out.
- AgentGraph: resume is modelled as documented in src/agents/runner.py:101-103, the decision merged and then routing; LangGraph itself is not part of this model, nor are messages kept between turns, identifiers and error details other than the code, nor a second resume of a turn that has left its suspension, nor a new message on a thread whose turn is suspended.  The error handler's texts are stand-ins of which only their not being empty is used.
- Nodes.RunOne: time is in real numbers and counts the time limits and pauses only, not scheduling; an answer that takes exactly the limit counts as a time-out.
- Nodes.ExecuteTools: the calls run side by side; the model computes them one after another and takes the longest time, as their outcomes do not depend on each other.
- Conversations.ListConversations: works on the user's view in its order, so rows with equal times keep one order across requests; the cursor carries the time itself instead of its base64 text, and a cursor that does not decode is the absent cursor.
- Conversations.Repository.Create: concurrent creates of one title are not modelled; they can both find it free.
- WebSearch.FilterAndTruncate: scores are real numbers.
- HTTP routing, middleware, authentication, JWT and Argon2, the user interface, settings, migrations, the message and user repositories and the refresh tokens: plumbing or single statements that would only add easy members.
