# Fly Desk, verified

A Dafny model of the parts of Fly Desk that must hold together over long, concurrent use, with proofs of
what every run of them keeps. `dafny verify dfyconfig.toml` checks the whole project.

What is modelled, file by file:

- **Search admission** (`src/search-admission.ts`): the scheduler that decides which searches run.
  `SearchAdmission.dfy` is the state machine, `SearchAdmissionController.dfy` the class whose methods are
  proved to take exactly its steps; the other `SearchAdmission*.dfy` files hold the theorems about all
  runs: capacity, memory, quiescence, conservation, versions, fairness; `SearchAdmissionRequests.dfy` says
  them of the requests themselves, with days and bytes written out.
- **Live jobs** (`src/http-router.ts`): the router's table around admission, with promise callbacks, start
  delays and the end of runs as separate events. `LiveJobs.dfy`.
- **Worker pool** (`src/search-worker-client.ts`, `src/search-worker.ts`): two state machines joined by
  two FIFO pipes per worker, in every interleaving. `SearchWorkerProtocol.dfy` has the steps,
  `SearchWorkerPool.dfy` the two classes, the other `SearchWorker*.dfy` files the invariants and theorems;
  `SearchWorkerPromises.dfy` says what each event does in lines, jobs and settlements alone.
- **Line framing** (the same two files): both newline readers. `LineFraming.dfy`.
- **Station ranking** (`src/location-usage-store.ts`): both backends against the complete history of
  uses, which neither keeps. `Location*.dfy`; `LocationFigures.dfy` says what is shown in numbers of searches.
- **Flight times** (`src/core/flight-duration.ts`): wall clocks read back through daylight saving.
  `FlightClock.dfy`.
- **Offer variants** (`src/local-costamar.ts`, `src/local-agil.ts`), **deduplication** and the
  **in-flight limiter** (`src/local-agil.ts`), **progress publishing** (`src/http-router.ts`), **login
  admission** (`src/login-admission.ts`), and the **one-time codes** (`src/totp.ts`): one file each, two
  for the login limiter and three for the codes.

Clocks, memory readings, failures of the operating system and the arrival of messages are parameters or
events. Identities that the program takes from objects (queue entries, leases, workers, jobs) are numbers.
Station codes stand for their place in the collation order.

## Where the code and its documentation differ

- The header of `src/search-admission.ts` (lines 39-42) says heavy work is never starved. Forgetting idle
  sessions (lines 459-474) makes a session that went away and came back count as never served, so a
  waiting search can be overtaken by later arrivals any number of times.
  `SafeExactlyWhenFirstAndUnserved` says exactly which waiting heavy searches are safe, in every run: those
  that are their session's oldest while the session has no service record. `ThreeSessionsStarve` is the
  counterexample for every number of overtakings, with three sessions and a clock that stands still; with
  two sessions the bound is one.
- The budget of seven units is not a bound on what runs: exact searches may fill all seven and heavy work
  starts beside them (lines 320-362). Twelve units are reached (`TwelveUnitsAreReached`). Seven is the bound
  exactly while exact searches hold at most the two reserved units (`BudgetHoldsExactlyWithinReserve`).
- `src/core/flight-duration.ts` (lines 13-19) calls the clock catalogue right always. In the hour a zone
  shows twice it can be an hour off (`RepeatedHourCountsTwice`). `ReadsBackExactly` says exactly when a
  wall clock is read back to its own instant, and `ElapsedExactlyWhenMisreadAlike` exactly when a flight is
  measured right. The cache of offsets (lines 79-114) changes no answer exactly for the zones whose
  offsets change on UTC hours (`CacheIsRightExactlyWhenHourly`).

## Model

| member | source | states |
|---|---|---|
| SearchAdmissionTheorems.CapacityInEveryRun | src/search-admission.ts:49-68 | in every run heavy units stay within 5, exact within 7, all within 12, and within 7 while exact ones hold at most 2; no two heavy searches hold 3 units each, and one that holds 5 is the only heavy search |
| SearchAdmissionRequests.SearchesAreAsAsked | src/search-admission.ts:139-162 | every search of every run is what its ticket's request asked for: 1 unit exact, 2 a matrix or up to 10 days, 3 up to 31 days, 5 beyond; 60 MiB a matrix, 20 a day; all requests without a session in one |
| SearchAdmissionRequests.WhatRunsTogether | src/search-admission.ts:139-151 | in every run no two ranges of 11 to 31 days run together, and beside one of more than 31 days no heavy search does |
| SearchAdmissionRequests.NeverThreeHeavy | src/search-admission.ts:49-68 | never three heavy searches at once |
| SearchAdmissionRequests.WhoStartsTogether | src/search-admission.ts:139-151 | of two heavy searches asked for on an idle controller the first starts, and the second beside it if and only if neither asks for more than 31 days and not both for 11 to 31 |
| SearchAdmissionRequests.TogetherWithinNineTenths | src/search-admission.ts:153-162 | with a constant limit, two heavy searches running together were expected, by their days, to use no more than nine tenths of it |
| SearchAdmissionRequests.GateAtEveryStart | src/search-admission.ts:364-372 | a heavy search that starts beside heavy work does so with the reading's used bytes, and with what the others expect, within nine tenths of the limit |
| SearchAdmissionRequests.EveryLookSettles | src/search-admission.ts:374-442 | after a request, a release, a stop while waiting and the timer's recheck alike, nothing more can start under the reading taken |
| SearchAdmissionRequests.HeavyWaitsForUnitsOrMemory | src/search-admission.ts:354-372 | after these the fairest heavy search waits for units above five, or for memory above nine tenths with heavy work running, and for nothing else |
| SearchAdmissionRequests.TimerArmsItselfAgain | src/search-admission.ts:374-383 | the timer, having fired, is armed again if and only if memory alone still holds the next one back |
| SearchAdmissionRequests.ExactStartInOrder | src/search-admission.ts:320-334 | of two exact searches the earlier starts first: while it waits the later one does not start |
| SearchAdmissionRequests.ReserveIsHeld | src/search-admission.ts:320-334 | a step after which heavy work waits started exact searches only within the two reserved units |
| SearchAdmissionRequests.NothingStartsAfterStop | src/search-admission.ts:235-246 | once searches are no longer accepted who waited is turned away and nothing ever starts, whatever is asked for later |
| SearchAdmissionRequests.PollIsAnsweredByTheNextChange | src/search-admission.ts:273-290 | a poll on the version in force is parked until exactly the version moves, on another it never is |
| SearchAdmissionRequests.ParkedExactly | src/search-admission.ts:273-290 | who is parked after each step: who was and did not go, and who asks with the version in force and does not give up; nobody once the version moved |
| SearchAdmissionRequests.SnapshotInEveryRun | src/search-admission.ts:257-266 | the snapshot of every run: searches running, waiting, ended and turned away are all there were; each holds or asks for one to five units, twelve at most are held, and while somebody waits at least two are |
| SearchAdmissionTheorems.BudgetHoldsExactlyWithinReserve | src/search-admission.ts:320-362 | for each number of exact units that can run, all runs with so many stay within seven units if and only if it is at most the two reserved |
| SearchAdmissionTheorems.TwelveUnitsAreReached | src/search-admission.ts:320-362 | a run that reaches twelve units: the bound is tight |
| SearchAdmissionTheorems.MemoryInEveryRun | src/search-admission.ts:139-162 | with a constant memory limit, two or more heavy searches together never expect more than nine tenths of it |
| SearchAdmissionTheorems.QuiescenceInEveryRun | src/search-admission.ts:428-442 | after every step nobody waits while nothing runs; a waiting exact search finds two exact units in use, a waiting heavy one finds heavy work running, and memory alone holds a search back only with the recheck armed |
| SearchAdmissionTheorems.PassLeavesNothingToStart | src/search-admission.ts:428-442 | after a pass, `pickNext` finds nothing more under the same reading |
| SearchAdmissionTheorems.ConservationInEveryRun | src/search-admission.ts:190-246 | every search asked for is in exactly one of waiting, running, released, turned away; the ones that started are the running and the released, each once |
| SearchAdmissionTheorems.ReleaseFreesItsUnits | src/search-admission.ts:394-424 | a release frees its own search's units, whatever starts in their place |
| SearchAdmissionTheorems.ReleasesOnce | src/search-admission.ts:415-424 | releasing again, at any later time, changes nothing |
| SearchAdmissionTheorems.StoppedWhileWaitingNeverStarts | src/search-admission.ts:202-206 | a search stopped while it waits never starts, however the run goes on |
| SearchAdmissionTheorems.SameVersionSameSnapshot | src/search-admission.ts:257-290 | two states of a run with one version show the same searches and snapshot, and polls are parked only on the version in force |
| SearchAdmissionTheorems.ExactNeverHoldsHeavyBack | src/search-admission.ts:320-372 | the heavy searches one pass starts are those it starts with every exact search erased |
| SearchAdmissionTheorems.ExactNeverHoldsHeavyBackInAnyRun | src/search-admission.ts:428-442 | the same from every state a run reaches |
| SearchAdmissionSafety.EveryRunKeepsInv | src/search-admission.ts:190-481 | the invariant behind these holds in every run |
| SearchAdmissionSafety.StepKeepsInv | src/search-admission.ts:190-481 | every controller step keeps it |
| SearchAdmissionSafety.HeavyAloneStarts | src/search-admission.ts:364-372 | a heavy search alone starts whatever memory says |
| SearchAdmissionSafety.StartQueuedSettles | src/search-admission.ts:428-442 | the start loop ends with nothing left to start and everything kept |
| SearchAdmissionSafety.ForgetKeepsService | src/search-admission.ts:459-474 | forgetting keeps a service record only for sessions at work |
| SearchAdmissionFairness.FairestIsAhead | src/search-admission.ts:342-352 | the picked heavy search is ahead of every other session's oldest one: its session holds fewer heavy units, or as many and was served longer ago, or that alike it came earlier by the clock, then by its place |
| SearchAdmissionFairness.UnservedIsNeverOvertakenByLaterArrivals | src/search-admission.ts:385-392 | the oldest heavy search of a session not served since it came, which therefore holds nothing, is never overtaken by a later arrival, for any number of sessions |
| SearchAdmissionFairness.TwoSessionsOvertakeAtMostOnce | src/search-admission.ts:336-392 | with two sessions, once one holds nothing at most one heavy search of the other starts before its oldest one |
| SearchAdmissionStarvation.ExposedCanBeOvertakenWithoutBound | src/search-admission.ts:461-474 | a waiting search that is not its session's oldest, or whose session was served, can be overtaken by later arrivals any number of times |
| SearchAdmissionStarvation.SafeExactlyWhenFirstAndUnserved | src/search-admission.ts:39-42 | for every waiting heavy search of every run: never overtaken by later arrivals, however it goes on, if and only if it is its session's oldest and the session has no service record |
| SearchAdmissionThreeSessions.ThreeSessionsStarve | src/search-admission.ts:461-474 | three sessions are enough: for every n, a run in which n later arrivals start, on a clock that stands still, before a search whose session holds nothing |
| SearchAdmissionController.SearchAdmissionController.Acquire | src/search-admission.ts:190-232 | takes exactly the model's step; says whether the search waits |
| SearchAdmissionController.SearchAdmissionController.Release | src/search-admission.ts:415-424 | takes exactly the model's step, nothing for a search that does not run |
| SearchAdmissionController.SearchAdmissionController.RemoveQueued | src/search-admission.ts:444-457 | takes exactly the model's step; says whether it was waiting |
| SearchAdmissionController.SearchAdmissionController.RecheckMemory | src/search-admission.ts:374-383 | takes exactly the model's step |
| SearchAdmissionController.SearchAdmissionController.StopAccepting | src/search-admission.ts:235-246 | turns every waiting search away, and takes exactly the model's step |
| SearchAdmissionController.SearchAdmissionController.Snapshot | src/search-admission.ts:257-266 | the version, the budget, and the units and searches of the state |
| SearchAdmissionController.SearchAdmissionController.WaitForChange | src/search-admission.ts:273-290 | parks only on the version in force |
| SearchAdmissionController.SearchAdmissionController.PickNext | src/search-admission.ts:320-362 | the loops choose what the specification chooses, and arm the recheck exactly when memory alone refuses |
| SearchAdmissionController.SearchAdmissionController.PickFairest | src/search-admission.ts:342-352 | the loop finds the fairest of each session's oldest heavy search |
| SearchAdmissionController.SearchAdmissionController.Start | src/search-admission.ts:394-410 | moves one search from the queue to the running ones and records the service |
| SearchAdmissionController.SearchAdmissionController.StartQueued | src/search-admission.ts:428-442 | the loop starts what the specification starts, and ends |
| SearchAdmissionController.SearchAdmissionController.ForgetIdleSessions | src/search-admission.ts:461-474 | keeps the service of sessions at work only |
| SearchAdmissionController.UnitsOf | src/search-admission.ts:164-170 | the loop adds up what it is asked for |
| SearchAdmissionController.HeavyUnitsBySession | src/search-admission.ts:336-341 | the loop gives each session's heavy units |
| LiveJobs.LiveTableIsExact | src/http-router.ts:393-410 | in every run the table holds exactly the jobs that wait, that run, or whose refusal is on its way |
| LiveJobs.RunExactlyUnlessStoppedFirst | src/http-router.ts:519-533 | in every run, a job that began was run if and only if no stop had found it before it began |
| LiveJobs.StoppedBeforeBeginningNeverRuns | src/http-router.ts:492-542 | whatever comes after, a job stopped while it waits for capacity or for its start delay is never run |
| LiveJobs.StopFreesTheQueue | src/http-router.ts:492-518 | stopping a job that waits for capacity takes it out of the queue at once |
| LiveJobs.SubmittedRunsOrWaits | src/http-router.ts:515-520 | a submitted job is in the table and runs or waits, or is turned away when the service is shutting down |
| LiveJobs.AdmissionRunsAsSubmitted | src/http-router.ts:492-542 | whatever the events, admission goes through a run of its own in which it is asked for exactly what was submitted: its theorems hold here |
| LiveJobs.TimerStartsWhatFits | src/search-admission.ts:374-383 | after the memory timer nothing more can start under the reading it took |
| LiveJobs.ShutDownEmptiesTheQueue | src/search-admission.ts:235-246 | shutting down leaves no job waiting |
| LiveJobs.SettlesOnce | src/http-router.ts:519-533 | a settled run has released its units and left the table, and settling again changes nothing |
| LiveJobs.SomeJobCanMove | src/http-router.ts:492-542 | while the table is not empty some refusal, start or settlement can happen |
| LiveJobs.EveryRunKeepsSystem | src/http-router.ts:492-542 | table and admission agree after every event |
| SearchWorkerSettling.JobsSettleExactlyOnce | src/search-worker-client.ts:448-463 | in every interleaving only submissions of the run settle, none twice, and each has settled or is unsettled in one worker alone |
| SearchWorkerSettling.SomePartyCanGoOn | src/search-worker-client.ts:505-550 | while a job is unsettled some party can go on by itself, and then less is left to do |
| SearchWorkerSettling.RestMeansAllSettled | src/search-worker-client.ts:505-550 | when whatever could go on by itself changes nothing, every submission of the run has settled exactly once |
| SearchWorkerSettling.EveryRunCanSettleEverything | src/search-worker-client.ts:421-659 | every run can be finished by its parties alone so that each submission has settled exactly once |
| SearchWorkerTheorems.AnswersSettleTheirOwnJob | src/search-worker-client.ts:516-528 | an answer settles only the job with its id, from that job's worker |
| SearchWorkerTheorems.StaleAnswerIsDropped | src/search-worker-client.ts:516-528 | an answer to a settled job changes nothing but the reading position |
| SearchWorkerTheorems.RecycledHoldsNothing | src/search-worker-client.ts:432-446 | a recycled worker holds no unsettled job, and everything ever sent to it is settled |
| SearchWorkerTheorems.DeadWorkerKeepsNoJob | src/search-worker-client.ts:530-550 | once a dead worker's output is read, its jobs are rejected and it never holds another |
| SearchWorkerTheorems.AnswerIsOnTheWay | src/search-worker.ts:204-250 | while a worker is not stopping, each unsettled job is in its input, in work, or answered and unread |
| SearchWorkerTheorems.OwnExitLeavesNoJob | src/search-worker.ts:198-202 | a worker that exits on its own has answered everything it accepted, once each |
| SearchWorkerPromises.CancelTellsTheWorker | src/search-worker-client.ts:465-479 | in every run, cancelling an unsettled job of a worker not retiring makes its cancel the last line of that worker's input and rejects the job for the reason given |
| SearchWorkerPromises.CancelWithoutALine | src/search-worker-client.ts:465-479 | a cancel that finds the input closed or failing writes nothing and rejects all the same; of a settled job it does nothing |
| SearchWorkerPromises.CancelledJobIsAborted | src/search-worker.ts:232-242 | in every run, a job whose cancel its worker has read is aborted or no longer running; no other job is aborted unless the worker is stopping |
| SearchWorkerPromises.WorksOnlyOnWhatItRead | src/search-worker.ts:204-230 | a worker runs only requests it has read and prewarms only what it was asked to; a prewarm is not a running job |
| SearchWorkerPromises.ClosedInputGrowsNoMore | src/search-worker-client.ts:425-479 | in every run nothing is written to a worker whose input was closed |
| SearchWorkerPromises.OneLiveWorkerAProvider | src/search-worker-client.ts:499-514 | in every run a provider has one worker at most that can be given work |
| SearchWorkerPromises.SubmissionsGoOut | src/search-worker-client.ts:555-617 | in every run a submission is refused when aborted, rejected when no worker starts or the line fails, and otherwise is the last line of the provider's one live worker, a new one only when there was none |
| SearchWorkerPromises.AnswersSettleAsTheySay | src/search-worker-client.ts:481-528 | an answer read resolves its job when it completes, rejects it when it fails, and settles nothing when it is progress or its job is gone |
| SearchWorkerPromises.RecycledAtTheQuota | src/search-worker-client.ts:432-446 | in every run, a worker is recycled only after its quota of jobs has settled, and one idle after so many has been retired |
| SearchWorkerPromises.StopRetiresAll | src/search-worker-client.ts:647-657 | stopping retires every worker that could be used, closes its input, and settles nothing |
| SearchWorkerPromises.SignalGrantsAGrace | src/search-worker.ts:74-102 | the first signal to a worker with jobs and an open input changes nothing but to start its grace; any other stops it with every running job aborted |
| SearchWorkerPromises.GraceEndsInAStop | src/search-worker.ts:74-102 | at the end of the grace, or of a signalled worker's input, every running job is aborted |
| SearchWorkerPromises.StopsOnlyWhenSignalled | src/search-worker.ts:74-102 | in every run a worker stops only when signalled, and one whose input ended and that has answered everything has exited |
| SearchWorkerPromises.ReportsGoOut | src/search-worker.ts:61-67 | progress goes out in order until the worker is stopping |
| SearchWorkerPromises.StoppingIsSilent | src/search-worker.ts:61-67 | a stopping worker never writes again |
| SearchWorkerSystem.EveryRunKeepsSys | src/search-worker-client.ts:421-659 | the invariant of pool, pipes and workers holds in every run |
| SearchWorkerSystem.StepKeepsSys | src/search-worker-client.ts:421-659 | every event of either side keeps it |
| SearchWorkerPool.SearchWorkerPool.Submit | src/search-worker-client.ts:555-617 | takes exactly the model's step: refusal, failed start, failed write, or one line written |
| SearchWorkerPool.SearchWorkerPool.CancelJob | src/search-worker-client.ts:465-479 | takes exactly the model's step, which `CancelTellsTheWorker` and `CancelWithoutALine` spell out |
| SearchWorkerPool.SearchWorkerPool.Deliver | src/search-worker-client.ts:481-497 | takes exactly the model's step: an error rejects, a completion resolves, progress settles nothing |
| SearchWorkerPool.SearchWorkerPool.ReadReply | src/search-worker-client.ts:516-528 | takes exactly the model's step: an answer without its job is dropped |
| SearchWorkerPool.SearchWorkerPool.RejectPending | src/search-worker-client.ts:535-549 | the loop rejects every job left, and each only once |
| SearchWorkerPool.SearchWorkerPool.EnsureWorker | src/search-worker-client.ts:499-553 | takes exactly the model's step: the provider's worker unless it is retiring, else a new one |
| SearchWorkerPool.SearchWorkerPool.MaybeRecycle | src/search-worker-client.ts:432-446 | takes exactly the model's step: only an idle worker with its quota done is retired |
| SearchWorkerPool.SearchWorkerPool.SettleJob | src/search-worker-client.ts:448-463 | takes exactly the model's step: nothing for a settled job |
| SearchWorkerPool.SearchWorkerPool.Stop | src/search-worker-client.ts:647-657 | the loop retires every worker and closes its input |
| SearchWorkerPool.SearchWorker.HandleInboundMessage | src/search-worker.ts:204-250 | takes exactly the model's step for a request, a prewarm and a cancel |
| SearchWorkerPool.SearchWorker.OnInputEnd | src/search-worker.ts:275-293 | takes exactly the model's step: exit when nothing is pending, stop now when signalled |
| SearchWorkerPool.SearchWorker.OnJobEnd | src/search-worker.ts:204-230 | takes exactly the model's step: the answer, one message fewer, perhaps the exit |
| SearchWorkerPool.SearchWorker.StopNow | src/search-worker.ts:74-84 | aborts every running job, once |
| LineFraming.ReadLines | src/search-worker-client.ts:205-245 | for every chunking, the lines of the whole text: split at newlines, trimmed, empty ones dropped |
| LineFraming.LineBuffer.OnData | src/search-worker.ts:252-272 | emits the lines a chunk completes and keeps the open one |
| LineFraming.LineBuffer.OnEnd | src/search-worker.ts:275-290 | emits the open line, if any |
| LineFraming.HandleInput | src/search-worker.ts:252-293 | the worker's reader emits the same lines as the pool's |
| LineFraming.SplitIsExact | src/search-worker-client.ts:205-245 | the pieces of a text are what stands between its newlines: none holds one, and joined by newlines they are the text |
| LineFraming.TrimIsExact | src/search-worker-client.ts:205-245 | trimming takes off the white space at both ends, all of it and nothing else |
| LineFraming.MessagesAreReadBack | src/search-worker-client.ts:425-428 | one-line messages written and chunked arbitrarily are read back exactly |
| LineFraming.WrittenReadsBack | src/search-worker-client.ts:425-428 | the lines of what was written are the messages |
| LineFraming.LinesAreCompleteAndOpen | src/search-worker-client.ts:205-245 | the lines of a text are those completed, then the open one |
| LocationUsage.BackendsAgree | src/location-usage-store.ts:293-350 | for any searches on a clock that never goes back, both backends show the same cards after each, those of the complete history |
| LocationUsage.MemoryUsage.RecordFromSearch | src/location-usage-store.ts:293-325 | the pruned entries answer as the complete history does |
| LocationUsage.MemoryUsage.RecordLocation | src/location-usage-store.ts:544-559 | adds one use and keeps every figure of the history |
| LocationUsage.MemoryUsage.PruneDailyUses | src/location-usage-store.ts:563-572 | drops the days before the window and nothing else |
| LocationUsage.MemoryUsage.LiveUsesInWindow | src/location-usage-store.ts:208-217 | the loop over days counts the history's uses in the window |
| LocationUsage.MemoryUsage.RankEntries | src/location-usage-store.ts:219-249 | the cards of the complete history for a role |
| LocationUsage.MemoryUsage.GetSuggestions | src/location-usage-store.ts:327-338 | the cards of both roles, from a clock not behind a day already dropped |
| LocationUsage.PersistedUsage.RecordFromSearch | src/location-usage-store.ts:483-518 | the pruned tables answer as the complete history does; a search without a station writes nothing |
| LocationUsage.PersistedUsage.Upsert | src/location-usage-store.ts:491-511 | both upserts keep every figure of the history |
| LocationUsage.PersistedUsage.DeleteExpired | src/location-usage-store.ts:524-534 | deletes the days before the window and nothing else |
| LocationUsage.PersistedUsage.GroupWindow | src/location-usage-store.ts:737-766 | the grouped scan gives the live uses and the latest use of each station in the window |
| LocationUsage.PersistedUsage.Newest | src/location-usage-store.ts:719-735 | the station used last, at every cutoff |
| LocationUsage.PersistedUsage.ReadRoleCards | src/location-usage-store.ts:707-717 | the cards of the complete history for a role |
| LocationUsage.SummedDaysAreTheWindow | src/location-usage-store.ts:208-217 | the days kept hold every use in the window |
| LocationFigures.AnswerInFigures | src/location-usage-store.ts:293-350 | after any searches, the cards of each role, in numbers: leaders by how many searches used the station in that role on the UTC days of the window, then the latest, then the code, and the station used last in the last slot |
| LocationFigures.StripInFigures | src/location-usage-store.ts:251-265 | the strip, in numbers: the stations whose last visit by the session in that role is not too old, the latest first, up to the limit |
| LocationHistory.AnswersAreUnique | src/location-usage-store.ts:327-350 | the specification has one answer |
| LocationHistory.NormalizeLimit | src/location-usage-store.ts:162-167 | a limit between one and three stays, three for none or more, one for less |
| LocationRanking.TopIsUnique | src/location-usage-store.ts:226-242 | a ranking by uses, latest use and code has one first part |
| LocationRanking.CardsAreUnique | src/location-usage-store.ts:194-206 | and the cards made of it are unique |
| LocationRanking.CardsKeepNewestAndLeaders | src/location-usage-store.ts:194-206 | any cards of a ranking: with one slot the leaders, with more the leaders when the newest station is among those before the last slot; otherwise the leaders before the last slot in their places, then the newest, as many as the slots and the leaders allow |
| LocationRanking.LeadersAreUnique | src/location-usage-store.ts:226-242 | the leaders are determined by uses, then the latest use, then the code |
| LocationRanking.NewestIsLatest | src/location-usage-store.ts:243-246 | the newest station is the one used last, the first by code on a tie |
| LocationRanking.Cards | src/location-usage-store.ts:219-249 | the sort and the last slot compute the specified cards |
| LocationRecentStore.RecentsAgree | src/location-usage-store.ts:352-387 | after any searches, with strips read in between, both backends show for any session and role the first stations of its complete unexpired history, as long as the unexpired first three of all sessions stayed within the cap |
| LocationRecentStore.KeptIsWanted | src/location-usage-store.ts:618-642 | while the cap was not met, exactly the unexpired first three of every session and role are kept |
| LocationRecents.BestHaveFewAhead | src/location-usage-store.ts:618-642 | the best three are those with fewer than three ahead of them |
| LocationRecentStore.RecentStore.Prune | src/location-usage-store.ts:644-661 | expires, then cuts to the cap, which is met only if there was more to keep than the cap |
| LocationRecentStore.RecentStore.RecordOne | src/location-usage-store.ts:618-642 | after a use the three kept are the best three of the history |
| LocationRecentStore.RecentStore.Expire | src/location-usage-store.ts:644-650 | dropping by age keeps the best three of what is left |
| LocationRecentStore.RecentStore.TrimGlobally | src/location-usage-store.ts:652-661 | above the cap as many stay as it allows, each used later than every one dropped, or as late and of an earlier session, role or code; below it nothing goes |
| LocationRecentStore.RecentStore.Read | src/location-usage-store.ts:251-265 | a read gives what the complete history gives |
| LocationRecentStore.RecentStore.RecordInMemory | src/location-usage-store.ts:310-322 | record, then expire, then the cap |
| LocationRecentStore.RecentStore.RecordPersisted | src/location-usage-store.ts:574-616 | expire, record, and the cap; nothing for a session without a station |
| LocationRecents.BestAfterUse | src/location-usage-store.ts:618-642 | the best three of the kept and the new one are the best three of everything |
| LocationRecents.BestAfterExpiry | src/location-usage-store.ts:644-650 | the best three survive an expiry |
| LocationRecents.TopOfBestIsTop | src/location-usage-store.ts:251-265 | reading the kept three is reading everything |
| FlightClock.ReadsBackExactly | src/core/flight-duration.ts:123-141 | the two readings recover the instant if and only if the clock shows that time once or the first guess meets the same offset; the answer's clock reads the given time |
| FlightClock.RightOutsideGaps | src/core/flight-duration.ts:116-141 | the answer's clock reads the given time exactly when the zone ever shows it |
| FlightClock.ElapsedExactlyWhenMisreadAlike | src/core/flight-duration.ts:147-167 | elapsed minutes are exact if and only if both ends are misread by the same amount, as when neither is |
| FlightClock.ElapsedIsExact | src/core/flight-duration.ts:147-167 | so they are between ends the clocks show once |
| FlightClock.RepeatedHourCountsTwice | src/core/flight-duration.ts:13-19 | an arrival in a repeated hour is misread by an hour in a regular zone, and the flight with it |
| FlightClock.GateToGateIsTheSum | src/core/flight-duration.ts:224-241 | gate to gate by the clocks is the flights plus the connections when each connection keeps one offset |
| FlightClock.LegIsFlightsPlusConnections | src/core/flight-duration.ts:218-259 | so a leg the clocks measured lasts that sum, whatever the provider said |
| FlightClock.LegWithoutClocks | src/core/flight-duration.ts:243-254 | and a leg the catalogue cannot answer lasts the same sum |
| FlightClock.SegmentAsksInOrder | src/core/flight-duration.ts:197-216 | a flight's minutes are the clocks' when they answer, else the provider's when positive, else the difference of the digits when positive, else none |
| FlightClock.LegAsksInOrder | src/core/flight-duration.ts:224-259 | a leg's are the clocks' when they answer, else flights plus connections when every flight is timed, else the provider's, else the digits' |
| FlightClock.DigitsAreEnoughAtOneAirport | src/core/flight-duration.ts:169-182 | at one airport keeping one offset, the plain difference of the digits is the elapsed time |
| FlightClock.CacheIsRightExactlyWhenHourly | src/core/flight-duration.ts:79-114 | whatever was asked before, the hourly cache never changes an answer about a zone if and only if its offsets change on UTC hours |
| FlightClock.ZoneClock.OffsetMinutesAt | src/core/flight-duration.ts:79-114 | answers from the cache and fills it, cleared when full; the zone's own answer when it changes on UTC hours |
| FlightClock.ZoneClock.ReadInstant | src/core/flight-duration.ts:123-141 | the cached reading is the specified one for such a zone, and there is one exactly for a known zone and a readable clock |
| FlightClock.ZoneClock.MinutesBetweenAirports | src/core/flight-duration.ts:147-167 | so are elapsed minutes, none for unknown codes, zones, clocks or a non-positive time |
| OfferVariants.ChoicesAreComplete | src/local-costamar.ts:3731-3743 | a list of indices is among the choices exactly when it picks from every journey |
| OfferVariants.ChoicesInOrder | src/local-costamar.ts:3731-3743 | the choices are in lexicographic order, none twice |
| OfferVariants.ChoicesAreCounted | src/local-costamar.ts:3698-3703 | there are as many as the product |
| OfferVariants.CutBeforeStage | src/local-costamar.ts:3731-3743 | cutting the prefixes early loses nothing the last cut would keep |
| OfferVariants.ExpandStage | src/local-costamar.ts:3732-3742 | the loops with breaks give the first ones of every prefix with every option |
| OfferVariants.ExpandAll | src/local-costamar.ts:3731-3743 | the staged expansion gives exactly the first choices |
| OfferVariants.ProductExceedsLimit | src/local-costamar.ts:3695-3706 | the division test is true if and only if the product exceeds the limit |
| OfferVariants.ExpandFlightOptions | src/local-costamar.ts:3708-3753 | when the recommendation stays, and otherwise its first choices with the flag set exactly when some were left out |
| OfferVariants.EnumeratePairs | src/local-agil.ts:2653-2667 | the pair loops give the same first choices and flag, empty lists included |
| OfferDedup.DedupeOffers | src/local-agil.ts:2502-2535 | the loop over the map computes the specified fold |
| OfferDedup.KeptInFigures | src/local-agil.ts:2502-2535 | one offer for every key, the keys in the order they first appeared, each with the first of its offers that have the most seats and then the fewest minutes |
| OfferDedup.DedupeIsDeduped | src/local-agil.ts:2502-2535 | its result has the keys in order of first appearance, each with its best offer |
| OfferDedup.BestIsBest | src/local-agil.ts:2522-2530 | the best offer of a key is of that key, and the first of the list with the most seats and, of those, the fewest minutes |
| OfferDedup.DedupeInSteps | src/local-agil.ts:3086-3089 | deduplicating in steps is deduplicating at once |
| OfferDedup.ReplayChangesNothing | src/local-agil.ts:3126-3137 | offers that come again change nothing |
| OfferDedup.RetryIsOnePass | src/local-agil.ts:3126-3137 | after a retry, its answers in any order, the list is that of one pass over the offers as they first arrived |
| OfferDedup.RetryInAnyOrder | src/local-agil.ts:3126-3137 | in any order it keeps the same keys, each with an offer of as many seats and minutes |
| OfferDedup.ResolveProgressive | src/local-agil.ts:3090-3145 | each publish is one pass over everything mapped so far; from publish to publish and to the final list keys keep their places, with the same offer or one of more seats, or as many and fewer minutes |
| OfferDedup.MoreOffersImprove | src/local-agil.ts:2502-2535 | more offers add keys at the end and replace an offer only by one with more seats, or as many and fewer minutes |
| InflightLimiter.InflightLimiter.Acquire | src/local-agil.ts:376-397 | a slot when one is free and nobody waits, a place at the end otherwise, nothing when aborted |
| InflightLimiter.InflightLimiter.Release | src/local-agil.ts:361-373 | gives one slot back once, to the longest waiter |
| InflightLimiter.InflightLimiter.Drain | src/local-agil.ts:348-359 | the loop grants from the front while slots are free |
| InflightLimiter.InflightLimiter.Abort | src/local-agil.ts:386-389 | removes its own waiter only |
| InflightLimiter.FirstComeFirstServed | src/local-agil.ts:344-408 | of two calls that did not leave, the earlier is granted first |
| ProgressPublisher.PublishesAreLogarithmic | src/http-router.ts:258-288 | after n marks, p unforced publishes satisfy 2^(p-1) <= n, forced ones in between or not |
| ProgressPublisher.PublishesAreApart | src/http-router.ts:296-306 | an unforced publish is at least the interval after the one before |
| ProgressPublisher.DueWhenDoubled | src/http-router.ts:258-288 | a mark is due exactly when it is the first or doubles the number of marks at the last publish |
| ProgressPublisher.ProgressSync.Mark | src/http-router.ts:290-311 | publishes at once exactly when the number has doubled and the interval has passed; a doubled mark left unpublished has its timer armed for the interval's end |
| ProgressPublisher.ProgressSync.Flush | src/http-router.ts:275-288 | publishes what is unpublished and disarms the timer |
| ProgressPublisher.ProgressSync.TimerFires | src/http-router.ts:305-308 | an armed timer always finds something due to publish |
| ProgressPublisher.ProgressSync.Dispose | src/http-router.ts:316-322 | nothing is left to publish |
| ProgressPublisher.SnapshotWriter.Sync | src/http-router.ts:2476-2489 | running snapshots persisted double in size, so their number is logarithmic in the largest |
| ProgressPublisher.SnapshotsAreFew | src/http-router.ts:673-676 | p doubling snapshots reach 2^(p-1) |
| LoginAdmissionController.NoWindowHoldsMore | src/login-admission.ts:28-52 | no window of the configured length holds more than the allowed failed passwords of a client neither reset nor evicted |
| LoginAdmission.RetryAfterIsExact | src/login-admission.ts:34-38 | waiting Retry-After is admitted; before the oldest failure leaves the window every try is refused |
| LoginAdmission.RecordedKeeps | src/login-admission.ts:41-52 | a recorded failure joins its client's history while there is room; nobody else is forgotten, but for the oldest client that still counts when this one is new and the map is full of such clients |
| LoginAdmission.LookAtAllPrunes | src/login-admission.ts:79-82 | after the expired failures went, exactly the clients with a failure in the window are left, in order, and no history changed |
| LoginAdmission.MakeRoomKeeps | src/login-admission.ts:79-91 | room is made by forgetting nobody, or the oldest client that still counts when the map is full of them |
| LoginAdmissionController.LoginAdmissionController.Attempt | src/http-router.ts:1668-1714 | check, verify and record in one turn: refused unverified, recorded with at most that one client evicted, or cleared |
| LoginAdmissionController.LoginAdmissionController.Check | src/login-admission.ts:28-39 | admits exactly below the limit, with the announced wait otherwise, and forgets nobody |
| LoginAdmissionController.LoginAdmissionController.RecordFailure | src/login-admission.ts:41-52 | records the failure while there is room, and evicts exactly whom it must |
| LoginAdmissionController.LoginAdmissionController.ActiveFailures | src/login-admission.ts:62-77 | drops what left the window and forgets no failure |
| LoginAdmissionController.LoginAdmissionController.EnsureClientCapacity | src/login-admission.ts:79-91 | leaves room for one client, having forgotten at most the oldest that still counts |
| LoginAdmissionController.LoginAdmissionController.DropAllExpired | src/login-admission.ts:79-82 | the loop over the clients leaves those that still count, every history as it was |
| LoginAdmissionController.LoginAdmissionController.EvictToFit | src/login-admission.ts:84-90 | the loop evicts the client that came first when the map is full, and nobody otherwise |
| LoginAdmissionController.LoginAdmissionController.Reset | src/login-admission.ts:54-60 | clears one client and no other, or all |
| TotpProtobuf.ReadVarint | src/totp.ts:159-182 | the loop reads the base-128 value, or fails as specified |
| TotpProtobuf.VarintReadsBack | src/totp.ts:159-182 | a written value is read back, up to 2^53-1 |
| TotpProtobuf.ParseProtoFields | src/totp.ts:184-229 | the loop parses field after field, with every error case |
| TotpProtobuf.FieldsReadBack | src/totp.ts:184-229 | parsing inverts the canonical encoding for every list of fields |
| TotpProtobuf.ParsedReencodes | src/totp.ts:184-229 | whatever was accepted, encoded again, is read the same |
| TotpProtobuf.FieldNumberIsModular | src/totp.ts:192-196 | field numbers beyond 29 bits are read modulo 2^29 |
| TotpBase32.DecodeBase32 | src/totp.ts:27-49 | five bits a symbol in, whole bytes out, nothing on a foreign symbol |
| TotpBase32.ForeignSymbolsAreRefused | src/totp.ts:35-39 | nothing is decoded exactly when some symbol is none of the letters and the digits 2 to 7 |
| TotpBase32.DecodedIsTheLeadingBytes | src/totp.ts:34-49 | the bytes are the leading whole bytes of the number the text writes in base 32, fewer than eight bits left over |
| TotpBase32.SecretReadsBack | src/totp.ts:27-49 | decoding inverts the encoder of section 6 of RFC 4648 for every byte string, its text padded or not, in either case, with any white space anywhere |
| TotpBase32.EncodedReadsBack | src/totp.ts:28-32 | the padded text of the standard normalises to its symbols |
| TotpCode.CounterReadsBack | src/totp.ts:374-376 | the two words are the counter's eight bytes |
| TotpCode.TruncatedIsLast31Bits | src/totp.ts:381-387 | the truncation is the last 31 bits of the four bytes at the offset |
| TotpCode.CodeIsExact | src/totp.ts:389-392 | exactly the asked number of digits, of the asked value |
| TotpCode.PeriodsTile | src/totp.ts:373-394 | counter and remaining seconds account for the whole clock |
| TotpCode.SafeExactlyWhileItsCodeLasts | src/totp.ts:359-369 | submitting is called safe if and only if the code stays the current one for all the asked seconds |
| TotpCode.SafeSubmitKeepsItsCode | src/totp.ts:359-369 | a code submitted within the asked seconds is still the current one |

## Left out

- Providers over HTTP and browser automation, cookies, profile scanning, sign-in pages, XML and JSON
  mapping: input and output with no deep invariant.
- The text of messages, JSON and diagnostics of the worker protocol: a message is one opaque line with an
  id. Unparsable lines are dropped by the program and never written by it.
- Keyed digests, password verification, time zone data and the SQL engine: an arbitrary byte string, an
  arbitrary answer, an arbitrary function of offsets, and tables with the stated queries.
- Timers, promises and microtasks: events in any order the program allows. Callbacks do not re-enter.
- The memory reading is constant within one start loop, as it is within one synchronous call.
- Zone offsets are whole minutes. Parsing of wall-clock digits is left out: a wall clock is a number of
  minutes or missing.
- The counter's division of milliseconds by a thousand and the period is on whole numbers.
- LineFraming.ReadLines: text is characters; a character split between two chunks of bytes is put together
  by the stream decoder, which is not part of this model.
- LocationRecentStore.RecentStore.Expire: written as the one statement the database runs; the loop over a
  map that does the same in memory is not modelled separately.
- LocationRecentStore.RecentStore.TrimGlobally: drops the last entry until the rest fit, where the program
  sorts once; which entries stay is determined either way.
- LocationUsage.MemoryUsage.RankEntries: the sort is an insertion into a ranked list; its result is the
  only ranking there is.
- InflightLimiter.InflightLimiter.Acquire: the limit is constant; changing it while searches wait, and the
  test-only `reset`, are left out.
- The one-way loop of `src/local-agil.ts` (lines 2668-2673) is the pair loop with one list.
- SearchWorkerPool.SearchWorkerPool.Stop: the signal sent to each worker and the wait for its exit are events
  of the workers, which come in any order.
- Long-poll leases (`src/http-router.ts`, lines 426-457) decide when a live job is stopped; here a stop may
  come at any time.
- LiveJobs.SettlesOnce: a job's failure message and its marking as queued are not modelled.
