# SANBOSY: a verified model of queueing, admission, run life cycle and terminals

SANBOSY runs untrusted code in gVisor containers behind a FastAPI service. This project models the parts of it
that carry state across requests, and proves what they keep over every run.

How the model reads the program:

- **Coroutines are step machines.** Between two awaits a coroutine runs undisturbed, so each such stretch is one
  step; a run is any sequence of steps that are enabled, so whichever runnable task goes next is covered. The
  function `After` of each module replays a run, and theorems speak of every state it can reach.
- **Objects that are changed in place are classes.** Each method is proved to do to the fields exactly what a pure
  step function says, and the theorems are about those functions.
- **Clocks are real numbers passed in**, and never go back. Tokens and ids are fresh when they are made. Containers,
  processes, ptys, sockets and files are foreign: their results are inputs that may be anything.

| file | what it models |
|---|---|
| `RateLimit.dfy` | the per-identity limiter in memory |
| `Redis.dfy`, `RedisLimiter.dfy` | the Redis commands, and the limiter's Lua scripts run from any number of nodes |
| `Abuse.dfy`, `RedisAbuse.dfy` | verdicts, the rolling abuse score and its report, in memory and in Redis |
| `Text.dfy`, `Encodings.dfy` | decimal numbers, join and split; the two flattened encodings of flags |
| `JobQueue.dfy`, `QueueRuns.dfy`, `Hooks.dfy` | the bounded queue, its workers and shutdown; its runs; what becomes of the completion hooks |
| `Routes.dfy`, `Handlers.dfy`, `Leaks.dfy` | the three ways to run code, over one limiter and one queue; who releases and who never does |
| `Output.dfy`, `StreamRuns.dfy` | capped reading, the two-pump stream with its deadline; its runs |
| `Utf8.dfy`, `Utf8Encoding.dfy` | the text made of the chunks; the decoder against the encoder of RFC 3629 |
| `Sse.dfy` | the event stream's framing, and the client's loop that undoes it |
| `Launch.dfy`, `Janitor.dfy` | bounded retry and the two phases; the age-based sweep |
| `TerminalSession.dfy`, `SessionRuns.dfy`, `Watchdog.dfy` | the race to close a session, its runs, and the watchdog |
| `TerminalManager.dfy`, `Terminal.dfy` | the registry with its caps, and all sessions together with it |
| `Sequences.dfy`, `Options.dfy` | concatenation, and the option type |

What the proofs found. Where the code falls short of a promise, the model keeps the code, an input shows the difference,
and where it depends on a condition that condition is proved to be the exact one:

- The in-memory Retry-After (section 10.2.3 of RFC 9110) rounds down and can be too short: `HintSufficesExactlyWhenWhole`,
  `HintCanBeTooShort`. The Redis one rounds up and is always the least that suffices: `SharedHintSuffices`,
  `SharedHintIsLeast`.
- A Redis in-flight counter whose 3600 s expiry passes while a run is held frees a slot that is taken:
  `AcquireAgreesUnlessLapsed`, `LapsedCounterAdmitsTooMany`; over whole runs: `RunAgreesExactly`. With every call within
  the hour it cannot happen: `SharedLimiterActsAsOneWithinTheHour`.
- Not every acquire gets its release. A slot is kept for good by exactly these: a stream whose generator is never
  started, and an asynchronous job that is still queued, or executing, when `stop` begins to cancel the workers (or
  when there are no workers): `SlotIsReleasedExactly`, `LeakedSlotIsHeld`; a run for each: `DroppedStreamLeaks`,
  `QueuedJobLeaks`, `CutJobLeaks`.
- `stop` waits for executions, not for completion hooks: even a drained stop cuts short exactly the hooks that are in
  their call when the join returns: `StopLetsHooksFinishExactly`, `DrainedStopCutsHooks`.
- The limiter's `_gc` promises to drop an identity "once it has no recent events"; it looks at the deque without pruning
  it, so an identity that goes idle after an admission keeps its entry: `ReleaseDropsEntryExactly`, `IdleEntryStays`.
- README.md of the repository promises that user code that ran is never executed again; a program that exits with 128,
  prints nothing and writes a launch-failure marker to stderr is run again: `RerunsExactlyOnSignature`,
  `SignatureCanBeForged`. The model follows the code.
- A multi-byte character split between two chunks of a live stream is shown as replacement characters:
  `JoinsExactlyWhenAligned`, `SplitCharacterShows`.
- With the default limits the janitor removes the directory of every terminal session that lives its full time:
  `TerminalsAreSafeExactly`, `DefaultSessionsAreSwept`. It also never force-deletes a retried attempt's container:
  `SweepMissesRetries`.
- A terminal start that raises after its sandbox was launched, as when no descriptor arrives, does not close the
  session: the sandbox runs on, outside the registry, and nobody kills it. A start that is cancelled keeps its place in
  the registry until the server shuts down: `TornDownExactly`, `UnregisteredExactly`, `StartsThatOrphan`,
  `RegistryAndSandboxesPartExactly`.
- A terminal start that times out unregisters its session twice, and a cap of two or more on an identity can then be
  exceeded: `NoConsoleUnregistersTwice`, `CountsAreExactUnlessStartFails`, `DoubleUnregisterLiftsTheCap`. With the cap
  of one that is shipped, and no overlap, it is harmless: `DoubleUnregisterIsHarmlessAtCapOne`.
- The await between a terminal's check and its registration lets requests that wait at once exceed the cap:
  `TotalIsBounded`, `OvershootIsReached`, `UserIsBounded`, `UserOvershootIsReached`; without overlap both caps hold: `CapsHoldWithoutOverlap`.
- A shutdown during a terminal's start leaves its pty open: `MasterIsLeftOpenExactly`,
  `ShutdownDuringStartLeavesMaster`.

## Model

| member | source | states |
|---|---|---|
| RateLimit.RateLimiter.constructor | app/api/ratelimit.py:27-33 | a new limiter holds no events and no counts |
| RateLimit.RateLimiter.Acquire | app/api/ratelimit.py:38-53 | the popleft loop and the two caps: outcome, and both dictionaries afterwards |
| RateLimit.RateLimiter.Release | app/api/ratelimit.py:55-58 | the count goes down if it is positive, and the bookkeeping is collected |
| RateLimit.RateLimiter.Gc | app/api/ratelimit.py:60-67 | entries go only when nothing is in flight, and the deque only when it is empty |
| RateLimit.MinuteBound | app/api/ratelimit.py:38-53 | over every sequence of calls by any identities, each half-open 60 seconds hold at most per_min admissions of one identity |
| RateLimit.AdmissionsAreSpaced | app/api/ratelimit.py:42-52 | admissions per_min apart in the full history are at least a window apart in time |
| RateLimit.WindowIsUnexpiredHistory | app/api/ratelimit.py:41-67 | the pruned deque is the unexpired part of the full admission history, at every later moment; neither the loop nor _gc drops an unexpired event |
| RateLimit.AcquireDecidesByHistory | app/api/ratelimit.py:38-53 | the verdict told from the past alone: admissions of the last minute first, then runs outstanding |
| RateLimit.RunIsTidy | app/api/ratelimit.py:55-67 | in every run a count is stored only when positive, an events entry has an event, expired or not, or a run in flight, and neither passes its cap |
| RateLimit.AcquireKeepsTidy | app/api/ratelimit.py:38-53 | acquire keeps that |
| RateLimit.ReleaseKeepsTidy | app/api/ratelimit.py:55-67 | release keeps it, touches no deque, and lowers exactly one positive count by one |
| RateLimit.ReleaseDropsEntryExactly | app/api/ratelimit.py:55-67 | a release drops the entry of an identity if and only if nothing is in flight then and the deque is empty already |
| RateLimit.EmptyDequeWasRejected | app/api/ratelimit.py:41-49 | in every run an empty deque is what a concurrency rejection left, so only then does a release drop an entry |
| RateLimit.IdleEntryStays | app/api/ratelimit.py:60-67 | an identity with events keeps its entry and its deque while others act and its own runs are released, however much time passes |
| RateLimit.CountIsOutstanding | app/api/ratelimit.py:50-58 | the stored count is the number of admitted and unreleased runs |
| RateLimit.RejectionLeavesFullWindow | app/api/ratelimit.py:44-48 | a rate rejection leaves exactly per_min events, all unexpired |
| RateLimit.FullWindowFrees | app/api/ratelimit.py:44-48 | a full window rejects exactly until its oldest event has left it |
| RateLimit.RetryPassesExactlyFromRemaining | app/api/ratelimit.py:44-48 | after a rejection, a retry passes the rate check if and only if it waits for the real remaining time |
| RateLimit.HintSufficesExactlyWhenWhole | app/api/ratelimit.py:46-48 | the hint is within one second of the remaining time, and long enough if and only if that is at most 1 s or whole |
| RateLimit.HintCanBeTooShort | app/api/ratelimit.py:46-48 | a run in which waiting as told is rejected again |
| RedisLimiter.RedisRateLimiter.constructor | app/backends.py:67-76 | a fresh server |
| RedisLimiter.RedisRateLimiter.Acquire | app/backends.py:39-59 | the acquire script, command by command, behind the test for enabled() |
| RedisLimiter.RedisRateLimiter.Release | app/backends.py:61-64 | the release script: never below zero, expiry untouched |
| RedisLimiter.PruningAgrees | app/backends.py:42-47 | what ZREMRANGEBYSCORE leaves, of an expired key or not, is what the popleft loop leaves |
| RedisLimiter.AcquireAgreesUnlessLapsed | app/backends.py:39-59 | script and in-memory verdict differ if and only if a counter lapsed while its runs were held and the concurrency cap was what should have rejected |
| RedisLimiter.StepKeepsSimulation | app/backends.py:39-64 | each script keeps the agreement of sorted sets with deques and counters with counts |
| RedisLimiter.ServeSimulates | app/backends.py:39-64 | the agreement holds after any interleaving of scripts from any nodes |
| RedisLimiter.SharedLimiterActsAsOne | app/backends.py:39-64 | any interleaving of scripts from any nodes in which no counter lapses admits and rejects, for the same reasons, as one in-memory limiter run on that sequence |
| RedisLimiter.HourlyCallsNeverLapse | app/backends.py:57-57 | no counter lapses in a run in which each call of an identity comes no later than 3600 s after its last admitted acquire |
| RedisLimiter.SharedLimiterActsAsOneWithinTheHour | app/backends.py:39-64 | so any such interleaving gets the verdicts of one in-memory limiter, told from the times of the calls alone |
| RedisLimiter.SharedHintSuffices | app/backends.py:44-49 | after a rate rejection the identity passes the rate check once it has waited as told |
| RedisLimiter.SharedHintIsLeast | app/backends.py:44-49 | and would still be refused after any smaller number of whole seconds |
| RedisLimiter.ExpiryDropsOnlyDeadEvents | app/backends.py:53-64 | in every run no counter is negative, and a key expires only when all its events have left the window |
| RedisLimiter.LapsedCounterAdmitsTooMany | app/backends.py:57-57 | a run held for 3601 s frees its own slot |
| RedisLimiter.AcquireDiffersExactly | app/backends.py:39-59 | with counters that may have lapsed, one verdict differs if and only if the rate cap passes, the concurrency cap is reached and the counter has lost so many runs that it is not |
| RedisLimiter.RunAgreesExactly | app/backends.py:39-64 | in every run, lapses or not, all verdicts are those of one in-memory limiter if and only if no acquire overlooks runs that are held |
| Encodings.StoreRoundTrip | app/store.py:119-151 | join and filtered split give the list back if and only if its flags are non-empty and free of commas; the empty list among them |
| Encodings.WeightRoundTrip | app/backends.py:108-113 | the Lua digit match and int(parts[0]) both recover every natural weight |
| Encodings.ReadersAgree | app/backends.py:113-153 | on every member whose first field is a number, whoever wrote it, the Lua digit match and int(parts[0]) agree |
| Encodings.FlagsRoundTrip | app/backends.py:151-155 | the report recovers the flags if and only if they are free of comma and bar and not the list of one empty flag |
| Text.ValueOfPrint | app/backends.py:108-113 | reading a printed number gives it back |
| Text.SplitOfJoin | app/store.py:119-135 | split undoes join on pieces free of the separator |
| Text.ContainsExactly | app/abuse.py:49-61 | the substring test finds a marker if and only if it stands at some position |
| Text.LowerIsPointwise | app/abuse.py:49-61 | lower() maps A to Z to the small letters and keeps every other character |
| Abuse.VerdictTellsSymptoms | app/abuse.py:49-61 | each of the four symptoms, two of them listed texts that stand somewhere in the lower-cased stderr, brings its own flag once and its own weight; nothing else does |
| Abuse.ClassifiedFlagsSurvive | app/abuse.py:49-61 | the flags of any verdict survive both encodings, and a verdict is suspicious exactly when it weighs something |
| Abuse.AbuseTracker.constructor | app/abuse.py:65-69 | an empty tracker |
| Abuse.AbuseTracker.Prune | app/abuse.py:71-80 | the popleft loop; an empty deque is dropped |
| Abuse.AbuseTracker.Record | app/abuse.py:82-88 | prune, append a suspicious verdict, answer the score |
| Abuse.AbuseTracker.CurrentScore | app/abuse.py:90-92 | prune and add up |
| Abuse.AbuseTracker.IsQuarantined | app/abuse.py:94-95 | threshold on, and reached by the score |
| Abuse.AbuseTracker.Describe | app/abuse.py:102-114 | one line of the report: score, events and flags of the pruned deque, and the quarantine at the later reading of is_quarantined |
| Abuse.AbuseTracker.Report | app/abuse.py:97-119 | for any readings of the clock: exactly the identities with events at the first are listed, each with its line, and every deque is pruned at both |
| Abuse.FrozenReport | app/abuse.py:97-119 | at a frozen clock the two readings, and so the score and the quarantine of a line, are of one deque |
| Abuse.AddFlags | app/abuse.py:107-108 | the inner loop adds the occurrences of each flag |
| Abuse.CountFlags | app/abuse.py:105-108 | the loops count each flag as often as it occurs in the window, and list no other |
| Abuse.WindowIsRecentHistory | app/abuse.py:71-92 | after any run the pruned deque is the suspicious verdicts recorded less than a window ago |
| Abuse.ScoreIsRecentWeight | app/abuse.py:82-92 | the score is the weight of those verdicts; recording adds the new one |
| Abuse.QuarantineLifts | app/abuse.py:71-95 | while any run goes on without a suspicious verdict on an identity its score never rises, and is 0, the quarantine lifted, a window after the last one |
| Abuse.ReportAgreesWithScore | app/abuse.py:97-119 | at one reading of the clock the report lists exactly the identities with recent verdicts, and agrees with score() |
| Abuse.ReportLineIsTold | app/abuse.py:71-119 | after any run an identity is quarantined if and only if the threshold is positive and the weight of its verdicts of the last window reaches it; its report line has that weight, their number, and of each flag how often they carry it |
| RedisAbuse.RedisAbuseTracker.constructor | app/backends.py:119-124 | a fresh server |
| RedisAbuse.RedisAbuseTracker.Record | app/backends.py:104-131 | the record script, command by command |
| RedisAbuse.RedisAbuseTracker.Describe | app/backends.py:145-158 | one key of the report: prune, read back with int(parts[0]), add up |
| RedisAbuse.RedisAbuseTracker.Report | app/backends.py:140-160 | for any scan that includes the keys that are there: exactly the identities with recent members are listed, each with its line, and no later reading changes |
| RedisAbuse.AddUp | app/backends.py:111-115 | the script adds the leading numbers of all members |
| RedisAbuse.ReadBack | app/backends.py:149-155 | the report's loops recover score and flag counts from the members, the weight by int(parts[0]) |
| RedisAbuse.ScorePermutes | app/backends.py:111-115 | score and flag counts do not depend on the order of events |
| RedisAbuse.SummaryPermutes | app/backends.py:149-158 | nor does a line of the report |
| RedisAbuse.KeyIsRecentHistory | app/backends.py:104-116 | after any calls from any nodes the recent members of a key are, as a bag, the recent verdicts of the full history |
| RedisAbuse.SharedBag | app/backends.py:104-147 | pruning leaves in Redis, up to order, what it leaves in memory |
| RedisAbuse.SharedScoreActsAsOne | app/backends.py:104-131 | recording from any nodes answers the score one in-memory tracker would |
| RedisAbuse.SharedReportActsAsOne | app/backends.py:140-160 | the report lists the same identities as that of one in-memory tracker, with the same line for each |
| JobQueues.JobQueue.constructor | app/executor/jobqueue.py:51-61 | a started queue: empty, all workers idle |
| JobQueues.JobQueue.PutJob | app/executor/jobqueue.py:80-86 | refused exactly when closing or full; else queued last and counted unfinished |
| JobQueues.JobQueue.Submit | app/executor/jobqueue.py:88-94 | up to the await of the future |
| JobQueues.JobQueue.SubmitAsync | app/executor/jobqueue.py:96-104 | prune, enqueue, track |
| JobQueues.JobQueue.LookUp | app/executor/jobqueue.py:106-111 | the job, to its own identity only |
| JobQueues.JobQueue.PruneJobs | app/executor/jobqueue.py:113-118 | drops exactly the tracked jobs finished longer ago than the limit |
| JobQueues.JobQueue.TakeJob | app/executor/jobqueue.py:120-124 | the oldest job goes to the worker |
| JobQueues.JobQueue.FinishJob | app/executor/jobqueue.py:125-147 | result, status, future, times and counters, up to the call of the hook |
| JobQueues.JobQueue.EndHook | app/executor/jobqueue.py:143-147 | the hook has returned or raised |
| JobQueues.JobQueue.CancelRun | app/executor/jobqueue.py:130-142 | cancellation, wherever the worker waits |
| JobQueues.JobQueue.Stop | app/executor/jobqueue.py:63-66 | closing, up to the await of the join |
| JobQueues.StepKeepsInv | app/executor/jobqueue.py:63-147 | every step of every task keeps the invariant of queue, workers, jobs, registry and shutdown |
| QueueRuns.CountersAreExact | app/executor/jobqueue.py:80-142 | in every reachable state queued <= depth, active <= workers and is the number executing, unfinished = queued + active |
| QueueRuns.JobsStartOnceInOrder | app/executor/jobqueue.py:80-142 | every accepted job is in exactly one of queued, executing, finished; jobs start in order of acceptance, none twice |
| QueueRuns.HookIsCalledOnce | app/executor/jobqueue.py:143-147 | the hook is called once, after the result is set; outside shutdown it is not cut short |
| QueueRuns.FutureSettlesOnce | app/executor/jobqueue.py:125-138 | a future is settled at most once and for good, with its own job's outcome or by cancellation, whoever was first |
| QueueRuns.ClosingAcceptsNothing | app/executor/jobqueue.py:66-82 | once closing, nothing is accepted, whatever follows |
| QueueRuns.AcceptsExactly | app/executor/jobqueue.py:80-86 | a submission is accepted, after all accepted before, if and only if stop has not been called and fewer jobs wait than the depth |
| QueueRuns.OldestIsTaken | app/executor/jobqueue.py:120-128 | a worker takes the job accepted first among those not taken, and it is running from then on |
| QueueRuns.SubmittedJobStays | app/executor/jobqueue.py:88-104 | an accepted job keeps its identity and its kind in every later state |
| QueueRuns.FinishedJobStays | app/executor/jobqueue.py:125-142 | in every later state the end, status and result of a job are the time and the outcome of the step that finished it, and its future, if it was pending, is settled with that outcome |
| QueueRuns.FinishedJobIsSeen | app/executor/jobqueue.py:106-118 | its owner, and nobody else, sees a tracked job after that step exactly while no more than the limit has passed since its time |
| QueueRuns.StaleJobsAreForgotten | app/executor/jobqueue.py:96-118 | a poll or asynchronous submission leaves tracked exactly what was and has not been over for longer than the limit, and the job just accepted |
| QueueRuns.CutJobStays | app/executor/jobqueue.py:130-142 | a job cancelled while it runs stays running without a result, its end stamped and its future cancelled |
| QueueRuns.ShutdownLeaves | app/executor/jobqueue.py:63-78 | after stop every accepted job is complete, cancelled mid-run or never started; all complete if the join returned |
| QueueRuns.JobIsVisibleUntilStale | app/executor/jobqueue.py:96-118 | a tracked job is visible exactly to its own identity, exactly from acceptance until the limit after its end |
| QueueRuns.DrainedStopCutsHooks | app/executor/jobqueue.py:68-78 | every hook in its call when a drained queue stops is interrupted, its job complete |
| Hooks.StopCutsExactlyRunningHooks | app/executor/jobqueue.py:71-78 | from any state in which stop cancels, a hook ends interrupted if and only if it was in its call or interrupted already; every other hook is as it was |
| Hooks.StopLetsHooksFinishExactly | app/executor/jobqueue.py:66-78 | a stop lets every called hook finish if and only if none is in its call when the join returns or the grace ends; exactly those are cut |
| Hooks.HookIsReachedExactly | app/executor/jobqueue.py:63-147 | in every reachable state the hook of a job ends in some continuation if and only if it was called already, or the workers are not being cancelled and there is one |
| Routes.StepKeepsInv | app/api/routes.py:130-248 | every step of limiter, queue, workers, requests and streams keeps the composed invariant |
| Leaks.SlotsAreConserved | app/api/routes.py:130-248 | in every run the in-flight count of an identity is the number of its requests still to release plus those that leaked; jobs leak only when stop is cancelling, or without workers |
| Leaks.EachSlotIsReleasedOnce | app/api/routes.py:130-248 | each admitted request releases at most once, and has released exactly when it is neither live nor leaked; with none of these the counts are empty |
| Leaks.PostCounts | app/api/routes.py:130-248 | in every reachable state a request takes a slot of its identity if and only if it is no administrator's, the limiter admits it and the queue, if it needs one, does not refuse it |
| Leaks.PostIsRecorded | app/api/routes.py:130-248 | exactly the admitted requests go on, and have a job exactly when the queue takes it |
| Leaks.SlotIsReleasedExactly | app/api/routes.py:130-248 | in every reachable state an admitted request releases in some continuation, or has, if and only if it is not leaked |
| Leaks.LeakedSlotIsHeld | app/api/routes.py:130-248 | a leaked request never releases, and the in-flight count of its identity never falls to zero, in every continuation |
| Leaks.GraceLeaks | app/executor/jobqueue.py:66-74 | when the grace ends an asynchronous job leaks if and only if it is queued or executing |
| Leaks.DroppedStreamLeaks | app/api/routes.py:173-206 | a run in which a stream is dropped before its start |
| Leaks.QueuedJobLeaks | app/api/routes.py:234-245 | a run in which a job is still queued when the grace ends |
| Leaks.CutJobLeaks | app/api/routes.py:234-245 | a run in which a job is executing then |
| Routes.StreamSlotsAreConserved | app/api/routes.py:176-203 | free stream slots and streams holding one add up to the number of workers |
| Handlers.Service.constructor | app/main.py:48-60 | limiter, queue and stream slots at boot |
| Handlers.Service.Acquire | app/api/routes.py:80-84 | administrators pass, others go through the limiter |
| Handlers.Service.Release | app/api/routes.py:86-89 | and are released there |
| Handlers.Service.Execute | app/api/routes.py:137-148 | the handler up to its await is the step PostExecute; the limiter's own hint and reason come through a rejection, and a refused queue gives QueueFull with a hint of 2 s |
| Handlers.Service.ExecuteDone | app/api/routes.py:147-148 | the finally is the step ExecuteLeaves |
| Handlers.Service.PostStream | app/api/routes.py:164-170 | the stream is created, not started; a rejection has the limiter's own hint and reason |
| Handlers.Service.TakeStreamSlot | app/api/routes.py:178-179 | a stream slot is taken |
| Handlers.Service.EndStream | app/api/routes.py:201-204 | the generator's finally gives back the stream slot, if it had one, and the rate slot |
| Handlers.Service.SubmitJob | app/api/routes.py:225-248 | the handler of asynchronous jobs is the step PostJob; replies as for Execute |
| Handlers.Service.CompleteJob | app/api/routes.py:234-240 | the hook's finally and the return to the worker are one step |
| Output.ReadCapped | app/executor/runner.py:93-103 | for any chunking: the first min(cap, total) bytes, truncated exactly when total > 0 and total >= cap |
| Output.StepKeepsPump | app/executor/runner.py:268-306 | every step keeps: what was read, up to the cap, is either sent or queued, in order |
| Output.StepKeepsQueue | app/executor/runner.py:271-304 | every step keeps: an end marker comes once, after all data of its stream |
| StreamRuns.StreamSendsPrefix | app/executor/runner.py:268-322 | under every interleaving of pumps and consumer, and any deadline, each stream sends a prefix of its capped output |
| StreamRuns.StreamEqualsOneShot | app/executor/runner.py:268-322 | a run that finishes without the deadline expiring answers timed_out false, the one-shot reader's truncated flags, and sends exactly what that reader returns |
| StreamRuns.TimedOutExactly | app/executor/runner.py:286-300 | in every run the timed_out of the result is true if and only if the deadline expired in that run |
| StreamRuns.EndingExactly | app/executor/runner.py:325-374 | a run ends with a result, a failed compile or an error if and only if it took that step; compile output is sent exactly when a failed compile has some |
| StreamRuns.RunsAfterCompile | app/executor/runner.py:340-362 | nothing is read before the sources are staged and, for a compiled language, a compile has succeeded |
| StreamRuns.UntimedEndIsReached | app/executor/runner.py:268-322 | from every reachable state that is not over, and in which the deadline has not expired, the run can go on to finish without its expiring |
| StreamRuns.UntimedIsDrained | app/executor/runner.py:303-322 | a result that is not timed out comes only when both pipes have ended and the queue is empty |
| StreamRuns.OneDoneEventLast | app/executor/runner.py:308-372 | a finished run has exactly one done event, and it is the last |
| StreamRuns.ChunksAreNonEmpty | app/executor/runner.py:277-280 | no empty chunk is ever sent |
| Utf8.AlignedJoins | app/executor/runner.py:305-306 | chunks that end between characters decode to the whole text |
| Utf8.JoinsExactlyWhenAligned | app/executor/runner.py:305-306 | for UTF-8 whose last character may be cut by the cap, the joined decodes equal the decode of the whole if and only if every boundary falls between characters |
| Utf8.StreamedTextIsOneShotText | app/executor/runner.py:164-165 | live and one-shot text of a valid UTF-8 program, of a run that finishes in time, agree if and only if no chunk ends inside a character |
| Utf8.SplitCharacterShows | app/executor/runner.py:274-306 | two reads through one character: the texts differ |
| Utf8Encoding.DecodeUndoesEncode | app/executor/runner.py:164-165 | decoding gives back every sequence of code points that the encoder of RFC 3629 wrote |
| Utf8Encoding.EncodeUndoesDecode | app/executor/runner.py:164-165 | valid sequences are exactly those that this encoder writes, and decode to what it wrote |
| Utf8Encoding.ReplacementIsMaximal | app/executor/runner.py:305-306 | where no character begins, U+FFFD stands for the longest run of bytes that begins one, or for one byte |
| Sse.TakeFrames | app/ui/static/index.html:542-553 | the inner loop takes all complete frames off the buffer |
| Sse.ReadStream | app/ui/static/index.html:536-554 | the client's loop finds, for any chunks, the events of their concatenation, and keeps the incomplete rest |
| Sse.FramesOfAppend | app/ui/static/index.html:540-544 | splitting at once or bit by bit gives the same frames and the same rest |
| Sse.FramingIsInvertedExactly | app/api/routes.py:211-212 | however what was sent, each payload between "data: " and a blank line, is cut into chunks, the client gets back exactly the payloads, in order, with an empty buffer, if and only if each is non-empty JSON with no blank line in it and no newline at its end |
| Sse.ServerEventsComeBack | app/api/routes.py:211-212 | newline-free JSON payloads come back exactly, however the stream is cut into chunks |
| Sse.CutStreamShowsPrefix | app/ui/static/index.html:536-554 | a stream that is cut off shows a prefix of the events |
| Launch.RunWithRetry | app/executor/runner.py:182-194 | at most 1 + retries attempts, one if retries is not positive, under the names it makes; the first result that is no launch failure, or else the last |
| Launch.Execute | app/executor/runner.py:197-246 | both phases: the run phase only after a compile that exited with 0 in time; names, stage and error results |
| Launch.MadeMeans | app/executor/runner.py:182-194 | how many attempts are made, and that all but the last were launch failures |
| Launch.SignatureMeans | app/executor/runner.py:173-179 | a launch failure is exit code 128, in time, with no error, nothing on stdout and one of nine texts somewhere in the lower-cased stderr |
| Launch.AnotherAttemptExactly | app/executor/runner.py:173-194 | after an attempt there is another if and only if retries remain and that attempt ended so |
| Launch.NamesAreDistinct | app/executor/runner.py:187-193 | container ids and phase directories of one run are distinct over both phases and all attempts, and two runs share none |
| Launch.RunsAtMostOnceUnlessForged | app/executor/runner.py:173-194 | if no attempt that ran user code looks like a launch failure, user code runs at most once |
| Launch.RerunsExactlyOnSignature | app/executor/runner.py:173-194 | a program that always ends the same way runs 1 + retries times if it exits with 128, in time, prints nothing and writes one of the texts to stderr; otherwise once |
| Launch.SignatureCanBeForged | app/executor/runner.py:173-179 | a program can end with that signature |
| Janitor.Sweep | app/executor/runner.py:412-437 | with no age limit nothing is left; else exactly the directories whose mtime cannot be read, or is younger than the limit, are; of the others exactly the containers named -c and -r whose state directory exists are deleted |
| Janitor.SweepMissesRetries | app/executor/runner.py:431-434 | no sweep force-deletes the container of a retried attempt |
| Janitor.AgeIsBounded | app/executor/runner.py:136-139 | while a run is live its directory is younger than the longest gap between two refreshes |
| Janitor.RunsAreSafeExactly | app/executor/runner.py:412-437 | no live one-shot run is ever stale if and only if max_age is at least the longest gap (or nothing takes time) |
| Janitor.SweptRun | app/executor/runner.py:187-193 | below that bound there is a run that is swept |
| Janitor.LoopsArePossible | app/executor/runner.py:182-194 | every timeline of the retry loop, with its growing backoff and both phases, keeps that gap |
| Janitor.LoopsAreSafeExactly | app/executor/runner.py:182-194 | no live run of the retry loop is ever stale if and only if max_age is at least staging, or timeout, kill, delete and the longest pause together |
| Janitor.SweptLoop | app/executor/runner.py:187-193 | below that bound there is a run of the loop that is swept |
| Janitor.DefaultRunsAreNeverSwept | app/api/schemas.py:30-30 | with the longest request timeout of 30 s, ten seconds each for kill and delete and the default retries, no live one-shot run is swept |
| Janitor.TerminalsAreSafeExactly | app/executor/terminal.py:72-239 | a live terminal is never stale if and only if max_age is at least start-up, lifetime, one poll and tear-down together (or the staging, if longer) |
| Janitor.SweptTerminal | app/executor/terminal.py:72-239 | below that bound there is a session that is swept |
| Janitor.DefaultSessionsAreSwept | app/main.py:19-35 | with 60, 300 and 1200 s every session that lives its full time is swept while it lives, wherever the sweeps fall |
| TerminalManagers.TerminalManager.constructor | app/executor/terminal.py:260-264 | an empty registry |
| TerminalManagers.TerminalManager.Reject | app/executor/terminal.py:266-272 | the server cap if it is reached, whoever asks; else the cap on the identity if that is reached and it is no administrator |
| TerminalManagers.TerminalManager.Register | app/executor/terminal.py:274-277 | one more session, one more for its identity |
| TerminalManagers.TerminalManager.Unregister | app/executor/terminal.py:279-285 | the session goes; the count goes down, and away at zero |
| TerminalManagers.RegisterKeepsAccounting | app/executor/terminal.py:274-277 | registering keeps every count equal to the number of sessions |
| TerminalManagers.UnregisterIsExactWhen | app/executor/terminal.py:279-285 | unregistering keeps it if and only if the session is registered or its identity has none |
| TerminalManagers.CountsAreRightExactlyInOrderlyRuns | app/executor/terminal.py:266-285 | the counts are right at every moment of a run if and only if each unregistration is of that kind |
| TerminalManagers.TotalIsBounded | app/api/routes.py:327-340 | sessions and waiting requests never exceed the server cap by more than the most that wait at once, less one; so the cap holds when check and registration are one step |
| TerminalManagers.UserIsBounded | app/api/routes.py:327-340 | the same for the cap on one identity, in runs whose counts are right |
| TerminalManagers.CapsHoldWithoutOverlap | app/api/routes.py:327-340 | from an empty registry on, with no other request between a check and its registration, both caps hold, the second while the counts are right |
| TerminalManagers.OvershootIsReached | app/api/routes.py:327-340 | for every number of waiting requests there is a run that meets the bound |
| TerminalManagers.UserOvershootIsReached | app/api/routes.py:327-340 | and one that meets the bound of an identity, with the counts right |
| TerminalManagers.DoubleUnregisterLiftsTheCap | app/api/routes.py:341-344 | from any state one below the cap, a failed start unregistered twice lets an identity end one above its cap |
| TerminalManagers.DoubleUnregisterIsHarmlessAtCapOne | app/main.py:23-23 | with the cap of one that is shipped and no overlap, unregistering a session twice in a row keeps the counts right |
| TerminalSessions.TerminalSession.constructor | app/executor/terminal.py:51-70 | a session that is not started |
| TerminalSessions.TerminalSession.Open | app/executor/terminal.py:118-129 | the console has arrived: pty open, three tasks |
| TerminalSessions.TerminalSession.CallClose | app/executor/terminal.py:199-221 | test-and-set; the first caller lets the pty go, after the farewell if the watchdog calls |
| TerminalSessions.TerminalSession.ReleaseMaster | app/executor/terminal.py:210-221 | the pty is let go and the kill begins |
| TerminalSessions.TerminalSession.Finish | app/executor/terminal.py:225-239 | the last stretch: tasks cancelled, on_close called; a failed start unregisters once more |
| TerminalSessions.TerminalSession.Fail | app/api/routes.py:343-344 | a start that raises is unregistered by the route |
| TerminalSessions.StepKeepsInv | app/executor/terminal.py:72-239 | every step of every task keeps the invariant of closer, tasks, pty and counts |
| SessionRuns.ClosesOnce | app/executor/terminal.py:199-239 | however watchdog, process exit, output, write error, client, shutdown and start race, the kill and on_close happen at most once, on_close exactly once when close has run to its end |
| SessionRuns.ClosedLeavesNoTask | app/executor/terminal.py:225-239 | when a session is closed its background tasks are gone, unless its console came after closing began; right after the step that closes it they are gone even then |
| SessionRuns.OpenSessionIsWatched | app/executor/terminal.py:118-129 | an open session that nobody is closing has its pty and its three tasks, and each of them, a failed write and the route can close it |
| SessionRuns.TasksCallOnce | app/executor/terminal.py:131-197 | in every run each background task calls close at most once |
| SessionRuns.FarewellComesFirst | app/executor/terminal.py:203-221 | the watchdog's close has not let the pty go or begun the kill at its first await; everybody else's has done both |
| SessionRuns.ClosingGoesThrough | app/executor/terminal.py:199-239 | nobody takes over from the closer, and after at most three resumptions the session is closed unless the closer is cancelled from outside |
| SessionRuns.BackgroundClosesToTheEnd | app/executor/terminal.py:230-232 | only a closer that is no background task can be stopped half-way |
| SessionRuns.UnregisteredTwiceExactly | app/api/routes.py:338-344 | a session is unregistered once for its close and once for a failed start: twice if and only if both |
| SessionRuns.TornDownExactly | app/executor/terminal.py:72-292 | in every reachable state some continuation closes the session if and only if its closer was not cancelled and its start did not fail, unlisted by a shutdown, before any close; without a shutdown, nor was it cancelled |
| SessionRuns.UnregisteredExactly | app/api/routes.py:338-347 | and some continuation unregisters it, or it was, if and only if its closer was not cancelled after the start, and, without a shutdown, its start was not cancelled before any close |
| SessionRuns.ForgottenExactly | app/executor/terminal.py:117-121 | a session is unregistered with its sandbox never killed if and only if its start raised before anyone had begun to close it |
| SessionRuns.StartsThatOrphan | app/executor/terminal.py:117-121 | the start that raises without closing, and the start that is cancelled |
| SessionRuns.NoConsoleUnregistersTwice | app/executor/terminal.py:110-115 | a start with no console always ends that way |
| SessionRuns.MasterIsLeftOpenExactly | app/executor/terminal.py:118-129 | a closed session leaves its pty open if and only if the console arrived after the closing began |
| SessionRuns.ShutdownDuringStartLeavesMaster | app/executor/terminal.py:290-292 | a shutdown during a start does that |
| Watchdogs.Watch | app/executor/terminal.py:187-197 | the watchdog closes less than 2 s after the maximum lifetime, or the idle limit since the last input, never before, and stops within 2 s of another close |
| Terminals.StepIsExactUnless | app/executor/terminal.py:266-285 | a step of the whole house keeps the counts right if and only if it does not complete both a close and a failed start of a session with live siblings |
| Terminals.CountsAreExactUnlessStartFails | app/api/routes.py:327-344 | from boot on, under every interleaving of session lives, the counts are always right if and only if no such step occurs |
| Terminals.CountIsLiveSessions | app/executor/terminal.py:274-285 | in every run the registry holds exactly the sessions that are neither closed nor failed to start, and by_identity is their number in runs without such a step |
| Terminals.RegistryAndSandboxesPartExactly | app/api/routes.py:338-347 | in every run a sandbox never killed is out of the registry if and only if its start raised before any close, and one killed is still in it if and only if its close is under way or abandoned and its start has not failed |

## Left out

- StreamRuns.StreamEqualsOneShot: the pumps and the generator are steps on a value, not methods on an object; the queue between them and their local variables are fields of that value.
- StreamRuns.StreamSendsPrefix: the deadline may expire at any moment of the merge, whatever the clock says, so nothing is said about when it does; the exit code and wall time of a result are not modelled.
- Output.ReadCapped: a read returns what the pipe has; the reader is given the list of the chunks, and cannot block.
- Leaks.SlotsAreConserved: premises are those of the steps, namely that asyncio delivers a cancellation to the waiting coroutine and that a limiter call does not raise anything but its own rejection; the composed machine uses the in-memory limiter, which the Redis one is proved to act as.
- QueueRuns.ShutdownLeaves: start() after stop() is not modelled, nor start() called twice; a run begins with a started queue and stops at most once.
- JobQueues.JobQueue.FinishJob: job objects are entries of a map by id, so two names for one job object are one id; execute() gives any result or exception.
- JobQueues.JobQueue.Stop: only the stretch up to the await of the join is a method; the join, the grace period and the cancellations are steps.
- Abuse.ReportAgreesWithScore: at one reading of the clock; what later readings change in a report is in the contract of AbuseTracker.Report.
- Abuse.ClassifiedFlagsSurvive: lower() maps ASCII letters only; the markers are ASCII, and the case rules of other scripts are not part of this model.
- RedisLimiter.SharedLimiterActsAsOne: one clock for all nodes, no clock before zero, and no token used twice.
- RedisAbuse.SharedScoreActsAsOne: the same, and tokens of one length (uuid4 hex), flags free of comma and bar as classify makes them.
- RedisAbuse.RedisAbuseTracker.Report: the report as if no other node wrote during it; the scan gives every key that is there and may give others.
- Launch.RunsAtMostOnceUnlessForged: of what can raise outside an attempt only the staging of the sources is modelled, and the time a backoff takes is in Janitor only.
- Janitor.LoopsAreSafeExactly: reaping a process and draining its pipes take no time, stat() succeeds for a live directory, and a kill or delete takes no longer than its own timeout.
- SessionRuns.TornDownExactly: a continuation exists, which is all that is said where the event loop decides; the janitor, which removes an orphan's directory but not its sandbox, is not part of it.
- Leaks.SlotIsReleasedExactly: a synchronous request can always be released, since its waiter can be cancelled.
- SessionRuns.ClosingGoesThrough: the event loop is fair to the closing task; a cancellation from outside is a step that the premise rules out.
- TerminalSessions.TerminalSession.Open: the loop of _drain_output is the step Calls(Drain); bytes to and from the pty, resize, and the client's messages are not modelled.
- Watchdogs.Watch: sleeps are exact, and inputs and a close by someone else are given as times.
- Utf8.StreamedTextIsOneShotText: text is a sequence of code points; surrogates passed through by the staging codec do not occur in decoded output.
- Sse.ServerEventsComeBack: JSON is text without a raw newline that a given test accepts; TextDecoder is the identity because json.dumps writes ASCII only.
- Handlers.Service.Execute: request validation, history and abuse recording after a run are not modelled; they hold no slot.
- API keys and one-time terminal tickets (app/api/auth.py, app/api/routes.py): short checks of one branch each.
- SQLite storage apart from the flags column (app/store.py): library calls.
- Container configuration, limits and the language registry (app/executor/oci.py, app/executor/limits.py, app/languages/registry.py): tables of constants.
- File-name sanitizing and build-cache eviction (app/executor/runner.py): single expressions over strings and sizes.
- The rest of the web page, the command line, deployment scripts and the rootfs builder: no state that a claim here depends on.
