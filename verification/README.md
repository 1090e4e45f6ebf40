# What the system promises where it is hard to see

This project models the parts of the system whose guarantees rest on many
interleavings or on an argument no single body shows, and proves them for every
input, every run and every interleaving.

- **The log redaction walk** (`Redaction.dfy`, `CopyOnWrite.dfy`, `RedactWalk.dfy`). A line
  is a graph of objects, shared, cyclic and of any depth; the heap is a map from ids to nodes. The
  class `Walk` is the memoised walk with its memo, active set and counter of cut
  cycles. Its answers are related to the source by `Answers`, not by equality with a
  naive walk: a remembered answer may be cut short less than a fresh one. Commands
  are those of the source.
- **The migration lock** (`MigrationLock.dfy`). One run on one session with any of its
  statements failing; a failed `lock` or `unlock` may have taken effect all the same.
- **Any number of migration runners** (`MigrationRunners.dfy`). Their statements
  interleaved on one database, with sessions that may hold the lock beforehand,
  failed unlocks and connections that end.
- **The stop of a process** (`Shutdown.dfy`, `ShutdownProofs.dfy`, `ShutdownProgress.dfy`,
  `ShutdownHandler.dfy`). A machine of calls, stage settlements, timers, the deadline and
  the flush, with a log of acts; `Justified` says what each act must find in the log before
  it, and `ShutdownProgress` that every act that may come does: no stop is stuck. The class
  `Handler` is the closure of the handler, each method an event of the machine.
- **The worker and the smoke command around that stop** (`Bootstrap.dfy`,
  `SmokeRun.dfy`, `SmokePasses.dfy`), as products with the stop's machine.
- **The bounded database handle** (`Probe.dfy`, `ProbeAnswers.dfy`, `ProbeHandle.dfy`) and
  **the queue factory** (`Queues.dfy`, `QueueAnswers.dfy`, `QueueFactory.dfy`), each a
  machine of events and a class whose methods are those events. What a call is answered
  with, and what a close comes to, is said of the events of a run.
- **Money, identity and reconciliation**: the rounding of a cost (`UsageCost.dfy`), the
  job ids (`JobIds.dfy`), the budget guard and its shared cache (`Budget.dfy`), the sync
  of the job schedulers (`Schedules.dfy`). `Decimals.dfy`, `Products.dfy` and
  `Wrappers.dfy` hold what they share.

A machine is written as `Enabled`, `Next` and `Run` over a `State`; an event that is not
enabled changes nothing, so a theorem about `Run(initial, events)` is one about every
sequence of events. A class keeps the fields of the program's closure, and each of its
methods is tied to the old state by the machine's function for that event.

## Where the code and its documentation part

- **A cost can be recorded below what was spent.** The documentation of
  `toCostUsdColumn` says a cap is never shown less than was spent
  (packages/db/src/usage-logger.ts:28-31). The cut to twelve significant digits comes
  before the rounding up, so a price with more digits can lose what the rounding was to
  keep: `ALongPriceIsRecordedBelow` is one, `RecordedBelowSpentExactlyWhen` says exactly
  which, and `RecordedIsNear` how little it is.
- **A branch without a command can be copied.** The documentation of
  `redactCommandArgs` says such a branch is the very object it was
  (packages/runtime/src/redact-command-args.ts:196-197). A NaN is not equal to itself,
  so one under a walked key makes a copy: `NaNIsCopied`. A line that holds an object
  comes back as itself only if its walked paths meet neither a command nor a NaN, and
  exactly then if none leads past the depth limit: `SameLineExactly`. Past the limit it
  depends on what was remembered: an object met again deeper than before is answered as
  it was, not cut. A line that holds no object always comes back as itself.

One case the documentation describes is worth knowing: a lock that fails although it was
granted, on a session that held the lock before, is not unlocked
(packages/db/src/migration-lock.ts:281-287). The session still holds the lock, with one
grant more than before, and `WithMigrationLock` says this is the only way a run without
a report leaves the session another than it was.

## Model

| member | source | states |
|---|---|---|
| `RedactWalk.RedactCommandArgs` | packages/runtime/src/redact-command-args.ts:205-220 | For every graph and skip set: no source node changes, what is written answers the line (`Redacted`), and it has finite height although the line may be cyclic. At the end of every path that meets no mark, a node whose `name` is a text and whose `args` is a list has `[Redacted]` under `args` if that key is walked, and on any other node the kept `args` is an answer of the source's own - said on the node's own fields. A line that holds no object comes back as itself. One that holds an object comes back as itself only if no walked path of it meets a command or a NaN, and exactly then if none leads past the depth limit |
| `Redaction.EveryPathIsFaithful` | packages/runtime/src/redact-command-args.ts:138-185 | Of any answer of the walk: the end of every walked path is the source's own value, `[Redacted]` exactly on the `args` of a command of the source, `[Circular]` only where the source value lies on that very path or is an ancestor of the root, `[Truncated]` only past the depth limit, or a node of the same kind and keys |
| `Redaction.CommandsAreKnownByTheirFields` | packages/runtime/src/redact-command-args.ts:44-51 | On the fields alone: a text under `name` and a list under `args` is answered with `[Redacted]` under a walked `args`; without either, what is kept under `args` answers the source's own value |
| `Redaction.APathMeetsNoArgsOfACommand` | packages/runtime/src/redact-command-args.ts:138-185 | The same at the end of every path of the result, with the marks and the depth limit as the texts and the number they are: no `args` of a command is written anywhere |
| `Redaction.EverySourcePathIsKeptOrCut` | packages/runtime/src/redact-command-args.ts:138-185 | Every walked path of the source is in the result, unless one of the three marks stands on it: nothing else is left out |
| `Redaction.RankBoundsPaths` | packages/runtime/src/redact-command-args.ts:121-185 | When every walked edge leads to a node finished earlier, no walked path is longer than the rank of its start: the result is acyclic |
| `CopyOnWrite.CalmIsOnNoCycle` | packages/runtime/src/redact-command-args.ts:138-185 | A branch without a command, a NaN or an object past the limit is on no cycle of the source |
| `CopyOnWrite.ClearShallowPathsAreCalm` | packages/runtime/src/redact-command-args.ts:190-204 | Copy on write in terms of paths: a value whose walked paths meet no command and no NaN and stay within the limit is one the walk returns as it is |
| `CopyOnWrite.SameObjectIsClear` | packages/runtime/src/redact-command-args.ts:180 | The converse: a value that is its own answer has no command and no NaN on any walked path |
| `CopyOnWrite.CalmIsAnsweredByItself` | packages/runtime/src/redact-command-args.ts:138-185 | The only answer for a branch with no command, no NaN and no object past the limit is the branch itself, whatever it hangs on |
| `Redaction.AnswersWeaken` | packages/runtime/src/redact-command-args.ts:121-136 | An answer holds below more ancestors, deeper down and in a larger heap: what lets an answer without `[Circular]` be used again elsewhere |
| `RedactWalk.Walk.Visit` | packages/runtime/src/redact-command-args.ts:138-185 | For every reachable memo, active set and counter: the result answers the value below the active objects, and below none when no `[Circular]` was answered; a calm value comes back as the same reference; the heap only grows |
| `RedactWalk.Walk.VisitObject` | packages/runtime/src/redact-command-args.ts:162-185 | The body of the walk for one object: the active set is restored, and the answer is remembered only when no cycle was cut in it |
| `RedactWalk.Walk.VisitKeys` | packages/runtime/src/redact-command-args.ts:165-179 | The loop over the keys: every walked key has an answer one level deeper, and `changes` holds exactly those that differ |
| `RedactWalk.Walk.Rebuild` | packages/runtime/src/redact-command-args.ts:98-119 | The copy: a new node that differs from the source in the changed keys alone, and no node at all without a change |
| `RedactWalk.WrittenLineIsFaithful` | packages/runtime/src/redact-command-args.ts:190-220 | The same for a whole line, with the quick way out for a line without objects |
| `RedactWalk.SameLineExactly` | packages/runtime/src/redact-command-args.ts:196-204 | Of any answer for a line that holds an object: it is the line itself only if no walked path meets a command or a NaN, and exactly then if none leads past the depth limit |
| `RedactWalk.NaNIsCopied` | packages/runtime/src/redact-command-args.ts:176-178 | A concrete line without command, cycle or depth that is copied all the same: a NaN differs from itself |
| `MigrationLock.Session.WithMigrationLock` | packages/db/src/migration-lock.ts:156-200 | For every pattern of failing statements: the result is the run's own error or outcome whatever the release steps do; the lock is asked for under exactly this wait and no statement timeout; the body runs holding the lock, with the session's own timeouts and `warning` notices; each release step that ran and succeeded has put its part back. With no report the settings are the original ones and the lock is held exactly if it was before; and the session is the very one it was, grants included, exactly unless a lock failed as it was granted to a session that held it already |
| `MigrationLock.Session.Acquire` | packages/db/src/migration-lock.ts:294-323 | A lock that fails, granted or not: the cleanup skips the unlock for a session that held the lock, stops at its first failure, and the error is a busy lock only for 55P03 of the lock itself |
| `MigrationLock.Session.ReleaseQuietly` | packages/db/src/migration-lock.ts:331-345 | The reports are those of the steps, one by one, and the session is the one the steps leave statement by statement |
| `MigrationLock.ReleasePutsBack` | packages/db/src/migration-lock.ts:331-345 | Each release step that ran and succeeded has put its own part back, and no step touches another's |
| `MigrationLock.NoReportMeansAllFine` | packages/db/src/migration-lock.ts:331-345 | There is no report exactly when no step fails, and then every step ran |
| `MigrationLock.ReportsAreTheFailures` | packages/db/src/migration-lock.ts:331-345 | The reports are exactly the steps that ran and failed, each with its own code |
| `MigrationLock.ReportsComeInOrder` | packages/db/src/migration-lock.ts:331-345 | The reports come in the order of their steps |
| `MigrationLock.RanIsAPrefix` | packages/db/src/migration-lock.ts:331-345 | A run goes through all its release steps; an attempt stops at the first that fails, and nowhere else |
| `MigrationLock.TheOutcomeIsTheFirstFailure` | packages/db/src/migration-lock.ts:156-200 | The outcome is the body's own if no statement ahead of it fails, and else the error of the first that does; a busy lock exactly for 55P03 of the lock statement; a pool of more connections or a wait that is no whole positive number is refused before any |
| `MigrationLock.AfterAFailedAttempt` | packages/db/src/migration-lock.ts:281-322 | What a failed attempt leaves, granted or not: original settings and the same holding of the lock when its cleanup succeeded; one grant more only when a session that held the lock was granted it again |
| `MigrationLock.AfterARun` | packages/db/src/migration-lock.ts:181-199 | What a run that held the lock leaves, whatever its body left behind |
| `MigrationLock.RunMigrations` | packages/db/src/migrate.ts:131-157 | What is thrown holds, by index, the run's failure first, then each report of a release step in order, then that of the close, and nothing else; two or more are thrown together, one as it is; nothing is thrown exactly when the body ran and succeeded, every release step did and so did the close |
| `MigrationLock.RunMigrationsDropsNothing` | packages/db/src/migrate.ts:117-129 | No failure to throw exactly when nothing failed: neither a statement of the run, nor a release step, nor the close |
| `MigrationRunners.AtMostOneInside` | packages/db/src/migration-lock.ts:156-200 | In every interleaving of any number of runners, failed and granted locks, failed unlocks and lost connections: two runners in the locked body are one, its session holds the lock, and no other session does |
| `MigrationRunners.NoMigrationIsCommittedTwice` | packages/db/src/migrate.ts:52-66 | No migration is in the journal twice, although each runner reads the journal before its transaction; the journal only grows |
| `MigrationRunners.AppliedIsTheRunsOwn` | packages/db/src/migrate.ts:86-96 | Each `applied` returned is exactly the number of rows that run itself committed, then and at any later moment; they are among the `total` rows it counted, and so is every migration of its folder - the migrator taken to commit those whose id the journal it read does not hold |
| `MigrationRunners.NextIsSound` | packages/db/src/migrate.ts:86-110 | What every statement of every runner keeps: one holder, a locked body, a journal without repeats, and what the run inside knows of it |
| `MigrationRunners.PendingIsNew` | packages/db/src/migrate.ts:86-96 | The rows a commit adds are the run's own, of its folder, and new to the journal it read |
| `MigrationRunners.AnUndisturbedRunMigrates` | packages/db/src/migrate.ts:86-110 | From every reachable world with the lock free for it, a run nothing disturbs commits exactly what its folder has and the journal has not, in the order of the folder, answers with how many those are, and leaves its own session and every other as it was |
| `MigrationRunners.TheLockIsGivenBack` | packages/db/src/migration-lock.ts:181-199 | A landed unlock, the cleanup of a lock granted to a failed attempt and a connection that ends each open the lock to every runner that asks, unless the session held the lock ahead of its run |
| `MigrationRunners.ACallerKeepsItsLock` | packages/db/src/migration-lock.ts:281-287 | The runs of a session never give up the lock its caller holds, whatever of them fails and however others interleave |
| `MigrationRunners.AFailureEndsTheBody` | packages/db/src/migration-lock.ts:181-199 | A statement of the body that fails is the last ahead of the release: it answers nothing, and commits nothing but a commit that landed all the same |
| `ShutdownProofs.EveryRunIsInOrder` | packages/runtime/src/shutdown.ts:255-417 | Every act of every run rests on what `Shutdown.Justified` asks of the log before it |
| `ShutdownProofs.ExitsAtMostOnce` | packages/runtime/src/shutdown.ts:292-300 | In every interleaving of calls, stages, timers and flushes the process exit is called at most once |
| `ShutdownProofs.ZeroExactlyForACleanStop` | packages/runtime/src/shutdown.ts:390-416 | A verdict is 0 exactly when every stage of the plan settled before the deadline and no failure was known by then |
| `ShutdownProofs.LeavesWithZeroOnlyCleanly` | packages/runtime/src/shutdown.ts:390-416 | The process leaves with 0 only after such a verdict |
| `ShutdownProofs.ClosesOnceAndInOrder` | packages/runtime/src/shutdown.ts:332-347 | Each close is called at most once however often the handler is; a stage starts only after its predecessor in its sequence, and a step only after every sequence of the step before, failures included |
| `ShutdownProofs.ForcedExitIsASecondKeypress` | packages/runtime/src/shutdown.ts:283-290 | A forced exit answers a SIGINT at least the window after its latest opening, takes two SIGINTs when no signal began the stop, has the code of the failure known or 130, and never happens in log mode |
| `ShutdownProofs.LatestWindow` | packages/runtime/src/shutdown.ts:274-290 | The moment a forced exit is measured from is the latest opening in the log |
| `ShutdownProofs.AStopAlwaysLeaves` | packages/runtime/src/shutdown.ts:390-416 | However its stages hang: a stop past its deadline, or decided before it, has the process left in every continuation that reads the verdict and then ends the flush, whatever else happens before, between and after |
| `ShutdownProofs.AStopCanAlwaysLeave` | packages/runtime/src/shutdown.ts:390-416 | From every state of a stop that began there is a way out that needs neither a stage nor a signal: the time to the deadline, the deadline, the verdict and the flush |
| `ShutdownProofs.TheWayOutIsOneWay` | packages/runtime/src/shutdown.ts:292-300 | Nothing takes a stop back on its way out: once its race is decided, its verdict read or the process left, it stays so; the reading and the flush take it on |
| `ShutdownProgress.AStageStartsExactlyWhen` | packages/runtime/src/shutdown.ts:333-347 | In every run of a stop that began, a stage has started exactly once everything ahead of it has settled: nothing waits without a reason |
| `ShutdownProgress.AStopIsNeverStuck` | packages/runtime/src/shutdown.ts:306-347 | While a stage of a stop that began is not over, some stage is closing and may settle |
| `ShutdownProgress.AClosedPlanIsDecided` | packages/runtime/src/shutdown.ts:333-347 | Once every stage is over the race is decided |
| `ShutdownProgress.ActsComeFromTheirEvents` | packages/runtime/src/shutdown.ts:255-417 | Every act comes from an event of its own: a failure from the call or stage that failed, the deadline's decision from the deadline, an exit from the end of the flush; and every call is told, with its failure |
| `ShutdownProgress.ACleanStopLeavesWithZero` | packages/runtime/src/shutdown.ts:390-416 | A run whose stages all close before the deadline, in which no event brings a failure up to the reading of the verdict and nobody forces the exit, leaves with 0 whatever else comes |
| `ShutdownProgress.EveryPlanCanCloseCleanly` | packages/runtime/src/shutdown.ts:333-347 | From the first call of every plan, clean settlings of its stages alone close it, and it leaves with 0 after the reading and the flush |
| `ShutdownProgress.WhatASigintDoes` | packages/runtime/src/shutdown.ts:356-376 | In every stop under way a SIGINT adds exactly: itself, in log mode, within the window or after a verdict; the hint that opens the window anew, if no signal began the stop and none came yet; and past the window, once its timer had its turn, the forced verdict, 1 after a failure and else 130 |
| `ShutdownHandler.Handler.Handle` | packages/runtime/src/shutdown.ts:349-389 | A call of the handler is the event of the machine: first call, hint, copy of a keypress or forced exit |
| `ShutdownHandler.Handler.Repeat` | packages/runtime/src/shutdown.ts:356-376 | A repeated call: only a SIGINT of a forcing handler does anything, and what it does depends on hint and window |
| `ShutdownHandler.Handler.RunPlan` | packages/runtime/src/shutdown.ts:333-347 | The loop over the steps goes to the first step that has a stage, and ends the plan after the last |
| `ShutdownHandler.Handler.StartSequences` | packages/runtime/src/shutdown.ts:334-346 | The first stage of every sequence of a step starts, side by side |
| `ShutdownHandler.Handler.StageSettled` | packages/runtime/src/shutdown.ts:306-330 | A stage that settles, failing or not, is followed by the next of its sequence, or by the next step once all sequences are through: it is the event of the machine `AStageStartsExactlyWhen` is about |
| `ShutdownHandler.Handler.Resume` | packages/runtime/src/shutdown.ts:403-416 | The verdict of the race becomes the exit code, unless a forced exit came first |
| `Bootstrap.ABrokenStartNeverLeavesWithZero` | apps/worker/src/bootstrap.ts:103-158 | In every interleaving of start, signals, stages, timers and flushes the worker leaves with 0 only if its start came up |
| `Bootstrap.Worker.StartSettled` | apps/worker/src/bootstrap.ts:146-157 | A start that fails is a failing call of the stop, in the turn its stages hear of it |
| `Bootstrap.AWorkerThatCameUpLeavesWithZero` | apps/worker/src/bootstrap.ts:103-158 | No start fails, every stage closes cleanly before the deadline and nobody forces the exit: whatever else comes, the worker leaves with 0 |
| `Bootstrap.AWorkerCanLeaveWithZero` | apps/worker/src/bootstrap.ts:103-158 | A worker that comes up and is told to stop by a signal can close its stages and leave with 0, however many connections it has |
| `SmokeRun.LeavesWithZeroOnlyOnAPass` | apps/worker/src/cli/smoke-run.ts:321-372 | The smoke command leaves with 0 only on a verdict that the job it enqueued itself completed, reached before the deadline and before any signal |
| `SmokeRun.NothingIsEnqueuedOnceOver` | apps/worker/src/cli/smoke-run.ts:142-277 | The job is enqueued at most once and never once a signal, the deadline or a verdict has ended the run |
| `SmokeRun.PassRestsOnItsJob` | apps/worker/src/cli/smoke-run.ts:157-180 | A passing outcome rests on the completion of the job enqueued, with nothing before it that ended the run |
| `SmokePasses.TheOwnJobDecides` | apps/worker/src/cli/smoke-run.ts:223-250 | While nothing has ended the run, its own job decides it at once: completed it passes, failed it fails; what is told of another job changes nothing |
| `SmokePasses.ARunThatIsCutShortFails` | apps/worker/src/cli/smoke-run.ts:157-277 | A refusal on the way to the queue, a signal once the run listens and the answer of the probe past the deadline each fail a run nothing else has ended |
| `SmokePasses.TheStopIsAskedFor` | apps/worker/src/cli/smoke-run.ts:340-372 | Whoever interrupted the run and however it came back, its stop has begun |
| `SmokePasses.APassLeavesWithZero` | apps/worker/src/cli/smoke-run.ts:321-372 | A run that passed and whose stages close cleanly before the deadline leaves with 0 whatever else comes, later signals included |
| `SmokePasses.ARunCanLeaveWithZero` | apps/worker/src/cli/smoke-run.ts:142-372 | A run that opens, is ready, enqueues and hears that its job completed can come back, close and leave with 0 |
| `SmokeRun.Command.SignalCame` | apps/worker/src/cli/smoke-run.ts:340-346 | A signal before the verdict interrupts, and every signal asks the stop with what is known of a failure |
| `SmokeRun.Command.Settle` | apps/worker/src/cli/smoke-run.ts:157-172 | The run is decided once, and the command knows the verdict before its promise resolves |
| `SmokeRun.Command.CameBack` | apps/worker/src/cli/smoke-run.ts:348-372 | A run that returns or throws asks for the stop, unless a signal has |
| `SmokeRun.Command.HeardOfJob` | apps/worker/src/cli/smoke-run.ts:223-250 | Only the run's own job decides it, and only while it is not over |
| `Probe.OpenCallsSettleByTheirLimit` | packages/db/src/probe.ts:251-308 | While the handle is open every unsettled call is on the current client and not past its limit; no time passes a due limit, and that limit settles every call there is |
| `Probe.EachCallSettlesOnce` | packages/db/src/probe.ts:258-308 | A call has one settlement in every run exactly if it has settled, and never two |
| `ProbeAnswers.EveryEventAnswersRightly` | packages/db/src/probe.ts:251-336 | In every run the settling of a query answers its own call with its own success or failure unless it was answered before; a limit refuses exactly the calls not answered yet; a call after the close is refused at once and the end of the close refuses exactly what is left; nothing else answers a call |
| `ProbeAnswers.AnswersComeFromTheirEvents` | packages/db/src/probe.ts:258-336 | Every answer of a run comes from an event of its own: a query's from that call's query as it settled, the limit's from a limit that fired on an open handle after the call was made, the close's from a call made after it or from its end |
| `ProbeAnswers.ALimitComesDue` | packages/db/src/probe.ts:282-286 | However long its queries hang, time brings an open handle with a call not answered to the limit of one |
| `ProbeAnswers.TheCloseAnswersAsItEnded` | packages/db/src/probe.ts:322-336 | The close answers as the end of the current client came, and only if it was called |
| `ProbeAnswers.AClosedHandleCanSettle` | packages/db/src/probe.ts:322-336 | From every closed handle the ends still out alone bring the close to its answer |
| `Probe.ClientsAreConserved` | packages/db/src/probe.ts:213-245 | Every client ever opened is the current one or was ended exactly once, in the order of opening; each one a limit ended was replaced by exactly one, and told of once |
| `Probe.ALimitIsOnTheCurrentClient` | packages/db/src/probe.ts:226-228 | The guard of a client already replaced is never taken: a limit that fires finds its call on the current client |
| `Probe.NoLimitEndsAClosedHandle` | packages/db/src/probe.ts:312-321 | After the close no limit fires, and whatever comes nothing more is ended or opened: each client is ended once in all |
| `Probe.ASettledCloseLeavesNothing` | packages/db/src/probe.ts:322-336 | Once the close has settled, with the failure of ending the current client if that failed, no call is unsettled, every client was ended once and every end a limit began is done |
| `Probe.NextIsSound` | packages/db/src/probe.ts:213-338 | What every call, timer, end and close keeps: waiting calls are the unsettled ones and wait on the current client, live limits are those of an open handle |
| `ProbeHandle.CreateProbeDb` | packages/db/src/probe.ts:183-191 | A handle opens exactly when both bounds are whole milliseconds above 0 and the statement timeout is below the limit; the refusal names the first rule broken, in the order of the checks |
| `ProbeHandle.Handle.RunCall` | packages/db/src/probe.ts:251-292 | A call is refused at once by a closed handle, and else waits on the current client under a limit of its own |
| `ProbeHandle.Handle.DestroyClient` | packages/db/src/probe.ts:221-245 | Every call on the client is refused, and only the current client is replaced and ended |
| `ProbeHandle.Handle.Close` | packages/db/src/probe.ts:312-321 | The first close disarms every limit and ends the current client; another changes nothing |
| `ProbeHandle.Handle.CloseSettled` | packages/db/src/probe.ts:322-336 | What the close left unanswered is refused, and its answer is that of the current client's end |
| `Queues.ARefusedQueueIsNeverHandedOutAgain` | packages/runtime/src/queues.ts:278-318 | In every run a queue whose init was refused, or whose close has begun, is never handed out from then on, nor is any queue once the factory's close has begun |
| `Queues.GetAnswersALiveQueue` | packages/runtime/src/queues.ts:335-381 | What `get` answers is a queue just built, or one of that name not closing and not refused |
| `QueueAnswers.GetHandsOutExactlyWhen` | packages/runtime/src/queues.ts:335-381 | In every run `get` and a read hand out a queue exactly if the close has not begun and the registry knows the name: the live one of that name, or a new one only if there is none; a read is in flight from then on; in every other case nothing changes and the answer says which it was |
| `QueueAnswers.EveryQueueHasAKnownName` | packages/runtime/src/queues.ts:350-354 | Every queue ever built has a name of the registry |
| `QueueAnswers.AnErrorIsWrittenExactlyWhen` | packages/runtime/src/queues.ts:320-377 | An error a queue hears is written exactly if it is not of the client, the close has not begun and it is not the error that queue's init was refused with; while the verdict is not in it is put off, and judged so after the delay, once |
| `QueueAnswers.ARefusedQueueIsClosing` | packages/runtime/src/queues.ts:278-318 | A queue whose init was refused is being closed, in every run |
| `QueueAnswers.WhatIsKnownWasHeard` | packages/runtime/src/queues.ts:295-333 | A verdict is the one the queue's own init came to, a close ended as its own event said, an error put off was heard and not of the client, and the close has begun exactly if it was called |
| `QueueAnswers.TheCloseWaitsForItsReads` | packages/runtime/src/queues.ts:383-402 | A close that closes its queues without having timed out has waited for every read in flight as it began |
| `QueueAnswers.ABegunCloseCanSettle` | packages/runtime/src/queues.ts:383-434 | From wherever a begun close stands, the reads, the drain and the closes it waits for alone bring it to its end in time |
| `Queues.OneOpenQueueAName` | packages/runtime/src/queues.ts:335-381 | Of the queues ever built under a name at most one is not closing or closed |
| `Queues.NothingHappensTwice` | packages/runtime/src/queues.ts:278-318 | No queue's close starts twice, by the close or over its refusal; the mark comes off once; a name has one `queue init refused` line at most |
| `Queues.NoLineAfterTheClose` | packages/runtime/src/queues.ts:320-333 | No line is written once the close has begun, and a refused init is never written as a queue error once its verdict is in |
| `Queues.ASettledCloseClosedThemAll` | packages/runtime/src/queues.ts:383-434 | Once the close has settled the close of every queue ever built has started; those the close itself closed have settled, and it refuses with exactly those of them that refused; the others are those whose init was refused |
| `Queues.ACloseInTimeLeavesNothingClosing` | packages/runtime/src/queues.ts:403-422 | A close that ends without its timeout has waited for every queue ever built, the forgotten ones included |
| `Queues.ANameHasItsLineExactlyWhen` | packages/runtime/src/queues.ts:302-315 | While the factory is open a name has its `queue init refused` line exactly if the factory writes and a queue of that name was refused by Redis itself, not by a connection failure or over the credentials; at no time does a line tell of anything else |
| `Queues.TheMarkComesOffLast` | packages/runtime/src/queues.ts:429-433 | The client mark comes off after the close of every queue the cache held has settled and when every queue built is closing |
| `Queues.NextIsSound` | packages/runtime/src/queues.ts:251-434 | What every call, verdict, drain and close keeps: the cache holds exactly the queues whose close has not begun, each under its name and none refused |
| `QueueFactory.Factory.GetQueue` | packages/runtime/src/queues.ts:335-381 | Closed first, then the cache, then the registry, then a new queue |
| `QueueFactory.Factory.InitSettled` | packages/runtime/src/queues.ts:295-318 | The verdict is taken once; a refused queue is told of if it is to be, and forgotten |
| `QueueFactory.Factory.ForgetQueue` | packages/runtime/src/queues.ts:278-292 | Only a queue the cache still holds is let go and closed |
| `QueueFactory.Factory.HearError` | packages/runtime/src/queues.ts:360-377 | An error of the client is left to it; one that may be a refused init waits for the verdict |
| `QueueFactory.Factory.Close` | packages/runtime/src/queues.ts:453-459 | One close: it drains what is in flight, or goes straight to the queues |
| `QueueFactory.Factory.CloseCached` | packages/runtime/src/queues.ts:398-422 | The cache is emptied and every queue of it closed, each once, in the order built |
| `QueueFactory.Factory.CloseEnded` | packages/runtime/src/queues.ts:423-433 | The refusals are the answer, and the mark comes off whichever way it went |
| `UsageCost.RecordedIsMonotone` | packages/db/src/usage-logger.ts:38-44 | A dearer call is never recorded as cheaper, across the decades of the twelve digits too |
| `UsageCost.ZeroOnlyForZero` | packages/db/src/usage-logger.ts:35-37 | Free is recorded as free; anything else as a hundred-thousandth of a dollar at least |
| `UsageCost.RecordedIsNear` | packages/db/src/usage-logger.ts:38-44 | The record lies between cost * (1 - 5e-12) and cost * (1 + 5e-12) + 1e-5 |
| `UsageCost.RecordedBelowSpentExactlyWhen` | packages/db/src/usage-logger.ts:28-44 | The record is below the cost exactly when the scaled cost lies above a multiple of its grain by less than half a unit of its twelfth digit |
| `UsageCost.TwelveDigitsAreNeverRecordedBelow` | packages/db/src/usage-logger.ts:28-44 | A cost whose scaled value has at most twelve significant digits is never recorded below itself |
| `UsageCost.ALongPriceIsRecordedBelow` | packages/db/src/usage-logger.ts:28-34 | A concrete cost that is recorded below itself: 10.000000000001 as 10 |
| `UsageCost.ALogIsNear` | packages/db/src/usage-logger.ts:28-44 | A log of n calls is off by 5e-12 of what was spent downwards, and by n * 1e-5 more upwards |
| `UsageCost.TheColumnIsTheRecordedCost` | packages/db/src/usage-logger.ts:38-44 | The text of the column has five decimals and reads back as exactly the recorded cost, a whole number of hundred-thousandths; a call without a price has none |
| `JobIds.AnIdGivesItsSegmentsBack` | packages/core/src/domain/job-ids.ts:65-70 | Splitting an id on `/` gives back its prefix and parts as they print; no id holds `:` or is all digits |
| `JobIds.IdsAreInjective` | packages/core/src/domain/job-ids.ts:65-70 | Two ids are equal exactly when prefix and printed parts are |
| `JobIds.PartsPrintApart` | packages/core/src/domain/job-ids.ts:38-57 | Two numbers, or two texts, print alike only when they are the same |
| `JobIds.APartPrintsAsItself` | packages/core/src/domain/job-ids.ts:38-57 | A text without a separator prints as it is and a whole number as digits that read back as it, no zero in front; everything else is refused where it stands, with what is wrong with it |
| `JobIds.TheFirstPartRefusedIsTold` | packages/core/src/domain/job-ids.ts:59-90 | A refused id tells of the first part that is none, the prefix ahead of the others, or of its digits |
| `JobIds.AnIdIsRefusedExactlyWhen` | packages/core/src/domain/job-ids.ts:38-90 | An id is refused exactly over a part that is none, or over a prefix of digits without parts |
| `JobIds.ADlqIdIs` | packages/core/src/domain/job-ids.ts:185-193 | A record's id is refused exactly over a bad queue name, an empty id or a bad time, never over its digits |
| `JobIds.DlqIdsAreEqualExactlyWhen` | packages/core/src/domain/job-ids.ts:185-193 | Two records have one id exactly when queue and time are equal and the original ids are up to `:` and `@`; the id holds no `:` and is not all digits |
| `JobIds.ReplacedIsTheSameExactlyUpToColons` | packages/core/src/domain/job-ids.ts:105-110 | Two ids embed alike exactly when they differ at most in `:` against `@` |
| `Budget.AnAssertThatReturnsRestsOnACount` | packages/db/src/budget.ts:186-290 | In every history of spends, rollovers, counts, writes, failures, losses and expiries an `assert` that returns rests on a total of the log over the window in force at its count, and below the cap. A count made for the call is not before it; one from the cache was stored at most 60 seconds ago and is below four fifths of the cap it was written under and of the current one |
| `Budget.AnAssertRefusesExactlyWhen` | packages/db/src/budget.ts:273-280 | In every history a call that has its answer is refused exactly if the total it found has reached its cap, with that total and that cap, and only on a total counted for this call |
| `Budget.AFreshCountMissesNothing` | packages/db/src/budget.ts:223-250 | A total counted for a call is every row of its cap in the window in force at the count: those in the log when the call came, and those since; the window is that of the call unless it has rolled over in between |
| `Budget.ACachedTotalAgainstTheLog` | packages/db/src/budget.ts:186-221 | A total from the cache against the log at the read: it lacks exactly the rows that came since the count, and has exactly the rows a rollover has left behind, none without a rollover |
| `Budget.AFailingCacheLeadsToACount` | packages/db/src/budget.ts:196-220 | A call answers from the cache exactly when the cache does not fail and holds a readable total, in its time, below the warning share of the cap it was written under and of the current one; in every other case it answers from a count of its own or throws, however the run goes on |
| `Budget.NextIsSound` | packages/db/src/budget.ts:186-250 | What every event keeps: each cache entry is a true count of the log over the window of its moment, with its cap and warning |
| `Budget.FlagsAgreeWithTheRatio` | packages/core/src/domain/budget.ts:46-67 | `exceeded` and `warn` say what the exact ratio says, 1 and four fifths included, and a cap reached was warned of |
| `Budget.CapsSumTheirOwn` | packages/core/src/domain/budget.ts:136-193 | A provider spends against a cap exactly when the cap sums its rows |
| `Budget.EachProviderHasItsCap` | packages/core/src/domain/budget.ts:136-193 | The providers of speech share the monthly cap, two others have their own daily one, and the rest have none; each cap sums exactly those that share it |
| `Budget.ARowCountsExactlyWhen` | packages/db/src/repos/api-usage-log.ts:326-350 | A row counts towards a cap exactly if its provider spends against it and it lies in the window |
| `Budget.OneCallComesToItsVerdict` | packages/db/src/budget.ts:186-290 | The statements of one call come to the verdict `Assert` promises, and the cache takes the total of exactly the calls that counted |
| `Budget.CountBudgetChecks` | packages/db/src/budget.ts:120-148 | Each provider with a cap gets the check of the total in its own place, one without gets none, and a missing total is an error exactly as totals run out |
| `Budget.Guard.CountSpend` | packages/db/src/budget.ts:223-250 | The total of the log over the cap's window is the answer whether or not the cache takes it, and what the cache takes is that total with its warning |
| `Budget.Guard.SumUsage` | packages/db/src/repos/api-usage-log.ts:326-350 | The sum over the rows of the cap's providers from the start of its window up to now, both included |
| `Budget.Guard.CachedSpend` | packages/db/src/budget.ts:186-221 | A total of the cache answers only if readable, written below the warning share and still below it |
| `Budget.Guard.CountOrCached` | packages/db/src/budget.ts:284-289 | One call is the statements of the machine in a row |
| `Budget.Guard.Assert` | packages/db/src/budget.ts:261-281 | With a usable total of the cache the call goes ahead and the log is not asked; else, under a positive cap, it goes ahead exactly if the log was counted and its total over the window is below the cap, and at the cap it throws that total and that cap; a failing count, a cap that is not positive and a provider without a cap are refused as such. The cache takes the total of exactly the calls that counted |
| `Schedules.Store.SyncSchedules` | apps/worker/src/schedules.ts:99-145 | For every store and listing order: each registered queue ends with exactly its declared ids and the last declared patterns, and what was removed is exactly what was there undeclared, each once |
| `Schedules.Store.SyncTwice` | apps/worker/src/schedules.ts:86-98 | A second sync of the same declarations removes nothing and changes nothing |
| `Schedules.Store.ListIds` | apps/worker/src/schedules.ts:60-75 | The paginated listing ends and is the whole listing, however many pages |
| `Schedules.Store.UpsertAll` | apps/worker/src/schedules.ts:109-118 | Every queue is laid over with what is declared for it |
| `Schedules.Store.RemoveStrays` | apps/worker/src/schedules.ts:121-135 | Of one queue exactly the undeclared schedulers go |
| `Schedules.Store.RemoveUndeclared` | apps/worker/src/schedules.ts:121-135 | The whole registry is walked, the queues without a declaration included |
| `Schedules.DeclaredIds` | apps/worker/src/schedules.ts:103-108 | The ids gathered for a queue are exactly the declared ones |
| `Schedules.TheLastPatternCounts` | apps/worker/src/schedules.ts:109-118 | An id is due in a queue exactly when it is declared for it, with the pattern declared last |

## Left out

- MigrationRunners.AtMostOneInside: a connection that ends takes its runner with it; a driver that reconnects and sends the rest of the run over a new session, which does not hold the lock, is not part of the model.
- MigrationRunners.NoMigrationIsCommittedTwice: the migrator commits, all or nothing, the migrations of its folder that the journal it read does not hold; how it compares them with the journal is its own.
- MigrationLock.Session.WithMigrationLock: a body neither takes nor gives up the migration lock; a failed setting has no effect; the settings row that cannot be read is a failure of its statement.
- ShutdownProofs.LeavesWithZeroOnlyCleanly: a close that answers with a warning or was not opened counts as settled without failure, as in the code; the lines themselves are not modelled.
- ShutdownProofs.AStopAlwaysLeaves: that the verdict is read and the flush ends is the event loop's part; the bound of the flush is not modelled.
- Probe.OpenCallsSettleByTheirLimit: a limit fires when it is due; how late a busy event loop fires a timer is not modelled. The deadline of the stop is treated the same way, the window of a repeated keypress may be late.
- Queues.ASettledCloseClosedThemAll: the drain and the wait for forgotten queues may end by their timeout at any moment; their lengths are not modelled, nor is the job scheduler of a queue and its close.
- Budget.AnAssertThatReturnsRestsOnACount: a window rolls over when it does; the calendar and the zone that say when are not modelled. A cache write that was reported as failed and lands later is not modelled, nor are values of the cache written by anything but a guard, other than unreadable ones. A row is in the log from the moment it is stamped with.
- UsageCost.RecordedIsNear: over exact reals; the noise of doubles and the width of the column are not modelled.
- SmokeRun.LeavesWithZeroOnlyOnAPass: events of the job and polled states are one kind of word about it; intervals, reasons and lines are not modelled.
- Bootstrap.ABrokenStartNeverLeavesWithZero: the start's end and the failing call of the stop are one turn, in the order their handlers are registered.
- RedactWalk.RedactCommandArgs: a node is a kind, its own enumerable keys in order and what can be read of it; getters, prototypes, symbols, descriptors and extra properties of arrays are not modelled.
- Schedules.Store.SyncSchedules: nothing else changes the schedulers during the sync; templates and next runs are not modelled.
- The promises and the event loop as such: what happens between two awaits is one step.
- Postgres, Redis, BullMQ, drizzle, Fastify, pino and Next: abstract state that answers or fails.
- `stageOf`, the lines and texts of errors, the classification of errors, heartbeats, single flight, queue switches, the other builders of job ids and `intervalSlot`: they would only add easy members.
- `toUsageRow` beyond its price, the parsing of cached values, the connection options and the url of a probe: parsing and declarations.
- Web pages, routes, configuration, schemas, Compose gates and test support.
