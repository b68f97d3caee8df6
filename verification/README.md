# Verified models of the audit's control paths

corral audits a test suite: it plants faults, lets a swarm of model-backed seats
look for them, and records what was measured. These modules model the parts of
it whose mistakes would be silent ones: a task run twice, work lost on the way to
the brain, a timeout reported as a measurement, source text on an event tape, a
report that leaves something out without saying so, a cost line that disagrees
with the ledger beneath it. Each model takes the branches, constants and edge
cases of the code, and the properties are proved for every input, every run and
every interleaving.

Verify everything with `dafny verify dfyconfig.toml`.

| file | what it models |
|---|---|
| `SeatPolicy`, `WorkerPool`, `Drain`, `DrainEnds`, `RunTask` | one drain of the ready tasks by a bounded pool of workers, as interleaved steps over a shared queue; which seat failures are contained |
| `DriveLoop`, `DriveDrains` | the Tick, drain, Tick loop with its error budget and timeout verdicts, and the loop over real drains |
| `RepoWorker`, `RepoWorkerSafety`, `RepoWorkerRuns`, `RepoWorkerLosses`, `RepoWorkerOrigins` | the remote worker's claim, work, push, complete loop over the repository mirror, and what the log of any run of it shows |
| `Extract` | laying a snapshot archive down under a size cap |
| `Redaction`, `ScanEvents` | the recursive redactor and the capped event log |
| `SeedTree`, `SeedWalk`, `SeedResult` | the walk that loads the jail seed, and its answer said without a walk |
| `Brief`, `BriefBound`, `BriefReport` | the newest-first report and its item bound |
| `LedgerRows`, `LedgerFacts`, `Cost` | file rows, mutant rows, model-call rows and totals of one scan |
| `Wilson`, `Splice`, `ModelLabels`, `SplitCmd` | the score interval, the marker splice, the label collapse, the command splitter |
| `Common`, `Sorting` | options, sequences without repetition, strict sorting of strings |

## Assumptions

- The task queue's claim is atomic and gives each ready task to one worker; it
  answers nil only when nothing is ready; whether a completion was accepted (as
  opposed to whether it errored) is not looked at by the code and not modelled.
- Model calls, brain calls, ticks, disk writes and serialisation may end either
  way at every step; their results are inputs.
- A file's being text, its place in a language's test tree, and its listed and
  read sizes are inputs of the seed walk. Scopes and `--bind-dir` entries are in
  clean slash form, and so are recorded paths, except that a row may record the
  empty path, which the code cleans to the root and the root scope covers.

## Where the code does not do what one would expect

Each of these is stated by a lemma, with the exact condition under which the code
does what is promised.

- A repository mission whose first snapshot call fails in transit is remembered
  as not mirrored. Its tasks run in the shared workspace and are completed with
  their writes unsent, and the snapshot is not asked for again
  (`RepoWorkerRuns.GateWithUnlandedWrites`, `FailedSnapshotCompletesUnsent`).
- A tracked file that cannot be read when it is pushed, for whatever reason, is
  skipped and forgotten, and the task is completed without it
  (`RepoWorkerRuns.UnacceptedExactlyWhenUnreadable`, `UnreadableWriteIsDropped`).
- A timeout verdict nobody measured is refused on the expired path but returned
  when the round's own tick produces it on a live context (`DriveLoop.OutcomeOf`,
  `UnmeasuredTimeoutIsReturned`).
- A generated `_bytes` or `_redacted` key can overwrite, or be overwritten by, a
  plain key of that name, depending on map order: the plain value is safe exactly
  when no differing stub lands on it (`Redaction.SurvivesUnlessOverwritten`), the
  stub exactly when no differing plain key has its name
  (`StubStandsUnlessOverwritten`, `CollisionHasTwoRedactions`).
- A document whose end marker precedes its start marker grows with every splice
  (`Splice.LaterBodyWins`, `ReversedGrows`).
- A file that shrinks between listing and reading can get a tree refused whose
  text fits the limit (`SeedResult.ShrunkFileIsRefused`,
  `RefusedExactlyWhenSomethingCrosses`).
- The cut of a brief passes over items on the empty path
  (`BriefBound.CutNamesTheFirst`, `BriefReport.EmptyPathIsPassedOver`).
- `runReadyTasks` says in its comment that a role's failed model call aborts the
  run; the code contains it for four roles (`SeatPolicy.PlanFor`).
- `scanModelCallTotals` says it keeps the first non-empty model of a role; the code
  keeps the first model seen (`Cost.ModelIsFirstNonEmpty`, `UnnamedModelIsKept`).

## Model

| member | source | states |
|---|---|---|
| `SeatPolicy.PlanFor` | cmd/corral/certify_local_drive.go:267-323 | An unanswered model call aborts the drain exactly when the operator stopped the run or the seat is none of the four contained ones; a contained failure completes under that seat's sentinel and files nothing. |
| `SeatPolicy.Sentinel` | cmd/corral/certify_local_drive.go:275-320 | Which completion text stands for which contained seat: one for both challengers, the writer's own, and the critic's prefix with the error behind it. |
| `SeatPolicy.Normalize` | cmd/corral/certify_local_drive.go:390-397 | An unknown type becomes note and an unknown severity low, an accepted one stays, and nothing else of the finding changes. |
| `SeatPolicy.Stamp` | cmd/corral/certify_local_drive.go:324-328 | After stamping, the queue's own check can refuse a finding only for a run without a mission or a task without a role. |
| `RunTask.TaskQueue.RunOneTask` | cmd/corral/certify_local_drive.go:249-341 | Succeeds exactly when there is a backend, the failure (if any) is contained, every finding is stored and the completion is stored; then all findings were filed, stamped and in order, before the one completion. On every error the task stays uncompleted, and which findings were already filed is stated for each error. |
| `RunTask.PoolStepsAgree` | cmd/corral/certify_local_drive.go:324-341 | The pool's interleavable steps for one task, undisturbed, change the queue as the sequential code does. |
| `WorkerPool.PlayGood` | cmd/corral/certify_local_drive.go:190-243 | Every interleaving of any number of workers keeps the invariant: each task in exactly one place, errors kept, claims after the cancel bounded, answered work delivered, ranAny truthful. |
| `WorkerPool.StepGrows` | cmd/corral/certify_local_drive.go:205-217 | No step makes a claimed task ready again, replaces a recorded first error, undoes a cancel, loses an answer or a completion, or changes what was filed before. |
| `Drain.DrainIsSafe` | cmd/corral/certify_local_drive.go:190-243 | At every moment of every drain: max(1, swarm) workers, at most that many tasks in flight, at most one fewer claims after the internal cancel, the cancel only after an error is recorded, and only acceptable findings filed. |
| `Drain.FirstErrorStays` | cmd/corral/certify_local_drive.go:210-217 | The first error recorded is never replaced by any later step of any worker. |
| `Drain.ClaimedAtMostOnce` | cmd/corral/certify_local_drive.go:219-238 | In one run a task is claimed at most once, by one worker. |
| `Drain.RunsOnlyFreshTasks` | cmd/corral/certify_local_drive.go:219-238 | In any state the invariant allows, a role is only run for a task never run before, by the worker that claimed it. |
| `Drain.RunsATaskOnce` | cmd/corral/certify_local_drive.go:219-238 | In one drain, under every interleaving, two role calls for one task are the same move: no task is run twice. |
| `Drain.WorkIsFinal` | cmd/corral/certify_local_drive.go:219-341 | What a run has answered, completed and filed it never changes. |
| `Drain.CleanDrainCompletesAll` | cmd/corral/certify_local_drive.go:219-243 | A finished drain without error whose outer context was never done has completed exactly the tasks ready at its start. |
| `Drain.RanAnyIsTruthful` | cmd/corral/certify_local_drive.go:231-242 | The drain's first result is true exactly when some task was claimed. |
| `Drain.OnlyOtherSeatsFailTheDrain` | cmd/corral/certify_local_drive.go:267-323 | A recorded model failure is that of a role of the job other than the challengers, the test-writer and the critic; a recorded missing backend is that of a role without one. |
| `Drain.UndisturbedDrainFails` | cmd/corral/certify_local_drive.go:219-341 | In a run with no operator interrupt and no queue error, a drain fails in one of those two ways or not at all. |
| `Drain.CompletedMeansDelivered` | cmd/corral/certify_local_drive.go:267-341 | Every completed task was answered, carries the answer's result or its seat's sentinel, and has exactly its findings filed, stamped, in order. |
| `Drain.NeverStuck` | cmd/corral/certify_local_drive.go:219-238 | A worker that has not returned can always take a step. |
| `Drain.DoneContextClaimsNothing` | cmd/corral/certify_local_drive.go:219-222 | A drain whose caller's context is done when it begins claims nothing at any moment and answers that nothing ran. |
| `Drain.DoneContextStopsClaims` | cmd/corral/certify_local_drive.go:219-224 | Once the caller's context is done each worker claims at most one more task, and only a worker that had found it live and was about to claim. |
| `Drain.ErrorsEndTheDrain` | cmd/corral/certify_local_drive.go:209-237 | A drain in which any worker met an error ends with an error recorded and the others cancelled. |
| `Drain.ErrorHasItsCause` | cmd/corral/certify_local_drive.go:209-237 | The error recorded is of the kind of something that happened in the run: each of the six kinds has its move. |
| `DrainEnds.NoInfiniteDrain` | cmd/corral/certify_local_drive.go:219-243 | No interleaving goes on for ever, however many findings the calls return. |
| `DrainEnds.StepDescends` | cmd/corral/certify_local_drive.go:219-238 | Every step lowers a lexicographic measure of calls and steps left. |
| `DriveLoop.DriveLocalRun` | cmd/corral/certify_local_drive.go:52-165 | Ends by the deadline round, in the first round that ends it, and says exactly when it answers each of its seven outcomes, in terms of that round alone, with that round's own verdict or message: a converged verdict is the tick's on a live, uninterrupted round; a banked one is a measured timeout of the last tick when expiry was found; giving up is twenty retryable tick errors in a row. The counter it holds is the length of the current run of errors, and it sleeps once for each waiting round. |
| `DriveLoop.OutcomeOf` | cmd/corral/certify_local_drive.go:54-113 | A banked verdict is a measured timeout; an expired context yields only a banked verdict or an error; an unmeasured timeout verdict is returned exactly when the round's own tick on a live context produced it. |
| `DriveLoop.UnmeasuredTimeoutIsReturned` | cmd/corral/certify_local_drive.go:68-95 | A concrete round in which an unmeasured timeout verdict is returned. |
| `DriveLoop.ErrorRunIsMaximal` | cmd/corral/certify_local_drive.go:82-94 | The error run is at least k exactly when the last k rounds all ended in retryable errors. |
| `DriveLoop.GivesUpAtTwenty` | cmd/corral/certify_local_drive.go:84-89 | Twenty consecutive errors, and not nineteen, is what a run of that length means; a longer run would have ended the loop a round earlier. |
| `DriveLoop.WaitsAreCounted` | cmd/corral/certify_local_drive.go:92-112 | The loop has slept before a round exactly when some earlier round retried its tick or drained nothing. |
| `DriveDrains.LoopFailsThroughItsRole` | cmd/corral/certify_local_drive.go:96-113 | Over the loop and the pool together: with no operator interrupt and no queue error, a loop that ends in a failed drain does so through a role that is not contained or has no backend, and returns that error. |
| `DriveDrains.ContainedDrainsGoOn` | cmd/corral/certify_local_drive.go:96-113 | When every role is contained and served such a drain never ends the loop; unless the outer context was done it completes every ready task, and the loop waits exactly when nothing was ready. |
| `DriveDrains.InterruptedDrainStops` | cmd/corral/certify_local_drive.go:91-94 | A drain that ends on the operator's interrupt ends the loop as stopped, never as failed. |
| `RepoWorker.QueueWorker.Ensure` | cmd/corral-agent/repomirror.go:50-85 | The mirror's maps after ensure, its call to the brain and its answer, as a function of the maps before and the brain's reply. |
| `RepoWorker.QueueWorker.Track` | cmd/corral-agent/repomirror.go:88-93 | Tracks the path of the mission and logs the write. |
| `RepoWorker.QueueWorker.Push` | cmd/corral-agent/repomirror.go:97-135 | The mirror's maps, the call made and the success of one push, for any set of files that can be read and any reply. |
| `RepoWorker.QueueWorker.PushWithRetries` | cmd/corral-agent/main.go:459-478 | The retry loop makes the pushes of the specification, stopping at the first that succeeds, and reports whether any of the three did. |
| `RepoWorker.QueueWorker.RunSteps` | cmd/corral-agent/main.go:881-945 | A task with tools asks for the mirror once and tracks exactly its successful writes with a path; single-call roles touch neither. |
| `RepoWorker.QueueWorker.CompleteAtGate` | cmd/corral-agent/main.go:503-536 | The gate's verdict, and the refusal count and message it leaves behind. |
| `RepoWorker.QueueWorker.RunRound` | cmd/corral-agent/main.go:437-536 | One claimed task: run, released if the model is unreachable, pushed, and completed or refused. |
| `RepoWorker.QueueWorker.RunQueueLoop` | cmd/corral-agent/main.go:365-537 | The loop over any finite run of claimed tasks is the fold of its rounds. |
| `RepoWorkerSafety.RoundsKeep` | cmd/corral-agent/main.go:365-537 | Every run keeps the invariant: the tracked sets, bases, flags and refusal counts are what the log of outside events says, every event was allowed by its past, and every stall was reported. |
| `RepoWorkerSafety.OwedIsOpen` | cmd/corral-agent/repomirror.go:88-135 | What is tracked, computed by folding over the log, is exactly the writes that no push since has had accepted or left out as unreadable. |
| `RepoWorkerSafety.PushKeeps` | cmd/corral-agent/repomirror.go:97-135 | A push that succeeds leaves nothing owed; one that fails leaves tracked files, base and flags as they were and logs one failed push. |
| `RepoWorkerSafety.AttemptsKeep` | cmd/corral-agent/main.go:462-478 | After the retry loop either nothing is owed, or the mirror is unchanged and exactly the allowed number of failed pushes was logged. |
| `RepoWorkerSafety.GateKeeps` | cmd/corral-agent/main.go:503-536 | Asking the gate for a mirrored mission that owes nothing keeps the invariant and leaves the mirror alone. |
| `RepoWorkerRuns.WritesLandBeforeTheGate` | cmd/corral-agent/main.go:449-507 | In every run, between a write in a mirrored mission and any gate call for that mission a push settled it: the brain accepted it, or its file could not be read. |
| `RepoWorkerRuns.WriteIsAcceptedOrUnreadable` | cmd/corral-agent/repomirror.go:97-135 | The first push to settle a write either had it accepted or left it out, and never both. |
| `RepoWorkerRuns.UnacceptedExactlyWhenUnreadable` | cmd/corral-agent/repomirror.go:103-117 | At a gate call of a mirrored mission the last write of a path was never accepted exactly when a push left it out because its file could not be read. |
| `RepoWorkerRuns.UnreadableWriteIsDropped` | cmd/corral-agent/repomirror.go:105-117 | The concrete run behind it: a mirrored mission, one write, a push that can read nothing, and a completion. |
| `RepoWorkerRuns.GateWithUnlandedWrites` | cmd/corral-agent/main.go:462-507 | The gate is called with writes still owed exactly when the mission was never mirrored (the push's own guard) and something was written. |
| `RepoWorkerRuns.FailedSnapshotCompletesUnsent` | cmd/corral-agent/repomirror.go:57-84 | The concrete run behind it: a snapshot that failed in transit, a write, and a completion with the write unsent. |
| `RepoWorkerRuns.OnlyOpenWritesAreSent` | cmd/corral-agent/repomirror.go:97-119 | Each push sends and skips exactly the open writes of its mission, at least one of them, under the last base revision the brain gave. |
| `RepoWorkerOrigins.PushSplitsTheTracked` | cmd/corral-agent/repomirror.go:97-119 | One push splits exactly the tracked files by whether they can be read: those sent can, those left out cannot. |
| `RepoWorkerOrigins.PushesComeFromAttempts` | cmd/corral-agent/main.go:462-478 | Every push of a run was an attempt of one of its tasks, which could read what was sent and could not read what was left out. |
| `RepoWorkerOrigins.FateComesFromAnAttempt` | cmd/corral-agent/repomirror.go:97-124 | Whatever a run had accepted was readable in an attempt the brain accepted, and whatever it left out was not readable in an attempt. |
| `RepoWorkerOrigins.WritesComeFromSteps` | cmd/corral-agent/main.go:881-945 | The writes tracked in a run are exactly the successful writes of its tasks' tool calls, in order, and none of a role answered by one model call. |
| `RepoWorkerRuns.SnapshotAskedOnce` | cmd/corral-agent/repomirror.go:50-58 | A mission's snapshot is asked for at most once in a run. |
| `RepoWorkerRuns.EnsureIsConstant` | cmd/corral-agent/repomirror.go:50-85 | From the second call on ensure gives one answer, whatever ran between and whatever the brain would now reply, and changes nothing. |
| `RepoWorkerRuns.StallIsReportedAtTheCap` | cmd/corral-agent/main.go:516-529 | The stall finding follows exactly those gate calls that bring a task's run of refusals to five. |
| `RepoWorkerOrigins.RefusalIsRemembered` | cmd/corral-agent/main.go:385-434 | In every run a task has a message for its next attempt exactly while its last completion was refused, and the message is not empty. |
| `RepoWorkerOrigins.GateBooks` | cmd/corral-agent/main.go:507-519 | A refusal keeps the gate's own words for that task, a success forgets them, and no other task is touched. |
| `RepoWorkerRuns.RegressionFollowsThreeFailures` | cmd/corral-agent/main.go:479-496 | A lost push is reported only right after three failed pushes of that mission in a row. |
| `RepoWorkerLosses.LossIsReportedAtTheLastAttempt` | cmd/corral-agent/main.go:459-496 | After any event of a run, the last three are failed pushes of one mission exactly when the next is the finding that its push was lost. |
| `RepoWorkerLosses.RoundsComeToRest` | cmd/corral-agent/main.go:459-496 | After every round no push is left failing and every loss so far was reported at once. |
| `RepoWorkerRuns.UnreachableCompletesNothing` | cmd/corral-agent/main.go:708-745 | A round whose model was unreachable only wrote and asked for a snapshot: it pushes nothing and asks no gate; a shadow task is completed as unmeasured and not released, any other released and not completed; what is owed stays owed. |
| `Extract.UntarInto` | cmd/corral-agent/repomirror.go:140-184 | At most cap + 1 bytes are written; success means every entry was sound, every file copied whole, and their total is within the cap; a failure stopped at the first faulty entry after the files before it were copied whole, having written nothing of an entry that could not be read or opened, the bytes before the error of one that could not be copied, and what still fitted of one too large. |
| `Redaction.RedactSourceValue` | cmd/corral/certify_repo_events.go:220-271 | Its result is one of the redactions of the value, for whatever order maps are walked in, and the value itself when nothing is to be withheld. |
| `Redaction.RedactedIsClean` | cmd/corral/certify_repo_events.go:273-295 | No redaction of any value, at any depth, still holds anything source-bearing. |
| `Redaction.NoWayLeadsToSource` | cmd/corral/certify_repo_events.go:220-295 | No way down into a redacted value, of any length, leads to a source-bearing key; and a value into which none does is its own redaction. |
| `Redaction.WithheldInAnySpelling` | cmd/corral/certify_repo_events.go:201-213 | A key is source-bearing exactly when it is one of the names up to ASCII case and with hyphen, blank and underscore counted as one. |
| `Redaction.SpellingsAreWithheldAlike` | cmd/corral/certify_repo_events.go:201-213 | Two spellings of a key are withheld alike. |
| `Redaction.WithheldLeavesItsLength` | cmd/corral/certify_repo_events.go:239-248 | What a withheld value leaves, where no key is in the way, is its length for text and bytes and a mark for anything else. |
| `Redaction.RedactionIsIdempotent` | cmd/corral/certify_repo_events.go:196-271 | A value with nothing to withhold is its own redaction, and the only redaction of a redacted value is itself. |
| `Redaction.SourceKeyIsStubbed` | cmd/corral/certify_repo_events.go:233-249 | A source-bearing key is gone under every walk order and the key of its stub is present, holding the stub when the object has no key of that name. |
| `Redaction.SurvivesUnlessOverwritten` | cmd/corral/certify_repo_events.go:234-249 | A plain key keeps its redacted value under every walk order exactly when no stub would be written over it with something else. |
| `Redaction.StubStandsUnlessOverwritten` | cmd/corral/certify_repo_events.go:234-249 | A stub's value stands under every walk order exactly when the object has no key of the stub's name with another value. |
| `Redaction.CollisionHasTwoRedactions` | cmd/corral/certify_repo_events.go:234-249 | A concrete object with two redactions, one losing the plain value and one losing the stub's. |
| `Redaction.StubsAreNotSource` | cmd/corral/certify_repo_events.go:207-213 | A generated key is never source-bearing, whatever it was generated from. |
| `Redaction.StubsAreDistinct` | cmd/corral/certify_repo_events.go:239-247 | Stubs of different keys never collide. |
| `Redaction.WalkRedacts` | cmd/corral/certify_repo_events.go:234-249 | The walk that writes every stub after the plain keys and the one that writes every stub before them both redact, so where names collide either value can be lost. |
| `Redaction.RedactionKeepsShapes` | cmd/corral/certify_repo_events.go:260-269 | Objects stay objects and typed lists keep objects as elements, so the code's type assertions on its own results never fail. |
| `Redaction.DurationUnaffected` | cmd/corral/certify_repo_events.go:302-344 | Redacting a detail never changes, adds or loses its duration. |
| `Redaction.DurationIsLifted` | cmd/corral/certify_repo_events.go:324-344 | The duration is the number under duration_ms cut to whole milliseconds, when it is at least one, and nothing else. |
| `ScanEvents.BuildScanEvent` | cmd/corral/certify_repo_events.go:302-316 | The row carries the beat's own fields, a redaction of its detail, and the duration of the detail before redaction. |
| `ScanEvents.ScanEventSink.Record` | cmd/corral/certify_repo_events.go:71-89 | After any number of calls the log is that of all calls so far: all of them below the cap, the first cap of them and one counting row from there on. |
| `ScanEvents.ScanEventSink.Drain` | cmd/corral/certify_repo_events.go:129-138 | Returns the log of everything recorded. |
| `ScanEvents.LogIsExact` | cmd/corral/certify_repo_events.go:71-138 | Rows are numbered 1, 2, 3, ... , the first 100,000 carrying their beat's own path, kind, subject and time; kept and dropped add up to recorded; no stored detail holds source. |
| `SeedTree.VisitsReached` | cmd/corral/certify_local_repo.go:502-520 | The recursive walk visits exactly what can be reached from the root without passing a pruned (.git, build) or bound directory. |
| `SeedTree.VisitsDistinct` | cmd/corral/certify_local_repo.go:502-520 | No path is visited twice when no directory lists a name twice. |
| `SeedTree.DirectoryRules` | cmd/corral/certify_local_repo.go:506-520 | A directory is skipped as the repository's records or as target beside a Cargo.toml, bound whole when it may be, and otherwise walked into. |
| `SeedWalk.SeedWalker.VisitFile` | cmd/corral/certify_local_repo.go:521-590 | The walk's variables after one file, in keep mode and in measure-only mode. |
| `SeedWalk.SeedWalker.Walk` | cmd/corral/certify_local_repo.go:502-590 | The recursive in-place walk is the fold of its visits. |
| `SeedWalk.LoadRepoFiles` | cmd/corral/certify_local_repo.go:432-599 | The whole load: no limit given, a refusal with size and place, or the seed. |
| `SeedResult.WalkMeasuresAll` | cmd/corral/certify_local_repo.go:533-590 | The total, the left-out list and the binds are those of the whole tree, wherever the walk stopped keeping. |
| `SeedResult.WalkRefusesAtTheFirst` | cmd/corral/certify_local_repo.go:533-590 | The walk refuses exactly when some file that belongs does not fit, and names the first such file in walk order. |
| `SeedResult.WalkKeepsTheCounted` | cmd/corral/certify_local_repo.go:533-590 | While everything fits, what is kept is exactly the files that belong. |
| `SeedResult.LoadedSeedIsExact` | cmd/corral/certify_local_repo.go:493-599 | A loaded seed holds exactly the reachable files that belong, lists exactly the other opened files with their sizes, and exactly the bound directories. |
| `SeedResult.SeedHoldsTextAndFixtures` | cmd/corral/certify_local_repo.go:521-590 | In plain terms, a loaded seed holds exactly the files met that are no links, not named .git, and text or under testdata or in a test tree. |
| `SeedResult.BindsMayBind` | cmd/corral/certify_local_repo.go:374-399 | Every directory bound is a dependency by name or request under a backend that can mount it, world-readable for a container; with binding off there is none. |
| `SeedResult.LoadedSeedFits` | cmd/corral/certify_local_repo.go:533-599 | What belongs in a loaded seed never exceeds the limit, even if files change size under the walk. |
| `SeedResult.StableTreeRefusal` | cmd/corral/certify_local_repo.go:493-598 | With stable files: refused if and only if the total of all that belongs exceeds the limit, and then with that exact total and the file with which the running total first passed it. |
| `SeedResult.NoFilesAlwaysLoads` | cmd/corral/certify_local_repo.go:436-525 | Asked for without files the seed is never refused, whatever the limit, and keeps and skips nothing. |
| `SeedResult.RefusedExactlyWhenSomethingCrosses` | cmd/corral/certify_local_repo.go:533-598 | In general: refused exactly when some file that belongs does not fit after everything before it by the larger of its listed and its read size. |
| `SeedResult.ShrunkFileIsRefused` | cmd/corral/certify_local_repo.go:533-555 | A concrete tree whose text fits is refused because a file shrank after its size was listed. |
| `SeedResult.KeepingAndMeasuringAgree` | cmd/corral/certify_local_repo.go:533-590 | Two walks of one tree under any two limits classify and total alike. |
| `Brief.BriefBuilder.Split` | cmd/corral/brief.go:231-245 | The survived mutants of a path, in order, split by Proven. |
| `Brief.BriefBuilder.AddScanRow` | cmd/corral/brief.go:215-246 | A row is taken up exactly when its path is asked about and not reported yet; the commits stay those of the chosen verdicts. |
| `Brief.BriefBuilder.ScanPass` | cmd/corral/brief.go:207-247 | The reverse loop leaves, for every path, the record of the newest scan with a row for it. |
| `Brief.BriefBuilder.AddFinding` | cmd/corral/brief.go:257-289 | One finding's effect on its path's record, and the commit it adds. |
| `Brief.BriefBuilder.ReviewPass` | cmd/corral/brief.go:248-290 | The reverse loop adds, for every path, exactly the tally of the live findings naming it, on top of the scan's record. |
| `BriefReport.Assemble` | cmd/corral/brief.go:183-298 | The report before the bound: strictly sorted, one record for exactly the paths asked about that the record knows, each the one its scans and reviews determine; sorted commits, exactly those rested on. |
| `BriefReport.FullReportIsUnique` | cmd/corral/brief.go:291-298 | There is only one such report: map iteration order cannot show. |
| `BriefReport.UnderByComponents` | cmd/corral/brief.go:197-206 | A file is asked about exactly when a scope is the whole repository or its path components begin the file's. |
| `BriefReport.ReportIsByComponents` | cmd/corral/brief.go:197-206 | The whole report lists exactly what the record knows below the scopes by components, so no neighbour whose name begins with a scope's. |
| `BriefReport.VerdictIsOfItsEntry` | cmd/corral/brief.go:215-246 | What is reported of a path's scan is field by field that of the newest entry and its first row for the path, and missing exactly when no entry has one. |
| `BriefReport.RepoIsTheNewest` | cmd/corral/brief.go:208-255 | The repository is the one named by the newest entry of its kind that names one. |
| `BriefReport.CommitsAreTheSpeakers` | cmd/corral/brief.go:208-263 | The commits listed are exactly those of the scans that speak for a path under the scopes and of the reviews with a finding there. |
| `BriefReport.NewestIsHighest` | cmd/corral/brief.go:208-222 | A path's verdict is that of the highest live scan entry with a row for it and of the first such row there; it is absent only if no entry has one. |
| `BriefReport.MissedIsSplitByProof` | cmd/corral/brief.go:231-245 | Gaps and survivors together are the entry's survived mutants of the path, none lost, none in both. |
| `BriefReport.FindingsAddUp` | cmd/corral/brief.go:257-289 | The claims held, those that did not and those undecided are each the number of live findings naming the path that came out so, and no_review says there is none. |
| `BriefReport.ListedClaimsHeld` | cmd/corral/brief.go:268-288 | The claims listed are exactly the findings that held, each under its review. |
| `BriefReport.NewestClaimsFirst` | cmd/corral/brief.go:248-289 | Claims are listed newest review first, an older entry's own after everything newer. |
| `BriefReport.BuildBrief` | cmd/corral/brief.go:183-328 | The bounded report is the one full report, bounded. |
| `BriefBound.Taker.Take` | cmd/corral/brief.go:302-316 | After each section the counters are those of the items so far, and what is listed so far is the allowed prefix. |
| `BriefBound.Bound` | cmd/corral/brief.go:299-327 | The lists kept are together exactly the first max(0, max-items) items of gaps, survivors, findings in path order; survivors are listed only after all the path's gaps, findings after both, and a path only after all before it; other fields stay. |
| `BriefBound.BoundAddsUp` | cmd/corral/brief.go:299-327 | Listed + dropped is the total, listed is a prefix (nothing after the first drop), and a cut is announced exactly when something was dropped. |
| `BriefBound.CutNamesTheFirst` | cmd/corral/brief.go:310-312 | The cut names the path of the first unlisted item exactly when that path is not empty or all unlisted items are on the empty path. |
| `BriefReport.EmptyPathIsPassedOver` | cmd/corral/brief.go:310-312 | A concrete record whose whole report puts an item on the empty path first; with nothing listed the cut names a later path. |
| `LedgerRows.Dedupe` | cmd/corral/certify_repo_record.go:630-641 | One result for each path that has any, each of them a given one. |
| `LedgerRows.DedupeKeepsFirst` | cmd/corral/certify_repo_record.go:630-641 | Of the results of one path the first is the one kept. |
| `LedgerRows.DedupeResultsByPath` | cmd/corral/certify_repo_record.go:630-641 | The loop with its seen set computes that list. |
| `LedgerRows.AuditedParentSHA256` | cmd/corral/certify_repo_record.go:905-924 | Empty when no parent is named or two named ones differ; otherwise a parent named. |
| `LedgerRows.OneHashStands` | cmd/corral/certify_repo_record.go:905-924 | That determines the hash, and it is not empty exactly when some parent is named and no two differ. |
| `LedgerRows.BuildScanFileRows` | cmd/corral/certify_repo_record.go:130-477 | One row for each deduplicated result and then for each first exclusion of a path no result has, each the row its disposition calls for. |
| `LedgerFacts.FileRowsCoverOnce` | cmd/corral/certify_repo_record.go:130-477 | Rows have pairwise distinct paths, exactly those of the results and the exclusions. |
| `LedgerFacts.OnlyAuditedRowsAreCached` | cmd/corral/certify_repo_record.go:145-389 | A cache key, a stored verdict or a kill rate appears on an audited row only, and a path is audited exactly when its kept result is gradable. |
| `LedgerFacts.AuditedRowHash` | cmd/corral/certify_repo_record.go:311-313 | An audited row carries a parent hash exactly when some mutant, killed or survived, names a parent and all that name one name the same, and it is that one. |
| `LedgerFacts.EvidenceIsEarned` | cmd/corral/certify_repo_record.go:519-584 | Proven evidence stands on a path exactly when its kept result's job ran the check command; coverage evidence exactly when no result has the path and an instrumented run measured it or decided its exclusion; paired evidence exactly when no result has it, nothing measured it and a pairing by name decided. |
| `LedgerFacts.RowsTell` | cmd/corral/certify_repo_record.go:136-476 | Every row tells the pre-flight's measurement of its path, a reason that is never empty for a rejected result, a rate withheld exactly when every mutant was thrown out, its result's own key and verdict, and for an exclusion the first of its path, with the hash of the checkout. |
| `LedgerFacts.BuildScanMutantRows` | cmd/corral/certify_repo_record.go:656-729 | The rows of every kept gradable result, killed before survived. |
| `LedgerFacts.MutantRowsPerFile` | cmd/corral/certify_repo_record.go:656-729 | The rows on a path are those of its kept result alone: one for each killed and one for each survived mutant. |
| `LedgerFacts.RowsAreTheirMutants` | cmd/corral/certify_repo_record.go:675-751 | Each row carries its own mutant's id, parent, outcome, killer and recorded source, the killed before the survivors. |
| `LedgerFacts.ProvenIsTheVerdicts` | cmd/corral/certify_repo_record.go:664-751 | Every mutant row of a scan is on the path of exactly one kept result, a graded one, whose verdict bears out its claims: proven exactly of survivors in the proven ids, killers on killed rows only, a model only for a mutant recorded as that model's. |
| `LedgerFacts.MutantRowsAreAudited` | cmd/corral/certify_repo_record.go:656-729 | Every mutant row's path has an audited file row. |
| `Cost.BuildScanModelCallRows` | cmd/corral/certify_repo_record.go:767-787 | The rows of every call of every kept result that was not reused. |
| `Cost.RowsAreBought` | cmd/corral/certify_repo_record.go:767-787 | Every recorded row is column by column one call of one kept result that was not reused, under that result's path, its clock cut to whole milliseconds. |
| `Cost.AsManyRowsAsCalls` | cmd/corral/certify_repo_record.go:767-787 | There are as many rows as calls paid for. |
| `Cost.ScanModelCallTotals` | cmd/corral/certify_repo_record.go:811-857 | The per-role totals of the paid calls, in roster order. |
| `Cost.TotalsInRosterOrder` | cmd/corral/certify_repo_record.go:851-856 | The printed totals stand in roster order, and none of a roster role that made a call is missing. |
| `Cost.ModelCallRowTotals` | cmd/corral/certify_repo_record.go:792-799 | The header's sums over all recorded rows. |
| `Cost.TotalsAreTheRows` | cmd/corral/certify_repo_record.go:767-857 | For every role: a total exists exactly when a row does and carries the first row's model; calls, tokens and unmetered calls are the rows' sums; a nullable counter is empty exactly when no row measured it; and the clock in whole milliseconds exceeds the rows' sum by at least 0 and less than the number of rows. |
| `Cost.ModelIsFirstNonEmpty` | cmd/corral/certify_repo_record.go:807-827 | A role's total carries the first non-empty model of its rows exactly when its first row names one or none does. |
| `Cost.UnnamedModelIsKept` | cmd/corral/certify_repo_record.go:822-827 | Two concrete calls whose total names no model though one was recorded. |
| `Cost.ReuseIsFree` | cmd/corral/certify_repo_record.go:770-773 | Rows and paid calls are those of the results that were not reused. |
| `Cost.HeaderAgainstTotals` | cmd/corral/certify_repo_record.go:792-857 | For each counter the header is what the printed totals sum to plus the rows of roles off the roster. |
| `Wilson.ClampsAreInert` | scripts/gen-before-after.py:63-71 | For 0 <= killed <= graded, graded > 0, the pair returned is the unclamped one, a root pair, with 0 <= lo <= p <= hi <= 1. |
| `Wilson.IntervalIsTheRoots` | scripts/gen-before-after.py:63-71 | A rate solves graded*(x-p)^2 = z^2*x*(1-x) exactly at the two endpoints, and lies on the inner side exactly between them. |
| `Wilson.MonotoneInKilled` | scripts/gen-before-after.py:63-71 | More kills never lower either endpoint. |
| `Wilson.SymmetricInSurvivors` | scripts/gen-before-after.py:63-71 | The interval for graded - killed is (1 - hi, 1 - lo). |
| `Splice.SpliceBody` | scripts/gen-before-after.py:265-266 | There is no result exactly when a marker is missing. |
| `Splice.PrepareBlock` | scripts/gen-before-after.py:262-264 | What replaces the old text is the rendered block in the document's own spelling of the markers, without its last newline. |
| `Splice.SpliceKeepsOutside` | scripts/gen-before-after.py:259-266 | With the start marker first, the text outside the markers stays and the new rows stand between them, whatever the rows are in a Markdown document. |
| `Splice.LaterBodyWins` | scripts/gen-before-after.py:259-266 | For any markers that cannot overlap and any blocks carrying each once: a second splice wins completely over the first exactly when the start marker comes before the end marker; the other way round each splice makes the document longer. |
| `Splice.LaterSpliceWins` | scripts/gen-before-after.py:259-284 | The same for the two documents and rendered blocks; with equal blocks it is idempotence, so a check right after a write finds no drift exactly in that case. |
| `Splice.ReversedGrows` | scripts/gen-before-after.py:259-266 | A concrete document with the end marker first grows with each splice. |
| `ModelLabels.CollapseCovers` | scripts/scrub-golden-run.py:202 | Every label is kept or is the qualified suffix of a kept one, through chains of any length. |
| `ModelLabels.CollapseIsTheOnlyListing` | scripts/scrub-golden-run.py:202 | The collapse is the only subset of the labels that is an antichain and covers them all. |
| `ModelLabels.CollapseTwice` | scripts/scrub-golden-run.py:202 | Collapsing twice changes nothing. |
| `ModelLabels.QualifiesMeans` | scripts/scrub-golden-run.py:202 | One label is folded into another when that is it behind some text and a colon. |
| `ModelLabels.StripTrims` | scripts/scrub-golden-run.py:187-199 | Stripping takes the white space around a text, and nothing else. |
| `ModelLabels.CmdModels` | scripts/scrub-golden-run.py:171-203 | What is printed is strictly sorted and holds exactly the collapse of the stream's and the verdicts' labels. |
| `ModelLabels.VerdictModelsListed` | scripts/scrub-golden-run.py:194-202 | Every nonblank model of a pool verdict is listed, under its own or a qualified name. |
| `ModelLabels.StreamModelsListed` | scripts/scrub-golden-run.py:187-193 | Every event's model is listed behind its backend and a colon, or bare without one, or under a label qualifying that. |
| `ModelLabels.OnlyNamedModelsListed` | scripts/scrub-golden-run.py:187-203 | Nothing is listed that no event and no verdict named. |
| `Sorting.LessMeansPartAt` | scripts/scrub-golden-run.py:203 | The listing's order: two strings agree up to a point where the first ends or has the smaller character. |
| `SplitCmd.SplitCmd` | cmd/corral-harness/main.go:196-225 | The loop computes the lexer's fields, and never an empty one. |
| `SplitCmd.SplitReadsAnyWriting` | cmd/corral-harness/main.go:196-225 | However fields are written, in any mix of bare and quoted stretches and any white space, splitting gives the texts of the nonempty ones in order. |
| `SplitCmd.SplitInvertsPrint` | cmd/corral-harness/main.go:196-225 | Splitting inverts a quoting printer for every list of nonempty fields, both quotes and white space included, parted by blank, tab or line break. |
| `SplitCmd.PlainTextIsOneField` | cmd/corral-harness/main.go:196-225 | A line without blanks, tabs, line breaks and quotes is one field as it stands. |

## Left out

- Model calls, the brain's transport, sandboxes, git, the warehouse and signing: foreign calls, each taken as succeeding or failing.
- The pool driver behind Tick, the queue store's storage, adequacy scoring, entry retraction and the outcome rule of a review finding: only what their callers rely on is assumed.
- Progress lines, the tape recording sink, heartbeats, activity reports, sleeps other than the drive loop's poll waits, and prompt text: they do not steer anything modelled.
- The contents of pushed and seeded files: sizes, names and who wrote what are modelled, bytes are not.
- Path cleaning, symlink resolution and the validation of `--bind-dir` entries: library behaviour; the models start from clean paths.
- UTF-8 and tar/gzip decoding: text-or-not, entry kinds and sizes are inputs.
- Errors of the seed walk's own file system calls, which end it at once.
- 64-bit overflow: counters and sizes are unbounded.
- Floating point in the interval: it is over the reals, with the square root as a nonnegative witness.
- Unicode white space and case folding: label stripping knows the ASCII blanks and the ASCII separator controls, key folding the ASCII letters.
- Columns of the ledger rows copied field by field from a verdict, the language of a path, and the hash of a file in the checkout: copies or foreign calls.
- The goal deriver's own call rows and total, and the tables of the before-and-after page: the same sums again over other rows.
- The reading, rendering and flag handling around the brief, the scan and the agent: single-branch printing and plumbing.
- RepoWorker.QueueWorker.RunQueueLoop: covers any finite run of claimed tasks; empty and failed claims only wait and are not steps of it.
- WorkerPool.PlayGood: covers a drain with no new task becoming ready during it, which is the queue's contract between two ticks.
