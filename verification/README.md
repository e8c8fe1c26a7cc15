# A verified model of autogitpull

autogitpull watches directories full of Git checkouts and pulls them. This
project models its engine in Dafny and proves what the engine promises, over
every input, every answer of the outside world and every interleaving.

`dafny verify dfyconfig.toml` checks everything.

| file | models |
|---|---|
| `GitPull.dfy` | `try_pull`: the fetch with its one retry, the target reference, the hard reset |
| `RepoScan.dfy` | one repository in one scan: `process_repo`, `validate_repo`, `determine_pull_action`, `execute_pull` |
| `RepoLaws.dfy` | when `process_repo` gives which answer: exact conditions over options and answers of the outside world |
| `ScanPool.dfy` | one scan: the reset of the status table, workers that claim paths through an atomic counter, one atomic step at a time |
| `PoolRuns.dfy` | a whole scan over every schedule: start, end, termination, what `process_repo` can meet |
| `LoneWorker.dfy` | one undisturbed worker: its atomic steps compute `process_repo` |
| `EventLoop.dfy` | the main loop with its scan threads: reload, rescan, sort, launch, join, stop |
| `LoopSafety.dfy` | the scheduler's invariant, kept by every step of every party |
| `LoopRuns.dfy` | whole sessions: one scan at a time, protected checkouts, the sticky flag, the skip list, stopping |
| `LoopTurns.dfy` | what each turn of the main loop does and exactly when: launch, rescan, reload, join, end |
| `LoopProgress.dfy` | that the engine goes on: who may wait for whom, turns that come round, a stop that ends the loop |
| `LogQueue.dfy` | the asynchronous logger: producers, worker, re-initialisation, shutdown |
| `LogRotation.dfy` | the size-bounded log file and its numbered backups |
| `JsonLog.dfy` | the JSON line printer and a decoder for it |
| `Monitor.dfy` | the respawn monitor: sliding window and exponential back-off |
| `Mutant.dfy` | the adaptive timeout and the session file |
| `MutantRuns.dfy` | whole sessions of requests, timeout changes and restarts |
| `ArgParser.dfy` | the command-line parser |
| `Glob.dfy` | the translation of globs to regular expressions, and path matching |
| `Walk.dfy` | the pruned directory walk |
| `Basics.dfy` | options, permutations and duplicate-free sequences |

Code that works step by step is written as methods on classes with the
original's fields; each method is proved equal to a function of its inputs and
the old state, and the properties below are proved of those functions and of
the state machines built from them. The lemmas named `...Exactly` say what such a
function answers in terms of its inputs alone, as an if and only if.

## What the proofs say about the program

* Code 1 of the pull, and with it the status PKGLOCK_FIXED, cannot occur:
  `try_pull` never answers 1 (`RepoScan.PullCode`).
* The clearing of stale busy states before a launch changes nothing for a list
  without duplicates (`LoopSafety.CalmIsNoOp`), and inside a scan the busy test
  and the back-off after a timeout or rate limit never fire
  (`PoolRuns.EntryIsFresh`).
* For a list without duplicates the option `skip_unavailable` has no effect in
  a scan (`PoolRuns.SkipUnavailableIsInert`), although `src/help_text.cpp:34`
  promises one: the reset has just made every entry PENDING, so every
  repository counts as accessible. It can matter exactly for an entry that says
  ERROR or SKIPPED, or is missing (`PoolRuns.FlagMattersExactly`); in a scan only
  a second occurrence of a path in the list can find one.
* An entry can stay PULLING only when an exception other than
  `filesystem_error` left `process_repo`, and then the run is over.
* A short option written `-cTEXT=VALUE` gets the value `TEXTVALUE`: the equals
  sign is lost (`ArgParsing.ShortTakesEquals`).
* A session file whose first line does not start with a number loads nothing,
  however good its other lines are (`Mutant.BadStartLoadsNothing`).
* Flushing the log while at most one batch is in flight leaves up to 16
  messages unwritten (`LogQueue.Conservation` bounds it).
* A repository path that contains white space is not restored from the mutant
  session file (`Mutant.OtherPathsAreForgotten`), and one commit of it can be
  approved twice (`MutantRuns.ApprovedTwice`); the promise holds for exactly the
  sets of paths without such paths (`MutantRuns.PromisedExactlyForWords`).
* The glob translator copies `+ ^ $ |` unescaped. Among patterns without
  brackets the translation is right exactly for those without these characters
  (`Glob.RightExactlyWhenPlain`).
* JSON lines are valid strings in the sense of section 7 of RFC 8259 exactly
  when the logged texts contain no control character but tab, line feed and
  carriage return (`JsonLog.EscapeIsRfc8259`).

## Model

| member | source | states |
|---|---|---|
| `GitPull.FetchTwice` | `src/git_utils.cpp:623-671` | a fetch is repeated exactly after a rate limit and then the second reply decides; a timeout is reported exactly when the deciding reply names one, a rate limit exactly when both replies name one and the second no timeout, everything else refused is a plain failure |
| `GitPull.PullOutcome` | `src/git_utils.cpp:566-776` | on all inputs: HEAD and the working tree change only under code 0, only towards a different commit and never over uncommitted changes unless forced; code 0 exactly when HEAD is at the goal of a completed fetch or can be reset to it, and then it is there; code 3 exactly when an unforced pull would overwrite changes; a failed fetch hands on its code and changes nothing |
| `GitPull.PullAnswersExactly` | `src/git_utils.cpp:566-776` | the exact condition of each of the codes 0, 3, 4 and 5 in terms of what git answers, and no other code but 2 |
| `GitPull.OrdinaryPullAdvances` | `src/git_utils.cpp:752-775` | a clean or forced pull on a branch whose fetched commit differs and can be reset to answers 0 and moves HEAD there |
| `GitPull.BranchGoal` | `src/git_utils.cpp:752-758` | without a target the goal is what refs/remotes/REMOTE/BRANCH names after the fetch |
| `GitPull.TargetGoal` | `src/git_utils.cpp:690-724` | with a target it is the first of the target itself, refs/tags/, refs/heads/ and refs/remotes/REMOTE/ in front of it that resolves, the prefixed ones only where the source tries them, then a full object id |
| `GitPull.RefusalWords` | `src/git_utils.cpp:623-671` | which words a refusal must contain, in any case, to be a rate limit or a timeout, and that "auth" is looked for as spelled |
| `GitPull.FirstResolvedIsFirst` | `src/git_utils.cpp:690-724` | the target reference resolves to the first candidate spelling that names a commit, and to none exactly when no spelling does |
| `GitPull.Resolve` | `src/git_utils.cpp:690-724` | the candidate loop with its fallback to a full object id computes that resolution |
| `GitPull.Repository.TryPull` | `src/git_utils.cpp:566-776` | the sequence of early returns leaves exactly the result and the repository of PullOutcome, whose exact conditions are stated above, and reports an authentication failure exactly when the first fetch named one |
| `GitPull.Repository.Fetch` | `src/git_utils.cpp:623-671` | the fetch code with its retry has the outcome of FetchTwice and leaves the references alone when it fails |
| `GitPull.Repository.PerformReset` | `src/git_utils.cpp:672-688` | the reset succeeds exactly when the commit exists and git resets, and otherwise changes nothing |
| `RepoScan.Judge` | `src/scanner/repo.cpp:153-267` | the decision part of process_repo never publishes an unfinished status, keeps the sticky flag, and starts a pull only under the conditions named; when it gives which answer is RepoLaws.VerdictExactly |
| `RepoScan.Conclude` | `src/scanner/pull.cpp:68-124` | a pull ends in a final status; the flag is on afterwards exactly when it was on or the code was 0 or 1; PULL_OK only for code 0 |
| `RepoScan.PullCode` | `src/scanner/pull.cpp:68-116` | the codes try_pull can answer (never 1), and what a moved checkout and code 0 imply under the per-repository options |
| `RepoScan.Scanner.ValidateRepo` | `src/scanner/repo.cpp:27-87` | validate_repo, branch by branch, decides as Validate says and inserts into the skip list exactly on a head problem |
| `RepoScan.Scanner.DeterminePullAction` | `src/scanner/repo.cpp:89-131` | determine_pull_action decides as Decide says, with its effect on the skip list; the exact conditions of its answers are part of RepoLaws.VerdictExactly |
| `RepoScan.Scanner.RunPull` | `src/scanner/pull.cpp:38-52` | try_pull replaces only this path's repository and ends its progress at 100 |
| `RepoScan.Scanner.RecordCode` | `src/scanner/pull.cpp:68-116` | the pull code becomes status, flag and, for an unexplained failure, a skip-list entry |
| `RepoScan.Scanner.Land` | `src/scanner/pull.cpp:68-124` | the mapped code with what the calls after it may throw is what Conclude says, and nothing else changes but the skip list |
| `RepoScan.Scanner.Examine` | `src/scanner/repo.cpp:203-237` | the part of process_repo before a pull has the verdict of Judge and no other effect than the skip list |
| `RepoScan.Scanner.ExamineDue` | `src/scanner/repo.cpp:209-267` | from the age filter on, including what the remote calls may throw and the handler that catches it |
| `RepoScan.Scanner.ExamineAge` | `src/scanner/repo.cpp:212-233` | the commit-age filter, plain or through the mutant session |
| `RepoScan.Scanner.ExamineAction` | `src/scanner/repo.cpp:235-245` | hash comparison, check-only and dry-run |
| `RepoScan.Scanner.CatchFileError` | `src/scanner/repo.cpp:258-267` | a filesystem_error becomes ERROR, and a skip-list entry when the options say so |
| `RepoScan.Scanner.ExecutePull` | `src/scanner/pull.cpp:21-125` | PULLING is published, the pull runs, its code is mapped and the hook may throw: the state is that of PullConclusion |
| `RepoScan.Scanner.Process` | `src/scanner/repo.cpp:143-295` | process_repo as a whole leaves the tables of ProcessRepo |
| `RepoScan.Scanner.Finish` | `src/scanner/repo.cpp:268-292` | the final entry is published and the "Updated" line printed when the flag was turned on by this call |
| `RepoLaws.OverridesWin` | `src/scanner/scan.cpp:86-105` | a repository's own exclusion, check-only, force and pull reference outrank the global ones, and only where they are set |
| `RepoLaws.VerdictExactly` | `src/scanner/repo.cpp:27-267` | over skip list, old entry, options and answers alone: process_repo publishes each status without a pull, starts a pull, lets an exception out, or puts the path on the skip list exactly under the stated condition; equal hashes give UP_TO_DATE, differing ones under check-only REMOTE_AHEAD |
| `RepoLaws.EndsAtOnce` | `src/scanner/repo.cpp:153-170` | a stopped run, a NOT_GIT and a busy entry end process_repo without effect |
| `RepoLaws.NoPullExactly` | `src/scanner/repo.cpp:143-295` | what process_repo leaves in every table when no pull is due: the status by its exact condition, no other entry, no checkout, no line printed, the skip list grown exactly when the path is put aside |
| `RepoLaws.PullExactly` | `src/scanner/pull.cpp:21-125` | what it leaves when a pull is due: the checkout of try_pull, the status of its code (0 PULL_OK, 3 DIRTY, 4 TIMEOUT, 5 RATE_LIMIT, else ERROR), the flag on exactly when it was on or the code is 0, and the "Updated" line exactly when the code turns it on |
| `ScanPool.ResetPhase` | `src/scanner/scan.cpp:41-61` | the loop over the status table with its reset_skipped and retry_skipped cases equals the entry-wise reset |
| `ScanPool.ResetExactly` | `src/scanner/scan.cpp:41-61` | after the reset NOT_GIT stays, a skipped entry stays unless skipped ones are retried or reset, any other entry is PENDING with its flags and commit time kept; the skip list is emptied exactly by retry_skipped |
| `ScanPool.RowAfter` | `src/scanner/scan.cpp:69-124` | the row of a worker's own path satisfies what the next program counter needs |
| `ScanPool.StepFrame` | `src/scanner/scan.cpp:69-124` | a worker's step changes no other path's row, only its own program counter, and only grows the skip list |
| `ScanPool.WorkerStepKeeps` | `src/scanner/scan.cpp:69-132` | every step of every worker, whatever the environment answers, keeps the pool invariant: claimed indices are the prefix up to min(next_index, n), each held by its claimer; each path is untouched, held in a known stage, or done |
| `PoolRuns.ScanStarts` | `src/scanner/scan.cpp:41-69` | a scan launched on a quiet table starts in the pool invariant, with the number of workers that list, cap and concurrency give, all at the top of their loop and nothing claimed |
| `PoolRuns.ScanEnds` | `src/scanner/scan.cpp:134-147` | after the join every history is PENDING, optionally PULLING, then one final status; nothing is CHECKING, and PULLING only after a crash; a scan that nobody stopped has claimed every index and given every path a final status, published unless it was NOT_GIT before, except the paths on the skip list at its start, for which it published nothing; in such a scan an excluded path ends SKIPPED, with nothing else published |
| `PoolRuns.EntryIsFresh` | `src/scanner/repo.cpp:157-198` | inside a scan process_repo finds its entry PENDING or NOT_GIT; past the first look it is PENDING, so the busy branch and the back-off are dead |
| `PoolRuns.SkipUnavailableIsInert` | `src/scanner/pull.cpp:107-113` | in a scan of a list without duplicates no step of a worker, wherever it stands, has a different effect on tables or workers when skip_unavailable is flipped |
| `PoolRuns.FlagMattersExactly` | `src/scanner/repo.cpp:102-105` | for an arbitrary entry the decision is independent of the option, for all answers and options, if and only if the entry is there and neither ERROR nor SKIPPED |
| `PoolRuns.ClaimsAreExclusive` | `src/scanner/scan.cpp:73-76` | no two workers ever hold the same index |
| `PoolRuns.OnlyResetsMoveTrees` | `src/scanner/scan.cpp:86-110` | the only step that moves a checkout is a worker's try_pull for that path, which is included, not check-only, not dry-run, and clean unless forced, and leaves HEAD at the goal |
| `PoolRuns.StepsDescend` | `src/scanner/scan.cpp:72-124` | every step claims an index, lowers a stage or uses up a progress callback |
| `PoolRuns.NoEndlessSchedule` | `src/scanner/scan.cpp:72-145` | no schedule of any number of workers runs forever, even if others change the tables between its steps |
| `PoolRuns.NeverStuck` | `src/scanner/scan.cpp:142-145` | until all workers have exited one of them can step, so the join returns |
| `LoneWorker.RunAlone` | `src/scanner/scan.cpp:106-110` | an undisturbed worker leaves process_repo after finitely many steps |
| `LoneWorker.OutcomeStays` | `src/scanner/repo.cpp:153-292` | each atomic step inside process_repo keeps the tables and the place it will end with |
| `LoneWorker.StepsRefineProcess` | `src/scanner/repo.cpp:143-295` | undisturbed, with any progress callbacks of which the last says 100, the atomic steps of a worker compute exactly ProcessRepo and leave it before the memory test, or exited after an exception |
| `EventLoop.AppendMissing` | `src/ui_loop.cpp:580-583` | the rescan's list holds exactly the old and the found paths |
| `EventLoop.AppendMissingDistinct` | `src/ui_loop.cpp:580-583` | the rescan keeps the old list as a prefix and makes no duplicates of its own |
| `EventLoop.RepoTable.PrepareRepos` | `src/ui_loop.cpp:217-234` | the list is replaced and every path gets a fresh entry |
| `EventLoop.RepoTable.AddNew` | `src/ui_loop.cpp:573-583` | a rescan adds fresh entries for unknown paths only and appends missing paths in order |
| `EventLoop.RepoTable.ClearBusy` | `src/ui_loop.cpp:591-601` | the clearing loop sets exactly the busy entries to PENDING |
| `LoopSafety.ReloadKeeps` | `src/ui_loop.cpp:466-475` | a reload re-establishes the scheduler invariant from scratch |
| `LoopSafety.AfterJoinKeeps` | `src/ui_loop.cpp:519-553` | joining, remembering first-validated paths and sorting by commit time keep the invariant |
| `LoopSafety.RescanKeeps` | `src/ui_loop.cpp:555-590` | a rescan keeps the invariant: every listed path has an entry, and quiet rows stay quiet |
| `LoopSafety.CalmIsNoOp` | `src/ui_loop.cpp:591-601` | at a launch no entry of a duplicate-free list is busy, so the clearing loop changes nothing |
| `LoopSafety.MainKeeps` | `src/ui_loop.cpp:452-752` | every step of the main loop keeps the invariant; what each turn does, and when, is stated by the LoopTurns rows |
| `LoopSafety.MainFrame` | `src/ui_loop.cpp:452-752` | the main loop moves no checkout and, but for a reload, changes neither options nor skip list nor a NOT_GIT entry, and never turns running on |
| `LoopSafety.ThreadKeeps` | `src/scanner/scan.cpp:23-175` | every step of every scan thread, active or in its tail, keeps the invariant |
| `LoopSafety.StepKeeps` | `src/ui_loop.cpp:452-752` | every step of every party (main loop, scan threads, signals, config watcher, user) keeps the invariant |
| `LoopRuns.RunInv` | `src/ui_loop.cpp:452-752` | the invariant holds in every state of every run |
| `LoopRuns.AtMostOneScan` | `src/ui_loop.cpp:554-616` | at most one scan is between launch and its clearing of scanning, and the flag says so |
| `LoopRuns.ListIsFixed` | `src/ui_loop.cpp:604-614` | from its launch to that point a scan sees one and the same list and options |
| `LoopRuns.EveryPathHasEntry` | `src/ui_loop.cpp:541-550` | in every state every listed path has an entry, so the lookups of the sort never throw |
| `LoopRuns.StoppedMeansJoined` | `src/ui_loop.cpp:747-752` | when the loop returns every scan thread it ever launched has ended |
| `LoopRuns.StopIsFinal` | `src/ui_loop.cpp:452-752` | running is never turned on again |
| `LoopRuns.NothingStartsAfterStop` | `src/scanner/scan.cpp:72-76` | once running is off no worker of any scan goes on to claim an index or passes the entry check of process_repo |
| `LoopRuns.StepMovesTree` | `src/git_utils.cpp:672-688` | over the whole system only a hard reset of an unprotected path to its goal moves a checkout |
| `LoopRuns.ProtectedTreesStay` | `src/git_utils.cpp:744-775` | over any stretch of any run a checkout that is excluded, check-only, dry-run, or dirty without force keeps HEAD and working tree |
| `LoopRuns.MemoryIsHistory` | `src/scanner/pull.cpp:68-85` | the record of successful pulls is exactly the try_pulls that returned 0 since the last reload |
| `LoopRuns.PulledMeansPulled` | `src/scanner/repo.cpp:172-188` | between scans the sticky flag of a path is on exactly when a try_pull on it has returned 0 since the last reload; nothing is CHECKING, nothing PULLING but after a crash |
| `LoopRuns.UpdatedAtMostOnce` | `src/scanner/repo.cpp:272-292` | at any moment at most one "Updated" line per path and session, and never without a successful pull |
| `LoopRuns.NotGitAbsorbs` | `src/scanner/repo.cpp:161-162` | over any stretch of any run without a reload, an entry that says NOT_GIT keeps saying it |
| `LoopRuns.SkipListGrows` | `src/scanner/scan.cpp:59-60` | without retry_skipped the skip list only grows over any stretch of any run without a reload |
| `LoopRuns.SkippedIsNeverProcessed` | `src/scanner/scan.cpp:77-78` | a path skipped between scans is never taken past the skip test in a later scan, however often it is listed |
| `LoopRuns.FinishedScanIsComplete` | `src/scanner/scan.cpp:142-168` | in any run, when all workers of a scan have exited and nobody has stopped the run, every path it was not skipping is completed, an excluded one as SKIPPED and nothing else |
| `LoopRuns.SkipUnavailableNeverMatters` | `src/scanner/pull.cpp:107-113` | in no state of any run with a duplicate-free list does a worker step depend on skip_unavailable |
| `LoopTurns.LaunchesExactlyWhenDue` | `src/ui_loop.cpp:554-616` | a turn that finds the loop running, the countdown over and no scan under way creates exactly one new thread, with the options of that moment and nothing done yet, and keeps its handle; any other turn creates none |
| `LoopTurns.RescansExactlyWhenDue` | `src/ui_loop.cpp:554-556` | a launch rescans first exactly when rescanning is on and its own countdown over |
| `LoopTurns.RescanExactly` | `src/ui_loop.cpp:555-590` | a rescan adds exactly the found paths and, if asked, the first-validated ones, as fresh entries; known entries stay |
| `LoopTurns.CalmExactly` | `src/ui_loop.cpp:591-601` | every launch turns entries that say PULLING or CHECKING to PENDING and changes nothing else |
| `LoopTurns.ReloadsExactlyWhenQuiet` | `src/ui_loop.cpp:454-455` | the notice of a configuration change is consumed every turn and leads to a reload exactly when reloading is on and no scan is under way |
| `LoopTurns.NoticeExactly` | `src/ui_loop.cpp:454-455` | between two of these tests the notice stands exactly when it stood before or the watcher has reported since |
| `LoopTurns.ReloadExactly` | `src/ui_loop.cpp:456-486` | a reload that parses installs the new options and a fresh table of the new paths and forgets skip list and first-validated paths; one that fails changes nothing |
| `LoopTurns.JoinsExactlyWhenOver` | `src/ui_loop.cpp:519-522` | a scan thread is joined exactly when scanning is off and it has not been joined yet |
| `LoopTurns.AfterJoinExactly` | `src/ui_loop.cpp:523-553` | after a join exactly the entries neither SKIPPED, ERROR nor NOT_GIT of the first cycle become first-validated, the list is reordered only when sorting by time, and a single run ends |
| `LoopTurns.ScanningExactly` | `src/scanner/scan.cpp:142-168` | scanning goes on just before a launch and off exactly when all workers of the scan have exited |
| `LoopTurns.RunEndsExactly` | `src/ui_loop.cpp:487-552` | running goes off exactly by a signal, the polling timeout during a scan, the runtime limit, the join of a single run, leaving the loop, the memory limit after a repository, or an exception that escapes process_repo |
| `LoopProgress.OnlyJoinsWait` | `src/ui_loop.cpp:519-752` | in every state of every run the main loop can step unless it joins a thread, and that thread can step itself |
| `LoopProgress.ThreadGoesOn` | `src/scanner/scan.cpp:134-175` | every step of a scan thread leads to a later phase or lowers the measure of its pool |
| `LoopProgress.TurnComesRound` | `src/ui_loop.cpp:452-746` | the main loop is back at its top, or has returned, within 17 of its own steps |
| `LoopProgress.StopEndsLoop` | `src/ui_loop.cpp:452-752` | once running is off the main loop takes at most 17 more steps of its own and has returned after the last |
| `LogQueue.StepKeeps` | `src/logger.cpp:429-468` | every step of producers, worker, init and shutdown keeps the queue invariant |
| `LogQueue.Conservation` | `src/logger.cpp:308-468` | in every interleaving the written messages, the batch in flight (at most 16) and the queue are the accepted messages in order; an empty queue leaves at most 16 unwritten, and a batch of fewer than 16 has emptied the queue |
| `LogQueue.ReinitLosesNothing` | `src/logger.cpp:68-92` | a run without shutdown keeps every accepted message across any number of re-initialisations |
| `LogQueue.ShutdownDiscards` | `src/logger.cpp:451-468` | the worker exits only with queue and batch empty; a shutdown discards exactly what was accepted after that exit |
| `LogQueue.QueueIsWritten` | `src/logger.cpp:429-449` | a worker left to itself stops stepping after a bounded number of steps, and then everything accepted before has been written |
| `LogQueue.RunsExactlyAfterInit` | `src/logger.cpp:47-92` | outside init and shutdown a worker is alive, and running, exactly when the last of the two that was begun is an init |
| `LogQueue.StopIsReached` | `src/logger.cpp:47-55` | a worker told to stop can always step and each of its steps lowers the work that is left |
| `LogQueue.JoinIsBounded` | `src/logger.cpp:47-55` | while the join waits the worker takes at most as many steps as there was work, plus four for each message still enqueued: the join returns unless producers never stop |
| `LogQueue.Logger.TakeBatch` | `src/logger.cpp:437-440` | the batch is the first min(16, n) messages, in order |
| `LogQueue.Logger.WriteBatch` | `src/logger.cpp:442-445` | the batch is written in order and emptied |
| `LogQueue.Logger.Drain` | `src/logger.cpp:429-449` | a worker told to stop writes the whole queue in order before it returns |
| `LogRotation.CutKeepsLines` | `src/logger.cpp:242-283` | cutting the history of lines at rotations loses and reorders nothing |
| `LogRotation.SizeIsLength` | `src/logger.cpp:242-249` | the size that is compared with the limit is the length of the lines with their newlines |
| `LogRotation.CutRespectsLimit` | `src/logger.cpp:243-249` | every finished chunk is over the limit by at most its last line and the open one is within it; without a limit nothing is finished |
| `LogRotation.RetainedIsSuffix` | `src/logger.cpp:242-283` | after any run from an empty log, backup n to backup 1 followed by the active file are the end of everything ever written, and all of it while rotations fit the slots |
| `LogRotation.SizesOnDisk` | `src/logger.cpp:242-283` | the active file is within the limit, the backups fill exactly slots 1 to min(n, rotations), each over the limit by at most its last line |
| `LogRotation.LogFile.constructor` | `src/logger.cpp:68-92` | an empty log satisfies the invariant |
| `LogRotation.LogFile.WriteEntry` | `src/logger.cpp:223-284` | one entry appends one line if its level passes, rotates if needed, and the files still show the history |
| `LogRotation.LogFile.Rotate` | `src/logger.cpp:248-283` | a rotation, plain or compressed, makes the active file backup 1 and keeps the younger n backups |
| `LogRotation.LogFile.ShiftBackups` | `src/logger.cpp:253-277` | the downward loop removes the oldest backup and moves every other one up by one |
| `LogRotation.LogFile.WriteAll` | `src/logger.cpp:223-284` | any sequence of entries leaves files that show exactly the accepted lines |
| `JsonLog.JsonEscape` | `src/logger.cpp:170-196` | the loop over the characters computes Escape |
| `JsonLog.FormatExtraJson` | `src/logger.cpp:198-210` | the loop over the fields prints them comma-separated, in order |
| `JsonLog.FormatLine` | `src/logger.cpp:229-236` | the printed line is Print of the record |
| `JsonLog.LineSpelledOut` | `src/logger.cpp:229-236` | the printed line, label by label and quote by quote |
| `JsonLog.FieldsSpelledOut` | `src/logger.cpp:198-210` | a field is printed as quoted key, colon, quoted value; one more follows after a comma |
| `JsonLog.EscapesSpelledOut` | `src/logger.cpp:170-196` | the two characters that stand for quote, backslash, line feed, carriage return and tab |
| `JsonLog.EscapePlain` | `src/logger.cpp:170-196` | a text without these five is printed as it is |
| `JsonLog.EscapeJoins` | `src/logger.cpp:170-196` | escaping goes piece by piece, so the three facts determine it |
| `JsonLog.RoundTrip` | `src/logger.cpp:229-236` | a decoder recovers timestamp, level, message and all fields in order from any printed line |
| `JsonLog.PrintNoNewline` | `src/logger.cpp:170-236` | no printed record contains a raw newline, whatever its strings hold |
| `JsonLog.LogRoundTrip` | `src/logger.cpp:229-242` | splitting the log at its newlines and decoding gives back exactly the records |
| `JsonLog.EscapeIsRfc8259` | `src/logger.cpp:170-196` | an escaped string is a legal JSON string if and only if its only control characters are tab, LF and CR |
| `Monitor.PopOld` | `src/process_monitor.cpp:27-28` | the loop drops exactly the leading readings older than the window |
| `Monitor.DequeIsWindow` | `src/process_monitor.cpp:26-28` | on a monotone clock the deque equals the whole history filtered to the window |
| `Monitor.Slide` | `src/process_monitor.cpp:25-28` | one push and pop keeps that |
| `Monitor.RunWithMonitor` | `src/process_monitor.cpp:19-53` | launches are the turns before the first refused one, each followed by its back-off pause; it stops exactly at a refused turn, and never without a limit; any window-long interval sees at most respawn_max launches and the refused attempt exactly respawn_max |
| `Monitor.Respawn` | `src/process_monitor.cpp:24-51` | the loop itself, on the deque and the failure counter |
| `Monitor.WindowLimit` | `src/process_monitor.cpp:29-33` | any closed interval as long as the window contains at most respawn_max launches |
| `Monitor.PauseExactly` | `src/process_monitor.cpp:34-50` | the pause after launch k is delay * 2^m when exactly the m workers just before it threw or returned something other than 0 |
| `Monitor.RefusedExactly` | `src/process_monitor.cpp:29-33` | when an attempt is refused exactly respawn_max launches lie within its window |
| `Monitor.TotalPause` | `src/process_monitor.cpp:45-50` | from any moment at which the count is zero, m consecutive failures sleep delay * (2^m - 1) in total |
| `Monitor.BackoffSpreads` | `src/process_monitor.cpp:45-46` | in an all-failing run launches i and j are at least delay * (2^j - 2^i) apart |
| `Monitor.RefusalNeedsShortBackoff` | `src/process_monitor.cpp:25-50` | in an all-failing run attempt j can be refused only if delay * 2^(j - max) * (2^max - 1) <= window |
| `Monitor.SlowBackoffNeverTrips` | `src/process_monitor.cpp:25-50` | with delay * (2^max - 1) > window an all-failing run is never refused |
| `Mutant.TimeoutStaysSane` | `src/mutant_mode.cpp:104-114` | over any results the timeout stays congruent to its start modulo 5 and at least min(start, 6) |
| `Mutant.TimeoutConverges` | `src/mutant_mode.cpp:108-114` | under successes of constant duration D it reaches D < T <= max(2D, 10) in a bounded number of steps without overshoot and then stays |
| `Mutant.TimeoutsAddUp` | `src/mutant_mode.cpp:104-107` | k timeouts in a row add 5k seconds |
| `Mutant.OnlyTheseCount` | `src/mutant_mode.cpp:104-114` | dropping every result that is neither a timeout nor a success of positive duration, and reading PKGLOCK_FIXED as PULL_OK, changes nothing |
| `Mutant.SaveLoad` | `src/mutant_mode.cpp:23-54` | for positive values, loading a saved file into an empty map restores interval, timeout and the table if and only if every path is a non-empty word |
| `Mutant.SavedSpelledOut` | `src/mutant_mode.cpp:47-54` | the look of a saved file |
| `Mutant.LoadSaved` | `src/mutant_mode.cpp:23-45` | whatever integers were saved, a setting is taken over exactly when it is positive, and skip_timeout is cleared exactly with the timeout |
| `Mutant.BadStartLoadsNothing` | `src/mutant_mode.cpp:27-38` | a file that does not begin with a number changes neither settings nor table |
| `Mutant.TimesSurvive` | `src/mutant_mode.cpp:47-54` | in whatever order the entries are listed, loading their lines gives back the table if and only if every path is a non-empty word |
| `Mutant.OnlyWordsLoad` | `src/mutant_mode.cpp:38-44` | whatever the file holds, loading adds only white-space-free paths |
| `Mutant.OtherPathsAreForgotten` | `src/mutant_mode.cpp:38-53` | whatever was saved, a new process does not know a path that is empty or holds white space |
| `Mutant.SavedTimesReturn` | `src/mutant_mode.cpp:23-54` | loading any saved form of a table gives it back if and only if all its paths are non-empty words |
| `MutantRuns.ApprovalsDiffer` | `src/mutant_mode.cpp:87-97` | in any session over words two consecutive approvals of one repository see different commit times, across any requests, timeout changes and restarts |
| `MutantRuns.FileFollowsTable` | `src/mutant_mode.cpp:47-117` | at every moment of a session the file is a listing of the table |
| `MutantRuns.RestartsKeepTimes` | `src/mutant_mode.cpp:23-73` | in a session over words every restart brings back the table it interrupted |
| `MutantRuns.ApprovedTwice` | `src/mutant_mode.cpp:23-97` | for every path that is no word there is a session that approves one commit of it twice |
| `MutantRuns.PromisedExactlyForWords` | `src/mutant_mode.cpp:23-97` | for a set of paths, all sessions that ask for these paths keep the promise of differing commit times if and only if every path is a non-empty word without white space |
| `Mutant.Session.LoadConfig` | `src/mutant_mode.cpp:23-45` | the stream reads and the line loop compute Load |
| `Mutant.Session.SaveConfig` | `src/mutant_mode.cpp:47-54` | the loop over the table writes a listing of exactly the table |
| `Mutant.Session.ApplyMutantMode` | `src/mutant_mode.cpp:56-73` | start-up loads the file, raises interval and timeout to their lower bounds, sets retry_skipped and clears skip_unavailable, defaults updated_since to an hour, and leaves a saved file; in a new process it is the restart event |
| `Mutant.Session.ShouldPull` | `src/mutant_mode.cpp:75-98` | a pull is approved exactly when no age limit is set or the commit is known and young enough, and the last approved commit time differs; the table changes, and the file is saved, exactly with an approval |
| `Mutant.Session.RecordResult` | `src/mutant_mode.cpp:100-117` | the timeout is adjusted as Adjust says and saved exactly when it changed |
| `ArgParsing.ArgParser.constructor` | `include/arg_parser.hpp:40-132` | the loop over argv fills the containers with exactly what Parse collects; what each spelling records is stated by the rows below |
| `ArgParsing.ArgParser.Token` | `include/arg_parser.hpp:44-130` | one turn of the loop records what ReadToken finds and says whether the next token was taken; what that is for each spelling is stated below |
| `ArgParsing.ArgParser.Run` | `include/arg_parser.hpp:85-127` | the inner loop over a cluster records what ReadCluster finds |
| `ArgParsing.ArgParser.Add` | `include/arg_parser.hpp:110-126` | known names are recorded, unknown ones reported |
| `ArgParsing.SpellingsAgree` | `include/arg_parser.hpp:45-66` | --key value and --key=value leave the parser in the same state, for any value but one that starts with two dashes |
| `ArgParsing.LongEqualsValue` | `include/arg_parser.hpp:46-56` | --key=value records key and value and the parse goes on behind it |
| `ArgParsing.LongTakesNext` | `include/arg_parser.hpp:57-66` | --key value does the same and takes the next token |
| `ArgParsing.LongFlag` | `include/arg_parser.hpp:67-73` | --key before another long option or at the end is a flag |
| `ArgParsing.PlainToken` | `include/arg_parser.hpp:128-130` | a token without leading dash, an empty one and a lone dash are positional |
| `ArgParsing.ShortTakesNext` | `include/arg_parser.hpp:93-126` | -c value takes the next token unless it starts with a dash; an empty one is swallowed and leaves a flag |
| `ArgParsing.ShortFlag` | `include/arg_parser.hpp:93-126` | -c before a dashed token or at the end is a flag |
| `ArgParsing.ShortTakesRun` | `include/arg_parser.hpp:103-118` | -cTEXT has the value TEXT when TEXT does not begin with an option letter |
| `ArgParsing.ShortTakesEquals` | `include/arg_parser.hpp:80-118` | -c=value has that value if it is not empty; in -cTEXT=value the two texts are joined without the sign |
| `ArgParsing.ShortUnknown` | `include/arg_parser.hpp:74-78` | a short token whose first letter is no option is reported as that letter and otherwise ignored |
| `ArgParsing.OneFinding` | `include/arg_parser.hpp:50-56` | the contents of all containers after a command line with a single finding, for known and unknown names |
| `ArgParsing.RepeatedOption` | `include/arg_parser.hpp:50-53` | a repeated option keeps both values in order and answers with the last |
| `ArgParsing.KnownNamesOnlyFilter` | `include/arg_parser.hpp:50-56` | parsing with a known set is the unfiltered parse restricted to it, with the same positionals |
| `ArgParsing.OptionIsLastValue` | `include/arg_parser.hpp:50-53` | the value of an option is the last of its repeated values, and every option is a flag |
| `ArgParsing.NothingIsDropped` | `include/arg_parser.hpp:50-56` | every name found is a flag or is reported as unknown |
| `ArgParsing.ShortMapIrrelevant` | `include/arg_parser.hpp:74-78` | without single-dash tokens of two or more characters the short map plays no part |
| `ArgParsing.ParsersAgree` | `src/options/config.cpp:19-43` | on such command lines the pre-parse, the auto-parse and the final parse agree on shared names and positionals |
| `ArgParsing.ClusterExpands` | `include/arg_parser.hpp:85-127` | -abc of mapped letters means exactly -a -b -c, look-ahead and everything after included |
| `ArgParsing.ClusterParsesAlike` | `include/arg_parser.hpp:74-127` | so the parser ends in the same state on both spellings, for any known set |
| `Glob.GlobToRegex` | `src/ignore_utils.cpp:21-46` | the index loop emits the translation |
| `Glob.ParseTranslation` | `src/ignore_utils.cpp:21-46` | for a pattern without copied operators the emitted text is a well-formed regex of the intended terms |
| `Glob.TranslationPreservesMeaning` | `src/ignore_utils.cpp:21-46` | for every such pattern and every one-line string the regex (section 15.10.2 of ECMA-262, 3rd edition) matches exactly what the glob matches |
| `Glob.WildcardsAlone` | `src/ignore_utils.cpp:21-46` | ? matches one character but a slash, * exactly the texts without a slash, ** every text |
| `Glob.GlobAfterText` | `src/ignore_utils.cpp:21-46` | a wildcard-free text in front of a pattern matches itself, and the pattern what follows it |
| `Glob.RightExactlyWhenPlain` | `src/ignore_utils.cpp:40-42` | among bracketless patterns the translation is right if and only if none of + ^ $ and the bar occurs |
| `Glob.GlobFreeIsEquality` | `src/ignore_utils.cpp:92-104` | a pattern without wildcards matches only itself, so the fast path agrees with the general matcher |
| `Glob.Matches` | `src/ignore_utils.cpp:82-128` | the loop over the patterns, fast path included, gives the answer of the first pattern that matches or throws, on the name or the full path by its kind |
| `Glob.MatchesMeansSomeGlob` | `src/ignore_utils.cpp:82-128` | for plain patterns and one-line paths the answer is that some pattern globs the full path if it holds a slash, and the name otherwise |
| `Walk.WithinRoot` | `src/scanner/list.cpp:24-33` | the component-wise loop answers whether the root is a prefix |
| `Walk.PendingStep` | `src/scanner/list.cpp:38-68` | listing the current entry and incrementing the iterator leaves exactly the rest of the walk |
| `Walk.VisitEntry` | `src/scanner/list.cpp:43-67` | the loop body lists a directory under its own path and a link under the path of the directory it resolves to, exactly when that lies inside the root, the depth is within the limit and the path is not ignored; recursion stays pending exactly for wanted directories |
| `Walk.KeepFinds` | `src/scanner/list.cpp:38-68` | what the pruned walk contains, told from the tree alone: an entry that meets the depth limit with no ignored directory above it, shown under its own or its resolved path |
| `Walk.KeepStaysInside` | `src/scanner/list.cpp:24-33` | when the real entries lie under the root, so does every path that is listed, links or not |
| `Walk.KeepIsSelect` | `src/scanner/list.cpp:38-68` | the pruned walk is the full preorder filtered: directories below the depth limit with neither they nor an ancestor ignored; links resolving inside the root listed, never entered, others dropped |
| `Walk.WalkRecursive` | `src/scanner/list.cpp:35-68` | the iterator loop returns exactly the filtered preorder, which holds exactly the directories and resolved links that the tree offers, and nothing outside the root, for every finite tree |
| `Walk.WalkFlat` | `src/scanner/list.cpp:70-95` | the flat loop returns, in order, exactly the unignored directories of one level and the unignored targets inside the root of its links |
| `Walk.FlatIsDepthOne` | `src/scanner/list.cpp:69-96` | the flat mode is the recursive mode with a depth limit of one |
| `Walk.FoundInside` | `src/scanner/list.cpp:12-99` | a path found below a root lies inside it, when its real entries do |
| `Walk.RepoListFinds` | `src/scanner/list.cpp:12-99` | the whole list holds a path exactly when some non-empty root offers it in the chosen mode |
| `Walk.BuildRepoList` | `src/scanner/list.cpp:12-99` | the whole list is the wanted directories of every non-empty root, root by root: it holds exactly the paths some root offers, and none outside all roots when no root has a real directory outside itself |

## Left out

- Log texts, status messages, branch and commit strings, the pull log and its file: carried by no decision.
- GitPull.PullOutcome: the status query is assumed to succeed (the original answers "clean" when it fails), a failed reset changes nothing, and the dirty test and the reset are one atomic step, so an edit between the two is not modelled.
- GitPull.Repository.TryPull: credentials, throttling, progress before the last callback, proxies and libgit2 itself are replies of the environment.
- RepoScan.Judge: sleeps and the longer timeout after a timed-out pull are not modelled; the second is dead inside a scan. The hash comparison and the remote probes are replies of the environment.
- ScanPool.WorkerStepKeeps: each critical section and each operation on the skip list is one atomic step, although the original touches that set without its mutex; CPU throttling is left out.
- PoolRuns.ScanEnds: the per-path facts need a list without duplicates; overlapping roots or links inside a root can make one.
- EventLoop.RepoTable.AddNew: a sort is any permutation, and the order by name or commit time is not modelled.
- LoopRuns.RunInv: countdowns, clocks, hotkeys and polling limits are free choices of the environment; `th_compat::jthread` is taken to join on move assignment, as std::jthread does.
- LoopRuns.ListIsFixed: a configuration change seen during a scan is consumed and dropped, as in the original; an exception in the middle of a reload's rebuild is not modelled.
- LoopRuns.PulledMeansPulled: for a path whose worker crashed only one direction is stated, because the flag of a pull that threw later is never published.
- LogRotation.SizesOnDisk: file operations succeed, decompression inverts compression, a newline is one byte and a character one byte; the limits do not change during the run.
- LogQueue.JoinIsBounded: fairness of the operating system's scheduler is not modelled.
- LogQueue.Conservation: the level filter and the file's state are those of LogRotation; memory exhaustion is not modelled.
- `JsonLog.EscapeIsRfc8259`: UTF-8 validity of the logged bytes is not part of it.
- Monitor.SlowBackoffNeverTrips: takes the clock to show at least the pause between two launches, as sleeping guarantees.
- Monitor.RunWithMonitor: powers of two are unbounded; the original's shift needs fewer than 63 consecutive failures.
- Mutant.SaveLoad: integer widths of the stream reads are unbounded.
- Mutant.Session.ApplyMutantMode: the file can always be opened for writing.
- Mutant.TimeoutConverges: the adapted timeout does not feed back into a running event loop, which works on a copy of the options; the lemma is about the controller alone.
- Glob.RightExactlyWhenPlain: patterns with brackets, braces or parentheses are covered by neither direction, because regex groups, classes and counted repetition are not part of the regex model.
- Glob.Matches: the POSIX branch, which calls the library's fnmatch, is not modelled; the in-repository translator stands for the glob matcher.
- Walk.WalkRecursive: directory reads and link resolution do not fail half-way; an unresolvable link is an outcome, a read error is not.
- Lock files, the status socket, daemons and services, file watching, terminal drawing, themes and help: user interface and I/O.
- YAML and JSON configuration loading, option precedence, byte and duration parsing, history: they would add only easy members.
- Data races and memory limits of the C++ program.
