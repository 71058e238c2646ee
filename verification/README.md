# Caveat: verified models

Caveat keeps a shared store of pitfalls for AI coding tools. Around that store it does work that must not go
wrong half way: it moves a user's globally installed tool aside and back, rewrites seven registration files,
queues reminders between processes, and keeps an index and a remote in step. This project models that work in
Dafny and proves what its code relies on.

The models are state machines whose environment is an input. A run is driven by a script of events (a check
fails, the process dies here, the rename is confirmed, npm left these rows behind), so a statement about every
script is a statement about every run stopped at every point. Where the code updates state step by step, a class
or a loop does the same and is proved equal to the step rule; the laws are then proved of the step rule.

## Modules

- `GuardedFiles`, `RecoveryModel`, `RecoverySafety`, `ObjectCheck`, `RecoveryExecution`, `RecoveryRuns`,
  `RecoveryValidation`: a recovery run, its step rule `NextAction`, the executor's loops and looks at the disk, and
  the replay validator with what it accepts.
- `GlobalMigration`, `MigrationEngine`, `MigrationSafety`, `MigrationRecovery`, `MigrationOutcome`: the forward
  migration, the evidence it leaves, recovery from wherever it stopped, and what a run that ends as done achieved.
- `RecoveryChain`, `RecoverySeries`, `RecoveryBound`, `RecoveryEvidence`: recoveries of recoveries, loaded from stored
  evidence; series of attempts from any stored run; the bound of eight runs and what it leaves unrecoverable; which
  stored evidence the loaders accept.
- `MutationJournal`, `JournalLaws`: the hash-chained journal, in bytes, and the sequences of calls its writer accepts.
- `JournaledRecovery`, `JournaledMigration`, `JournaledRegistration`: the three kinds of run written to that journal.
- `Registration`, `RegistrationEvidence`, `RegistrationRuns`, `RegistrationStops`, `RegistrationExecutor`,
  `RegistrationChain`: the seven registration files, also when somebody else writes them.
- `Units`, `JsonText`, `HookCommands`, `NodeCodec`, `NodeEdit`, `NodeGrammar`: the edit of one command in a JSON file
  that leaves the rest alone, and why the edited text, and the command in it, can only be read one way.
- `WindowsArguments`, `WindowsLines`: quoting for the PowerShell launcher and the parser of command lines.
- `PendingQueue`, `PendingRuns`, `PendingHistories`: claims, publishing, draining and sweeping of reminders.
- `ArgumentSize`, `EntryWindow`: counting JSON bytes with a stack, and reading UTF-8 window by window.
- `Indexer`, `Reindex`: the mark-and-sweep index and its savepoints.
- `HookSearch`, `HookCandidates`, `HookRanking`: the three-gate search.
- `AutoSync`, `AutoSyncHistories`: failure counting, backoff and notices of the automatic sync.

## What is assumed

- A name holds a whole object; a rename never overwrites and changes only the root change time.
- SHA-256 is injective where a law needs it; elsewhere a digest is the value it digests. A run's directory is named by
  its whole evidence digest, not by half of it.
- What a recovery's evidence digest takes from outside the chain (the protected files, the identities of directories)
  is one value, the surroundings. Laws hold for any of them; some are about surroundings that do not change.
- Checks that only read processes, protected files or locks are events that may fail at any step. The checks of the
  recorded objects and of the names that must be vacant are part of the steps, and nothing else writes these names.
- Queue operations and sync cycles run under their lock, one at a time. A sweep may have read its clock earlier.

## Where the code falls short of its promise

- Quoting and parsing a Windows argument gives it back unless it ends in a backslash and a newline: .NET's `$`
  also matches before one final newline, so the backslashes are doubled and nothing halves them.
  `WindowsArguments.RoundTrip` has the exact condition, `WindowsArguments.RoundTripFails` the smallest input.
- A recovery's directory is named by the digest of what it is admitted on, and an existing one is refused. While the
  surroundings do not change, a stored run can therefore be recovered once, and an attempt is the last one unless it
  stops between moves on a chain of at most seven runs. It is the last if it ends inside a move or is recorded
  unknown, also on a short chain and also if nothing moved, as when the process check after an intent fails; and it
  is the last if it runs on a chain of eight and does not complete. What it leaves is then recovered by no command,
  although its receipt names one. `RecoverySeries.UnchangedSurroundings` has the exact condition, and
  `RecoverySeries.RecoverableExactly` the one for surroundings that may change. `RecoveryBound.PoisonedIsReached` and
  `RecoveryBound.BoundIsReached` reach both failures from every system with two or more originals,
  `RecoveryBound.SmallPlanIsStranded` from one small plan.
- An uninstall that makes npm's lock file where there was none is recorded as confirmed, and recovery is then refused
  at its first look until the file is gone. `MigrationRecovery.MigrationThenRecoveryRestores` has the exact condition,
  `RecoveryBound.LockStopsRecovery` the smallest run.
- A registration recovery whose source history already has eight runs restores the files, but the history it
  leaves is over the loader's bound. `RegistrationChain.CompletedRecoveryReadsBack` has the exact condition,
  `RegistrationChain.EighthRecoveryIsNotReadBack` reaches it for every plan with seven completed recoveries.
- An index scan marks rows in a table with a primary key, so two files with one id, or a refused file met before
  the file that now holds its row, make the whole scan fail. `Reindex.Index.ScanSource` has the exact condition,
  `Indexer.OneIdTwiceFails` and `Indexer.RefusedFirstFails` are the two inputs.

## Model

| member | source | states |
|---|---|---|
| GuardedFiles.MoveLosesNothing | packages/core/src/managedGlobalGuard.ts:354-400 | a rename that does not overwrite loses no object: whatever some name held, some name still holds |
| RecoveryModel.NextActionIsDecisive | packages/core/src/managedGlobalRecoveryModel.ts:33-48 | on a well-formed model the next action is always defined, its order assertion never fires, and there is none exactly when nothing is installed, live or preserved |
| RecoveryModel.RestoreOrderHolds | packages/core/src/managedGlobalPreservation.ts:21-25 | packages come home before npm management and both before leaves, at every restore the rule dictates |
| RecoveryModel.MoveLowersOutstanding | packages/core/src/managedGlobalRecoveryModel.ts:33-48 | each dictated move lowers the number of installed, live working and preserved objects by exactly one |
| RecoveryModel.ApplyKeepsWellFormed | packages/core/src/managedGlobalRecoveryModel.ts:51-66 | a dictated move leaves a model that recovery can go on from |
| RecoveryModel.ValidateRecoveryJournalState | packages/core/src/managedGlobalRecoveryModel.ts:68-75 | the loop that updates a model row by row accepts and returns exactly what the recursive replay does |
| RecoveryValidation.AcceptedRecord | packages/core/src/managedGlobalRecoveryModel.ts:51-66 | a record is accepted exactly if it records a confirmed move of the object whose turn it is, under its own step and operation, from the recorded tree to its own place, changing only the root change time, with the model in which nothing else has moved |
| RecoveryValidation.AcceptedExactly | packages/core/src/managedGlobalRecoveryModel.ts:68-75 | a journal is accepted exactly if it goes through models from the source's: intents and the checkpoint name theirs, each result is such a record, and the checkpoint comes with nothing left to move |
| RecoveryValidation.AcceptedLowers | packages/core/src/managedGlobalRecoveryModel.ts:68-75 | what is outstanding fell by the number of results, the same originals are recorded, and a checkpoint is accepted only at zero |
| RecoverySafety.DestinationIsVacant | packages/core/src/managedGlobalRecoveryModel.ts:33-47 | in every safe state the dictated move's source is there and its destination is vacant |
| RecoverySafety.ApplyKeepsSafe | packages/core/src/managedGlobalRecoveryModel.ts:77-93 | a dictated move keeps recorded locations distinct, on disk, where their states say, and every watched name accounted for: live names, an absent npm lock file, and what runs put in any run directory |
| RecoverySafety.RetiredPlacesDiffer | packages/core/src/managedGlobalRecoveryModel.ts:33-42 | different objects are retired to different names |
| RecoverySafety.NothingLeftMeansHome | packages/core/src/managedGlobalRecoveryModel.ts:43-47 | a safe state with nothing outstanding has every original at its own name and nothing else live |
| ObjectCheck.VerifyObjects | packages/core/src/managedGlobalRecoveryExecution.ts:76-83 | the two loops pass exactly when recorded locations are distinct and hold their objects and every other watched slot is vacant |
| ObjectCheck.VerifiedIs | packages/core/src/managedGlobalRecoveryExecution.ts:76-83 | over the list of locations the check says what the safety invariant says over slots, both ways |
| ObjectCheck.SafeIsVerified | packages/core/src/managedGlobalRecoveryExecution.ts:76-83 | in every safe state the check passes |
| ObjectCheck.VacancySlotsAreWatched | packages/core/src/managedGlobalRecoveryModel.ts:81-93 | every vacancy slot of a chain of runs is a name the invariant watches |
| RecoveryExecution.RecoveryExecutor.MoveObject | packages/core/src/managedGlobalRecoveryExecution.ts:110-129 | one journaled move with its looks at the objects: which rows, files and evidence are written for each way it can go, and where an unconfirmed move stood and what the path guard returned of it |
| RecoveryExecution.RecoveryExecutor.Recover | packages/core/src/managedGlobalRecoveryExecution.ts:130-144 | the executor's loops make exactly the moves the step rule dictates, for every script of events |
| RecoveryRuns.StepKeepsSafe | packages/core/src/managedGlobalRecoveryExecution.ts:110-129 | with no other writer no look at the objects ever refuses a move: what the environment confirms is carried out |
| RecoveryRuns.RunKeepsSafe | packages/core/src/managedGlobalRecoveryExecution.ts:76-83 | every state a run stops in keeps locations distinct, on disk and accounted for, passes a last look, and records the same originals |
| RecoveryRuns.RunLosesNothing | packages/core/src/managedGlobalRecoveryExecution.ts:110-129 | however a run ends, also inside a move, no object is lost |
| RecoveryRuns.ConfirmedRunCompletes | packages/core/src/managedGlobalRecoveryExecution.ts:130-144 | without failures a run completes after one event for each outstanding object and one for the checkpoint, and not before |
| RecoveryRuns.CompletedRunRestores | packages/core/src/managedGlobalRecoveryExecution.ts:142-144 | a completed run leaves every original, same identity and contents, at its own name and nothing generated or working live |
| RecoveryRuns.RunReplays | packages/core/src/managedGlobalRecoveryModel.ts:51-75 | replaying the confirmed rows of a run from the source model rebuilds the executor's model, however the run ended |
| RecoveryRuns.ExecutorAndValidatorAgree | packages/core/src/managedGlobalRecoveryModel.ts:68-75 | the validator accepts every prefix of the executor's confirmed journal and ends in the executor's model |
| RecoveryRuns.RunStepsUnique | packages/core/src/managedGlobalJournal.ts:51-52 | no recovery run announces one step twice, so the journal's unique-step rule never stops it |
| GlobalMigration.ReadMigrationEvidence | packages/core/src/managedGlobalRecovery.ts:186-289 | the loop over results returns exactly the fold of the evidence: a failed verification taken back, originals bound to the saved ones, working copies contained in them, wrappers bound to their reviewed text |
| MigrationEngine.GlobalMigrationRun.RetainObject | packages/core/src/managedGlobalPreservation.ts:107-135 | moving one original aside is the retain step, in all its outcomes |
| MigrationEngine.GlobalMigrationRun.CopyObject | packages/core/src/managedGlobalPreservation.ts:156-176 | copying one original back is the copy step, in all its outcomes |
| MigrationEngine.GlobalMigrationRun.UninstallWorking | packages/core/src/managedGlobalPreservation.ts:177-215 | after npm, survivors are accepted only when they are known rows; a failed look keeps what was already looked at and forgets the rest; the run goes on only when everything but npm's own file is gone and no lock file appeared |
| MigrationEngine.GlobalMigrationRun.PublishFile | packages/core/src/managedGlobalShell.ts:40-74 | publishing one wrapper or the manifest is the publish step, a failed verification included |
| MigrationEngine.GlobalMigrationRun.Coordinate | packages/core/src/managedGlobalCoordinator.ts:41-62 | the phases preserve, copy, uninstall, publish make exactly the run of the step rule, for every script |
| MigrationOutcome.DoneIsInstalled | packages/core/src/managedGlobalCoordinator.ts:41-67 | for every script: a run that ends as done announced and confirmed every planned operation in the order of the phases, npm came to its end, every wrapper is published with its reviewed text and so is the manifest, every original is under its backup name, no working copy but npm's own file is left, and no lock file was made |
| MigrationOutcome.SmoothRunIsDone | packages/core/src/managedGlobalCoordinator.ts:41-67 | for every plan and system with a new run directory the run in which everything is confirmed ends as done |
| MigrationSafety.RetainKeepsSound | packages/core/src/managedGlobalPreservation.ts:107-135 | a confirmed retain keeps every recorded object on disk where the record says |
| MigrationSafety.CopyKeepsSound | packages/core/src/managedGlobalPreservation.ts:156-176 | so does a confirmed copy |
| MigrationSafety.UninstallKeepsSound | packages/core/src/managedGlobalPreservation.ts:177-215 | so does an uninstall that removed any subset of working rows |
| MigrationSafety.PublishKeepsSound | packages/core/src/managedGlobalShell.ts:84-107 | so does a publication |
| MigrationSafety.SoundIsSafe | packages/core/src/managedGlobalRecoveryModel.ts:16-31 | the projected recovery model of such a state is one a recovery can start from |
| MigrationRecovery.StepSteady | packages/core/src/managedGlobalRecovery.ts:186-220 | after every step that advances, the evidence folds back to exactly the engine's state |
| MigrationRecovery.UnverifiedIsRecoverable | packages/core/src/managedGlobalRecovery.ts:198-218 | a publication whose verification failed is read back as published, and recovery is admitted |
| MigrationRecovery.MigrationLosesNoOriginal | packages/core/src/managedGlobalPreservation.ts:107-215 | however the forward run ends, every original object still exists under some name |
| MigrationRecovery.StoppedMigrationHasModel | packages/core/src/managedGlobalRecoveryModel.ts:16-31 | wherever the forward run stops with a readable journal, every check of the loader passes, the recovery model describes the disk and records the same originals, and the first look passes exactly if npm made no lock file |
| MigrationRecovery.MigrationThenRecoveryRestores | packages/core/src/managedGlobalRecoveryExecution.ts:130-144 | migrate, stop anywhere readable, recover: with every move confirmed the recovery completes exactly if npm made no lock file, and then every original is home and no generated or working object is live |
| RecoveryChain.AcceptedChainIsAcyclic | packages/core/src/managedGlobalRecoveryChain.ts:20-76 | whatever links are stored, an accepted chain visits at most eight different runs and ends at a migration |
| RecoveryChain.LoadsAgain | packages/core/src/managedGlobalRecoveryChain.ts:20-22 | once a run loads, it loads again with the same result exactly while the bound holds and no run of its chain was visited; otherwise with the cycle-or-bound error |
| RecoveryChain.NewRunLoads | packages/core/src/managedGlobalRecoveryChain.ts:31-74 | what an attempt stores, under the name its admission gives it, loads exactly when its state files match its rows, its journal is readable, its chain stays within eight runs, and its rows replay over its source |
| RecoveryChain.WithRecoveryChain | packages/core/src/managedGlobalRecoveryChain.ts:20-76 | the recursive loader, checking name, state files, digest and admission of each run and replaying it over a copy of its parent's model, is the specified load |
| RecoveryChain.ReadStates | packages/core/src/managedGlobalRecoveryAttempt.ts:41-51 | the loop over result rows returns the first fault of the state files |
| RecoveryEvidence.AcceptedEvidence | packages/core/src/managedGlobalRecovery.ts:186-289 | whatever was stored: accepted evidence is bound row by row to its digest, step, operation, saved originals and reviewed text, the history is that of the last result, and a recovery is allowed only on known objects after a confirmed result or a failed verification of a confirmed publication |
| RecoveryEvidence.AcceptedAttempt | packages/core/src/managedGlobalRecoveryChain.ts:20-76 | whatever was stored: an attempt on a chain that loads is accepted exactly if its name, its digest and its admission on that chain agree, every result is confirmed and bound to its own record, and its rows lead from the source's model, each moving the object whose turn it is |
| RecoverySeries.AdmittedIsCurrent | packages/core/src/managedGlobalRecoveryChain.ts:81-102 | whatever was attempted before, from whichever stored run, a run that the loader and the first look accept is what the disk holds now |
| RecoverySeries.AttemptLoads | packages/core/src/managedGlobalRecoveryChain.ts:20-76 | an attempt's own run loads exactly when it stopped between moves and its chain, with the runs visited before, has at most eight runs; and then as the executor's model |
| RecoverySeries.AttemptKeepsConsistent | packages/core/src/managedGlobalRecoveryExecution.ts:34-144 | however an attempt ends, every stored run that loads describes the disk or is left behind for good |
| RecoverySeries.RecoverableExactly | packages/core/src/managedGlobalRecoveryExecution.ts:38-94 | after an attempt another can begin exactly if it stopped between moves on a chain of at most seven runs, or it moved nothing and before it an attempt under another name could have begun |
| RecoverySeries.UnchangedSurroundings | packages/core/src/managedGlobalRecoveryExecution.ts:38-94 | after any series under unchanged surroundings another attempt can begin exactly if the last one stopped between moves on a chain of at most seven runs |
| RecoverySeries.SeriesRestores | packages/core/src/managedGlobalRecoveryExecution.ts:130-144 | after any series of attempts an accepted one that completes brings every original home, and it completes when every move is confirmed |
| RecoveryBound.MigrationThenSeriesRestores | packages/core/src/managedGlobalRecoveryChain.ts:20-102 | the restoring promise from the untouched system through a stopped migration and any series of attempts; the first is accepted exactly if npm made no lock file |
| RecoveryBound.PoisonedFirstStrands | packages/core/src/managedGlobalRecoveryExecution.ts:110-129 | under unchanged surroundings a first recovery recorded unknown before its first rename moves nothing and is the last |
| RecoveryBound.PoisonedIsReached | packages/core/src/managedGlobalRecoveryExecution.ts:110-129 | this is reached from every untouched system with two or more originals, and leaves two of them away from their live names |
| RecoveryBound.EighthPartialRecoveryStrands | packages/core/src/managedGlobalRecoveryChain.ts:22 | seven stopped recoveries and an eighth that makes one move all begin, and then no stored run is accepted under any surroundings, with objects outstanding |
| RecoveryBound.BoundIsReached | packages/core/src/managedGlobalRecoveryChain.ts:22 | this is reached from every untouched system with two or more originals, and leaves an original away from its live name |
| RecoveryBound.SmallPlanIsStranded | packages/core/src/managedGlobalRecoveryExecution.ts:38-94 | a plan of the package, npm's lock file and one leaf reaches both |
| RecoveryBound.LockStopsRecovery | packages/core/src/managedGlobalPreservation.ts:177-215 | npm makes its lock file where there was none: the run stops with a readable journal and its recovery is refused |
| MutationJournal.ParseJournal | packages/core/src/managedGlobalJournal.ts:21-65 | the parser's loop returns what the line-by-line definition does, with the same refusals |
| MutationJournal.AcceptedJournalIsPaired | packages/core/src/managedGlobalJournal.ts:40-65 | in an accepted journal intents and results pair strictly, steps are unique, nothing follows unknown or complete, and the status names the last record |
| MutationJournal.PrefixParses | packages/core/src/managedGlobalJournal.ts:21-65 | every byte prefix past the header line is accepted, holds one record for each further newline, and is torn exactly when cut inside a line |
| MutationJournal.LastHashFixesJournal | packages/core/src/managedGlobalJournal.ts:38-62 | under an injective hash two accepted journals with one last hash have the same header and the same records |
| MutationJournal.AppendAddsOneRecord | packages/core/src/managedGlobalJournal.ts:73-78 | an accepted append adds exactly its own record at the end of the bytes |
| MutationJournal.WrittenJournalParses | packages/core/src/managedGlobalJournal.ts:68-84 | whatever is called, the file parses exactly when its header is valid, then holds exactly the accepted events in order, and is not torn |
| JournalLaws.AppendFollows | packages/core/src/managedGlobalJournal.ts:73-78 | within the bounds an append is accepted exactly when its event may follow those written |
| JournalLaws.WriterAcceptsLegal | packages/core/src/managedGlobalJournal.ts:68-84 | a sequence of calls is accepted as a whole exactly when it is legal; then the bytes parse to it and the status is what its last event says |
| JournaledRecovery.RecoveryIsJournaled | packages/core/src/managedGlobalRecoveryExecution.ts:104-144 | the writer accepts every row of every recovery run, and the parser reads back the rows and how the run ended |
| JournaledMigration.MigrationIsJournaled | packages/core/src/managedGlobalPreservation.ts:107-215 | so it does for every forward run: no step is announced twice, a failed verification included |
| JournaledRegistration.RegistrationIsJournaled | apps/cli/src/registrationMigration.ts:124-146 | so it does for every registration run cut after any atomic step |
| MutationJournal.JournalWriter.AppendEvent | packages/core/src/managedGlobalJournal.ts:73-78 | a rejected call leaves the bytes as they were, an accepted one leaves the specified bytes |
| Registration.Load | apps/cli/src/registrationMigration.ts:162-201 | the recursive loader with its in-place replay is the specified history |
| RegistrationEvidence.AcceptedExactly | apps/cli/src/registrationMigration.ts:180-192 | rows are accepted exactly if they go through states from the start: intents and the checkpoint carry theirs, and each result turns the entry of one file under its own step, with its own state file |
| RegistrationEvidence.HistoryExactly | apps/cli/src/registrationMigration.ts:162-201 | whatever was stored: within the bound a run is accepted exactly if its plan, its saved originals or the history of its source, and its rows vouch for it; then the history goes on with it |
| Registration.AcceptedHistoryIsAcyclic | apps/cli/src/registrationMigration.ts:162-180 | on any graph of source links loading ends; an accepted history is a path of at most eight different runs to its origin |
| RegistrationRuns.StepKeepsTandem | apps/cli/src/registrationMigration.ts:134-144 | every atomic step keeps each of the seven files at what its state entry says |
| RegistrationRuns.StepKeepsLogged | apps/cli/src/registrationMigration.ts:134-144 | after every atomic step the journal and state files replay to the recorded state |
| RegistrationRuns.StepNeverFails | apps/cli/src/registrationMigration.ts:224-233 | with no other writer no check of a run fails |
| RegistrationRuns.DriveKeepsSound | apps/cli/src/registrationMigration.ts:124-148 | after any number of steps all of this holds, and no other run's record has changed |
| RegistrationExecutor.RegistrationRun.RewriteOne | apps/cli/src/registrationMigration.ts:134-144 | intent, atomic replacement, state evidence and result of one file are four steps of the rule, cut off anywhere |
| RegistrationExecutor.RegistrationRun.Execute | apps/cli/src/registrationMigration.ts:124-146 | the whole command, migration or recovery, does what the step rule does for however many steps the process lives |
| RegistrationStops.StepReplacesOnlyKnown | apps/cli/src/registrationMigration.ts:100-111 | whatever the run and the disk: a step changes a file only at its replacement and while it holds what the state says, and then that file and its entry alone |
| RegistrationStops.ForeignStays | apps/cli/src/registrationMigration.ts:100-146 | however long a run goes on, a file that somebody else wrote is not changed |
| RegistrationStops.ForeignFails | apps/cli/src/registrationMigration.ts:134-144 | a run on its way to such a file ends failed with the file as it was |
| RegistrationStops.MigrationStopsAt | apps/cli/src/registrationMigration.ts:134-144 | a migration edits the files before the first such file and ends failed there, that one and all after it untouched |
| RegistrationStops.RecoveryTouchesNothing | apps/cli/src/registrationMigration.ts:202-235 | a recovery with such a file anywhere, and any file to restore, ends failed and has changed none |
| RegistrationChain.NewestHistoryIsTheDisk | apps/cli/src/registrationMigration.ts:162-208 | after any chain of stopped runs, an accepted newest history says "replaced" for exactly the files that hold the edited bytes |
| RegistrationChain.RecoveryRestoresOriginals | apps/cli/src/registrationMigration.ts:217-235 | a recovery from any accepted history, not stopped, ends with all seven files equal to the saved originals |
| RegistrationChain.MigrationReplacesAll | apps/cli/src/registrationMigration.ts:124-148 | a migration that is not stopped leaves all seven files edited |
| RegistrationChain.CompletedMigrationReadsBack | apps/cli/src/registrationMigration.ts:145-149 | the history of a completed migration is accepted, is its own origin, and says every file is replaced |
| RegistrationChain.CompletedRecoveryReadsBack | apps/cli/src/registrationMigration.ts:235 | the read-back after a completed recovery succeeds exactly when the source history has at most seven runs |
| RegistrationChain.EighthRecoveryIsNotReadBack | apps/cli/src/registrationMigration.ts:235 | for every plan a migration and seven recoveries complete and are read back; the eighth recovery completes and is refused |
| JsonText.JsonPrefixLength | apps/cli/src/registrationNodeCodec.ts:25-35 | the measured length splits the raw string into an encoding of exactly the prefix and an encoding of the rest; it fails exactly when the decoded text does not start with the prefix |
| JsonText.EscapeRoundTrip | apps/cli/src/registrationNodeCodec.ts:86 | what JSON.stringify writes between the quotes decodes to the text, lone surrogates and control units included |
| JsonText.PrefixExchange | apps/cli/src/registrationNodeCodec.ts:85-86 | exchanging the encoded prefix exchanges the decoded prefix and keeps the decoded suffix |
| NodeCodec.FindIsAt | apps/cli/src/registrationNodeCodec.ts:15-17 | locating a path in the text and looking it up in the decoded value agree |
| NodeCodec.SetIsReplace | apps/cli/src/registrationNodeCodec.ts:18-22 | giving a string token other raw text decodes to replaceAt on the value |
| NodeCodec.SpliceIsSet | apps/cli/src/registrationNodeCodec.ts:100-103 | splicing the document text inside a string token is giving that token other raw text |
| NodeCodec.LeavesApart | apps/cli/src/registrationNodeCodec.ts:98-103 | different string tokens do not overlap, and changing the later one leaves the earlier one where it is |
| NodeCodec.AnyOrder | apps/cli/src/registrationNodeCodec.ts:98-103 | the order of edits to different tokens does not matter |
| NodeEdit.SpliceEdits | apps/cli/src/registrationNodeCodec.ts:98-103 | the descending splice loop succeeds exactly on distinct tokens and then equals one simultaneous replacement |
| NodeEdit.EditRegistrationNode | apps/cli/src/registrationNodeCodec.ts:63-108 | the edit is accepted exactly when every target holds its command and no two name one string; its final value check never fires |
| NodeEdit.EditDecodes | apps/cli/src/registrationNodeCodec.ts:96-105 | decoding the edited document is folding replaceAt over the decoded one |
| NodeEdit.AnyTargetOrder | apps/cli/src/registrationNodeCodec.ts:71-97 | any order of the targets gives the same document and the same value |
| NodeEdit.OnlyTargetsChange | apps/cli/src/registrationNodeCodec.ts:98-106 | targets decode to the proposed command, every other string keeps its encoding, and all text between strings is the same |
| HookCommands.CommandTokens | apps/cli/src/installShared.ts:28-32 | the loop over matches returns the tokens of a line, or none where something between them is neither token nor white space |
| HookCommands.PathIsFirstToken | apps/cli/src/installShared.ts:23-32 | a path written before white space or the end is read back as the first token, and the rest as it would be alone, exactly if the path is not empty and has no quote; its backslashes stand inside quotes |
| NodeEdit.OnlyNodeTokenChanges | apps/cli/src/registrationNodeCodec.ts:13 | taken apart, an edited hook command has the proposed node as its first token and the old remaining tokens |
| NodeGrammar.TextDecidesValue | apps/cli/src/strictJson.ts:5-20 | a text has at most one tree that the JSON grammar admits, blanks around it included |
| NodeGrammar.EditedTextDecodes | apps/cli/src/registrationNodeCodec.ts:105-106 | whatever a parse of the edited text yields is the edited document, and decodes to replaceAt folded over the original |
| WindowsArguments.ParseWindowsProcessArguments | packages/core/src/managedProcessNative.ts:240-267 | the nested loops over index, value, quote and backslashes return what the specification does, refusals included |
| WindowsArguments.ParsedIsReceived | packages/core/src/managedShell.ts:41-45 | within the bounds, parsing the quoted line gives each argument as the child process receives it |
| WindowsArguments.RoundTrip | packages/core/src/managedShell.ts:41-45 | quoting, joining and parsing is the identity exactly when the bounds hold, no argument has a NUL, and none ends in a backslash and a newline |
| WindowsArguments.RoundTripFails | packages/core/src/managedShell.ts:41-45 | a backslash and a newline come back as two backslashes and a newline |
| WindowsLines.BareWordsAreRead | packages/core/src/managedProcessNative.ts:240-267 | a line without quotes is read as the pieces between spaces and tabs, backslashes kept, and refused exactly when they are too many |
| WindowsLines.OpenQuoteIsRefused | packages/core/src/managedProcessNative.ts:240-267 | a line that is read has an even number of quotes that no backslash escapes; only a line with an odd number is refused for an open quote |
| WindowsLines.DoubledQuotesAreRead | packages/core/src/managedProcessNative.ts:250-258 | quoted arguments with their quotes doubled are read back as they are |
| PendingQueue.Queue.AcquirePendingClaim | packages/core/src/pendingReminders.ts:138-181 | a claim is granted exactly when no reminder is ready and no unexpired claim is held; a stale one is replaced |
| PendingQueue.Queue.ReleasePendingClaim | packages/core/src/pendingReminders.ts:183-194 | the claim that carries the owner's token is removed, and no other |
| PendingQueue.Queue.PublishPendingReminder | packages/core/src/pendingReminders.ts:197-228 | a ready file is written once and never overwritten |
| PendingQueue.Queue.AppendPendingReminder | packages/core/src/pendingReminders.ts:75-88 | a text file is added under a new name, and a name in use is refused |
| PendingQueue.Queue.DrainPendingReminders | packages/core/src/pendingReminders.ts:454-494 | every file of the session is returned once, oldest first, and removed |
| PendingQueue.Queue.CleanupStalePendingDirs | packages/core/src/pendingReminders.ts:276-344 | exactly the directories without an unexpired claim and with no time at or past the cutoff are removed |
| PendingQueue.Queue.HasNonExpiredPendingClaim | packages/core/src/pendingReminders.ts:111-136 | true exactly when some claim of the directory is within its time to live |
| PendingRuns.HeldIsOnDisk | packages/core/src/pendingReminders.ts:138-194 | in every interleaving an unreleased, unexpired claim is still on disk with its owner's token |
| PendingRuns.OneLiveClaim | packages/core/src/pendingReminders.ts:138-194 | two unreleased, unexpired claims of one session and key are one claim |
| PendingRuns.NoSecondGrant | packages/core/src/pendingReminders.ts:138-194 | a key is granted again only after its owner's release or its expiry |
| PendingHistories.ClaimExactly | packages/core/src/pendingReminders.ts:138-194 | from an empty queue: a claim is on disk exactly if some operation wrote it and it was neither released by its owner, nor taken over, nor swept |
| PendingHistories.RefusedExactly | packages/core/src/pendingReminders.ts:138-181 | from an empty queue: an acquire is refused exactly if its key is malformed, a reminder is ready, or an earlier claim of the key, torn ones included, is neither released nor expired |
| PendingHistories.FreeAfterRelease | packages/core/src/pendingReminders.ts:183-194 | after its owner's release a key is free at once for whoever asks next |
| PendingRuns.LateRelease | packages/core/src/pendingReminders.ts:183-194 | in any history a release by an owner that lost its claim to another changes nothing, then or later: the queue is what it would be without it |
| PendingRuns.ReminderFate | packages/core/src/pendingReminders.ts:197-228 | a published text stays unchanged until the first drain of its session, which removes it, or a sweep whose cutoff lies after it |
| PendingRuns.DrainReturnsOnce | packages/core/src/pendingReminders.ts:454-494 | over a whole history a deposited text is returned by at most one drain, at one position, and by one if its session is drained before a sweep with a later cutoff |
| PendingRuns.RemovedBetween | packages/core/src/pendingReminders.ts:307-343 | between two successful publishes of one name its file was removed |
| PendingRuns.SweepTakesOnlyIdle | packages/core/src/pendingReminders.ts:276-344 | in any history only a sweep removes a directory, and only one in which every write since it was made lies before the cutoff and every claim won was released or is expired |
| PendingHistories.SweepTakesExactlyIdle | packages/core/src/pendingReminders.ts:276-344 | from an empty queue: a sweep removes a directory exactly if everything written in it lies before the cutoff and no claim in it stands unexpired |
| ArgumentSize.SerializedArgumentsUtf8Bytes | packages/core/src/entryConstraints.ts:21-43 | the stack loop returns the byte length of the recursive JSON rendering, shared values counted each time, and fails exactly when there is none |
| ArgumentSize.KeptAre | packages/core/src/entryConstraints.ts:37 | the members that count are exactly those with a value, each once and in order |
| ArgumentSize.FailsExactlyOnCycles | packages/core/src/entryConstraints.ts:31 | there is no rendering exactly when some walk from the root comes back to where it has been |
| EntryWindow.ReadWindow | packages/core/src/entryRead.ts:73-85 | a window is the longest part of the buffer within the limit that does not end inside a code point |
| EntryWindow.WindowAdvances | packages/core/src/entryRead.ts:81-82 | on valid UTF-8 every window advances, is valid UTF-8 and ends on a boundary |
| EntryWindow.BoundaryCuts | packages/core/src/entryRead.ts:81-82 | in valid UTF-8 the bytes that do not continue are exactly the places where the text can be cut into two valid texts |
| EntryWindow.ReadAll | packages/core/src/entryRead.ts:73-85 | following the next offset from 0 ends, and the windows put together are the file |
| Indexer.ScanProgress | packages/core/src/indexer.ts:46-88 | a scan gets through exactly when every file reads, ids are distinct, and no refused file precedes the file holding its row |
| Indexer.OneIdTwiceFails | packages/core/src/indexer.ts:46-88 | two files with one id fail the scan |
| Indexer.RefusedFirstFails | packages/core/src/indexer.ts:46-88 | so does a refused file before the file that now holds its row |
| Indexer.SweepScans | packages/core/src/indexer.ts:90-93 | after the sweep a source has the rows of its parsed files and the preserved rows of refused files, with their row numbers; other sources are untouched |
| Indexer.AddedCounts | packages/core/src/indexer.ts:85-95 | the added count is the growth of the table before the sweep |
| Indexer.IncrementalIsForced | packages/core/src/indexer.ts:77-80 | when id, path and time fix the content, incremental and forced scans fail together and agree up to the indexed time |
| Reindex.Index.UpsertEntry | packages/core/src/indexer.ts:133-170 | an upsert keeps the row number and last hit of an existing row |
| Reindex.Index.ScanSource | packages/core/src/indexer.ts:33-99 | the loop is the specified scan; size after is size before plus added minus deleted |
| Reindex.Index.ReindexSource | packages/core/src/autoReindex.ts:260-275 | a failed scan leaves the table as it was |
| Reindex.Index.ReindexAllSources | packages/core/src/autoReindex.ts:185-242 | every source in turn, then the rows of absent community sources dropped |
| Reindex.SourceOutcome | packages/core/src/autoReindex.ts:194-237 | one source's rows are those of its own scan, or unchanged when it cannot be scanned, whatever the other sources do |
| Reindex.AbsentOutcome | packages/core/src/autoReindex.ts:238-242 | a community source without a directory loses its rows, any other absent source keeps them |
| HookSearch.BuildPromptCandidates | packages/core/src/claudeHooks.ts:104-122 | the expand and dedupe loops return the specified candidates |
| HookSearch.UniqueIs | packages/core/src/claudeHooks.ts:113-120 | deduping keeps one candidate of every token, whatever its case, and adds none |
| HookSearch.UniqueKeepsFirst | packages/core/src/claudeHooks.ts:113-120 | the kept candidates are the first of their tokens, in the order they came |
| HookSearch.WindowsAre | packages/core/src/claudeHooks.ts:78-85 | the candidates of a CJK word are exactly its three-unit pieces that are not all hiragana |
| HookCandidates.ExpandedAre | packages/core/src/claudeHooks.ts:78-89 | before deduping, a candidate of group i is word i itself, not CJK and of three or more units, or a three-unit piece of the CJK word i that is not all hiragana; and each of these is one |
| HookCandidates.CandidatesAre | packages/core/src/claudeHooks.ts:104-122 | the candidates are those of the first places of their tokens, whatever their case, in the order of the text; beyond fifty the later ones and no others are left out |
| HookCandidates.KeptInOrder | packages/core/src/claudeHooks.ts:334-338 | leaving out the project's own words keeps the others in their order |
| HookCandidates.FirstSeenAre | packages/core/src/claudeHooks.ts:364-395 | the order that breaks ties has every row met once, by its first meeting, candidate by candidate |
| HookSearch.NoteRows | packages/core/src/claudeHooks.ts:364-408 | noting the rows of one candidate leaves each row with exactly its groups, symptom tokens and topical tokens so far |
| HookRanking.RareTokens | packages/core/src/claudeHooks.ts:419-423 | the rare tokens are exactly those of the least document frequency above zero |
| HookRanking.FindCaveatsForText | packages/core/src/claudeHooks.ts:324-436 | the search returns exactly the rows that pass the three gates, by falling group count with ties as first met, cut at the limit |
| HookRanking.FindCaveatsForHook | packages/core/src/claudeHooks.ts:280-302 | which text and which symptom evidence each surface searches with |
| HookRanking.AnswerIsUnique | packages/core/src/claudeHooks.ts:425-434 | rows, order and ties leave one answer for every limit, the default of five included; one that stays below its limit is exactly the eligible rows |
| HookRanking.LimitDropsLower | packages/core/src/claudeHooks.ts:425-434 | an answer is the beginning of the whole ranking, and what it drops has no more groups than anything it keeps |
| HookRanking.ToolErrorIsSubset | packages/core/src/claudeHooks.ts:293-301 | on the same words a tool error ranks a subset of what a prompt ranks: the rows whose symptom shares a failure token |
| AutoSync.AutoSyncer.RunAutoSyncCycle | packages/core/src/autoSync.ts:297-410 | what a cycle reports and stores, for every stored state and every answer from outside |
| AutoSync.AutoSyncer.ResetAutoSyncFailureState | packages/core/src/autoSync.ts:94-108 | a manual sync clears the failure state and nothing else |
| AutoSync.CountIsTrailingRun | packages/core/src/autoSync.ts:356-373 | the stored count is the length of the trailing run of failures with the stored signature, quiet cycles ignored |
| AutoSync.BackoffHolds | packages/core/src/autoSync.ts:326-332 | at the threshold an attempt comes at least six hours after every earlier stored attempt |
| AutoSync.SyncedWriteIsCovered | packages/core/src/autoSync.ts:300-307 | a write reported already synced is covered by a stored cycle of the same context that started strictly later |
| AutoSync.DegradedIsHeard | packages/core/src/autoSync.ts:391-407 | after every stored degraded cycle the last notice is less than a day old |
| AutoSyncHistories.WaitsExactly | packages/core/src/autoSync.ts:308-311 | after any history a scheduled cycle waits exactly if some stored cycle ended less than the debounce before it |
| AutoSyncHistories.StoredApart | packages/core/src/autoSync.ts:308-311 | two stored cycles, the later one scheduled, are at least its debounce apart |
| AutoSyncHistories.SyncedExactly | packages/core/src/autoSync.ts:300-307 | a write is reported already synced exactly if the last stored cycle has its context and started strictly later |
| AutoSyncHistories.SuspendedExactly | packages/core/src/autoSync.ts:325-330 | own sync is held back exactly after three failures in a row with one error and less than six hours after some attempt |
| AutoSyncHistories.FailureIsCounted | packages/core/src/autoSync.ts:144-180 | a failure is reported exactly when the attempt threw and neither the local repository nor an impossible probe was the reason, and counted exactly when that cycle is stored |
| AutoSyncHistories.NoticeExactly | packages/core/src/autoSync.ts:391-407 | a stored cycle sends a notice exactly if it has a message and that is not the last stored one, or sync is degraded and every notice is a day old |
| AutoSyncHistories.MessageSays | packages/core/src/autoSync.ts:211-245 | the message names the pull, the backoff or else the failed attempt, and the failed community repositories, each exactly when it is so |

## Left out

- Native drivers, access control lists, file modes, group lookup and process tables: only "a rename never overwrites and keeps the object" remains.
- `restoreKnown`, `quarantineWorking` and `quarantineKnown`, the in-session rollback of the forward migration: recovery covers the same moves from stored evidence.
- Read-only checks during migration and recovery (processes, protected files, other packages, directory bindings): each is an event that may refuse a step.
- GlobalMigration.ReadMigrationEvidence: the run id in a staging name, file kinds, link targets and the anchors of later plans are not compared.
- What follows the completion row of a migration, a recovery or a registration run: closing, the independent readback, wrapper contents.
- MutationJournal.ParseJournal: UTF-8 decoding and the key check of JSON objects are part of the abstract decoder.
- An attempt that ends after its directory is made and before its journal is, and an installer lock left behind by a killed process.
- RecoveryChain.WithRecoveryChain: older admission formats, the scope of protected paths, the separate digest of the source's journal, the size bounds of a record's lists and the shared byte budget are not modelled.
- RecoveryExecution.RecoveryExecutor.MoveObject: a read of the object that fails right after a confirmed rename leaves its old state at its new place in the unknown record; the model records the updated state.
- RecoveryModel.ValidateRecoveryJournalState: record schema tags and key sets are not modelled.
- Registration.Load: digests are the values they stand for, and the saved originals are compared with the plan without repeating the edit.
- NodeEdit.EditRegistrationNode: the parse of the text is given as a tree that renders to it (`NodeGrammar` says there is only one); hashes saved with a target are one flag; the character class of a node path, the two-mebibyte bound and the UTF-8 bytes around the text are not modelled.
- HookCommands.PathIsFirstToken: what a shell makes of the quoted path (a doubled backslash, a dollar sign) is not modelled.
- The TOML branch of the registration codec.
- WindowsArguments.RoundTrip: the program name that .NET puts before the arguments is not part of the line.
- PendingQueue.Queue.DrainPendingReminders: reads and unlinks do not fail; ties in time may come in any order.
- Peeking and acknowledging reminders, and lock timeouts of a publish.
- EntryWindow.ReadAll: each read fills its buffer; what the text decoder makes of the bytes (a byte-order mark) is not modelled.
- The frontmatter graph limits of entryConstraints.ts.
- HookSearch.BuildPromptCandidates: path stripping and word splitting are inputs.
- Merging the hits of several hook segments, and reminder texts.
- Sealed sources in reindexing, the diagnostics file, and the reindex file lock.
- Waiting for a busy lock in autosync, community pulls themselves, and cycles that end in an exception other than in reindexing.
- Child processes, git, npm, HTTP, credentials, the web portal, the MCP server and the keyserver.
