# DployDB, modelled and verified

DployDB deploys one application that owns one SQLite database. A deployment
blocks traffic, stops the old application, takes a final backup, migrates the
production file in place, starts the new application and switches traffic. The
process may die after any of those steps; a later `recover` has only the durable
manifests, the event log and the live resources to decide what is safe. This
project models that protocol and the stores beneath it, and proves what must
hold after every failure of every step and every crash, over the whole life of an
installation.

## How the model is built

- `Sites.dfy` says what one deployment leaves behind: its durable records, the
  world they describe (database, applications by handle, traffic target,
  maintenance), and `Story`, a history used only by proofs: the content of the last
  acknowledged write and what the old application last left, whether the new
  application was ever exposed, whose data the database holds (`Lineage`),
  whether every restart of the old application found exactly what it had left, and
  what was checked with traffic open.
  `Inv` is the invariant of every reachable site, `Steps.dfy` every step as a
  function on sites with the lemma that it keeps `Inv`.
- `Host.dfy` is the machine a coordinator acts on. Each method is one durable
  write or one external action. It may complete, raise, or end in `Crash`, with
  or without its effect, and running applications may write between any two
  steps. Every store call passes the store's own checks and raises when they
  refuse it. Preconditions say when an action is safe; every exit keeps `Inv`, so
  a coordinator that verifies keeps it at every crash point of every run.
- `Host`, like every store and storage whose operations may fail, carries `faults` (or a
  script), a bound on how often something may still go wrong: every crash, every raised
  error, every hook that does not pass takes one. So a contract can say what happens
  when nothing goes wrong, or one thing, and giving up without a reason breaks it. `Host`
  also remembers, for the proofs only, what the coordinator at work has left `unknown`,
  what it has `checked`, and which hooks it `ran`.
- `Deployment.dfy` and `Recovery.dfy` are the two coordinators, stage by stage and
  action by action, with their mutable context flags and exception handling.
  `RecoveryPlan.dfy` is the pure planner, `Repetition.dfy` what recoveries
  promise when they are interrupted and repeated, and when a restart is exact.
- `Installation.dfy` is the machine over its whole life: deployments, recoveries
  and manual restores in any order, all containers by handle, release history,
  pointers, and whose data the database and each final backup hold.
- `Releases.dfy` is the release store, `Operation.dfy` the operation manifest and
  the checks of every write to it, `OperationLog.dfy` its two files down to the text
  on disk, `Ownership.dfy` the lock and the operations of successive holders.
- `Databases.dfy` is the restore engine over a main file and a write-ahead log,
  `ManualRestore.dfy` the manual-restore coordinator, `Backups.dfy` remote and
  local backup storage, `Retention.dfy` the retention planner.
- `Commands.dfy` and `Capture.dfy` are the subprocess runner, whose "may have run"
  evidence the recovery proof rests on.

Assumptions: containers change running state only by protocol actions; a durable
write of the protocol model happens completely or the process dies (torn writes
are the subject of `OperationLog.dfy`); a digest identifies content; ids are
numbered in creation order; clocks do not go back. A keyboard interrupt, which
the coordinators do not handle, is a crash.

## What the proofs found in the code

- Recovery decides whether to skip the restore by hashing the main file only
  (dploydb/recovery.py:429-432 and 1097-1109), so two kinds of rows escape it: rows
  still in the write-ahead log (`HiddenMigrationIsKept`) and rows that a new
  application, still running behind maintenance, writes before it is removed
  (`LateWriteIsKept`). A skipped restore restarts the old application on exactly
  what it had left, in every continuation, if and only if the new application is
  not running and either nothing may have changed or the log adds nothing
  (`SkippedRestoreIsExact`). Every plan that restores, or has nothing to restart, is
  exact without any condition (`Recover`), and so is every deployment's own
  rollback. What a caller finds before the recovery starts decides already
  (`NothingHiddenStays`). No other recovery of any history ever loses exactness
  (`AnyHistory`, `AnyLife`).
- `restore_verified_database` removes the log before `replacement_started` is set
  (dploydb/restore.py:87-90), so "failed before replacement" keeps the main file, and
  the rows exactly if the log added nothing beforehand
  (`FailureBeforeReplacementKeepsContent`). Manual restore then reports a safe
  failure over lost rows, because `database_replaced` is still false
  (dploydb/manual_restore.py:450-457 and 624): `SafeFailureCanLoseRows` gives a
  database that loses rows this way, `SafeFailureKeepsRowsExactly` the condition on what the application left.
- Traffic is open to the new application before the pointers select its release. A
  crash in between leaves a release that serves and would not be inherited
  (`InheritedExactly`, `TerminalReleaseMayStillBePlanned`); no command may start
  from there, and its recovery plan looks executable but is refused, because the
  release is already terminal. After the refusal no plan does anything
  (`RefusedOwnershipSettles`).
- A deployment that dies between creating its operation and creating its release, or
  fails there in a way that needs recovery (dploydb/deploy.py:158-226), leaves an operation no release belongs to. No recovery
  plan takes it up and no command starts again; applications, routing and release
  history stay as they are for good (`RunDeploy`, `AnyLife`,
  `OrphanedDeploymentBlocks`).
- A release that needed recovery before its rehearsal snapshot, but inherited a
  previous application, gets an executable rollback plan whose mark can never be
  accepted (`UnmarkableRollbackIsPlanned`, `ResolutionAcceptedExactly`).
- A recovery that dies while it still owns the lock record, but after its own
  operation left `in_progress`, blocks every later command and recovery for good
  (`UnreleasedRecoveryWedges`, `UnrecordedRecoveryWedges`, `AnySessions`). An
  unfinished command of another kind blocks recovery too
  (`UnrelatedOperationRefuses`).
- An operation event whose text holds a raw U+0085, U+2028 or U+2029 is stored and
  then makes its operation unreadable for good (`FramingRoundTrip`,
  `RawSeparatorLocksTheLog`). An operation with 256 events can no longer be closed.
- A put whose marker reply is lost and whose clean-up half fails leaves remote
  metadata without bytes (`InterruptedPutOrphans`); repeating the put never
  converges from there, while a delete does. Local deletion is the other way round:
  it refuses exactly that state.
- A local put whose last directory sync fails removes its database but not the marker it
  has already linked (dploydb/storage/local.py:90-101 and 205-215). From there `get`, every
  later put of that id and every deletion refuse (`InterruptedLocalPutWedges`).
- An enable-maintenance hook whose process cleanup is not proven asks for recovery only
  through its own error. If the verification after a passed clean-up hook then fails with
  a known error, that error is reported instead (dploydb/deploy.py:470-495), and the
  deployment ends failed safe while the hook may still run: `UndoMaintenance` and
  `RunDeployment` promise recovery only if nothing else fails. Manual restore behaves
  alike (dploydb/manual_restore.py:679-710); there even an unproven disable can be hidden,
  by a refused event record.
- The `recovery_required` branch of `_finish_failed_before_rollback`
  (dploydb/deploy.py:875-884) cannot be reached: such errors are handled earlier.

## Model

| member | source | states |
|---|---|---|
| Commands.MayHaveRunTestsAgree | dploydb/deploy.py:1096-1100 | the deploy, migration and recovery tests for "may have run" agree on every valid command result, and a passed hook may have run, exited zero and had both streams captured whole |
| Commands.Child.WaitForCompletion | dploydb/subprocesses.py:427-444 | no termination reason means the process exited and both readers ended; cancellation is given only when it was requested, a timeout only after the whole budget without a request |
| Commands.Child.WaitForGroupCleanup | dploydb/subprocesses.py:474-503 | cleanup counts as proven exactly when exit, group disappearance and reader shutdown were all observed |
| Commands.Child.TerminateGroup | dploydb/subprocesses.py:446-472 | no cleanup error means the whole group and both readers are gone and no reader failed; without a forced kill they were gone within the grace period |
| Commands.RunCommand | dploydb/subprocesses.py:275-425 | every result satisfies the checks of dploydb/subprocesses.py:97-130, its outcome is the one its termination reason calls for, "never started" evidence appears exactly when no process was started, a reader that failed always shows as a failed cleanup, and a command nothing goes wrong with passes |
| Capture.BoundedCapture.Append | dploydb/subprocesses.py:169-184 | after any chunk the capture holds the first head-limit bytes and the last tail-limit bytes of the rest of the whole stream |
| Capture.BoundedCapture.Snapshot | dploydb/subprocesses.py:186-200 | retained is min(limit, total), and head plus tail is the stream exactly when nothing was truncated |
| Capture.TailOfAppend | dploydb/subprocesses.py:169-184 | updating the kept tail with one chunk equals taking the tail of the longer stream |
| Capture.Drain | dploydb/subprocesses.py:214-228 | the captured result depends on the bytes alone, not on how they were split into reads |
| Databases.FailureBeforeReplacementKeepsContent | dploydb/restore.py:80-133 | a failure before replacement always keeps the main file; it keeps the rows in every case exactly if the log added nothing before the call |
| Databases.FailureBeforeReplacementCanLoseRows | dploydb/restore.py:87-90 | a concrete database whose committed rows such a failure loses |
| Databases.DatabaseDirectory.Materialize | dploydb/restore.py:306-347 | the staged copy is the whole backup, or something went wrong and nothing is staged |
| Databases.DatabaseDirectory.RestoreVerifiedDatabase | dploydb/restore.py:48-133 | each outcome leaves one of exactly the listed database states; refused exactly when a caller flag forbids it; an intact backup is restored unless something goes wrong, and a damaged one never touches the files |
| Databases.DatabaseDirectory.RestorePrevious | dploydb/restore.py:363-394 | success is exactly the pre-restore content with no log left, and happens unless something goes wrong |
| Databases.DatabaseDirectory.RestoreStoppedDatabase | dploydb/restore.py:136-275 | success is exactly the selected backup and a safe failure exactly the rows from before, at every failure point; without a failure the status is success for an intact backup and a safe failure for a damaged one, and a single failure after the replacement began is undone |
| Releases.CallPreserves | dploydb/releases.py:199-304 | an accepted call keeps the manifest valid, its identity and intents, terminal states, and strictly lowers the rank when it moves the status |
| Releases.LifecycleOfEveryRun | dploydb/releases.py:47-124 | over any sequence of accepted or refused calls: valid, intents never retracted, terminal states absorbing but for one resolution that keeps the original failure, at most rank-many moves |
| Releases.EdgesAreExact | dploydb/releases.py:47-124 | the status graph is the path of twelve stages, each leading only to the next, and exactly four ways off it |
| Releases.StagesAreEarned | dploydb/releases.py:199-304 | over any calls, a stage on the path, and an unresolved active status, is reached only through every stage before it |
| Releases.TerminalManifestsMean | dploydb/models.py:568-705 | what a manifest that passes the validator proves: full evidence behind an active release, none of traffic behind the two safe endings, and applications under the release's own identity |
| Releases.IntentAcceptedExactly | dploydb/releases.py:252-273 | an intent is recorded exactly if one is given, the release is open, a migration has its final backup, and an activation follows a checked application on a changed database; nothing else changes |
| Releases.ResolutionAcceptedExactly | dploydb/models.py:568-705 | a rolled-back mark is accepted exactly with a rehearsal backup and a previous application; an active mark also needs the recorded attempt |
| Releases.ReleaseStore.CreateRelease | dploydb/releases.py:159-197 | a fresh, highest id and exactly this created manifest, with the active release and its application inherited as previous |
| Releases.ReleaseStore.Update | dploydb/releases.py:199-304 | a refused call changes nothing, an accepted one exactly its own valid manifest |
| Releases.ReleaseStore.ActivateRelease | dploydb/releases.py:343-360 | accepted exactly for active manifests; the former selection becomes previous; repeating it changes nothing |
| Operations.AcceptedExactly | dploydb/models.py:189-212 | a write to an operation is refused exactly for a closed operation, a clock moved back, a stage not left, or facts that contradict the status; an accepted one passes the manifest validator |
| RecoveryPlanning.FindTerminalActivation | dploydb/recovery.py:1168-1172 | the scan finds the last activate-new evidence of the trail |
| RecoveryPlanning.LastActivationIsRecorded | dploydb/recovery.py:1168-1175 | that evidence is the last activation event of the trail, and none means no event carries any |
| RecoveryPlanning.ConclusionFollowsTheFinalWord | dploydb/recovery.py:1160-1184 | traffic is concluded to have switched, or never to have moved, exactly on the release's own record or on the final activation event of the trail; an attempt without such evidence stays uncertain |
| RecoveryPlanning.RestoreAuthorizedOnlyWithEvidence | dploydb/recovery.py:959-1141 | a plan that restores has traffic never activated and, if it was attempted, a final activation event that says its command never started; the old writer stopped, the backup verified, the new application absent or removed first, and a restart after it |
| RecoveryPlanning.ExposureRulesOutRollback | dploydb/recovery.py:1160-1184 | an attempt without "never started" evidence rules out every rollback and every restore |
| RecoveryPlanning.DispositionsAreExact | dploydb/recovery.py:959-1141 | for any evidence at all, exactly when a plan rolls back, completes, does nothing, or is left to a person |
| RecoveryPlanning.FlagsAreExact | dploydb/recovery.py:959-1141 | for any evidence at all, exactly when a plan reports a production change, traffic possibly switched, and a permitted restore; an activation that may have run is always reported as both and never permits one |
| RecoveryPlanning.ForeignEvidenceIsLeftToAPerson | dploydb/recovery.py:1144-1157 | only the complete event trail of the release's own deployment is acted on or taken to be at rest |
| RecoveryPlanning.ActionsAreExact | dploydb/recovery.py:1083-1141 | a rollback removes, restores and restarts exactly where live facts call for it, and always confirms the target, lifts maintenance, verifies and marks |
| RecoveryPlanning.PlansEndInTheirMark | dploydb/recovery.py:1083-1141 | executable plans are strictly ordered and end in their own mark, and only there |
| RecoveryPlanning.OwnedPlansRollback | dploydb/recovery.py:556-600 | superseding both records leaves only live facts to decide the next plan |
| RecoveryPlanning.ReplanDropsExactlyWhatIsDone | dploydb/recovery.py:603-734 | after any executed prefix, the next diagnosis plans exactly the actions not completed |
| RecoveryPlanning.WritesAfterRestartForceManual | dploydb/recovery.py:1101-1116 | once the restarted application changed the database, no plan rolls back or restores |
| Sites.InitialIsSafe | dploydb/releases.py:159-197 | a release just created beside a serving application satisfies the whole site invariant |
| Sites.OpenTrafficReachesItsOwnData | dploydb/deploy.py:231-411 | whenever traffic is open exactly one application runs, it is the one traffic reaches, and the database holds its data and its last acknowledged content |
| Sites.SettledOpensTheNext | dploydb/migration.py:507-528 | once no record blocks a new command, traffic is open, the release is at rest, and the serving application is the one the next release inherits |
| Sites.InheritedServesExactly | dploydb/releases.py:343-360 | with traffic open, the next release would inherit the serving application exactly if an exposed release is already selected by the pointers |
| Sites.AcknowledgedWritesSurvive | dploydb/deploy.py:231-411 | at every reachable site whose restarts were all exact, the last acknowledged content is in production, or both applications are behind the block and it is in the final backup |
| Sites.ExposedReleaseIsNeverRolledBack | dploydb/recovery.py:1006-1042 | once the activate-new hook may have taken effect no diagnosis plans a rollback or a restore |
| Sites.PlanTellsTheTruth | dploydb/recovery.py:1006-1081 | at every reachable site an exposed release is reported as changed, possibly switched and not to be restored, whether the plan is executable or not; a plan that denies a change at a site still at work finds exactly the acknowledged content in production |
| Sites.PlanFlagsAreExact | dploydb/recovery.py:959-1141 | each flag of a plan at a reachable site, exactly |
| Sites.PlannedRestoreLosesNothing | dploydb/recovery.py:1097-1117 | at every reachable site a planned restore finds no application running, traffic blocked on the old target, and a backup equal to the last acknowledged content |
| Sites.SkippedRestoreMatched | dploydb/recovery.py:1097-1120 | a plan that skips the restore matched the digest of the main file; the database then holds the acknowledged content exactly if nothing may have changed or the log adds nothing |
| Repetitions.SkippedRestoreIsExact | dploydb/recovery.py:1097-1120 | after a plan that skips the restore, the restart finds what the old application left in every continuation exactly if the new application is not running and either nothing may have changed or the log adds nothing |
| Repetitions.HiddenMigrationIsKept | dploydb/recovery.py:429-432 | a concrete safe site where the digest matches, the restore is skipped and migrated rows stay in the log |
| Repetitions.LateWriteIsKept | dploydb/recovery.py:1101-1120 | a concrete safe site whose database equals the backup when it is hashed, and a continuation in which the running new application wrote before its removal |
| Repetitions.UnmarkableRollbackIsPlanned | dploydb/models.py:621-636 | a concrete safe site with an executable rollback plan whose mark every call refuses |
| Repetitions.ResolvedAutomaticallyExactly | dploydb/recovery.py:959-1141 | which reachable crash sites a full diagnosis resolves by itself: completion exactly on proven exposure, rollback exactly on ruled-out exposure with recorded applications and a usable backup, nothing exactly at rest |
| Repetitions.InterruptedRollbackIsReplanned | dploydb/recovery.py:603-734 | after any performed prefix of a rollback, the next full diagnosis of the resulting site plans exactly the actions not completed |
| Repetitions.InterruptedRecoveryConverges | dploydb/recovery.py:603-734 | an interrupted and repeated rollback ends in the same database, applications, traffic target, maintenance and history as an uninterrupted one |
| Hosts.Host.WriteRelease | dploydb/releases.py:512-557 | a refused call raises and writes nothing; an accepted one is written and keeps the site invariant |
| Hosts.Host.WriteOperation | dploydb/state.py:144-236 | one event and the manifest that agrees with it; raises only when a check of the store fails, and then nothing is written |
| Hosts.Host.SwitchPointers | dploydb/releases.py:343-360 | only an active release is selected; the former selection becomes previous; a crash leaves the pointers old or new |
| Hosts.Host.ActivateNewTraffic | dploydb/deploy.py:530-533 | callable only with the attempt durable and a running checked application; exposure is possible exactly when the hook may have run; what it leaves is unknown exactly if its cleanup failed |
| Hosts.Host.Migrate | dploydb/cutover.py:313-321 | callable only with its intent durable, behind the block, with no application on the database; it completes unless something goes wrong |
| Hosts.Host.RestoreFinal | dploydb/cutover.py:148-196 | callable only with every application down, the writer seen stopped by this very coordinator, no earlier step of it leaving anything unknown, traffic blocked and never switched, and a backup equal to the acknowledged content |
| Hosts.Host.RestartPrevious | dploydb/deploy.py:741-749 | exactly the recorded previous application restarts, only with the new one absent; the history stays clean exactly if it finds what it had left |
| Hosts.Host.Check | dploydb/deploy.py:819-845 | a passed check establishes its subject and what the running applications prove; a failed one leaves something unknown exactly if its error says so |
| Steps.RestartIsSafe | dploydb/deploy.py:741-749 | that restart keeps the site invariant and records whether the content was exact |
| Steps.ExposureIsSafe | dploydb/deploy.py:512-550 | exposing the checked application after its attempt is durable keeps the site invariant, whether or not the target moved |
| Steps.MigrationIsSafe | dploydb/cutover.py:313-321 | whatever a migration command did to the database keeps the site invariant once its intent is durable |
| Steps.ReplacementIsSafe | dploydb/restore.py:80-133 | every state a replacement may leave keeps the site invariant while both applications are down |
| Deployments.OperationWriteIsSafe | dploydb/state.py:144-199 | an accepted operation record passes its validator, and one that hides no change keeps the site invariant and the activation evidence |
| Deployments.ActivationEvidenceIsSafe | dploydb/deploy.py:533-537 | recording the hook's outcome keeps the invariant, and a passed hook concludes as succeeded |
| Deployments.StageWriteIsSafe | dploydb/deploy.py:867-871 | every forward stage record keeps the site invariant |
| Deployments.IntentIsSafe | dploydb/releases.py:252-273 | both intents are accepted, and safe, where the coordinator records them |
| Deployments.TerminalWriteIsSafe | dploydb/deploy.py:909-929 | a terminal release record is accepted and safe when the world is what the state promises |
| Deployments.TerminalWriteIsValid | dploydb/models.py:568-705 | that record passes the manifest validator and is an edge of the status graph |
| Deployments.RollbackIsAccepted | dploydb/releases.py:85-110 | rollback may start from every stage behind maintenance |
| Deployments.Deployment.Advance | dploydb/state.py:144-199 | the coordinator never names the stage it is in and always states matching facts, so no lifecycle record of the operation is refused |
| Deployments.Deployment.Record | dploydb/state.py:201-236 | exactly one event, with exactly the given hook outcome, is appended to the operation in progress; never refused, and stage and facts stay |
| Deployments.Deployment.PersistStage | dploydb/deploy.py:848-871 | operation record first, then release; both validators accept, and exactly those two records change |
| Deployments.Deployment.PreCutover | dploydb/deploy.py:414-440 | each of the four candidate transitions is recorded only after what it stands for passed, the whole candidate result passes last, and production stays untouched |
| Deployments.Deployment.Observe | dploydb/deploy.py:415-438 | each reported stage is checked before it is recorded, accepted in order, and production stays untouched |
| Deployments.Deployment.ResolvePrevious | dploydb/deploy.py:443-467 | the running application is identified, by inspection or by discovery, before anything is touched; failure leaves production untouched |
| Deployments.Deployment.EnterMaintenance | dploydb/deploy.py:470-509 | a failed enable is undone before it is reported, and a cleanup it left unproven asks for recovery unless something else fails too; success is behind maintenance with the old application up |
| Deployments.Deployment.UndoMaintenance | dploydb/deploy.py:475-495 | reports the hook's own failure over an untouched host once the serving application was verified again, or what went wrong meanwhile |
| Deployments.Deployment.Lift | dploydb/deploy.py:598-614 | maintenance is lifted, its evidence recorded, and whether it is still on is unknown exactly if the hook did not pass |
| Deployments.Deployment.StopCurrent | dploydb/deploy.py:258-274 | the old writer is stopped and recorded, or a rollback is possible |
| Deployments.Deployment.TakeFinalBackup | dploydb/deploy.py:276-293 | the backup of the stopped writer is named by the manifest, or a rollback is possible |
| Deployments.Deployment.ReplicateFinalBackup | dploydb/deploy.py:553-595 | success means a required remote copy was committed and verified, without which the migration is never announced; a failed one still permits a rollback, with production unchanged |
| Deployments.Deployment.AnnounceMigration | dploydb/deploy.py:303-319 | the migration intent is durable in both records before the command may run |
| Deployments.Deployment.MigrateProduction | dploydb/deploy.py:320-340 | a checked migration is recorded, or a rollback is possible |
| Deployments.Deployment.StartNewApplication | dploydb/deploy.py:342-353 | the new application runs only on a checked migration and under the requested identity |
| Deployments.Deployment.CheckNewApplication | dploydb/deploy.py:354-383 | health is recorded only after the running new application passed its checks |
| Deployments.Deployment.AnnounceActivation | dploydb/deploy.py:513-529 | the activation attempt is durable before the hook may run |
| Deployments.Deployment.ActivateTraffic | dploydb/deploy.py:530-537 | the outcome is durable directly after the hook; traffic counts as attempted exactly if the hook may have run, and only otherwise is a rollback permitted |
| Deployments.Deployment.RecordActivation | dploydb/deploy.py:537-550 | the activated release is recorded on durable success evidence and never refused |
| Deployments.Deployment.OpenTraffic | dploydb/deploy.py:598-614 | traffic opens only to the exposed new application; failure needs recovery, never a rollback |
| Deployments.Deployment.Close | dploydb/deploy.py:886-906 | release first, then operation, with agreeing terminal states; neither is refused |
| Deployments.Deployment.CompleteActive | dploydb/deploy.py:617-686 | release, pointers, retention record, operation, in that order and none refused; both records are terminal over a served, selected new application |
| Deployments.Deployment.FinishFailedBeforeRollback | dploydb/deploy.py:874-906 | failed safe over an untouched, serving previous application |
| Deployments.Deployment.FinishRecoveryRequired | dploydb/deploy.py:909-960 | both closing records are accepted and claim a production change exactly if the coordinator or the error does |
| Deployments.Deployment.StartRollback | dploydb/deploy.py:691-702 | the rollback record is accepted from every blocked stage |
| Deployments.Deployment.RemoveFailedRelease | dploydb/deploy.py:703-709 | the new application is proven absent before the database is touched |
| Deployments.Deployment.RestoreProduction | dploydb/deploy.py:710-732 | nothing runs on the database and a stopped writer's content is exactly restored |
| Deployments.Deployment.RestartApplication | dploydb/deploy.py:741-749 | the exact previous application runs again on exactly its content |
| Deployments.Deployment.ReturnTraffic | dploydb/deploy.py:750-760 | the hook back to the old target passed before maintenance is lifted |
| Deployments.Deployment.LiftMaintenance | dploydb/deploy.py:761-773 | traffic returns to the running previous application, which is then verified |
| Deployments.Deployment.CompleteRollback | dploydb/deploy.py:774-797 | rolled back over the verified previous application, with the original failure |
| Deployments.Deployment.Rollback | dploydb/deploy.py:689-816 | ends rolled back on exactly the old content with the original failure, or records that the rollback could not be proven |
| Deployments.Deployment.RunDeployment | dploydb/deploy.py:231-411 | under any failures and a crash anywhere: every status change accepted, every site left safe, one of four endings with the world its records promise and with exactly the hooks that ran, in order, on the event log. A step that leaves anything unknown (an unproven process cleanup, contradicted containers, an unexpected error) always ends in recovery required, and nothing is restored after it; recovery required without one comes only from touched traffic, a rollback that failed, or an enable hook that may still run. Traffic counts as attempted exactly if the new application may be exposed, and a production change is claimed exactly if the migration was announced or the raised error claims it. With nothing going wrong it ends active with everything established; with one failure the ending is exactly the one due: rolled back behind maintenance, untouched before it, recovery otherwise |
| Deployments.RecordRevealsTheCause | dploydb/deploy.py:386-411 | the final release determines which cause selected the ending: recovery needed, traffic activated, traffic attempted, or behind maintenance |
| Recoveries.PlanIsReady | dploydb/recovery.py:1083-1141 | every executable plan is ordered and starts in a world it can finish in; whenever it restores or nothing is hidden, in a world where its restart will be exact |
| Recoveries.NothingHiddenStays | dploydb/recovery.py:1097-1120 | if nothing is hidden before a recovery starts, writes before its diagnosis hide nothing new from its plan |
| Recoveries.ReadySurvives | dploydb/recovery.py:556-632 | records and running applications never make a plan unready |
| Recoveries.FinalMarkIsSafe | dploydb/recovery.py:837-843 | the active mark is always accepted, the rolled-back mark exactly with a rehearsal backup, and both are safe |
| Recoveries.ResolvedIsNeverReplanned | dploydb/recovery.py:970-990 | once a resolution is durable no action is ever planned again |
| Recoveries.SettledIsNeverPlanned | dploydb/recovery.py:970-990 | where no record blocks a new command, no diagnosis plans anything |
| Recoveries.TerminalReleaseMayStillBePlanned | dploydb/deploy.py:618-669 | a concrete crash site between the active record and the pointers: the plan is executable, the store refuses its ownership, the serving application would not be inherited, and once the operation is closed every plan is empty |
| Recoveries.Recovery.Diagnose | dploydb/recovery.py:306-444 | refuses exactly on an incomplete resolution; otherwise reports exact live facts or unknown, and everything that can be known unless something goes wrong |
| Recoveries.Recovery.TakeOwnership | dploydb/recovery.py:556-600 | supersedes every unfinished record before anything else and refuses only terminal releases |
| Recoveries.Recovery.SupersedeOperations | dploydb/recovery.py:568-592 | every unfinished recovery, newest first, and then the interrupted deployment are closed with their own production change and the plan's; closed ones are left alone and none is refused |
| Recoveries.Recovery.SupersedeRelease | dploydb/recovery.py:593-600 | accepted for every release that is not terminal, and never understates the plan |
| Recoveries.Recovery.Begin | dploydb/recovery.py:240-263 | only an executable plan of a diagnosis of this very site proceeds, and everything else is refused without a write unless the release turns out to be terminal; it owns the release and opens its operation in a world still ready for it |
| Recoveries.Recovery.RemoveNew | dploydb/recovery.py:633-647 | leaves exactly the rest of the plan to do |
| Recoveries.Recovery.RestartPrevious | dploydb/recovery.py:661-678 | reached only with the new application absent; a restart after a restore, or over an unchanged database, finds exactly what the application had left |
| Recoveries.Recovery.LiftMaintenance | dploydb/recovery.py:683-686 | maintenance is lifted only for an application that serves |
| Recoveries.Recovery.Verify | dploydb/recovery.py:687-716 | a rollback and a completion are each marked only after this check of the application traffic reaches passed with traffic open |
| Recoveries.Recovery.RestoreBackup | dploydb/recovery.py:737-788 | at the call every application is down, seen stopped, and traffic blocked, so its literal flags are true, and the backup was opened and verified; success is exactly the acknowledged content |
| Recoveries.Recovery.Complete | dploydb/recovery.py:827-869 | resolves the release with its failure preserved, selects it if active, then closes the recovery; refused only without a rehearsal backup |
| Recoveries.Recovery.Log | dploydb/recovery.py:620-632 | no announcement or evidence of a recovery is refused by its operation store, and each adds exactly one event with the stage and change it names |
| Recoveries.Recovery.ExecutePlan | dploydb/recovery.py:603-734 | every action is safe when reached, nothing is exposed, success is the world the mark promises, and with nothing going wrong it succeeds exactly unless a rollback lacks its rehearsal backup |
| Recoveries.Recovery.Recover | dploydb/recovery.py:224-303 | one recovery cut short anywhere keeps the site safe, the exposure and the identities; it acts only on its own diagnosis of the site; every restart is exact unless that plan skips the restore while rows are hidden; success, of either kind, is the world its mark promises, with the application traffic reaches checked while traffic was open; a raise leaves its record asking for another recovery; with nothing going wrong it succeeds exactly where the site it diagnosed has an executable full plan, an open release and a mark that will be accepted |
| Recoveries.ChainKeepsClean | dploydb/recovery.py:224-303 | along any chain of recoveries exactness is lost only in one whose own diagnosis was inexact |
| Recoveries.AnyHistory | dploydb/recovery.py:224-303 | one deployment and any number of recoveries, each crashing anywhere, chained from site to site: exposed releases are never rolled back, exactness is lost only in a recovery whose own diagnosis skips the restore while rows are hidden, and until then acknowledged writes survive and traffic is open only to an application on its own data; a rolled-back release and a recovered active one were checked with traffic open |
| Installations.AnyLife | dploydb/deploy.py:231-411 | over any sequence of deployments, recoveries and manual restores, the first two cut short anywhere: whenever traffic is open exactly one application runs, it is the one traffic reaches and, while every restart was exact, the database holds its data; exactness is lost only in a recovery whose own diagnosis skips the restore while rows are hidden; whenever a command may start, traffic is open and that application is the one the next release inherits; a wedged installation never changes again; after a completed restore no other is accepted until a release at least as new as the replaced one is selected |
| Installations.Installation.Take | dploydb/recovery.py:224-303 | every turn keeps the installation valid; the pointers move only to the newest release by deploying or recovering it, or to a swapped pair by a restore; with nothing going wrong a deployment that may start activates its release and a recovery resolves what is recoverable and markable; exactness is lost only in a recovery of it whose own diagnosis skips the restore while rows are hidden |
| Installations.Installation.RunDeploy | dploydb/deploy.py:130-229 | refused without any change unless a command may start; over before its release exists, it leaves nothing or an operation that wedges the installation; otherwise exactly one release is created, and its deployment opens on the application and data that serve and inherits the selection; an active ending, the only one where nothing goes wrong, routes traffic to the new release and selects it, the two safe ones keep routing and pointers; a command may start again exactly after these three or when nothing was left |
| Installations.Installation.RunRecover | dploydb/recovery.py:224-303 | a recovery acts on its own diagnosis of the newest deployment, and is inexact only if that plan skips the restore while rows are hidden; with nothing going wrong it resolves exactly what is recoverable and markable; after a resolved one a command may start again; a wedged installation keeps its records, applications and routing |
| Installations.Installation.RunRestore | dploydb/manual_restore.py:371-610 | carried out exactly when a command may start and the preview accepts; a completed one, which an intact backup gets unless something goes wrong, routes traffic to the previewed release's application, selects it and makes the release it replaced the previous one; a safe failure returns to the current one, anything else blocks every later command; at every ending each application is on its own data |
| Installations.Installation.SwappedAcceptsNoRestore | dploydb/manual_restore.py:207-214 | in every valid store whose protected release is newer than the selected one, as a completed restore leaves them, no preview of any release is accepted |
| Installations.Installation.SelectedIsKept | dploydb/manual_restore.py:177-275 | an accepted preview names a container that still exists and is stopped, and the active release's final backup holds that application's data |
| Installations.Installation.OpenTrafficServesOne | dploydb/deploy.py:231-411 | in every valid installation with traffic open exactly the routed application runs, on its own data |
| Installations.Installation.StartableServesTheInherited | dploydb/releases.py:159-197 | once a command may start, traffic is open, every release is at rest and the next one inherits the routed application |
| Installations.Installation.InheritedExactly | dploydb/releases.py:343-360 | an open installation with a deployment in view hands on the serving application exactly if an exposed release is selected |
| Installations.Installation.DiagnosisFollowsTheNewest | dploydb/recovery.py:371-415 | over the whole release history diagnosis is never ambiguous: at most one release is unresolved, and it takes up exactly the newest deployment |
| OperationLog.FramingRoundTrip | dploydb/state.py:256-302 | the records read are the records written exactly when none holds a raw Unicode line separator |
| OperationLog.CarriageReturnIsAbsorbed | dploydb/state.py:256-302 | a carriage return before a newline ends the same line, not one more |
| OperationLog.TornAppendIsTruncated | dploydb/state.py:264-265 | a torn append never ends in a newline, so it is refused |
| OperationLog.TextReadsAsRecords | dploydb/state.py:256-302 | reading the text on disk yields exactly the records, and succeeds exactly when the log is whole, complete, in order and within bounds |
| OperationLog.ReadEvents | dploydb/state.py:256-302 | the reading loop over the lines of the text accepts exactly the readable texts and returns each decoded line |
| OperationLog.Log.AppendRecord | dploydb/state.py:419-475 | the file gains the whole record, an unfinished beginning of it, or nothing |
| OperationLog.Log.ReplaceManifest | dploydb/state.py:379-417 | the manifest is old or new, never mixed; an abandoned temporary stays visible |
| OperationLog.Log.Perform | dploydb/state.py:144-236 | refused exactly when a check fails; interrupted anywhere, the files are as before, as after, or rejected by every read; with nothing going wrong an accepted call is stored, and reported as completed unless its event cannot be read back |
| OperationLog.Log.AnyRun | dploydb/state.py:144-236 | over any calls the trail only grows, nothing follows a terminal event, bounds hold, and inconsistent, terminal or full logs never change |
| OperationLog.AcceptedManifestAgrees | dploydb/state.py:342-377 | an accepted manifest agrees with its trail's length, order, times and states, and with the last event's stage, status and timestamp |
| OperationLog.StoredReadsExactly | dploydb/state.py:144-236 | what an accepted call stores reads back as that call left it, exactly if its record holds no raw line separator |
| OperationLog.RawSeparatorLocksTheLog | dploydb/state.py:540-551 | an accepted call whose text holds such a separator makes the operation unreadable and refuses every later call |
| ManualRestores.Preview | dploydb/manual_restore.py:169-275 | accepts exactly when pointers, lineage, identities and the opened backup all agree |
| ManualRestores.NoSecondRestoreBeforeActivation | dploydb/manual_restore.py:207-214 | after a completed restore every preview is refused until a new activation |
| ManualRestores.SafeFailureKeepsRowsExactly | dploydb/manual_restore.py:613-676 | a restore that fails safe brings back every row in all its outcomes exactly if the log added nothing to what the stopped application left |
| ManualRestores.SafeFailureCanLoseRows | dploydb/manual_restore.py:450-457 | a concrete run whose refused replacement removed the log and whose safe failure returns to fewer rows |
| ManualRestores.ManualRestore.ReplaceDatabase | dploydb/manual_restore.py:449-457 | both applications are down behind maintenance at every replacement; a refusal before it leaves one of the states of the restore engine; an intact backup is put in place unless something goes wrong, a damaged one never is |
| ManualRestores.ManualRestore.EnterMaintenance | dploydb/manual_restore.py:679-710 | both applications are inspected first; failure leaves the current application serving, or needs recovery: a cleanup or a block left unproven asks for it unless something else fails too |
| ManualRestores.ManualRestore.StopAndBackUp | dploydb/manual_restore.py:396-436 | the pre-restore backup is exactly what the stopped application left |
| ManualRestores.ManualRestore.ReplaceAndRestart | dploydb/manual_restore.py:437-500 | the selected application runs on the selected data, or the coordinator can still roll back |
| ManualRestores.ManualRestore.SelectOldTarget | dploydb/manual_restore.py:502-532 | once a traffic hook may have run, only recovery may follow a failure, and after one that never started a rollback may |
| ManualRestores.ManualRestore.OpenTraffic | dploydb/manual_restore.py:533-553 | traffic opens only to the running selected application, and only then do the pointers move: to the selected release, with the one selected before as previous |
| ManualRestores.ManualRestore.Rollback | dploydb/manual_restore.py:613-676 | success is the current application back, alone, on its target with traffic open, and checked |
| ManualRestores.ManualRestore.RunManualRestore | dploydb/manual_restore.py:371-610 | completed on the selected data, checked, with the pointers moved to the selected release and the former selection as previous; failed safe on the current application, checked, on exactly its acknowledged content if the log added nothing when it was stopped; or needing recovery with traffic blocked or on a running application. A step that leaves anything unknown, or an old-target hook that may have run, never ends safe; an intact backup is restored unless something goes wrong, a damaged one fails safe, and after one failure recovery is asked for exactly if something is unknown or traffic may have moved |
| Backups.RemoteBackup.VerifyMetadata | dploydb/storage/s3.py:284-348 | accepts exactly a marker beside an object of its size and headers, in every slot |
| Backups.RemoteBackup.VerifyDatabaseBytes | dploydb/storage/s3.py:393-429 | the streamed readback accepts exactly the recorded bytes |
| Backups.RemoteBackup.Commit | dploydb/storage/s3.py:115-130 | the marker is published only beside bytes that were read back |
| Backups.RemoteBackup.UploadDatabase | dploydb/storage/s3.py:106-113 | without faults the key holds exactly the artifact, whatever was there; an intact object is never sent again; no marker is written |
| Backups.RemoteBackup.CleanUp | dploydb/storage/s3.py:473-480 | each object is kept or removed on its own; without faults both are gone |
| Backups.RemoteBackup.Put | dploydb/storage/s3.py:82-140 | accepted backups have their bytes; a fault-free put commits exactly when no other marker is in the way; only an orphan of a half-failed clean-up blocks repetition |
| Backups.InterruptedPutOrphans | dploydb/storage/s3.py:473-480 | one interrupted put into an empty slot leaves a marker without bytes; repeating it without faults fails, deleting first succeeds |
| Backups.RemoteBackup.Delete | dploydb/storage/s3.py:270-282 | never orphans a marker, and converges when repeated |
| Backups.AcceptedBackupsAreIntact | dploydb/storage/s3.py:284-348 | after any interrupted puts and deletions, an accepted backup has exactly its recorded bytes |
| Backups.LocalBackup.Get | dploydb/storage/local.py:104-112 | accepts exactly when both the marker and the database file are there; what it accepts is then what both hold |
| Backups.LocalBackup.Put | dploydb/storage/local.py:71-102 | an accepted local backup has its bytes, existing files are never touched, what a put leaves is its own, after a single failure no database is left for `get` to accept, and a fault-free put succeeds exactly in an empty slot |
| Backups.LocalBackup.Delete | dploydb/storage/local.py:129-160 | converges exactly unless the marker lacks its database, which no deletion causes |
| Backups.AcceptedLocalBackupsAreIntact | dploydb/storage/local.py:71-160 | after any interrupted puts and deletions, whatever `get` accepts is one of the contents put, in both files |
| Backups.InterruptedLocalPutWedges | dploydb/storage/local.py:90-101 | one put with one failed sync leaves a marker without its database, which `get`, every later put and every deletion refuse |
| Retention.DeletedIsOldestPrefix | dploydb/retention.py:139-153 | what is deleted is the oldest part of the sorted unprotected backups, oldest first |
| Retention.PlanIsExact | dploydb/retention.py:127-153 | the plan partitions the inventory, spares protected and foreign backups and keeps exactly the newest min(keep, n) others |
| Retention.ReplanYieldsTheRest | dploydb/retention.py:112-116 | planning again after any prefix of the deletions gives exactly the remaining ones and the same retained set |
| Retention.ProtectedBackupIds | dploydb/retention.py:51-78 | refuses exactly on an unknown or foreign selected release; protects exactly the rehearsal and the final backups of the active and the previous release |
| Retention.ApplyRetention | dploydb/retention.py:81-124 | refused before anything is deleted if either inventory cannot be planned; stopped anywhere, which takes a failed deletion, some prefix of each plan is done, the remote one only after the whole local one, and repetition completes both |
| Retention.TurnKeepsGuarded | dploydb/deploy.py:626-634 | activation, pruning and manual restore keep every backup that the two selected releases name |
| Retention.AcceptedRestoreHasItsBackup | dploydb/manual_restore.py:241-267 | over any history, an accepted restore preview's final backup has not been deleted |
| Ownership.LockDirectory.Acquire | dploydb/locking.py:122-156 | succeeds exactly when nobody holds the lock, and replaces no evidence |
| Ownership.LockDirectory.RecordOwner | dploydb/locking.py:158-197 | succeeds, unless a write fails, exactly for the lock holder with unchanged evidence and the exact token of an active record; refused otherwise without a change; the new record has a token never used before |
| Ownership.LockDirectory.Release | dploydb/locking.py:199-238 | the kernel lock is always dropped, only the holder's own record is finalized, and success is reported only once it is; without a failed write it is |
| Ownership.LockDirectory.Inspect | dploydb/locking.py:497-598 | reports a stale owner exactly when the lock is free and the last recorded owner never released |
| Ownership.LockDirectory.Interleave | dploydb/locking.py:122-238 | under any interleaving of processes acquiring, recording, releasing and dying: one holder, and no active record lost without its token |
| Ownership.OperationDirectory.RunCommand | dploydb/migration.py:507-528 | a command of any kind starts exactly when nothing is owned, unfinished or unresolved, and leaves exactly the records of the step it died at |
| Ownership.OperationDirectory.Supersede | dploydb/recovery.py:568-592 | leaves no unfinished operation, or refuses at an unrelated one |
| Ownership.OperationDirectory.Recover | dploydb/recovery.py:512-600 | replaces an active owner only if it belongs to the planned deployment or to an unfinished recovery of the same plan |
| Ownership.OperationDirectory.AnySessions | dploydb/recovery.py:224-303 | over commands of every kind and recoveries, dying anywhere, at most the newest operation is unfinished, and a wedged directory never changes |
| Ownership.UnreleasedRecoveryWedges | dploydb/recovery.py:536-553 | a successful recovery that dies before releasing its record wedges the directory |
| Ownership.UnrecordedRecoveryWedges | dploydb/recovery.py:247-263 | a recovery that supersedes a dead one and dies before recording itself wedges the directory |
| Ownership.UnrelatedOperationRefuses | dploydb/recovery.py:571-580 | an unfinished command of another kind makes recovery refuse and keeps older records |
| Ownership.OrphanedDeploymentBlocks | dploydb/recovery.py:536-580 | a deployment that died before its release existed makes every recovery of another deployment and every command refuse |
| Ownership.ReplaceableExactly | dploydb/recovery.py:536-553 | some recovery may replace an active owner exactly when it is a deployment or an unfinished recovery |

## Left out

- Deployments.Deployment.RunDeployment: with two or more failures its contract gives the possible endings, not which one; events without hook evidence are counted as events only, their texts are not modelled.
- Deployments.Deployment.CompleteActive: retention between the two closing records is one recorded event here; what it deletes, and that it may stop anywhere, is in `Retention.dfy`.
- Recoveries.Recovery.Diagnose: one deployment is in view, so the lock inspection (`Ownership.LockDirectory.Inspect`) and the refusals for several or no candidate releases (`Installations.Installation.DiagnosisFollowsTheNewest`) are stated elsewhere.
- Recoveries.Recovery.TakeOwnership: an unrelated unfinished operation refuses in `Ownership.OperationDirectory.Supersede`, where operations of every kind occur; here only the deployment and its recoveries exist.
- Recoveries.Recovery.Begin: the stale-owner check and the owner record belong to `Ownership.OperationDirectory.Recover`; a recovery they refuse changes nothing, which is one of the outcomes here.
- Hosts.Host.WriteOperation: the byte and count bounds of the event file and torn writes are in `OperationLog.dfy`; reaching a bound is a crash here.
- Installations.Installation.RunRestore: a restore raises but does not crash, as recovery plans only deployments; after one that needs recovery no command may start again.
- Docker, Compose, health polling, smoke commands, HTTP and SQLite internals: each is an action that succeeds with its effect, or fails with or without it.
- The candidate and rehearsal stage beyond its four durable transitions: it never touches production.
- A database replacement that is interrupted inside the manual restore is reported as needing recovery, which overstates an interrupt the source lets escape.
- File modes, symlink checks, temporary-file names, field patterns, message wording, redaction and configuration parsing: no bearing on the properties.
- The download path of remote backups, listing and pagination: they read what `verify_metadata` accepts.
- `latest_operation` ordering by start time: operations are numbered in creation order instead.
- Local `get` does not read the bytes of the database file, and neither does `LocalBackup.Get`; who opens a backup verifies them.
