/** The deploy coordinator: one cutover, its in-process rollback, and the records it leaves. */
module Deployments {
  import opened Basics
  import opened Commands
  import opened Databases
  import opened Releases
  import opened Operations
  import opened RecoveryPlanning
  import opened Sites
  import opened Steps
  import opened Hosts

  /** Whether an error is reported as it was raised, or as what the coordinator could not prove after it. */
  datatype Origin = AsRaised | RoutingUnproven | RollbackUnproven

  /** A failure as the coordinator reports it. */
  datatype Error = Error(needsRecovery: bool, productionChanged: bool, origin: Origin := AsRaised)

  /** How the coordinator classifies an exception; `changed` is its own context flag. */
  function Normalize(e: RawError, changed: bool): Error {
    match e
    case Expected(recovery, productionChanged) => Error(recovery, productionChanged || changed)
    case StartError(cleanupProven) => Error(!cleanupProven, true)
    case CleanupError => Error(true, changed)
    case InspectionError => Error(true, changed)
    case RunnerError(cleanupFailed) => Error(cleanupFailed, changed)
    case ReadinessError => Error(false, changed)
    case SmokeError(cleanupProven) => Error(!cleanupProven, changed)
    case UnexpectedError => Error(true, changed)
  }

  function HookError(r: CommandResult, productionChanged: bool, recovery: bool): RawError {
    Expected(recovery || r.outcome == CleanupFailed, productionChanged)
  }

  function FailureOf(e: Error): Failure {
    Failure(if e.needsRecovery then "recovery_required" else "operation_failed",
            match e.origin
            case AsRaised => "deployment failed"
            case RoutingUnproven => "new-traffic activation was attempted without proof of a safe routing state"
            case RollbackUnproven => "pre-traffic rollback could not be proven")
  }

  /** The four ways a deployment that is not cut short can end; the last two raise. */
  datatype Ending = EndedActive | EndedRolledBack | EndedUntouched | EndedNeedingRecovery

  /**
    What the coordinator caught: what was raised and how it reads it, the release as it
    stood, and how far its own flags had come.
  */
  datatype Cause = Cause(
    raised: RawError, error: Error, release: Manifest, trafficAttempted: bool, trafficActivated: bool, behindMaintenance: bool)

  /** Uncertainty or touched traffic forbids a rollback; nothing enabled means nothing to roll back. */
  predicate Handled(cause: Option<Cause>, ending: Ending) {
    match cause
    case None => ending == EndedActive
    case Some(Cause(_, error, _, trafficAttempted, trafficActivated, behindMaintenance)) =>
      if error.needsRecovery || trafficAttempted || trafficActivated then ending == EndedNeedingRecovery
      else if behindMaintenance then ending in {EndedRolledBack, EndedNeedingRecovery}
      else ending == EndedUntouched
  }

  /** The ending a cause leads to while nothing else goes wrong; `uncertain` is what it left behind. */
  function Due(cause: Option<Cause>, uncertain: bool): Ending {
    match cause
    case None => EndedActive
    case Some(Cause(_, _, _, trafficAttempted, trafficActivated, behindMaintenance)) =>
      if uncertain || trafficAttempted || trafficActivated then EndedNeedingRecovery
      else if behindMaintenance then EndedRolledBack
      else EndedUntouched
  }

  const ROLLBACK_UNPROVEN := FailureOf(Error(true, true, RollbackUnproven))

  /** The error a failed deployment reports: its own, unless it cannot vouch for traffic or for its rollback. */
  function Reported(cause: Cause, ending: Ending): Error {
    if cause.error.needsRecovery || cause.trafficActivated then cause.error
    else if cause.trafficAttempted then Error(true, true, RoutingUnproven)
    else if ending == EndedNeedingRecovery then Error(true, true, RollbackUnproven)
    else cause.error
  }

  /** What the closing records leave as it was. */
  predicate SameFacts(a: Manifest, b: Manifest) {
    && SameRelease(a, b) && a.migrationStarted == b.migrationStarted && a.trafficAttempted == b.trafficAttempted
    && a.rehearsalBackup == b.rehearsalBackup && a.finalBackup == b.finalBackup
    && a.previousApplication == b.previousApplication && a.newApplication == b.newApplication
  }

  /** The final record shows the cause: its error, its flags, and the stage it was caught in. */
  predicate Shown(cause: Cause, ending: Ending, final: Manifest) {
    && SameFacts(cause.release, final)
    && !cause.release.status.Terminal() && cause.release.status != RollbackStarted && cause.error.origin == AsRaised
    && (cause.trafficAttempted || cause.trafficActivated ==> final.trafficAttempted)
    && final.trafficActivated == cause.trafficActivated
    && final.failure == Some(FailureOf(Reported(cause, ending)))
    && (!cause.error.needsRecovery && !cause.trafficAttempted && !cause.trafficActivated ==>
          (cause.behindMaintenance <==> !cause.release.status.Early()))
  }

  /** The final release tells which cause selected the ending: no two causes that differ there show the same record. */
  lemma RecordRevealsTheCause(a: Cause, b: Cause, ending: Ending, final: Manifest)
    requires Handled(Some(a), ending) && Shown(a, ending, final)
    requires Handled(Some(b), ending) && Shown(b, ending, final)
    ensures a.error.needsRecovery == b.error.needsRecovery && a.trafficActivated == b.trafficActivated
    ensures !a.error.needsRecovery && !a.trafficActivated ==> a.trafficAttempted == b.trafficAttempted
    ensures !a.error.needsRecovery && !a.trafficActivated && !a.trafficAttempted ==>
              a.behindMaintenance == b.behindMaintenance && a.release.status.Early() == b.release.status.Early()
  {
    MessagesDiffer();
  }

  lemma MessagesDiffer()
    ensures forall e: Error, f: Error :: FailureOf(e).whatFailed == FailureOf(f).whatFailed ==> e.origin == f.origin
    ensures forall e: Error, f: Error :: FailureOf(e).errorCode == FailureOf(f).errorCode ==> e.needsRecovery == f.needsRecovery
  {
    assert |"deployment failed"| < |"pre-traffic rollback could not be proven"|
           < |"new-traffic activation was attempted without proof of a safe routing state"|;
    assert |"recovery_required"| != |"operation_failed"|;
  }

  // ---- which records keep the host safe ----

  /** An operation record that carries no activation evidence and hides no change. */
  lemma OperationWriteIsSafe(s: Site, call: OperationCall, hook: Option<HookEvidence>)
    requires Inv(s) && (hook.Some? ==> hook.value.action != ActivateNew)
    requires ApplyOperation(s.operation, call).Ok?
    requires var next := ApplyOperation(s.operation, call).value;
             && (next.productionChanged || !s.operation.productionChanged || Logical(s.world.db) == s.story.committed)
             && (next.status == OperationSucceeded ==> s.release.status == Active && Selected(s.release, s.pointers))
             && (next.status == OperationFailedSafe ==> s.release.status in {RolledBack, FailedSafe})
    ensures var t := WithOperation(s, ApplyOperation(s.operation, call).value, hook);
            Inv(t) && LastActivation(t.events) == LastActivation(s.events)
  {
    hide ValidRelease;
    var t := WithOperation(s, ApplyOperation(s.operation, call).value, hook);
    assert t.events[..|s.events|] == s.events;
    assert WorldInv(t) && TrafficInv(t) && DatabaseInv(t) && TerminalInv(t);
  }

  lemma ObservationIsSafe(s: Site, stage: DeploymentState, snapshot: Option<BackupRef>)
    requires Inv(s) && Allowed(s.release.status, stage) && stage.Early()
    requires stage == SnapshotVerified ==> snapshot.Some?
    ensures ValidRelease(s.release)
    ensures Transition(s.release, stage, Change(rehearsalBackup := snapshot), 0).Ok?
  {
    hide WorldInv, TrafficInv, DatabaseInv, TerminalInv, RecordsAgree, Paired, PointersInv, IdentityInv, ValidOperation;
    assert s.release.status.Early();
  }

  /** The world and the records are what the terminal state promises. */
  predicate ClosesSafely(s: Site, status: DeploymentState, c: Change) {
    && Inv(s) && Allowed(s.release.status, status) && status.Terminal()
    && c.productionChanged.Some? && c.trafficActivated.Some?
    && c == Change(productionChanged := c.productionChanged, trafficActivated := c.trafficActivated, failure := c.failure)
    && (c.failure.Some? <==> status != Active)
    && (s.release.trafficAttempted || s.release.productionChanged || s.operation.productionChanged ==>
          c.productionChanged.value)
    && (if c.trafficActivated.value
        then ActivationConclusion(s.release, s.events) == ActivationSucceeded && c.productionChanged.value
             && status in {Active, RecoveryRequired}
        else !s.release.trafficActivated && status != Active)
    && (status == FailedSafe ==> !c.productionChanged.value && !s.release.migrationStarted)
    && (status in {RolledBack, FailedSafe} ==>
          s.world.previous == Running && !s.world.maintenance && !s.story.exposed)
    && (status == RolledBack ==> s.story.verified && s.story.confirmed)
    && (status == Active ==> s.story.exposed && !s.world.maintenance)
  }

  lemma UnresolvedHasNoSuccess(s: Site)
    requires Inv(s) && s.release.recoveryOperation == None
    ensures forall i :: 0 <= i < |s.recoveries| ==> s.recoveries[i].status in {InProgress, OperationNeedsRecovery}
  {
  }

  const ACTIVATED := Change(productionChanged := Some(true), trafficActivated := Some(true))

  /** An activated release with traffic open may be recorded as active. */
  lemma ActivationCloses(s: Site)
    requires Inv(s) && s.release.status == TrafficActivated && !s.world.maintenance
    requires ActivationConclusion(s.release, s.events) == ActivationSucceeded
    ensures ClosesSafely(s, Active, ACTIVATED)
  {
  }

  lemma TerminalWriteIsSafe(s: Site, status: DeploymentState, c: Change, clock: nat)
    requires ClosesSafely(s, status, c)
    ensures Apply(s.release, DoTransition(status, c, clock))
            == Ok(Moved(s.release, status, c, Max(clock, s.release.updatedAt)))
    ensures Moved(s.release, status, c, Max(clock, s.release.updatedAt)).updatedAt == Max(clock, s.release.updatedAt)
    ensures Inv(s.(release := Moved(s.release, status, c, Max(clock, s.release.updatedAt))))
  {
    TerminalWriteIsValid(s, status, c, clock);
    var t := s.(release := Moved(s.release, status, c, Max(clock, s.release.updatedAt)));
    hide ValidRelease, ValidOperation;
    assert WorldInv(t) && TerminalInv(t);
    assert TrafficInv(t);
    assert DatabaseInv(t);
    assert RecordsAgree(t.release, t.operation, t.recoveries, t.pointers) by { UnresolvedHasNoSuccess(s); }
  }

  lemma TerminalWriteIsValid(s: Site, status: DeploymentState, c: Change, clock: nat)
    requires ClosesSafely(s, status, c)
    ensures ValidRelease(Moved(s.release, status, c, Max(clock, s.release.updatedAt)))
    ensures Apply(s.release, DoTransition(status, c, clock))
            == Ok(Moved(s.release, status, c, Max(clock, s.release.updatedAt)))
  {
    hide WorldInv, TrafficInv, DatabaseInv, TerminalInv, RecordsAgree, PointersInv, IdentityInv, ValidOperation;
    var m := Moved(s.release, status, c, Max(clock, s.release.updatedAt));
    assert ValidTimes(m);
    assert ValidIdentity(m);
    assert ValidFacts(m) by { ActivationConclusionMeans(s); }
  }

  lemma ActivationConclusionMeans(s: Site)
    ensures ActivationConclusion(s.release, s.events) == ActivationSucceeded ==>
              s.release.trafficActivated || s.release.trafficAttempted
  {
  }

  lemma ActiveFacts(s: Site)
    requires Inv(s) && ActivationConclusion(s.release, s.events) == ActivationSucceeded
    ensures s.story.exposed && s.world.target == NewTarget && s.release.migrationStarted && s.release.trafficAttempted
    ensures s.world.new_ == Running && s.world.previous == Stopped
  {
  }

  /** Behind the block, the final backup is exactly the last acknowledged content. */
  lemma OfflineFacts(s: Site)
    requires Inv(s)
    ensures s.world.previous in {Running, Stopped}
    ensures Offline(s) ==> s.world.maintenance
    ensures !s.story.exposed ==> s.world.target == OldTarget
    ensures s.world.previous == Running ==> !s.story.exposed
    ensures s.release.previousApplication.Some? ==> s.release.previousApplication.value == s.world.incumbent
    ensures s.release.newApplication.Some? ==> s.release.newApplication == s.world.challenger
    ensures Offline(s) && s.release.finalBackup.Some? ==> s.release.finalBackup.value.sha == s.story.committed
    ensures !MayHaveChanged(s.operation, s.release) ==> Logical(s.world.db) == s.story.committed
  {
  }

  lemma RollbackIsAccepted(s: Site, changed: bool)
    requires Inv(s) && s.release.previousApplication.Some? && !s.release.trafficActivated
    requires s.release.status in {MaintenanceEnabled, CurrentAppStopped, FinalSnapshotVerified, ProductionMigrated, NewAppHealthy}
    requires s.release.trafficAttempted || s.release.productionChanged ==> changed
    ensures Transition(s.release, RollbackStarted, Change(productionChanged := Some(changed)), 0).Ok?
  {
  }

  /** Every forward stage of the cutover is accepted where the coordinator records it. */
  lemma CutoverIsAccepted(s: Site, status: DeploymentState, c: Change)
    requires Inv(s) && Allowed(s.release.status, status)
    requires status in {MaintenanceEnabled, CurrentAppStopped, FinalSnapshotVerified, ProductionMigrated, TrafficActivated}
    requires c == Change(previousApplication := c.previousApplication, finalBackup := c.finalBackup,
                         productionChanged := c.productionChanged, trafficActivated := c.trafficActivated)
    requires status in {MaintenanceEnabled, CurrentAppStopped} ==> c.previousApplication.Some?
    requires c.previousApplication.Some? ==> c.previousApplication.value == s.world.incumbent
    requires status in {ProductionMigrated, TrafficActivated} <==> c.productionChanged.Some?
    requires c.productionChanged.Some? ==> c.productionChanged.value && s.release.migrationStarted
    requires status == TrafficActivated <==> c.trafficActivated.Some?
    requires c.trafficActivated.Some? ==> c.trafficActivated.value && s.release.trafficAttempted
    ensures Transition(s.release, status, c, 0).Ok?
  {
    hide WorldInv, TrafficInv, DatabaseInv, TerminalInv, RecordsAgree, Paired, PointersInv, ValidOperation;
  }

  /** What every reachable site lets the coordinator assume about its own records. */
  lemma RecordsAreValid(s: Site, changed: bool)
    requires Inv(s) && (changed || !s.operation.productionChanged)
    ensures changed || !s.operation.productionChanged || Logical(s.world.db) == s.story.committed
    ensures ValidRelease(s.release) && ValidOperation(s.operation)
  {
  }

  lemma HealthIsAccepted(m: Manifest, handle: Option<Handle>)
    requires ValidRelease(m) && m.status == ProductionMigrated && handle.Some? && Requested(m, handle.value)
    ensures Transition(
      m, NewAppHealthy,
      Change(newApplication := handle, healthPassed := Some(true), productionChanged := Some(true)), 0).Ok?
  {
  }

  /** Intents are accepted, and safe, exactly where the coordinator records them. */
  lemma IntentIsSafe(s: Site, migration: bool, activation: bool, clock: nat)
    requires Inv(s) && Offline(s) && (migration || activation)
    requires migration ==> s.release.status == FinalSnapshotVerified && s.release.finalBackup.Some?
    requires activation ==> s.release.status == NewAppHealthy
    ensures Apply(s.release, DoIntent(migration, activation, clock)).Ok?
    ensures Inv(s.(release := Apply(s.release, DoIntent(migration, activation, clock)).value))
  {
    var t := s.(release := Apply(s.release, DoIntent(migration, activation, clock)).value);
    assert WorldInv(t) && TrafficInv(t) && DatabaseInv(t) && TerminalInv(t);
  }

  /** Recording the activation hook's own evidence is accepted, safe, and concludes as it should. */
  lemma ActivationEvidenceIsSafe(s: Site, r: CommandResult, now: nat)
    requires Inv(s) && ValidResult(r) && s.operation.productionChanged && s.release.trafficAttempted
    requires s.story.exposed == HookMayHaveRun(r) && (HookPassed(r) ==> s.world.target == NewTarget)
    requires !s.release.trafficActivated && s.operation.status == InProgress && s.operation.updatedAt <= now
    ensures ApplyOperation(s.operation, Append(now)) == Ok(NextOperation(s.operation, Append(now)))
    ensures var t := WithOperation(s, NextOperation(s.operation, Append(now)), Some(Evidence(ActivateNew, r)));
            && Inv(t) && LastActivation(t.events) == Some(Evidence(ActivateNew, r))
            && (HookPassed(r) ==> ActivationConclusion(t.release, t.events) == ActivationSucceeded)
  {
    AcceptedExactly(s.operation, Append(now));
    hide ValidRelease;
    var t := WithOperation(s, NextOperation(s.operation, Append(now)), Some(Evidence(ActivateNew, r)));
    assert WorldInv(t) && TrafficInv(t) && DatabaseInv(t) && TerminalInv(t);
  }

  /** What a stage records is what happened. */
  predicate StageFits(s: Site, c: Change) {
    && (c.productionChanged == Some(false) ==> !s.release.productionChanged)
    && (c.healthPassed == Some(true) ==> s.story.healthy)
    && (c.trafficActivated == None
        || (c.trafficActivated == Some(true) && ActivationConclusion(s.release, s.events) == ActivationSucceeded))
    && (c.finalBackup.Some? ==>
          && !s.release.status.Early() && s.release.finalBackup == None && Offline(s) && !MayHaveChanged(s.operation, s.release)
          && c.finalBackup.value.sha == s.story.left)
    && (c.previousApplication.Some? ==> c.previousApplication.value == s.world.incumbent)
    && (c.newApplication.Some? ==> c.newApplication == s.world.challenger)
  }

  /** A forward stage of the release manifest. */
  lemma StageWriteIsSafe(s: Site, status: DeploymentState, c: Change, clock: nat)
    requires Inv(s) && !status.Terminal() && Transition(s.release, status, c, clock).Ok? && StageFits(s, c)
    ensures Inv(s.(release := Transition(s.release, status, c, clock).value))
  {
    var t := s.(release := Transition(s.release, status, c, clock).value);
    hide ValidRelease, ValidOperation;
    assert WorldInv(t) && TrafficInv(t) && TerminalInv(t);
    assert DatabaseInv(t);
  }

  /** A closing record changes the status and what it was given, nothing else. */
  lemma ClosingFacts(m: Manifest, status: DeploymentState, c: Change, now: nat)
    requires c == Change(productionChanged := c.productionChanged, trafficActivated := c.trafficActivated, failure := c.failure)
    requires c.productionChanged.Some? && c.trafficActivated.Some? && c.failure.Some?
    ensures var closed := Moved(m, status, c, now);
            && SameFacts(m, closed) && closed.status == status && closed.failure == c.failure
            && closed.trafficActivated == c.trafficActivated.value && closed.productionChanged == c.productionChanged.value
  {
  }

  /** An intent changes nothing else. */
  predicate Intended(a: Manifest, b: Manifest) {
    && SameRelease(a, b) && a.status == b.status && a.trafficActivated == b.trafficActivated
    && a.finalBackup == b.finalBackup && a.rehearsalBackup == b.rehearsalBackup
    && a.previousApplication == b.previousApplication && a.newApplication == b.newApplication
    && a.productionChanged == b.productionChanged && a.healthPassed == b.healthPassed
  }

  lemma ClockIsIrrelevant(m: Manifest, status: DeploymentState, c: Change, clock: nat)
    requires ValidRelease(m) && Transition(m, status, c, 0).Ok?
    ensures Transition(m, status, c, clock).Ok?
    ensures Transition(m, status, c, clock).value == Moved(m, status, c, Max(clock, m.updatedAt))
    ensures Moved(m, status, c, Max(clock, m.updatedAt)).updatedAt == Max(clock, m.updatedAt)
  {
  }

  /** What the candidate stage reports, in order. */
  const CANDIDATE_STAGES := [PreflightPassed, SnapshotVerified, RehearsalPassed, CandidateHealthy]

  class Deployment {
    const host: Host
    const remoteRequired: bool
    var previous: Option<Handle>
    var stopped: bool
    var finalBackup: Option<BackupRef>
    var newApplication: Option<Handle>
    var maintenanceEnabled: bool
    var productionMayHaveChanged: bool
    var trafficAttempted: bool
    var trafficActivated: bool

    /** `faults` bounds how much may go wrong from here on. */
    constructor (host: Host, remoteRequired: bool, faults: nat)
      requires host.Safe() && Initial(host.Snap())
      modifies host`faults, host`unknown, host`looseHook, host`checked, host`ran
      ensures this.host == host && this.remoteRequired == remoteRequired && Fresh()
      ensures host.faults == faults && !host.looseHook
    {
      this.host, this.remoteRequired := host, remoteRequired;
      previous := host.release.previousApplication;
      stopped, maintenanceEnabled, productionMayHaveChanged := false, false, false;
      trafficAttempted, trafficActivated := false, false;
      finalBackup, newApplication := None, None;
      new;
      host.Begin(faults);
      TrailGrows([], host.events[0]);
    }

    // ---- where the coordinator is ----

    /** What the closing records rely on, wherever the coordinator stopped: its own facts, and a log of every hook it ran. */
    ghost predicate Core()
      reads this, host
    {
      Coherent() && Trail(host.events) == host.ran
    }

    /** The coordinator's flags never understate what the host has been through. */
    ghost predicate Coherent()
      reads this, host
    {
      && host.Safe() && host.story.clean && host.operation.status == InProgress && !host.release.status.Terminal()
      && (host.release.trafficAttempted ==> productionMayHaveChanged)
      && productionMayHaveChanged == host.release.migrationStarted
      && (trafficActivated ==> productionMayHaveChanged && host.story.exposed
                               && ActivationConclusion(host.release, host.events) == ActivationSucceeded)
      && (!productionMayHaveChanged ==> !MayHaveChanged(host.operation, host.release))
      && (!trafficActivated ==> !host.release.trafficActivated)
      && (trafficAttempted || trafficActivated ==> host.release.trafficAttempted)
      && (host.story.exposed ==> trafficAttempted || trafficActivated)
      && (newApplication.Some? ==> newApplication == host.world.challenger)
      && (host.operation.stage == ReleaseStage(host.release.status)
          || host.operation.stage in {Opened, MigrationAnnounced, ActivationAnnounced})
    }

    /** Nothing was touched: the previous application serves as before. */
    ghost predicate Untouched()
      reads this, host
    {
      UntouchedExceptMaintenance() && !host.world.maintenance
    }

    ghost predicate UntouchedExceptMaintenance()
      reads this, host
    {
      && Core() && !host.unknown && !productionMayHaveChanged && !trafficAttempted && !trafficActivated
      && host.world.previous == Running && host.world.new_ == Absent
      && !maintenanceEnabled
      && host.release.status.Early()
      && (host.release.previousApplication.Some? ==> previous == host.release.previousApplication)
      && (host.release.previousReleaseId.Some? ==> host.release.previousApplication.Some?)
      && (previous.Some? ==> previous.value == host.world.incumbent) && host.release.newApplication == None
      && newApplication == None && finalBackup == None && host.release.finalBackup == None
      && LastActivation(host.events) == None
    }

    ghost predicate Fresh()
      reads this, host
    {
      Untouched() && host.release.status == Created
    }

    /** Behind maintenance and not exposed: an in-process rollback is possible from here. */
    ghost predicate Blocked()
      reads this, host
    {
      && Core() && !host.unknown && !trafficAttempted && !trafficActivated && !host.story.exposed
      && maintenanceEnabled && host.release.previousApplication == previous == Some(host.world.incumbent)
      && host.release.status in {MaintenanceEnabled, CurrentAppStopped, FinalSnapshotVerified, ProductionMigrated, NewAppHealthy}
      && (host.world.new_ != Absent ==> newApplication.Some?)
      && (newApplication.Some? ==> productionMayHaveChanged)
      && (productionMayHaveChanged ==>
            && stopped && WriterStopped in host.checked && host.world.previous == Stopped
            && MayHaveChanged(host.operation, host.release)
            && finalBackup.Some? && host.release.finalBackup == finalBackup)
    }

    /** Behind maintenance with the previous application still up. */
    ghost predicate AtMaintenance()
      reads this, host
    {
      && Blocked() && host.release.status == MaintenanceEnabled
      && !productionMayHaveChanged && newApplication == None && finalBackup == None
      && host.release.newApplication == None && host.operation.stage == ReleaseStage(MaintenanceEnabled)
      && host.world.previous == Running && host.world.maintenance
      && host.release.finalBackup == None && !host.release.trafficAttempted && LastActivation(host.events) == None
    }

    /** Blocked, with no application on the database and no activation evidence yet. */
    ghost predicate BlockedAt(status: DeploymentState)
      reads this, host
    {
      && Blocked() && host.release.status == status
      && stopped && WriterStopped in host.checked && host.world.previous == Stopped && host.world.maintenance
      && LastActivation(host.events) == None && !host.release.trafficAttempted
      && (status != NewAppHealthy ==> host.release.newApplication == None)
      && (newApplication.Some? <==> host.world.new_ != Absent)
      && host.operation.stage == (if status == FinalSnapshotVerified && productionMayHaveChanged then MigrationAnnounced
                                  else ReleaseStage(status))
    }

    /** The new application runs behind maintenance, under the identity this release requested. */
    ghost predicate Started()
      reads this, host
    {
      && BlockedAt(ProductionMigrated) && productionMayHaveChanged && host.world.new_ == Running
      && newApplication.Some? && Requested(host.release, newApplication.value)
    }

    /** The activation attempt is durable and the hook has not run yet. */
    ghost predicate Announced()
      reads this, host
    {
      && Core() && !host.unknown && WriterStopped in host.checked && trafficAttempted && !trafficActivated && !host.story.exposed
      && maintenanceEnabled && host.release.previousApplication == previous == Some(host.world.incumbent)
      && host.release.status == NewAppHealthy && host.release.trafficAttempted
      && stopped && host.world.previous == Stopped && host.world.new_ == Running && newApplication.Some?
      && productionMayHaveChanged && host.operation.productionChanged
      && finalBackup.Some? && host.release.finalBackup == finalBackup
    }

    /** What holds when a stage raises `e`: enough for whichever handler the error selects. */
    ghost predicate Raised(e: RawError)
      reads this, host
    {
      var error := Normalize(e, productionMayHaveChanged);
      && Core() && host.release.status != RollbackStarted
      && (host.story.exposed <==> trafficAttempted || trafficActivated)
      && (host.unknown ==> error.needsRecovery) && (error.needsRecovery ==> host.unknown || host.looseHook)
      && (!error.needsRecovery && SaysChanged(e) ==> productionMayHaveChanged)
      && (!error.needsRecovery && !trafficActivated && !trafficAttempted ==>
            if maintenanceEnabled then Blocked() else Untouched())
    }

    /** The in-process rollback is recorded and has not restarted anything. */
    ghost predicate RollingBack()
      reads this, host
    {
      && Core() && !host.unknown && !trafficActivated && !host.story.exposed
      && host.release.status == RollbackStarted
      && host.release.previousApplication == previous == Some(host.world.incumbent)
      && (host.world.new_ != Absent ==> newApplication.Some?)
      && (newApplication.Some? ==> productionMayHaveChanged)
      && (productionMayHaveChanged ==>
            && stopped && WriterStopped in host.checked && host.world.previous == Stopped
            && MayHaveChanged(host.operation, host.release)
            && finalBackup.Some? && host.release.finalBackup == finalBackup)
    }

    /** The previous application runs again, and nothing else. */
    ghost predicate Restarted()
      reads this, host
    {
      && Core() && !host.unknown && !trafficActivated && !host.story.exposed
      && host.release.status == RollbackStarted
      && host.release.previousApplication == previous == Some(host.world.incumbent)
      && host.world.previous == Running && host.world.new_ == Absent
    }

    /** The records and the world at each ending. */
    ghost predicate Ended(ending: Ending)
      reads this, host
    {
      Trail(host.events) == host.ran &&
      match ending
      case EndedActive =>
        && host.release.status == Active && host.operation.status == OperationSucceeded
        && host.story.exposed && host.world.new_ == Running && host.world.previous == Stopped
        && host.world.target == NewTarget && !host.world.maintenance && Selected(host.release, host.pointers)
      case EndedRolledBack =>
        && host.release.status == RolledBack && host.operation.status == OperationFailedSafe
        && host.release.previousApplication == previous == Some(host.world.incumbent)
        && host.story.clean && !host.story.exposed && host.story.verified && host.story.confirmed
        && host.world.previous == Running && host.world.new_ == Absent
        && host.world.target == OldTarget && !host.world.maintenance
      case EndedUntouched =>
        && host.release.status == FailedSafe && host.operation.status == OperationFailedSafe
        && host.story.clean && !host.story.exposed && !host.release.migrationStarted
        && host.world.previous == Running && host.world.new_ == Absent && !host.world.maintenance
      case EndedNeedingRecovery =>
        && host.release.status == RecoveryRequired && host.operation.status == OperationNeedsRecovery
    }

    /** What every safe host lets the coordinator assume. */
    lemma HostFacts()
      requires host.Safe()
      ensures host.world.previous in {Running, Stopped}
      ensures host.world.previous == Running ==> !host.story.exposed
      ensures host.world.previous == Stopped && !host.story.exposed ==> host.world.maintenance
      ensures !host.story.exposed ==> host.world.target == OldTarget
      ensures host.release.previousApplication.Some? ==> host.release.previousApplication.value == host.world.incumbent
      ensures host.release.newApplication.Some? ==> host.release.newApplication == host.world.challenger
      ensures host.world.previous == Stopped && !host.story.exposed && host.release.finalBackup.Some? ==>
                host.release.finalBackup.value.sha == host.story.committed
      ensures !MayHaveChanged(host.operation, host.release) ==> Logical(host.world.db) == host.story.committed
    {
      OfflineFacts(host.Snap());
    }

    lemma ReleaseIsValid()
      requires host.Safe()
      ensures ValidRelease(host.release)
    {
      RecordsAreValid(host.Snap(), true);
    }

    lemma ConclusionFollows(before: seq<Event>, after: seq<Event>)
      requires LastActivation(after) == LastActivation(before)
      ensures ActivationConclusion(host.release, after) == ActivationConclusion(host.release, before)
    {
    }

    lemma MayRecordBackup(backup: BackupRef)
      requires BlockedAt(CurrentAppStopped)
      ensures Transition(host.release, FinalSnapshotVerified, Change(finalBackup := Some(backup)), 0).Ok?
    {
      CutoverIsAccepted(host.Snap(), FinalSnapshotVerified, Change(finalBackup := Some(backup)));
    }

    lemma MayStartRollback()
      requires Blocked()
      ensures Transition(host.release, RollbackStarted, Change(productionChanged := Some(productionMayHaveChanged)), 0).Ok?
      ensures productionMayHaveChanged || !host.operation.productionChanged
      ensures !host.release.productionChanged || productionMayHaveChanged
    {
      RollbackIsAccepted(host.Snap(), productionMayHaveChanged);
    }

    lemma ActivationFacts()
      requires host.Safe() && ActivationConclusion(host.release, host.events) == ActivationSucceeded
      ensures host.story.exposed && host.world.target == NewTarget
      ensures host.release.migrationStarted && host.release.trafficAttempted
      ensures host.world.new_ == Running && host.world.previous == Stopped
    {
      ActiveFacts(host.Snap());
    }

    // ---- durable records ----

    /** One lifecycle transition of the operation; accepted from every stage but its own. */
    method Advance(status: OperationStatus, stage: Stage, changed: bool) returns (r: Step<()>)
      requires host.Safe() && host.operation.status == InProgress
      requires status == InProgress ==> stage != host.operation.stage
      requires changed || !host.operation.productionChanged
      requires status == OperationSucceeded ==> host.release.status == Active && Selected(host.release, host.pointers)
      requires status == OperationFailedSafe ==> host.release.status in {RolledBack, FailedSafe}
      modifies host`operation, host`events, host`world, host`story, host`faults
      ensures host.Safe() && !r.Raise? && OnlyAppsWrote(old(host.Snap()), host.Snap())
      ensures r.Done? ==>
                && host.operation.status == status && host.operation.stage == stage
                && host.operation.productionChanged == changed
                && LastActivation(host.events) == LastActivation(old(host.events))
                && Trail(host.events) == Trail(old(host.events))
      ensures r.Done? ==> |host.events| == |old(host.events)| + 1
      ensures host.faults <= old(host.faults) && (r.Done? || host.faults < old(host.faults))
    {
      hide Inv, Host.Safe, LastActivation, ActivationConclusion, ValidRelease, Trail;
      host.IsSafe();
      var now: nat :| host.operation.updatedAt <= now;
      var call := OperationCall.Advance(status, stage, changed, status == OperationNeedsRecovery,
                                        status in {OperationFailedSafe, OperationNeedsRecovery}, now);
      RecordsAreValid(host.Snap(), changed);
      AcceptedExactly(host.operation, call);
      OperationWriteIsSafe(host.Snap(), call, None);
      r := host.WriteOperation(call, None);
      TrailGrows(old(host.events), Event(host.operation.id, host.operation.lastSequence, None));
    }

    /** Appends hook evidence (or any other event) to the operation; never refused while it is unfinished. */
    method Record(hook: Option<HookEvidence>) returns (r: Step<()>)
      requires host.Safe() && host.operation.status == InProgress
      requires hook.Some? ==> hook.value.action != ActivateNew
      modifies host`operation, host`events, host`world, host`story, host`faults
      ensures host.Safe() && !r.Raise? && OnlyAppsWrote(old(host.Snap()), host.Snap())
      ensures r.Done? ==>
                && host.operation.status == InProgress && host.operation.stage == old(host.operation.stage)
                && host.operation.productionChanged == old(host.operation.productionChanged)
                && LastActivation(host.events) == LastActivation(old(host.events))
                && host.events == old(host.events) + [Event(host.operation.id, host.operation.lastSequence, hook)]
                && Trail(host.events) == Trail(old(host.events)) + if hook.Some? then [hook.value] else []
      ensures host.faults <= old(host.faults) && (r.Done? || host.faults < old(host.faults))
    {
      hide Inv, Host.Safe, LastActivation, ActivationConclusion, ValidRelease, Trail;
      host.IsSafe();
      var now: nat :| host.operation.updatedAt <= now;
      RecordsAreValid(host.Snap(), true);
      AcceptedExactly(host.operation, Append(now));
      OperationWriteIsSafe(host.Snap(), Append(now), hook);
      r := host.WriteOperation(Append(now), hook);
      TrailGrows(old(host.events), Event(host.operation.id, host.operation.lastSequence, hook));
    }

    /** The operation record first, then the release manifest; neither is refused. */
    method PersistStage(status: DeploymentState, c: Change, changed: bool) returns (r: Step<()>)
      requires host.Safe() && host.operation.status == InProgress && !status.Terminal()
      requires host.operation.stage != ReleaseStage(status) && Transition(host.release, status, c, 0).Ok?
      requires changed || !host.operation.productionChanged
      requires StageFits(host.Snap(), c) && (c.finalBackup.Some? ==> !changed && host.world.new_ == Absent)
      modifies host`release, host`operation, host`events, host`world, host`story, host`faults
      ensures host.Safe() && !r.Raise? && OnlyAppsWrote(old(host.Snap()), host.Snap())
      ensures r.Done? ==>
                && host.release == Moved(old(host.release), status, c, host.release.updatedAt)
                && host.operation.status == InProgress && host.operation.stage == ReleaseStage(status)
                && host.operation.productionChanged == changed
                && LastActivation(host.events) == LastActivation(old(host.events))
                && Trail(host.events) == Trail(old(host.events))
      ensures r.Done? ==> |host.events| == |old(host.events)| + 1
      ensures host.faults <= old(host.faults) && (r.Done? || host.faults < old(host.faults))
    {
      hide Inv, Host.Safe, Transition, Moved, Trail;
      var _ :- Advance(InProgress, ReleaseStage(status), changed);
      r := PersistRelease(status, c);
    }

    method PersistRelease(status: DeploymentState, c: Change) returns (r: Step<()>)
      requires host.Safe() && !status.Terminal() && Transition(host.release, status, c, 0).Ok?
      requires StageFits(host.Snap(), c)
      modifies host`release, host`world, host`story, host`faults
      ensures host.Safe() && !r.Raise? && OnlyAppsWrote(old(host.Snap()), host.Snap())
      ensures r.Done? ==> host.release == Moved(old(host.release), status, c, host.release.updatedAt)
      ensures host.faults <= old(host.faults) && (r.Done? || host.faults < old(host.faults))
    {
      hide Inv, Host.Safe, Transition, Moved;
      host.IsSafe();
      var clock: nat :| true;
      RecordsAreValid(host.Snap(), true);
      ClockIsIrrelevant(host.release, status, c, clock);
      StageWriteIsSafe(host.Snap(), status, c, clock);
      r := host.WriteRelease(DoTransition(status, c, clock));
    }

    /** Records the hook that just ran. */
    method CatchUp(hook: HookEvidence) returns (r: Step<()>)
      requires Coherent() && Trail(host.events) + [hook] == host.ran && hook.action != ActivateNew
      modifies host`operation, host`events, host`world, host`story, host`faults
      ensures host.Safe() && host.story.clean && !r.Raise?
      ensures host.world == old(host.world).(db := host.world.db)
      ensures host.story == old(host.story).(committed := host.story.committed, left := host.story.left)
      ensures r.Done? ==> Core() && host.operation.stage == old(host.operation.stage)
                          && LastActivation(host.events) == LastActivation(old(host.events))
                          && |host.events| == |old(host.events)| + 1
      ensures host.faults <= old(host.faults) && (r.Done? || host.faults < old(host.faults))
    {
      hide Inv, Host.Safe, LastActivation, ActivationConclusion, ValidRelease, Trail;
      ghost var before := host.events;
      r := Record(Some(hook));
      if r.Done? { ConclusionFollows(before, host.events); }
    }

    /** Lifts maintenance and records how that went. */
    method Lift() returns (r: Step<CommandResult>)
      requires Core() && (host.world.previous == Running || (host.story.exposed && host.world.target == NewTarget))
      modifies host`operation, host`events, host`world, host`story, host`faults, host`unknown, host`ran
      ensures host.Safe() && host.story.clean && !r.Raise?
      ensures host.world == old(host.world).(db := host.world.db, maintenance := host.world.maintenance)
      ensures host.story == old(host.story).(
                committed := host.story.committed, left := host.story.left, verified := host.story.verified)
      ensures r.Done? ==> Core() && host.operation.stage == old(host.operation.stage)
                          && LastActivation(host.events) == LastActivation(old(host.events))
                          && (host.unknown <==> old(host.unknown) || !HookPassed(r.value))
                          && (HookPassed(r.value) ==> !host.world.maintenance)
      ensures r.Done? ==> |host.events| == |old(host.events)| + 1
      ensures host.faults <= old(host.faults) && (r.Done? && HookPassed(r.value) <== host.faults == old(host.faults))
    {
      hide Inv, Host.Safe, LastActivation, ActivationConclusion, ValidRelease, Trail, Drift, Maintained, HookPassed;
      ghost var before := host.Snap();
      var lifted := host.DisableMaintenance();
      MaintenanceKeeps(before, host.Snap(), false);
      if !lifted.Done? { return Crash; }
      var result := lifted.value;
      var _ :- CatchUp(Evidence(DisableMaintenanceHook, result));
      r := Done(result);
    }

    // ---- before anything is touched ----

    /** A check that leaves production alone, and an event that says so. */
    method Look(subject: Subject) returns (r: Step<()>)
      requires Untouched() && host.Holds(subject) && subject != NewApplication
      modifies host`world, host`story, host`faults, host`unknown, host`checked
      ensures host.Safe() && host.story.clean
      ensures r.Done? ==> Untouched() && host.checked == old(host.checked) + {subject}
      ensures r.Raise? ==> Raised(r.error)
      ensures host.faults <= old(host.faults) && (r.Done? || host.faults < old(host.faults))
    {
      hide Inv, Host.Safe, LastActivation, ActivationConclusion, ValidRelease, Trail;
      r := host.Check(subject);
    }

    method Note() returns (r: Step<()>)
      requires Untouched()
      modifies host`operation, host`events, host`world, host`story, host`faults
      ensures host.Safe() && host.story.clean && !r.Raise?
      ensures r.Done? ==> Untouched() && |host.events| == |old(host.events)| + 1
      ensures host.faults <= old(host.faults) && (r.Done? || host.faults < old(host.faults))
    {
      hide Inv, Host.Safe, LastActivation, ActivationConclusion, ValidRelease, Trail;
      r := Record(None);
    }


    /** The candidate stage reports four durable transitions; production is not involved. */
    method PreCutover() returns (r: Step<()>)
      requires Fresh()
      modifies host`release, host`operation, host`events, host`world, host`story, host`faults, host`unknown,
               host`checked
      ensures host.Safe() && host.story.clean
      ensures r.Done? ==> Untouched() && host.release.status == CandidateHealthy
      ensures r.Done? ==> CandidateResult in host.checked
      ensures r.Done? ==> forall stage <- CANDIDATE_STAGES :: CandidateStage(stage) in host.checked
      ensures r.Raise? ==> Raised(r.error)
      ensures r.Done? ==> |host.events| == |old(host.events)| + 9
      ensures host.faults <= old(host.faults) && (r.Done? || host.faults < old(host.faults))
    {
      hide Inv, Host.Safe, LastActivation, ActivationConclusion, ValidRelease, Deployment.UntouchedExceptMaintenance,
           Deployment.Raised, Trail;
      var snapshot: BackupRef :| true;
      var _ :- Observe(PreflightPassed, None);
      var _ :- Observe(SnapshotVerified, Some(snapshot));
      var _ :- Observe(RehearsalPassed, None);
      var _ :- Observe(CandidateHealthy, None);
      var _ :- Look(CandidateResult);
      r := Note();
    }

    /** A stage is recorded once what it stands for has passed. */
    method Observe(stage: DeploymentState, snapshot: Option<BackupRef>) returns (r: Step<()>)
      requires Untouched() && Allowed(host.release.status, stage) && stage.Early()
      requires stage == SnapshotVerified ==> snapshot.Some?
      modifies host`release, host`operation, host`events, host`world, host`story, host`faults, host`unknown,
               host`checked
      ensures host.Safe() && host.story.clean
      ensures r.Done? ==> Untouched() && host.release.status == stage
      ensures r.Done? ==> host.checked == old(host.checked) + {CandidateStage(stage)}
      ensures r.Raise? ==> Raised(r.error)
      ensures r.Done? ==> |host.events| == |old(host.events)| + 2
      ensures host.faults <= old(host.faults) && (r.Done? || host.faults < old(host.faults))
    {
      hide Inv, Host.Safe, LastActivation, ActivationConclusion, ValidRelease, Deployment.Untouched,
           Deployment.Raised, Trail;
      var _ :- Look(CandidateStage(stage));
      r := RecordCandidateStage(stage, snapshot);
    }

    method RecordCandidateStage(stage: DeploymentState, snapshot: Option<BackupRef>) returns (r: Step<()>)
      requires Untouched() && Allowed(host.release.status, stage) && stage.Early()
      requires stage == SnapshotVerified ==> snapshot.Some?
      modifies host`release, host`operation, host`events, host`world, host`story, host`faults
      ensures host.Safe() && host.story.clean && !r.Raise?
      ensures r.Done? ==> Untouched() && host.release.status == stage
      ensures r.Done? ==> |host.events| == |old(host.events)| + 2
      ensures host.faults <= old(host.faults) && (r.Done? || host.faults < old(host.faults))
    {
      hide Inv, Host.Safe, LastActivation, ActivationConclusion, ValidRelease, Deployment.Untouched, Trail;
      var _ :- PersistCandidateStage(stage, snapshot);
      r := Note();
    }

    method PersistCandidateStage(stage: DeploymentState, snapshot: Option<BackupRef>) returns (r: Step<()>)
      requires Untouched() && Allowed(host.release.status, stage) && stage.Early()
      requires stage == SnapshotVerified ==> snapshot.Some?
      modifies host`release, host`operation, host`events, host`world, host`story, host`faults
      ensures host.Safe() && host.story.clean && !r.Raise?
      ensures r.Done? ==> Untouched() && host.release.status == stage
      ensures r.Done? ==> |host.events| == |old(host.events)| + 1
      ensures host.faults <= old(host.faults) && (r.Done? || host.faults < old(host.faults))
    {
      hide Inv, Host.Safe, Transition, Trail;
      host.IsSafe();
      ObservationIsSafe(host.Snap(), stage, snapshot);
      r := PersistStage(stage, Change(rehearsalBackup := snapshot), false);
    }

    method ResolvePrevious() returns (r: Step<()>)
      requires Untouched() && host.release.status == CandidateHealthy
      modifies host`release, host`operation, host`events, host`world, host`story, host`faults, host`unknown,
               host`checked, this`previous
      ensures host.Safe() && host.story.clean
      ensures r.Done? ==> Untouched() && host.release.status == CandidateHealthy && previous.Some?
      ensures r.Done? ==> host.checked == old(host.checked) + {ServingApplication}
      ensures r.Raise? ==> Raised(r.error)
      ensures r.Done? ==> |host.events| == |old(host.events)| + 1
      ensures host.faults <= old(host.faults) && (r.Done? || host.faults < old(host.faults))
    {
      hide Inv, Host.Safe, LastActivation, ActivationConclusion, ValidRelease, Trail, Deployment.Raised;
      if previous.Some? {
        var _ :- Look(ServingApplication);
      } else {
        var _ :- Find();
      }
      r := Note();
    }

    /** Without a selected release, exactly one container has to be running. */
    method Find() returns (r: Step<()>)
      requires Untouched() && previous == None
      modifies host`world, host`story, host`faults, host`unknown, host`checked, this`previous
      ensures host.Safe() && host.story.clean
      ensures r.Done? ==> Untouched() && previous.Some? && host.checked == old(host.checked) + {ServingApplication}
      ensures r.Raise? ==> Raised(r.error)
      ensures host.faults <= old(host.faults) && (r.Done? || host.faults < old(host.faults))
    {
      hide Inv, Host.Safe, LastActivation, ActivationConclusion, ValidRelease, Trail;
      var found :- host.Discover();
      previous := Some(found);
      r := Done(());
    }

    // ---- the cutover, in order ----

    /** A failed hook is undone before the failure is reported. */
    method EnterMaintenance() returns (r: Step<()>)
      requires Untouched() && host.release.status == CandidateHealthy && previous.Some?
      requires ServingApplication in host.checked && !host.looseHook
      modifies host`release, host`operation, host`events, host`world, host`story, host`faults, host`unknown,
               host`looseHook, host`checked, host`ran, this`maintenanceEnabled
      ensures host.Safe() && host.story.clean
      ensures r.Done? ==> AtMaintenance() && !host.looseHook && host.checked == old(host.checked) - {ServingApplication}
      ensures r.Raise? ==> Raised(r.error)
      ensures r.Raise? && host.looseHook && old(host.faults) <= 1 ==> r.error == Expected(true, false)
      ensures host.faults <= old(host.faults) && (r.Done? || host.faults < old(host.faults))
    {
      hide Inv, Host.Safe, LastActivation, ActivationConclusion, ValidRelease, Trail,
           Deployment.UntouchedExceptMaintenance, Deployment.AtMaintenance, Deployment.Raised;
      var result :- Block();
      if !HookPassed(result) {
        r := UndoMaintenance(result);
      } else {
        r := PersistMaintenance();
      }
    }

    /** The hook that blocks traffic, and its evidence. */
    method Block() returns (r: Step<CommandResult>)
      requires Untouched() && !host.looseHook
      modifies host`operation, host`events, host`world, host`story, host`faults, host`looseHook, host`checked, host`ran
      ensures host.Safe() && host.story.clean && !r.Raise?
      ensures r.Done? ==> UntouchedExceptMaintenance() && ValidResult(r.value)
      ensures r.Done? ==> (host.looseHook <==> r.value.outcome == CleanupFailed)
      ensures r.Done? && HookPassed(r.value) ==> host.world.maintenance && !host.looseHook
      ensures host.checked == old(host.checked) - {ServingApplication}
      ensures host.faults <= old(host.faults) && (r.Done? && HookPassed(r.value) <== host.faults == old(host.faults))
    {
      hide Inv, Host.Safe, LastActivation, ActivationConclusion, ValidRelease, Trail, ValidResult;
      var result :- host.EnableMaintenance();
      var _ :- Record(Some(Evidence(EnableMaintenance, result)));
      r := Done(result);
    }

    method PersistMaintenance() returns (r: Step<()>)
      requires UntouchedExceptMaintenance() && host.release.status == CandidateHealthy && previous.Some?
      requires host.world.maintenance
      modifies host`release, host`operation, host`events, host`world, host`story, host`faults, this`maintenanceEnabled
      ensures host.Safe() && host.story.clean && !r.Raise?
      ensures r.Done? ==> AtMaintenance()
      ensures host.faults <= old(host.faults) && (r.Done? || host.faults < old(host.faults))
    {
      hide Inv, Host.Safe, Transition, ValidRelease, Trail;
      host.IsSafe();
      HostFacts();
      CutoverIsAccepted(host.Snap(), MaintenanceEnabled, Change(previousApplication := previous));
      maintenanceEnabled := true;
      r := PersistStage(MaintenanceEnabled, Change(previousApplication := previous), false);
    }

    method UndoMaintenance(result: CommandResult) returns (r: Step<()>)
      requires UntouchedExceptMaintenance() && ValidResult(result)
      requires host.looseHook <==> result.outcome == CleanupFailed
      modifies host`release, host`operation, host`events, host`world, host`story, host`faults, host`unknown,
               host`checked, host`ran
      ensures host.Safe() && host.story.clean && !r.Done?
      ensures r.Raise? ==> Raised(r.error)
      ensures host.faults <= old(host.faults) && (r.Crash? ==> host.faults < old(host.faults))
      ensures r.Raise? && host.faults == old(host.faults) ==>
                r.error == HookError(result, false, false) && ServingApplication in host.checked
    {
      hide Inv, Host.Safe, LastActivation, ActivationConclusion, ValidRelease, Trail;
      var _ :- Reopen();
      var _ :- Look(ServingApplication);
      var _ :- Note();
      r := Raise(HookError(result, false, false));
    }

    /** Lifts a maintenance that was not wanted, or leaves it unknown. */
    method Reopen() returns (r: Step<()>)
      requires UntouchedExceptMaintenance()
      modifies host`operation, host`events, host`world, host`story, host`faults, host`unknown, host`ran
      ensures host.Safe() && host.story.clean
      ensures r.Done? ==> Untouched() && host.world.previous == Running
      ensures r.Raise? ==> Raised(r.error) && r.error == Expected(true, false)
      ensures host.faults <= old(host.faults) && (r.Done? || host.faults < old(host.faults))
    {
      hide Inv, Host.Safe, LastActivation, ActivationConclusion, ValidRelease, Trail;
      var result :- Lift();
      r := if HookPassed(result) then Done(()) else Raise(Expected(true, false));
    }

    method StopCurrent() returns (r: Step<()>)
      requires AtMaintenance()
      modifies host`release, host`operation, host`events, host`world, host`story, host`faults, host`unknown,
               host`checked, this`stopped
      ensures host.Safe() && host.story.clean
      ensures r.Done? ==> BlockedAt(CurrentAppStopped) && !productionMayHaveChanged && host.release.finalBackup == None
      ensures r.Done? ==> host.checked == old(host.checked) + {WriterStopped}
      ensures r.Raise? ==> Raised(r.error)
      ensures host.faults <= old(host.faults) && (r.Done? || host.faults < old(host.faults))
    {
      hide Inv, Host.Safe, Transition, ValidRelease, Trail;
      host.IsSafe();
      CutoverIsAccepted(host.Snap(), CurrentAppStopped, Change(previousApplication := previous));
      var _ :- host.StopPrevious(previous.value);
      stopped := true;
      r := PersistStage(CurrentAppStopped, Change(previousApplication := previous), false);
    }

    method TakeFinalBackup() returns (r: Step<()>)
      requires BlockedAt(CurrentAppStopped) && !productionMayHaveChanged && host.release.finalBackup == None
      modifies host`release, host`operation, host`events, host`world, host`story, host`faults, this`finalBackup
      ensures host.Safe() && host.story.clean
      ensures r.Done? ==> BlockedAt(FinalSnapshotVerified) && !productionMayHaveChanged
                          && finalBackup.Some? && host.release.finalBackup == finalBackup
      ensures r.Raise? ==> Raised(r.error)
      ensures host.faults <= old(host.faults) && (r.Done? || host.faults < old(host.faults))
    {
      hide Inv, Host.Safe, LastActivation, ActivationConclusion, ValidRelease, Trail;
      var backup :- host.CreateFinalBackup();
      r := PersistFinalBackup(backup);
    }

    method PersistFinalBackup(backup: BackupRef) returns (r: Step<()>)
      requires BlockedAt(CurrentAppStopped) && !productionMayHaveChanged && host.release.finalBackup == None
      requires backup.sha == host.story.left
      modifies host`release, host`operation, host`events, host`world, host`story, host`faults, this`finalBackup
      ensures host.Safe() && host.story.clean && !r.Raise?
      ensures r.Done? ==> BlockedAt(FinalSnapshotVerified) && !productionMayHaveChanged
                          && finalBackup.Some? && host.release.finalBackup == finalBackup
      ensures host.faults <= old(host.faults) && (r.Done? || host.faults < old(host.faults))
    {
      hide Inv, Host.Safe, Transition, LastActivation, ActivationConclusion, ValidRelease, Trail;
      MayRecordBackup(backup);
      finalBackup := Some(backup);
      r := PersistStage(FinalSnapshotVerified, Change(finalBackup := finalBackup), false);
    }

    method NoteAt(status: DeploymentState) returns (r: Step<()>)
      requires BlockedAt(status)
      modifies host`operation, host`events, host`world, host`story, host`faults
      ensures host.Safe() && host.story.clean && !r.Raise?
      ensures r.Done? ==> BlockedAt(status) && |host.events| == |old(host.events)| + 1
      ensures host.world.new_ == old(host.world.new_)
      ensures host.faults <= old(host.faults) && (r.Done? || host.faults < old(host.faults))
    {
      hide Inv, Host.Safe, LastActivation, ActivationConclusion, ValidRelease, Trail;
      r := Record(None);
    }

    /** A remote copy that is required is there. */
    ghost predicate Replicated()
      reads this, host`checked
    {
      remoteRequired ==> RemoteCopy in host.checked
    }

    /** Everything that has to be established before new traffic. */
    ghost predicate Established()
      reads this, host`checked
    {
      && CandidateResult in host.checked && (forall stage <- CANDIDATE_STAGES :: CandidateStage(stage) in host.checked)
      && WriterStopped in host.checked && Replicated() && NewApplication in host.checked
    }

    /** The required remote copy, still before production may change. */
    method ReplicateFinalBackup() returns (r: Step<()>)
      requires BlockedAt(FinalSnapshotVerified) && !productionMayHaveChanged
      requires finalBackup.Some? && host.release.finalBackup == finalBackup
      modifies host`operation, host`events, host`world, host`story, host`faults, host`unknown, host`checked
      ensures host.Safe() && host.story.clean
      ensures r.Done? ==> BlockedAt(FinalSnapshotVerified) && host.release.finalBackup == finalBackup
      ensures r.Done? ==> Replicated() && old(host.checked) <= host.checked
      ensures r.Raise? ==> Raised(r.error)
      ensures r.Done? ==> |host.events| == |old(host.events)| + if remoteRequired then 1 else 0
      ensures host.faults <= old(host.faults) && (r.Done? || host.faults < old(host.faults))
    {
      hide Inv, Host.Safe, LastActivation, ActivationConclusion, ValidRelease, Trail;
      if !remoteRequired { return Done(()); }
      var _ :- host.Check(RemoteCopy);
      r := NoteAt(FinalSnapshotVerified);
    }

    /** The release remembers that the migration, or else the activation, is about to begin. */
    method RecordIntent(migration: bool) returns (r: Step<()>)
      requires host.Safe() && Offline(host.Snap())
      requires if migration then host.release.status == FinalSnapshotVerified && host.release.finalBackup.Some?
               else host.release.status == NewAppHealthy
      modifies host`release, host`world, host`story, host`faults
      ensures host.Safe() && !r.Raise? && host.story == old(host.story)
      ensures host.world == old(host.world).(db := host.world.db)
      ensures r.Done? ==>
                && Intended(old(host.release), host.release)
                && host.release.migrationStarted == (old(host.release).migrationStarted || migration)
                && host.release.trafficAttempted == (old(host.release).trafficAttempted || !migration)
      ensures host.faults <= old(host.faults) && (r.Done? || host.faults < old(host.faults))
    {
      hide Inv, LastActivation, ActivationConclusion, ValidRelease;
      var clock: nat :| true;
      IntentIsSafe(host.Snap(), migration, !migration, clock);
      r := host.WriteRelease(DoIntent(migration, !migration, clock));
    }

    /** The operation announces what is about to begin; nothing is served meanwhile. */
    method Announce(stage: Stage) returns (r: Step<()>)
      requires host.Safe() && Offline(host.Snap()) && host.operation.status == InProgress && stage != host.operation.stage
      modifies host`operation, host`events, host`world, host`story, host`faults
      ensures host.Safe() && !r.Raise? && host.story == old(host.story)
      ensures host.world == old(host.world).(db := host.world.db)
      ensures r.Done? ==>
                && host.operation.status == InProgress && host.operation.stage == stage && host.operation.productionChanged
                && LastActivation(host.events) == LastActivation(old(host.events))
                && Trail(host.events) == Trail(old(host.events))
      ensures host.faults <= old(host.faults) && (r.Done? || host.faults < old(host.faults))
    {
      hide Inv, Host.Safe, LastActivation, ActivationConclusion, ValidRelease, Trail;
      r := Advance(InProgress, stage, true);
    }

    /** Both intents are durable before the migration command runs. */
    method AnnounceMigration() returns (r: Step<()>)
      requires BlockedAt(FinalSnapshotVerified) && !productionMayHaveChanged && Replicated()
      requires finalBackup.Some? && host.release.finalBackup == finalBackup
      modifies host`release, host`operation, host`events, host`world, host`story, host`faults,
               this`productionMayHaveChanged
      ensures host.Safe() && host.story.clean && !r.Raise?
      ensures r.Done? ==> BlockedAt(FinalSnapshotVerified) && productionMayHaveChanged
                          && host.release.migrationStarted && host.world.new_ == Absent
      ensures host.faults <= old(host.faults) && (r.Done? || host.faults < old(host.faults))
    {
      hide Inv, Host.Safe, LastActivation, ActivationConclusion, ValidRelease, Trail, SameRelease;
      productionMayHaveChanged := true;
      r := RecordIntent(true);
      if r.Done? { r := Announce(MigrationAnnounced); }
    }

    method MigrateProduction() returns (r: Step<()>)
      requires BlockedAt(FinalSnapshotVerified) && productionMayHaveChanged
      requires host.release.migrationStarted && host.world.new_ == Absent
      modifies host`release, host`operation, host`events, host`world, host`story, host`faults, host`unknown
      ensures host.Safe() && host.story.clean
      ensures r.Done? ==> BlockedAt(ProductionMigrated) && productionMayHaveChanged
                          && host.story.lineage == NewData && host.world.new_ == Absent
      ensures r.Raise? ==> Raised(r.error)
      ensures host.faults <= old(host.faults) && (r.Done? || host.faults < old(host.faults))
    {
      hide Inv, Host.Safe, Transition, ValidRelease, Trail;
      host.IsSafe();
      CutoverIsAccepted(host.Snap(), ProductionMigrated, Change(productionChanged := Some(true)));
      var _ :- host.Migrate();
      r := PersistStage(ProductionMigrated, Change(productionChanged := Some(true)), true);
    }

    method StartNewApplication() returns (r: Step<()>)
      requires BlockedAt(ProductionMigrated) && productionMayHaveChanged
      requires host.story.lineage == NewData && host.world.new_ == Absent
      modifies host`release, host`operation, host`events, host`world, host`story, host`faults, host`unknown,
               this`newApplication
      ensures host.Safe() && host.story.clean
      ensures r.Done? ==> Started()
      ensures r.Raise? ==> Raised(r.error)
      ensures r.Done? ==> |host.events| == |old(host.events)| + 1
      ensures host.faults <= old(host.faults) && (r.Done? || host.faults < old(host.faults))
    {
      hide Inv, Host.Safe, LastActivation, ActivationConclusion, ValidRelease, Trail;
      var handle :- host.StartNew();
      newApplication := Some(handle);
      r := Record(None);
    }

    /** Logs, SQLite and health, all before anything may see the new application. */
    method CheckNewApplication() returns (r: Step<()>)
      requires Started()
      modifies host`release, host`operation, host`events, host`world, host`story, host`faults, host`unknown,
               host`checked
      ensures host.Safe() && host.story.clean
      ensures r.Done? ==> BlockedAt(NewAppHealthy) && productionMayHaveChanged && host.world.new_ == Running
      ensures r.Done? ==> host.checked == old(host.checked) + {NewApplication}
      ensures r.Raise? ==> Raised(r.error)
      ensures host.faults <= old(host.faults) && (r.Done? || host.faults < old(host.faults))
    {
      hide Inv, Host.Safe, LastActivation, ActivationConclusion, ValidRelease, Trail;
      var _ :- host.Check(NewApplication);
      r := PersistHealth();
    }

    method PersistHealth() returns (r: Step<()>)
      requires Started() && host.story.healthy
      modifies host`release, host`operation, host`events, host`world, host`story, host`faults
      ensures host.Safe() && host.story.clean && !r.Raise?
      ensures r.Done? ==> BlockedAt(NewAppHealthy) && productionMayHaveChanged && host.world.new_ == Running
      ensures host.faults <= old(host.faults) && (r.Done? || host.faults < old(host.faults))
    {
      hide Inv, ValidIdentity, Apply, LastActivation, ActivationConclusion, Trail;
      ReleaseIsValid();
      var change := Change(newApplication := newApplication, healthPassed := Some(true), productionChanged := Some(true));
      HealthIsAccepted(host.release, newApplication);
      hide ValidRelease, Transition;
      r := PersistStage(NewAppHealthy, change, true);
    }

    /** The attempt is durable before the hook runs. */
    method AnnounceActivation() returns (r: Step<()>)
      requires BlockedAt(NewAppHealthy) && productionMayHaveChanged && host.world.new_ == Running
      modifies host`release, host`operation, host`events, host`world, host`story, host`faults, this`trafficAttempted
      ensures host.Safe() && host.story.clean && !r.Raise?
      ensures r.Done? ==> Announced() && LastActivation(host.events) == None
      ensures host.faults <= old(host.faults) && (r.Done? || host.faults < old(host.faults))
    {
      hide Inv, Host.Safe, LastActivation, ActivationConclusion, ValidRelease, Trail, SameRelease;
      trafficAttempted := true;
      r := RecordIntent(false);
      if r.Done? { r := Announce(ActivationAnnounced); }
    }

    /** The hook's outcome is durable directly after it, and decides what may follow. */
    method ActivateTraffic() returns (r: Step<()>)
      requires Announced() && LastActivation(host.events) == None
      modifies host`release, host`operation, host`events, host`world, host`story, host`faults, host`unknown,
               host`ran, this`trafficAttempted, this`trafficActivated
      ensures host.Safe() && host.story.clean
      ensures r.Done? ==> Core() && !host.unknown && trafficActivated && host.release.status == NewAppHealthy
      ensures r.Raise? ==> Raised(r.error)
      ensures host.faults <= old(host.faults) && (r.Done? || host.faults < old(host.faults))
    {
      hide Inv, Host.Safe, LastActivation, ActivationConclusion, ValidResult, ValidRelease, Trail;
      var result :- ExposeNew();
      if !HookPassed(result) {
        trafficAttempted := HookMayHaveRun(result);
        return Raise(HookError(result, true, false));
      }
      trafficActivated := true;
      r := Done(());
    }

    lemma OutcomeIsSafe(result: CommandResult, now: nat)
      requires host.Safe() && ValidResult(result) && host.operation.productionChanged && host.release.trafficAttempted
      requires host.story.exposed == HookMayHaveRun(result) && (HookPassed(result) ==> host.world.target == NewTarget)
      requires !host.release.trafficActivated && host.operation.status == InProgress && host.operation.updatedAt <= now
      ensures var next := NextOperation(host.operation, Append(now));
              var t := WithOperation(host.Snap(), next, Some(Evidence(ActivateNew, result)));
              && ApplyOperation(host.operation, Append(now)) == Ok(next)
              && next.status == InProgress && next.stage == host.operation.stage && next.productionChanged
              && Inv(t) && (HookPassed(result) ==> ActivationConclusion(t.release, t.events) == ActivationSucceeded)
    {
      ActivationEvidenceIsSafe(host.Snap(), result, now);
    }

    method RecordOutcome(result: CommandResult) returns (r: Step<()>)
      requires host.Safe() && ValidResult(result) && host.operation.status == InProgress && host.operation.productionChanged
      requires host.release.trafficAttempted && !host.release.trafficActivated
      requires host.story.exposed == HookMayHaveRun(result) && (HookPassed(result) ==> host.world.target == NewTarget)
      modifies host`operation, host`events, host`world, host`story, host`faults
      ensures host.Safe() && !r.Raise? && OnlyAppsWrote(old(host.Snap()), host.Snap())
      ensures r.Done? ==>
                && host.operation.status == InProgress && host.operation.productionChanged
                && host.operation.stage == old(host.operation.stage)
                && Trail(host.events) == Trail(old(host.events)) + [Evidence(ActivateNew, result)]
                && (HookPassed(result) ==> ActivationConclusion(host.release, host.events) == ActivationSucceeded)
      ensures host.faults <= old(host.faults) && (r.Done? || host.faults < old(host.faults))
    {
      hide Inv, Host.Safe, LastActivation, ActivationConclusion, ValidResult, ValidRelease, Trail, ApplyOperation;
      var now: nat :| host.operation.updatedAt <= now;
      OutcomeIsSafe(result, now);
      r := host.WriteOperation(Append(now), Some(Evidence(ActivateNew, result)));
      TrailGrows(old(host.events), Event(host.operation.id, host.operation.lastSequence, Some(Evidence(ActivateNew, result))));
    }

    /** Runs the activate-new hook and records its outcome; nothing is recorded in between. */
    method ExposeNew() returns (r: Step<CommandResult>)
      requires Announced() && LastActivation(host.events) == None
      modifies host`release, host`operation, host`events, host`world, host`story, host`faults, host`unknown, host`ran
      ensures host.Safe() && host.story.clean && !r.Raise?
      ensures r.Done? ==>
                && Core() && host.release == old(host.release) && host.operation.productionChanged
                && ValidResult(r.value) && host.story.exposed == HookMayHaveRun(r.value)
                && host.world.previous == Stopped && host.world.incumbent == old(host.world.incumbent)
                && (HookPassed(r.value) ==> ActivationConclusion(host.release, host.events) == ActivationSucceeded)
                && (host.unknown <==> r.value.outcome == CleanupFailed)
      ensures r.Done? ==> HookPassed(r.value) || host.faults < old(host.faults)
      ensures host.faults <= old(host.faults) && (r.Done? || host.faults < old(host.faults))
    {
      hide Inv, Host.Safe, LastActivation, ActivationConclusion, ValidResult, ValidRelease, Trail;
      var result :- host.ActivateNewTraffic();
      var _ :- RecordOutcome(result);
      r := Done(result);
    }

    method RecordActivation() returns (r: Step<()>)
      requires Core() && !host.unknown && trafficActivated && host.release.status == NewAppHealthy
      modifies host`release, host`operation, host`events, host`world, host`story, host`faults
      ensures host.Safe() && host.story.clean && !r.Raise?
      ensures r.Done? ==> Core() && !host.unknown && trafficActivated && host.release.status == TrafficActivated
      ensures host.faults <= old(host.faults) && (r.Done? || host.faults < old(host.faults))
    {
      hide Inv, Host.Safe, Transition, ValidRelease, Trail;
      host.IsSafe();
      var change := Change(productionChanged := Some(true), trafficActivated := Some(true));
      ActiveFacts(host.Snap());
      CutoverIsAccepted(host.Snap(), TrafficActivated, change);
      r := PersistStage(TrafficActivated, change, true);
    }

    method OpenTraffic() returns (r: Step<()>)
      requires Core() && !host.unknown && trafficActivated && host.release.status == TrafficActivated
      modifies host`release, host`operation, host`events, host`world, host`story, host`faults, host`unknown,
               host`ran, this`maintenanceEnabled
      ensures host.Safe() && host.story.clean
      ensures r.Done? ==> Core() && !host.unknown && trafficActivated && host.release.status == TrafficActivated
                          && !host.world.maintenance
      ensures r.Raise? ==> Raised(r.error)
      ensures host.faults <= old(host.faults) && (r.Done? || host.faults < old(host.faults))
    {
      hide Inv, Host.Safe, LastActivation, ActivationConclusion, ValidRelease, Trail;
      ActivationFacts();
      var result :- Lift();
      if !HookPassed(result) { return Raise(Expected(true, true)); }
      maintenanceEnabled := false;
      r := Done(());
    }

    // ---- closing records ----

    /** The records may become terminal as `status`. */
    ghost predicate MayClose(status: DeploymentState, c: Change)
      reads this, host
    {
      ClosesSafely(host.Snap(), status, c)
    }

    lemma MayFailUntouched(failure: Failure)
      requires Untouched()
      ensures MayClose(FailedSafe, Change(productionChanged := Some(false), trafficActivated := Some(false),
                                          failure := Some(failure)))
    {
    }

    lemma MayRollBack(failure: Failure)
      requires Restarted() && !host.world.maintenance && host.story.verified && host.story.confirmed
      ensures MayClose(RolledBack, Change(productionChanged := Some(productionMayHaveChanged),
                                          trafficActivated := Some(false), failure := Some(failure)))
    {
    }

    lemma MayAskForRecovery(changed: bool, failure: Failure)
      requires Core()
      ensures MayClose(RecoveryRequired, Change(productionChanged := Some(changed || productionMayHaveChanged),
                                                trafficActivated := Some(trafficActivated), failure := Some(failure)))
    {
      RecordsAreValid(host.Snap(), true);
    }

    lemma MayComplete()
      requires Core() && trafficActivated && host.release.status == TrafficActivated && !host.world.maintenance
      ensures MayClose(Active, ACTIVATED)
    {
      ActivationCloses(host.Snap());
    }

    lemma ChangeIsAdmitted(status: DeploymentState, c: Change)
      requires MayClose(status, c)
      ensures status.Terminal() && (host.operation.productionChanged ==> c.productionChanged.value)
      ensures c == Change(productionChanged := c.productionChanged, trafficActivated := c.trafficActivated, failure := c.failure)
    {
    }

    /** Release first, then operation: the only order in which the two become terminal. */
    method Close(status: DeploymentState, c: Change, ending: OperationStatus) returns (r: Step<()>)
      requires host.Safe() && host.operation.status == InProgress && MayClose(status, c)
      requires c.productionChanged.Some? && c.trafficActivated.Some? && c.failure.Some?
      requires status != Active
      requires ending == if status == RecoveryRequired then OperationNeedsRecovery else OperationFailedSafe
      modifies host`release, host`operation, host`events, host`world, host`story, host`faults
      ensures host.Safe() && !r.Raise? && OnlyAppsWrote(old(host.Snap()), host.Snap())
      ensures r.Done? ==>
                && SameFacts(old(host.release), host.release) && host.release.status == status
                && host.release.failure == c.failure && host.release.trafficActivated == c.trafficActivated.value
                && host.release.productionChanged == host.operation.productionChanged == c.productionChanged.value
                && host.operation.status == ending && Trail(host.events) == Trail(old(host.events))
      ensures host.faults <= old(host.faults) && (r.Done? || host.faults < old(host.faults))
    {
      hide Inv, Host.Safe, Deployment.MayClose, Moved, SameFacts, Trail;
      ghost var before := host.release;
      ChangeIsAdmitted(status, c);
      r := CloseRelease(status, c);
      if r.Done? {
        ClosingFacts(before, status, c, host.release.updatedAt);
        r := Advance(ending, ReleaseStage(status), c.productionChanged.value);
      }
    }

    method CloseRelease(status: DeploymentState, c: Change) returns (r: Step<()>)
      requires host.Safe() && MayClose(status, c)
      modifies host`release, host`world, host`story, host`faults
      ensures host.Safe() && !r.Raise? && OnlyAppsWrote(old(host.Snap()), host.Snap())
      ensures r.Done? ==> host.release == Moved(old(host.release), status, c, host.release.updatedAt)
                          && Drift(old(host.Snap()).(release := host.release), host.Snap())
      ensures !r.Done? ==> host.Snap() == old(host.Snap())
      ensures host.faults <= old(host.faults) && (r.Done? || host.faults < old(host.faults))
    {
      hide Inv, Host.Safe, ValidRelease, ClosesSafely, Apply, Moved, Trail;
      host.IsSafe();
      var clock: nat :| true;
      TerminalWriteIsSafe(host.Snap(), status, c, clock);
      r := host.WriteRelease(DoTransition(status, c, clock));
    }

    /** The active record, the pointers, retention, and only then the successful operation. */
    method CompleteActive() returns (r: Step<()>)
      requires Core() && trafficActivated && host.release.status == TrafficActivated && !host.world.maintenance
      modifies host`release, host`operation, host`events, host`pointers, host`world, host`story, host`faults
      ensures host.Safe() && host.story.clean && !r.Raise?
      ensures r.Done? ==> Ended(EndedActive)
      ensures r.Done? ==> |host.events| == |old(host.events)| + 2
      ensures host.faults <= old(host.faults) && (r.Done? || host.faults < old(host.faults))
    {
      hide Inv, Host.Safe, Deployment.MayClose, LastActivation, ActivationConclusion, Trail;
      MayComplete();
      ActivationFacts();
      var _ :- CloseRelease(Active, ACTIVATED);
      r := Select();
    }

    method Select() returns (r: Step<()>)
      requires host.Safe() && host.story.clean && host.release.status == Active && host.operation.status == InProgress
      requires host.operation.stage != ReleaseStage(Active) && Trail(host.events) == host.ran
      requires host.story.exposed && host.world.target == NewTarget && !host.world.maintenance
      requires host.world.new_ == Running && host.world.previous == Stopped
      modifies host`operation, host`events, host`pointers, host`world, host`story, host`faults
      ensures host.Safe() && host.story.clean && !r.Raise?
      ensures r.Done? ==> Ended(EndedActive)
      ensures r.Done? ==> |host.events| == |old(host.events)| + 2
      ensures host.faults <= old(host.faults) && (r.Done? || host.faults < old(host.faults))
    {
      hide Inv, Host.Safe, LastActivation, ActivationConclusion, ValidRelease, Trail;
      var _ :- host.SwitchPointers();
      var _ :- Record(None);                           // retention, which may not undo an active release
      r := Advance(OperationSucceeded, ReleaseStage(Active), true);
    }

    method FinishRecoveryRequired(error: Error) returns (r: Step<()>)
      requires Core()
      modifies host`release, host`operation, host`events, host`world, host`story, host`faults
      ensures host.Safe() && host.story.clean && !r.Raise?
      ensures r.Done? ==> Ended(EndedNeedingRecovery) && host.release.failure == Some(FailureOf(error))
      ensures r.Done? ==> SameFacts(old(host.release), host.release)
      ensures host.story.exposed == old(host.story.exposed)
      ensures r.Done? ==> host.release.trafficAttempted == old(host.release).trafficAttempted
      ensures r.Done? ==> host.release.trafficActivated == trafficActivated
                          && host.release.productionChanged == host.operation.productionChanged
                          && host.operation.productionChanged == (error.productionChanged || productionMayHaveChanged)
      ensures host.faults <= old(host.faults) && (r.Done? || host.faults < old(host.faults))
    {
      hide Inv, Host.Safe, Deployment.MayClose, LastActivation, ActivationConclusion, ValidRelease, FailureOf, Trail;
      MayAskForRecovery(error.productionChanged, FailureOf(error));
      var change := Change(productionChanged := Some(error.productionChanged || productionMayHaveChanged),
                           trafficActivated := Some(trafficActivated), failure := Some(FailureOf(error)));
      r := Close(RecoveryRequired, change, OperationNeedsRecovery);
    }

    method FinishFailedBeforeRollback(error: Error) returns (r: Step<()>)
      requires Untouched() && !error.needsRecovery && !error.productionChanged
      modifies host`release, host`operation, host`events, host`world, host`story, host`faults
      ensures host.Safe() && host.story.clean && !r.Raise?
      ensures r.Done? ==> Ended(EndedUntouched) && host.release.failure == Some(FailureOf(error))
      ensures r.Done? ==> SameFacts(old(host.release), host.release)
      ensures r.Done? ==> !host.release.trafficActivated && !host.release.productionChanged && !host.operation.productionChanged
      ensures host.faults <= old(host.faults) && (r.Done? || host.faults < old(host.faults))
    {
      hide Inv, Host.Safe, Deployment.MayClose, LastActivation, ActivationConclusion, ValidRelease, FailureOf, Trail;
      MayFailUntouched(FailureOf(error));
      var change := Change(productionChanged := Some(false), trafficActivated := Some(false),
                           failure := Some(FailureOf(error)));
      r := Close(FailedSafe, change, OperationFailedSafe);
    }

    // ---- rollback ----

    method StartRollback() returns (r: Step<()>)
      requires Blocked()
      modifies host`release, host`operation, host`events, host`world, host`story, host`faults
      ensures host.Safe() && host.story.clean && !r.Raise?
      ensures r.Done? ==> RollingBack()
      ensures r.Done? ==> SameFacts(old(host.release), host.release)
      ensures host.faults <= old(host.faults) && (r.Done? || host.faults < old(host.faults))
    {
      hide Inv, Host.Safe, Transition, LastActivation, ActivationConclusion, ValidRelease, Trail;
      MayStartRollback();
      r := PersistStage(RollbackStarted, Change(productionChanged := Some(productionMayHaveChanged)),
                        productionMayHaveChanged);
    }

    method RemoveFailedRelease() returns (r: Step<()>)
      requires RollingBack()
      modifies host`operation, host`events, host`world, host`story, host`faults, host`unknown
      ensures host.Safe() && host.story.clean
      ensures r.Done? ==> RollingBack() && host.world.new_ == Absent
      ensures r.Raise? ==> Core()
      ensures r.Done? ==> |host.events| == |old(host.events)| + if newApplication.Some? then 1 else 0
      ensures host.faults <= old(host.faults) && (r.Done? || host.faults < old(host.faults))
    {
      hide Inv, Host.Safe, LastActivation, ActivationConclusion, ValidRelease, Trail;
      if newApplication == None { return Done(()); }
      var _ :- host.RemoveNew(newApplication.value);
      r := NoteRollingBack();
    }

    method NoteRollingBack() returns (r: Step<()>)
      requires RollingBack() && host.world.previous == Stopped && host.world.new_ == Absent
      modifies host`operation, host`events, host`world, host`story, host`faults
      ensures host.Safe() && host.story.clean && !r.Raise? && host.world == old(host.world) && host.story == old(host.story)
      ensures r.Done? ==> RollingBack() && |host.events| == |old(host.events)| + 1
      ensures host.faults <= old(host.faults) && (r.Done? || host.faults < old(host.faults))
    {
      hide Inv, Host.Safe, LastActivation, ActivationConclusion, ValidRelease, Trail;
      r := Record(None);
    }

    /** Nothing runs on the database, and it ends holding what the previous application left. */
    method RestoreProduction() returns (r: Step<()>)
      requires RollingBack() && host.world.new_ == Absent
      modifies host`operation, host`events, host`world, host`story, host`faults, host`unknown
      ensures host.Safe() && host.story.clean
      ensures r.Done? ==> RollingBack() && host.world.new_ == Absent
      ensures r.Done? && host.world.previous == Stopped ==> Logical(host.world.db) == host.story.committed
      ensures r.Raise? ==> Core()
      ensures r.Done? ==> |host.events| == |old(host.events)| + if productionMayHaveChanged then 1 else 0
      ensures host.faults <= old(host.faults) && (r.Done? || host.faults < old(host.faults))
    {
      hide Inv, Host.Safe, LastActivation, ActivationConclusion, ValidRelease, Trail;
      HostFacts();
      if productionMayHaveChanged {
        if !stopped || finalBackup == None { return Raise(Expected(true, true)); }
        var _ :- host.RestoreFinal(true, trafficActivated);
        var _ :- NoteRollingBack();
      }
      r := if previous == None then Raise(Expected(true, productionMayHaveChanged)) else Done(());
    }

    method RestartApplication() returns (r: Step<()>)
      requires RollingBack() && host.world.new_ == Absent
      requires host.world.previous == Stopped ==> Logical(host.world.db) == host.story.committed
      modifies host`operation, host`events, host`world, host`story, host`faults, host`unknown
      ensures host.Safe() && host.story.clean
      ensures r.Done? ==> Restarted()
      ensures r.Raise? ==> Core()
      ensures r.Done? ==> |host.events| == |old(host.events)| + 1
      ensures host.faults <= old(host.faults) && (r.Done? || host.faults < old(host.faults))
    {
      hide Inv, Host.Safe, LastActivation, ActivationConclusion, ValidRelease, Trail;
      HostFacts();
      var _ :- host.RestartPrevious(previous.value);
      r := Record(None);
    }

    method ReturnTraffic() returns (r: Step<()>)
      requires Restarted()
      modifies host`operation, host`events, host`world, host`story, host`faults, host`unknown, host`ran
      ensures host.Safe() && host.story.clean
      ensures r.Done? ==> Restarted() && host.story.confirmed
      ensures r.Raise? ==> Core()
      ensures host.faults <= old(host.faults) && (r.Done? || host.faults < old(host.faults))
    {
      hide Inv, Host.Safe, LastActivation, ActivationConclusion, ValidRelease, Trail;
      HostFacts();
      var target :- host.ActivateOldTraffic();
      var _ :- CatchUp(Evidence(ActivateOld, target));
      r := if HookPassed(target) then Done(()) else Raise(HookError(target, productionMayHaveChanged, true));
    }

    /** Lifted only after the old target is confirmed; then the previous application is checked. */
    method LiftMaintenance() returns (r: Step<()>)
      requires Restarted() && host.story.confirmed
      modifies host`operation, host`events, host`world, host`story, host`faults, host`unknown, host`checked,
               host`ran, this`maintenanceEnabled
      ensures host.Safe() && host.story.clean
      ensures r.Done? ==> Restarted() && !host.world.maintenance && host.story.verified && host.story.confirmed
      ensures r.Raise? ==> Core()
      ensures r.Done? ==> |host.events| == |old(host.events)| + 2
      ensures host.faults <= old(host.faults) && (r.Done? || host.faults < old(host.faults))
    {
      hide Inv, Host.Safe, LastActivation, ActivationConclusion, ValidRelease, Trail;
      var _ :- Unblock();
      var _ :- host.Check(ServingApplication);
      r := NoteRestarted();
    }

    method Unblock() returns (r: Step<()>)
      requires Restarted() && host.story.confirmed
      modifies host`operation, host`events, host`world, host`story, host`faults, host`unknown, host`ran,
               this`maintenanceEnabled
      ensures host.Safe() && host.story.clean
      ensures r.Done? ==> Restarted() && !host.world.maintenance && host.story.confirmed
      ensures r.Raise? ==> Core()
      ensures r.Done? ==> |host.events| == |old(host.events)| + 1
      ensures host.faults <= old(host.faults) && (r.Done? || host.faults < old(host.faults))
    {
      hide Inv, Host.Safe, LastActivation, ActivationConclusion, ValidRelease, Trail;
      var off :- Lift();
      if !HookPassed(off) { return Raise(HookError(off, productionMayHaveChanged, true)); }
      maintenanceEnabled := false;
      r := Done(());
    }

    method NoteRestarted() returns (r: Step<()>)
      requires Restarted()
      modifies host`operation, host`events, host`world, host`story, host`faults
      ensures host.Safe() && host.story.clean && !r.Raise?
      ensures r.Done? ==> Restarted() && |host.events| == |old(host.events)| + 1
      ensures host.world.maintenance == old(host.world.maintenance)
      ensures host.story.verified == old(host.story.verified) && host.story.confirmed == old(host.story.confirmed)
      ensures host.faults <= old(host.faults) && (r.Done? || host.faults < old(host.faults))
    {
      hide Inv, Host.Safe, LastActivation, ActivationConclusion, ValidRelease, Trail;
      r := Record(None);
    }

    method CompleteRollback(failure: Failure) returns (r: Step<()>)
      requires Restarted() && !host.world.maintenance && host.story.verified && host.story.confirmed
      modifies host`release, host`operation, host`events, host`world, host`story, host`faults
      ensures host.Safe() && host.story.clean && !r.Raise?
      ensures r.Done? ==> Ended(EndedRolledBack) && host.release.failure == Some(failure)
      ensures r.Done? ==> SameFacts(old(host.release), host.release) && !host.release.trafficActivated
                          && !host.unknown && host.release.productionChanged == host.operation.productionChanged
                          && host.release.productionChanged == host.release.migrationStarted
      ensures host.faults <= old(host.faults) && (r.Done? || host.faults < old(host.faults))
    {
      hide Inv, Host.Safe, Deployment.MayClose, LastActivation, ActivationConclusion, ValidRelease, FailureOf, Trail;
      MayRollBack(failure);
      HostFacts();
      var change := Change(productionChanged := Some(productionMayHaveChanged), trafficActivated := Some(false),
                           failure := Some(failure));
      r := Close(RolledBack, change, OperationFailedSafe);
    }

    method AttemptRollback(failure: Failure) returns (r: Step<()>)
      requires Blocked()
      modifies host`release, host`operation, host`events, host`world, host`story, host`faults, host`unknown,
               host`checked, host`ran, this`maintenanceEnabled
      ensures host.Safe() && host.story.clean
      ensures r.Done? ==> Ended(EndedRolledBack) && host.release.failure == Some(failure)
      ensures r.Raise? ==> Core() && !trafficActivated
      ensures !r.Crash? ==> SameFacts(old(host.release), host.release)
      ensures r.Done? ==> !host.release.trafficActivated && !host.unknown
                          && host.release.productionChanged == host.operation.productionChanged == host.release.migrationStarted
      ensures host.faults <= old(host.faults) && (r.Done? || host.faults < old(host.faults))
    {
      hide Inv, Host.Safe, LastActivation, ActivationConclusion, ValidRelease, Deployment.RollingBack,
           Deployment.Restarted, Deployment.Ended, Trail;
      var _ :- StartRollback();
      var _ :- RemoveFailedRelease();
      var _ :- RestoreProduction();
      var _ :- RestartApplication();
      var _ :- ReturnTraffic();
      var _ :- LiftMaintenance();
      r := CompleteRollback(failure);
    }

    /** Rolls back, or records that recovery is needed. */
    method Rollback(original: Error) returns (r: Step<Ending>)
      requires Blocked()
      modifies host`release, host`operation, host`events, host`world, host`story, host`faults, host`unknown,
               host`checked, host`ran, this`maintenanceEnabled
      ensures host.Safe() && host.story.clean && !r.Raise?
      ensures r.Done? ==> r.value in {EndedRolledBack, EndedNeedingRecovery} && Ended(r.value)
      ensures r.Done? && r.value == EndedRolledBack ==> host.release.failure == Some(FailureOf(original))
      ensures r.Done? && r.value == EndedNeedingRecovery ==> host.release.failure == Some(ROLLBACK_UNPROVEN)
      ensures r.Done? && r.value == EndedNeedingRecovery ==> host.faults < old(host.faults)
      ensures r.Done? && r.value == EndedRolledBack ==> !host.unknown
      ensures r.Done? ==> host.release.productionChanged == host.operation.productionChanged == host.release.migrationStarted
      ensures r.Done? ==> SameFacts(old(host.release), host.release) && host.release.trafficActivated == trafficActivated
      ensures r.Done? ==> (host.story.exposed <==> trafficAttempted || trafficActivated)
      ensures host.faults <= old(host.faults) && (r.Done? || host.faults < old(host.faults))
    {
      hide Inv, Host.Safe, LastActivation, ActivationConclusion, ValidRelease, Trail;
      var attempt := AttemptRollback(FailureOf(original));
      match attempt
      case Done(_) => r := Done(EndedRolledBack);
      case Crash => r := Crash;
      case Raise(_) =>
        var _ :- FinishRecoveryRequired(Error(true, productionMayHaveChanged, RollbackUnproven));
        r := Done(EndedNeedingRecovery);
    }

    // ---- the whole deployment ----

    method Prepare() returns (r: Step<()>)
      requires Fresh() && !host.looseHook
      modifies host`release, host`operation, host`events, host`world, host`story, host`faults, host`unknown,
               host`looseHook, host`checked, host`ran, this
      ensures host.Safe() && host.story.clean
      ensures r.Done? ==> BlockedAt(FinalSnapshotVerified) && !productionMayHaveChanged
                          && finalBackup.Some? && host.release.finalBackup == finalBackup
      ensures r.Done? ==> !host.looseHook && Replicated() && CandidateResult in host.checked && WriterStopped in host.checked
                          && forall stage <- CANDIDATE_STAGES :: CandidateStage(stage) in host.checked
      ensures r.Raise? ==> Raised(r.error)
      ensures r.Raise? && host.looseHook && old(host.faults) <= 1 ==> r.error == Expected(true, false)
      ensures host.faults <= old(host.faults) && (r.Done? || host.faults < old(host.faults))
    {
      hide Inv, Host.Safe, LastActivation, ActivationConclusion, ValidRelease, Deployment.Raised,
           Deployment.BlockedAt, Deployment.AtMaintenance, Trail;
      var _ :- PreCutover();
      var _ :- ResolvePrevious();
      var _ :- EnterMaintenance();
      var _ :- StopCurrent();
      var _ :- TakeFinalBackup();
      r := ReplicateFinalBackup();
    }

    /** From the final backup to a checked new application behind maintenance. */
    method InstallNew() returns (r: Step<()>)
      requires BlockedAt(FinalSnapshotVerified) && !productionMayHaveChanged && Replicated()
      requires finalBackup.Some? && host.release.finalBackup == finalBackup
      modifies host`release, host`operation, host`events, host`world, host`story, host`faults, host`unknown,
               host`checked, this`productionMayHaveChanged, this`newApplication
      ensures host.Safe() && host.story.clean
      ensures r.Done? ==> BlockedAt(NewAppHealthy) && productionMayHaveChanged && host.world.new_ == Running
                          && host.checked == old(host.checked) + {NewApplication}
      ensures r.Raise? ==> Raised(r.error)
      ensures host.faults <= old(host.faults) && (r.Done? || host.faults < old(host.faults))
    {
      hide Inv, Host.Safe, LastActivation, ActivationConclusion, ValidRelease, Trail,
           Deployment.Raised, Deployment.BlockedAt, Deployment.Started;
      var _ :- AnnounceMigration();
      var _ :- MigrateProduction();
      var _ :- StartNewApplication();
      r := CheckNewApplication();
    }

    /** From there to an active release. */
    method SwitchOver() returns (r: Step<()>)
      requires BlockedAt(NewAppHealthy) && productionMayHaveChanged && host.world.new_ == Running
      modifies host`release, host`operation, host`events, host`pointers, host`world, host`story, host`faults,
               host`unknown, host`ran, this`trafficAttempted, this`trafficActivated, this`maintenanceEnabled
      ensures host.Safe() && host.story.clean
      ensures r.Done? ==> Ended(EndedActive) && !host.unknown
      ensures r.Raise? ==> Raised(r.error)
      ensures host.faults <= old(host.faults) && (r.Done? || host.faults < old(host.faults))
    {
      hide Inv, Host.Safe, LastActivation, ActivationConclusion, ValidRelease, Trail,
           Deployment.Raised, Deployment.BlockedAt, Deployment.Announced, Deployment.Core, Deployment.Ended;
      var _ :- AnnounceActivation();
      var _ :- ActivateTraffic();
      var _ :- RecordActivation();
      var _ :- OpenTraffic();
      r := CompleteActive();
    }

    method Cutover() returns (r: Step<()>)
      requires Fresh() && !host.looseHook
      modifies host`release, host`operation, host`events, host`pointers, host`world, host`story, host`faults,
               host`unknown, host`looseHook, host`checked, host`ran, this
      ensures host.Safe() && host.story.clean
      ensures r.Done? ==> Ended(EndedActive) && Established() && !host.unknown && !host.looseHook
      ensures r.Raise? ==> Raised(r.error)
      ensures r.Raise? && host.looseHook && old(host.faults) <= 1 ==> r.error == Expected(true, false)
      ensures host.faults <= old(host.faults) && (r.Done? || host.faults < old(host.faults))
    {
      hide Inv, Host.Safe, LastActivation, ActivationConclusion, ValidRelease, Trail,
           Deployment.Raised, Deployment.BlockedAt, Deployment.Fresh, Deployment.Ended;
      var _ :- Prepare();
      var _ :- InstallNew();
      r := SwitchOver();
    }

    /**
      One deployment under any failure of any step and a crash anywhere. Every
      status change it attempts is accepted, every site it leaves is safe, and it
      ends in one of four ways, each with the world that the records promise. The
      cause it caught selects the ending and is what the release then shows: the two
      safe endings are exactly those that report their own error without traffic.
    */
    method RunDeployment() returns (r: Step<Ending>, cause: Option<Cause>)
      requires Fresh() && !host.looseHook
      modifies host`release, host`operation, host`events, host`pointers, host`world, host`story, host`faults,
               host`unknown, host`looseHook, host`checked, host`ran, this
      ensures host.Safe() && host.story.clean && !r.Raise?
      ensures r.Done? ==> Ended(r.value) && Handled(cause, r.value)
      ensures r.Done? && cause.Some? ==>
                && Shown(cause.value, r.value, host.release)
                && cause.value.trafficAttempted == trafficAttempted && cause.value.trafficActivated == trafficActivated
                && (host.story.exposed <==> trafficAttempted || trafficActivated)
      ensures r.Done? && cause.Some? ==>
                (r.value in {EndedRolledBack, EndedUntouched} <==>
                   !host.release.trafficActivated && host.release.failure == Some(FailureOf(Error(false, false))))
      ensures r.Done? && r.value == EndedActive ==> Established()
      ensures r.Done? && host.unknown ==> r.value == EndedNeedingRecovery
      ensures r.Done? && r.value == EndedNeedingRecovery ==>
                || host.unknown || host.looseHook || trafficAttempted || trafficActivated
                || (cause.value.behindMaintenance && host.release.failure == Some(ROLLBACK_UNPROVEN))
      ensures r.Done? && cause.Some? ==>
                && host.release.productionChanged == host.operation.productionChanged
                && (host.release.productionChanged <==> host.release.migrationStarted || SaysChanged(cause.value.raised))
      ensures old(host.faults) == 0 ==> r == Done(EndedActive)
      ensures old(host.faults) <= 1 && r.Done? ==> r.value == Due(cause, host.unknown || host.looseHook)
      ensures host.faults <= old(host.faults) && (r.Done? || host.faults < old(host.faults))
    {
      hide Inv, Host.Safe, LastActivation, ActivationConclusion, ValidRelease, Trail,
           Deployment.Blocked, Deployment.Untouched, Deployment.Core;
      cause := None;
      var attempt := Cutover();
      match attempt
      case Done(_) => r := Done(EndedActive);
      case Crash => r := Crash;
      case Raise(raw) =>
        var caught := Cause(raw, Normalize(raw, productionMayHaveChanged), host.release,
                            trafficAttempted, trafficActivated, maintenanceEnabled);
        cause := Some(caught);
        r := Handle(caught);
    }

    /** The handler of whatever the cutover raised. */
    method Handle(cause: Cause) returns (r: Step<Ending>)
      requires Raised(cause.raised)
      requires cause == Cause(cause.raised, Normalize(cause.raised, productionMayHaveChanged), host.release,
                              trafficAttempted, trafficActivated, maintenanceEnabled)
      modifies host`release, host`operation, host`events, host`world, host`story, host`faults, host`unknown,
               host`checked, host`ran, this`maintenanceEnabled
      ensures host.Safe() && host.story.clean && !r.Raise?
      ensures r.Done? ==>
                && Ended(r.value) && Handled(Some(cause), r.value) && Shown(cause, r.value, host.release)
                && (host.story.exposed <==> trafficAttempted || trafficActivated)
      ensures r.Done? && host.unknown ==> r.value == EndedNeedingRecovery
      ensures old(host.unknown) ==> host.unknown
      ensures r.Done? && r.value == EndedNeedingRecovery ==>
                || cause.error.needsRecovery || trafficAttempted || trafficActivated
                || (cause.behindMaintenance && host.release.failure == Some(ROLLBACK_UNPROVEN)
                    && host.faults < old(host.faults))
      ensures r.Done? ==>
                && host.release.productionChanged == host.operation.productionChanged
                && (host.release.productionChanged <==> host.release.migrationStarted || SaysChanged(cause.raised))
      ensures host.faults <= old(host.faults) && (r.Done? || host.faults < old(host.faults))
    {
      hide Inv, Host.Safe, LastActivation, ActivationConclusion, ValidRelease, FailureOf, Trail;
      if cause.error.needsRecovery || trafficActivated {
        var _ :- FinishRecoveryRequired(cause.error);
        r := Done(EndedNeedingRecovery);
      } else if trafficAttempted {
        var _ :- FinishRecoveryRequired(Error(true, true, RoutingUnproven));
        r := Done(EndedNeedingRecovery);
      } else if maintenanceEnabled {
        r := Rollback(cause.error);
      } else {
        var _ :- FinishFailedBeforeRollback(cause.error);
        r := Done(EndedUntouched);
      }
    }
  }
}
