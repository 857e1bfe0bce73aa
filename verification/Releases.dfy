/** Release manifests: the status graph, the manifest validator, and the store that evolves them. */
module Releases {
  import opened Basics
  import opened Databases

  datatype DeploymentState =
    | Created | PreflightPassed | SnapshotVerified | RehearsalPassed | CandidateHealthy
    | MaintenanceEnabled | CurrentAppStopped | FinalSnapshotVerified | ProductionMigrated
    | NewAppHealthy | TrafficActivated | Active | RollbackStarted | RolledBack | FailedSafe
    | RecoveryRequired | ManualRestoreStarted | ManualRestoreCompleted
  {
    predicate Terminal() { Active? || RolledBack? || FailedSafe? || RecoveryRequired? }

    /** The candidate stage, before maintenance was enabled. */
    predicate Early() { Created? || PreflightPassed? || SnapshotVerified? || RehearsalPassed? || CandidateHealthy? }

    predicate NeedsPrevious() {
      || CurrentAppStopped? || FinalSnapshotVerified? || ProductionMigrated? || NewAppHealthy?
      || TrafficActivated? || Active? || RollbackStarted? || RolledBack?
    }

    predicate NeedsRehearsal() {
      SnapshotVerified? || RehearsalPassed? || CandidateHealthy? || MaintenanceEnabled? || NeedsPrevious()
    }
  }

  /** Containers and releases are named by opaque identifiers; release ids number the creations. */
  datatype Handle =
    | Bootstrap(container: nat)
    | FromRelease(container: nat, release: nat, version: string, operation: nat)

  datatype BackupRef = BackupRef(id: nat, sha: Content)

  datatype Failure = Failure(errorCode: string, whatFailed: string)

  datatype Manifest = Manifest(
    releaseId: nat,
    operationId: nat,
    requestedVersion: string,
    protocolVersion: Option<nat>,
    status: DeploymentState,
    previousReleaseId: Option<nat>,
    previousApplication: Option<Handle>,
    newApplication: Option<Handle>,
    rehearsalBackup: Option<BackupRef>,
    finalBackup: Option<BackupRef>,
    healthPassed: bool,
    productionChanged: bool,
    migrationStarted: bool,
    trafficAttempted: bool,
    trafficActivated: bool,
    startedAt: nat,
    updatedAt: nat,
    completedAt: Option<nat>,
    failure: Option<Failure>,
    recoveryOperation: Option<nat>,
    recoveredAt: Option<nat>,
    recoveryFailure: Option<Failure>)

  /** The edges of the release status graph. */
  predicate Allowed(from: DeploymentState, to: DeploymentState) {
    match from
    case Created => to.PreflightPassed? || to.FailedSafe? || to.RecoveryRequired?
    case PreflightPassed => to.SnapshotVerified? || to.FailedSafe? || to.RecoveryRequired?
    case SnapshotVerified => to.RehearsalPassed? || to.FailedSafe? || to.RecoveryRequired?
    case RehearsalPassed => to.CandidateHealthy? || to.FailedSafe? || to.RecoveryRequired?
    case CandidateHealthy => to.MaintenanceEnabled? || to.FailedSafe? || to.RecoveryRequired?
    case MaintenanceEnabled => to.CurrentAppStopped? || to.RollbackStarted? || to.RecoveryRequired?
    case CurrentAppStopped => to.FinalSnapshotVerified? || to.RollbackStarted? || to.RecoveryRequired?
    case FinalSnapshotVerified => to.ProductionMigrated? || to.RollbackStarted? || to.RecoveryRequired?
    case ProductionMigrated => to.NewAppHealthy? || to.RollbackStarted? || to.RecoveryRequired?
    case NewAppHealthy => to.TrafficActivated? || to.RollbackStarted? || to.RecoveryRequired?
    case TrafficActivated => to.Active? || to.RecoveryRequired?
    case RollbackStarted => to.RolledBack? || to.RecoveryRequired?
    case _ => false
  }

  /** Times and the terminal fields. */
  predicate ValidTimes(m: Manifest) {
    && m.startedAt <= m.updatedAt
    && (m.status.Terminal() <==> m.completedAt.Some?)
    && (m.completedAt.Some? ==> m.completedAt.value == m.updatedAt)
    && (m.status in {RolledBack, FailedSafe, RecoveryRequired} <==> m.failure.Some?)
    && ((m.recoveryOperation.Some? || m.recoveredAt.Some? || m.recoveryFailure.Some?) ==>
          && m.recoveryOperation.Some? && m.recoveredAt.Some? && m.recoveryFailure.Some?
          && m.status in {Active, RolledBack})
    && m.status !in {ManualRestoreStarted, ManualRestoreCompleted}
  }

  /** Identities of the applications and the backups each state must name. */
  predicate ValidIdentity(m: Manifest) {
    && (m.previousReleaseId.Some? && m.previousApplication.Some? ==>
          && m.previousApplication.value.FromRelease?
          && m.previousApplication.value.release == m.previousReleaseId.value)
    && (m.newApplication.Some? ==>
          && m.newApplication.value.FromRelease?
          && m.newApplication.value.release == m.releaseId
          && m.newApplication.value.version == m.requestedVersion
          && m.newApplication.value.operation == m.operationId)
    && (m.status.NeedsRehearsal() ==> m.rehearsalBackup.Some?)
    && (m.status.NeedsPrevious() ==> m.previousApplication.Some?)
  }

  /** The production-change and traffic facts. */
  predicate ValidFacts(m: Manifest) {
    && (m.trafficActivated ==> m.status in {TrafficActivated, Active, RecoveryRequired})
    && (m.trafficActivated ==> m.productionChanged)
    && (m.migrationStarted ==> m.finalBackup.Some?)
    && (m.trafficAttempted ==>
          m.migrationStarted && m.productionChanged && m.newApplication.Some? && m.healthPassed)
    && (m.trafficActivated ==> m.trafficAttempted)
    && (m.status == FailedSafe ==> !m.productionChanged && !m.trafficActivated)
    && (m.status == RolledBack ==> !m.trafficActivated)
    && (m.status in {ProductionMigrated, NewAppHealthy, TrafficActivated, Active} ==>
          m.finalBackup.Some? && m.productionChanged && m.migrationStarted)
    && (m.status in {NewAppHealthy, TrafficActivated, Active} ==> m.newApplication.Some? && m.healthPassed)
    && (m.status in {TrafficActivated, Active} ==> m.trafficActivated)
  }

  /** The whole manifest validator. */
  predicate ValidRelease(m: Manifest) {
    ValidTimes(m) && ValidIdentity(m) && ValidFacts(m)
  }

  /** The optional keyword arguments of a transition; `None` leaves a field alone. */
  datatype Change = Change(
    previousApplication: Option<Handle> := None,
    newApplication: Option<Handle> := None,
    rehearsalBackup: Option<BackupRef> := None,
    finalBackup: Option<BackupRef> := None,
    healthPassed: Option<bool> := None,
    productionChanged: Option<bool> := None,
    trafficActivated: Option<bool> := None,
    failure: Option<Failure> := None)

  datatype StoreError = TerminalRelease | EdgeNotAllowed | NoIntentGiven | NotResolvable | ValidationFailed

  function Or<T>(change: Option<T>, current: T): T {
    if change.Some? then change.value else current
  }

  function OrKeep<T>(change: Option<T>, current: Option<T>): Option<T> {
    if change.Some? then change else current
  }

  function Checked(m: Manifest): Result<Manifest, StoreError> {
    if ValidRelease(m) then Ok(m) else Err(ValidationFailed)
  }

  function Moved(m: Manifest, status: DeploymentState, c: Change, now: nat): Manifest {
    m.(status := status,
       updatedAt := now,
       completedAt := if status.Terminal() then Some(now) else None,
       previousApplication := OrKeep(c.previousApplication, m.previousApplication),
       newApplication := OrKeep(c.newApplication, m.newApplication),
       rehearsalBackup := OrKeep(c.rehearsalBackup, m.rehearsalBackup),
       finalBackup := OrKeep(c.finalBackup, m.finalBackup),
       healthPassed := Or(c.healthPassed, m.healthPassed),
       productionChanged := Or(c.productionChanged, m.productionChanged),
       trafficActivated := Or(c.trafficActivated, m.trafficActivated),
       failure := OrKeep(c.failure, m.failure))
  }

  /** One explicitly allowed durable transition. */
  function Transition(m: Manifest, status: DeploymentState, c: Change, clock: nat): Result<Manifest, StoreError> {
    if m.status.Terminal() then Err(TerminalRelease)
    else if !Allowed(m.status, status) then Err(EdgeNotAllowed)
    else Checked(Moved(m, status, c, Max(clock, m.updatedAt)))
  }

  /** Marks a side-effect window before the external action is invoked. */
  function RecordIntent(m: Manifest, migration: bool, activation: bool, clock: nat): Result<Manifest, StoreError> {
    if !migration && !activation then Err(NoIntentGiven)
    else if m.status.Terminal() then Err(TerminalRelease)
    else Checked(m.(updatedAt := Max(clock, m.updatedAt),
                    migrationStarted := m.migrationStarted || migration,
                    trafficAttempted := m.trafficAttempted || activation))
  }

  /** Resolves `recovery_required` and keeps its failure as `recovery_failure`. */
  function Resolve(m: Manifest, status: DeploymentState, recoveryOperation: nat, trafficActivated: bool, clock: nat)
    : Result<Manifest, StoreError>
  {
    if status !in {Active, RolledBack} || m.status != RecoveryRequired || m.failure == None then Err(NotResolvable)
    else
      var now := Max(clock, m.updatedAt);
      Checked(m.(status := status, updatedAt := now, completedAt := Some(now),
                 trafficActivated := trafficActivated, recoveryOperation := Some(recoveryOperation),
                 recoveredAt := Some(now), recoveryFailure := m.failure,
                 failure := if status == Active then None else m.failure))
  }

  // ---- every run of the store ----

  datatype Call =
    | DoTransition(status: DeploymentState, change: Change, clock: nat)
    | DoIntent(migration: bool, activation: bool, clock: nat)
    | DoResolve(status: DeploymentState, recoveryOperation: nat, trafficActivated: bool, clock: nat)

  function Apply(m: Manifest, call: Call): Result<Manifest, StoreError> {
    match call
    case DoTransition(status, change, clock) => Transition(m, status, change, clock)
    case DoIntent(migration, activation, clock) => RecordIntent(m, migration, activation, clock)
    case DoResolve(status, op, traffic, clock) => Resolve(m, status, op, traffic, clock)
  }

  /** Runs any sequence of calls; a refused call leaves the manifest as it was. */
  function RunCalls(m: Manifest, calls: seq<Call>): Manifest
    decreases |calls|
  {
    if calls == [] then m
    else
      var next := Apply(m, calls[0]);
      RunCalls(if next.Ok? then next.value else m, calls[1..])
  }

  function Rank(s: DeploymentState): nat {
    match s
    case Created => 12 case PreflightPassed => 11 case SnapshotVerified => 10 case RehearsalPassed => 9
    case CandidateHealthy => 8 case MaintenanceEnabled => 7 case CurrentAppStopped => 6
    case FinalSnapshotVerified => 5 case ProductionMigrated => 4 case NewAppHealthy => 3
    case TrafficActivated => 2 case RollbackStarted => 2 case RecoveryRequired => 1
    case _ => 0
  }

  /** The number of calls that were accepted and moved the status. */
  function StatusMoves(m: Manifest, calls: seq<Call>): nat
    decreases |calls|
  {
    if calls == [] then 0
    else
      var next := Apply(m, calls[0]);
      (if next.Ok? && !calls[0].DoIntent? then 1 else 0)
      + StatusMoves(if next.Ok? then next.value else m, calls[1..])
  }

  /** The part of a manifest no later record may contradict. */
  predicate Preserves(a: Manifest, b: Manifest) {
    && a.releaseId == b.releaseId && a.operationId == b.operationId
    && a.requestedVersion == b.requestedVersion && a.protocolVersion == b.protocolVersion
    && a.previousReleaseId == b.previousReleaseId && a.startedAt == b.startedAt
    && a.updatedAt <= b.updatedAt
    && (a.migrationStarted ==> b.migrationStarted)
    && (a.trafficAttempted ==> b.trafficAttempted)
    && (a.status in {Active, RolledBack, FailedSafe} ==> b == a)
    && (a.status == RecoveryRequired ==>
          || b == a
          || (&& b.status in {Active, RolledBack} && b.recoveryFailure == a.failure
              && b == a.(status := b.status, updatedAt := b.updatedAt, completedAt := b.completedAt,
                         trafficActivated := b.trafficActivated, recoveryOperation := b.recoveryOperation,
                         recoveredAt := b.recoveredAt, recoveryFailure := b.recoveryFailure, failure := b.failure)))
  }

  lemma CallPreserves(m: Manifest, call: Call)
    requires ValidRelease(m) && Apply(m, call).Ok?
    ensures var n := Apply(m, call).value;
            && ValidRelease(n) && Preserves(m, n)
            && (if call.DoIntent? then n.status == m.status else Rank(n.status) < Rank(m.status))
  {
  }

  lemma PreservesTransitive(a: Manifest, b: Manifest, c: Manifest)
    requires Preserves(a, b) && Preserves(b, c)
    ensures Preserves(a, c)
  {
  }

  /**
    Over every sequence of calls, accepted or refused: the manifest stays valid,
    identity and intent never regress, terminal states are absorbing except for
    one resolution that keeps the original failure, and status can move at most
    `Rank` times.
  */
  lemma {:induction false} LifecycleOfEveryRun(m: Manifest, calls: seq<Call>)
    requires ValidRelease(m)
    ensures ValidRelease(RunCalls(m, calls)) && Preserves(m, RunCalls(m, calls))
    ensures StatusMoves(m, calls) + Rank(RunCalls(m, calls).status) <= Rank(m.status) <= 12
    decreases |calls|
  {
    if calls == [] {
    } else {
      var next := Apply(m, calls[0]);
      if next.Ok? {
        CallPreserves(m, calls[0]);
        LifecycleOfEveryRun(next.value, calls[1..]);
        PreservesTransitive(m, next.value, RunCalls(m, calls));
      } else {
        LifecycleOfEveryRun(m, calls[1..]);
      }
    }
  }

  /**
    A mark written at the end of a recovery is accepted exactly when the manifest
    holds the evidence the target state needs. In particular a release that needed
    recovery before its rehearsal snapshot can never be marked rolled back.
  */
  lemma ResolutionAcceptedExactly(m: Manifest, recoveryOperation: nat, clock: nat)
    requires ValidRelease(m) && m.status == RecoveryRequired
    ensures Resolve(m, RolledBack, recoveryOperation, false, clock).Ok?
            <==> m.rehearsalBackup.Some? && m.previousApplication.Some?
    ensures Resolve(m, Active, recoveryOperation, true, clock).Ok?
            <==> && m.rehearsalBackup.Some? && m.previousApplication.Some? && m.trafficAttempted
  {
  }

  // ---- what a status stands for ----

  /** The forward path, one stage at a time. */
  const STAGES: seq<DeploymentState> := [
    Created, PreflightPassed, SnapshotVerified, RehearsalPassed, CandidateHealthy, MaintenanceEnabled,
    CurrentAppStopped, FinalSnapshotVerified, ProductionMigrated, NewAppHealthy, TrafficActivated, Active]

  /** Every edge of the graph: the next stage, or one of the four ways off the path. */
  lemma EdgesAreExact(from: DeploymentState, to: DeploymentState)
    ensures Allowed(from, to) <==>
              || (exists i :: 0 <= i < |STAGES| - 1 && STAGES[i] == from && STAGES[i + 1] == to)
              || (to == FailedSafe && from.Early())
              || (to == RollbackStarted
                  && from in {MaintenanceEnabled, CurrentAppStopped, FinalSnapshotVerified, ProductionMigrated, NewAppHealthy})
              || (to == RolledBack && from == RollbackStarted)
              || (to == RecoveryRequired && !from.Terminal() && !from.ManualRestoreStarted? && !from.ManualRestoreCompleted?)
  {
    hide Allowed;
    OneEdge(from, to);
    var i := Position(from);
    if i < |STAGES| - 1 {
      var next := STAGES[i + 1];
      assert STAGES[i] == from;
    }
    forall j | 0 <= j < |STAGES| ensures Position(STAGES[j]) == j {}
  }

  function Position(s: DeploymentState): nat {
    match s
    case Created => 0 case PreflightPassed => 1 case SnapshotVerified => 2 case RehearsalPassed => 3
    case CandidateHealthy => 4 case MaintenanceEnabled => 5 case CurrentAppStopped => 6
    case FinalSnapshotVerified => 7 case ProductionMigrated => 8 case NewAppHealthy => 9
    case TrafficActivated => 10 case Active => 11 case _ => 12
  }

  lemma OneEdge(from: DeploymentState, to: DeploymentState)
    ensures Position(from) < |STAGES| ==> STAGES[Position(from)] == from
    ensures Allowed(from, to) <==>
              || (Position(from) < 11 && Position(to) == Position(from) + 1)
              || (to == FailedSafe && from.Early())
              || (to == RollbackStarted
                  && from in {MaintenanceEnabled, CurrentAppStopped, FinalSnapshotVerified, ProductionMigrated, NewAppHealthy})
              || (to == RolledBack && from == RollbackStarted)
              || (to == RecoveryRequired && !from.Terminal() && !from.ManualRestoreStarted? && !from.ManualRestoreCompleted?)
  {
  }

  /** What a valid manifest proves about its release, by where it ended. */
  lemma TerminalManifestsMean(m: Manifest)
    requires ValidRelease(m)
    ensures m.status == Active ==>
              && m.rehearsalBackup.Some? && m.finalBackup.Some? && m.previousApplication.Some? && m.newApplication.Some?
              && m.healthPassed && m.productionChanged && m.migrationStarted && m.trafficAttempted && m.trafficActivated
    ensures m.status == RolledBack ==>
              m.rehearsalBackup.Some? && m.previousApplication.Some? && !m.trafficActivated && m.failure.Some?
    ensures m.status == FailedSafe ==>
              !m.productionChanged && !m.trafficActivated && !m.trafficAttempted && m.failure.Some?
    ensures m.status == RecoveryRequired ==> m.failure.Some? && (m.trafficActivated ==> m.trafficAttempted)
    ensures m.newApplication.Some? ==>
              exists container: nat ::
                m.newApplication.value == FromRelease(container, m.releaseId, m.requestedVersion, m.operationId)
    ensures m.previousReleaseId.Some? && m.previousApplication.Some? ==>
              ReleasedBy(m.previousApplication.value) == m.previousReleaseId
    ensures m.status.Terminal() <==> m.completedAt == Some(m.updatedAt)
    ensures m.startedAt <= m.updatedAt && m.status !in {ManualRestoreStarted, ManualRestoreCompleted}
    ensures m.recoveryOperation.Some? ==> m.status in {Active, RolledBack} && m.recoveryFailure.Some? && m.recoveredAt.Some?
    ensures m.trafficAttempted ==> m.migrationStarted && m.finalBackup.Some? && m.healthPassed && m.newApplication.Some?
  {
    if m.newApplication.Some? {
      assert m.newApplication.value
             == FromRelease(m.newApplication.value.container, m.releaseId, m.requestedVersion, m.operationId);
    }
  }

  /** The release an application was started by, if it was one. */
  function ReleasedBy(handle: Handle): Option<nat> {
    if handle.FromRelease? then Some(handle.release) else None
  }

  lemma {:induction false} RunInParts(m: Manifest, calls: seq<Call>, last: Call)
    ensures RunCalls(m, calls + [last]) == RunCalls(RunCalls(m, calls), [last])
    decreases |calls|
  {
    if calls == [] {
      assert calls + [last] == [last];
    } else {
      assert (calls + [last])[1..] == calls[1..] + [last];
      var next := Apply(m, calls[0]);
      RunInParts(if next.Ok? then next.value else m, calls[1..], last);
    }
  }

  /** Whatever the calls were, a stage on the path is reached only through every stage before it. */
  lemma {:induction false} StagesAreEarned(m: Manifest, calls: seq<Call>, j: nat, i: nat)
    requires ValidRelease(m) && m.status == Created && j <= i < |STAGES|
    requires RunCalls(m, calls).status == STAGES[i] && RunCalls(m, calls).recoveryOperation == None
    ensures exists k :: 0 <= k <= |calls| && RunCalls(m, calls[..k]).status == STAGES[j]
    decreases |calls|, i
  {
    assert calls[..|calls|] == calls;
    if j < i {
      OnlyFirstIsCreated(i);
      if calls != [] {
        var earlier, last := calls[..|calls| - 1], calls[|calls| - 1];
        assert calls == earlier + [last];
        RunInParts(m, earlier, last);
        var before := RunCalls(m, earlier);
        LifecycleOfEveryRun(m, earlier);
        StepOnPath(before, last, i);
        var from :| 0 <= from < |STAGES| && STAGES[from] == before.status && from in {i - 1, i};
        if j == from {
          assert RunCalls(m, calls[..|earlier|]).status == STAGES[j];
        } else {
          StagesAreEarned(m, earlier, j, from);
          var k :| 0 <= k <= |earlier| && RunCalls(m, earlier[..k]).status == STAGES[j];
          assert earlier[..k] == calls[..k];
        }
      }
    }
  }

  lemma OnlyFirstIsCreated(i: nat)
    ensures 0 < i < |STAGES| ==> STAGES[i] != Created
  {
  }

  /** One call reaches a stage only from itself or from the stage before. */
  lemma StepOnPath(m: Manifest, call: Call, i: nat)
    requires ValidRelease(m) && 0 < i < |STAGES|
    requires RunCalls(m, [call]).status == STAGES[i] && RunCalls(m, [call]).recoveryOperation == None
    ensures m.recoveryOperation == None
    ensures exists from :: 0 <= from < |STAGES| && STAGES[from] == m.status && from in {i - 1, i}
  {
    var next := Apply(m, call);
    assert [call][1..] == [];
    assert RunCalls(m, [call]) == if next.Ok? then next.value else m;
    AcceptedMoves(m, call);
    hide Apply, ValidRelease, Allowed;
    if next.Ok? && call.DoTransition? {
      OneEdge(m.status, call.status);
      PositionOf(i);
      assert STAGES[Position(m.status)] == m.status;
    }
  }

  lemma PositionOf(i: nat)
    ensures i < |STAGES| ==> Position(STAGES[i]) == i
  {
  }

  /** An accepted transition takes one edge, an intent none, and a resolution names its recovery. */
  lemma AcceptedMoves(m: Manifest, call: Call)
    ensures Apply(m, call).Ok? ==>
              var n := Apply(m, call).value;
              match call
              case DoTransition(status, _, _) =>
                n.status == status && Allowed(m.status, status) && n.recoveryOperation == m.recoveryOperation
              case DoIntent(_, _, _) => n.status == m.status && n.recoveryOperation == m.recoveryOperation
              case DoResolve(_, operation, _, _) => m.status == RecoveryRequired && n.recoveryOperation == Some(operation)
  {
  }

  /**
    An intent is recorded exactly if one is given, the release is still open, a
    migration has its final backup, and an activation follows a checked application on
    a migrated database.
  */
  lemma IntentAcceptedExactly(m: Manifest, migration: bool, activation: bool, clock: nat)
    requires ValidRelease(m)
    ensures RecordIntent(m, migration, activation, clock).Ok? <==>
              && (migration || activation) && !m.status.Terminal()
              && (migration ==> m.finalBackup.Some?)
              && (activation ==>
                    (m.migrationStarted || migration) && m.productionChanged && m.newApplication.Some? && m.healthPassed)
    ensures RecordIntent(m, migration, activation, clock).Ok? ==>
              var n := RecordIntent(m, migration, activation, clock).value;
              && n.migrationStarted == (m.migrationStarted || migration)
              && n.trafficAttempted == (m.trafficAttempted || activation) && m.updatedAt <= n.updatedAt
              && n == m.(updatedAt := n.updatedAt, migrationStarted := n.migrationStarted, trafficAttempted := n.trafficAttempted)
  {
  }

  // ---- the store ----

  datatype Pointers = Pointers(active: nat, previous: Option<nat>)

  class ReleaseStore {
    var manifests: map<nat, Manifest>
    var pointers: Option<Pointers>
    var nextId: nat

    /**
      Ids are handed out in creation order, every manifest is valid and filed
      under its own id, it names an earlier release as previous, and the pointer
      selects an active manifest and a different one.
    */
    ghost predicate Valid()
      reads this
    {
      && (forall id <- manifests :: && id < nextId && manifests[id].releaseId == id && ValidRelease(manifests[id])
                                    && (manifests[id].previousReleaseId.Some? ==> manifests[id].previousReleaseId.value < id))
      && (pointers.Some? ==>
            && pointers.value.active in manifests && manifests[pointers.value.active].status == Active
            && (pointers.value.previous.Some? ==>
                  pointers.value.previous.value in manifests && pointers.value.previous.value != pointers.value.active))
    }

    constructor ()
      ensures Valid() && manifests == map[] && pointers == None
    {
      manifests, pointers, nextId := map[], None, 0;
    }

    /** The new release inherits the selected release as previous, and its application. */
    method CreateRelease(operationId: nat, version: string, clock: nat) returns (id: nat)
      requires Valid()
      modifies this
      ensures Valid() && id !in old(manifests) && pointers == old(pointers)
      ensures manifests.Keys == old(manifests.Keys) + {id} && forall k <- old(manifests) :: k < id
      ensures forall k <- old(manifests) :: manifests[k] == old(manifests)[k]
      ensures manifests[id].status == Created && manifests[id].protocolVersion == Some(2)
      ensures manifests[id].previousReleaseId == if pointers.Some? then Some(pointers.value.active) else None
      ensures manifests[id].previousApplication
              == if pointers.Some? then old(manifests)[pointers.value.active].newApplication else None
      ensures manifests[id].previousReleaseId.Some? ==> manifests[id].previousApplication.Some?
      ensures manifests[id] == Manifest(
                id, operationId, version, Some(2), Created, manifests[id].previousReleaseId,
                manifests[id].previousApplication, None, None, None, false, false, false, false, false, clock, clock,
                None, None, None, None, None)
    {
      var previousId := if pointers.Some? then Some(pointers.value.active) else None;
      var inherited := if pointers.Some? then manifests[pointers.value.active].newApplication else None;
      id := nextId;
      nextId := nextId + 1;
      manifests := manifests[id := Manifest(
        id, operationId, version, Some(2), Created, previousId, inherited, None, None, None,
        false, false, false, false, false, clock, clock, None, None, None, None, None)];
    }

    /** Every manifest update is one `Apply`; a refused call changes nothing. */
    method Update(id: nat, call: Call) returns (r: Result<Manifest, StoreError>)
      requires Valid() && id in manifests
      modifies this`manifests
      ensures Valid()
      ensures r == Apply(old(manifests)[id], call)
      ensures manifests == if r.Ok? then old(manifests)[id := r.value] else old(manifests)
    {
      r := Apply(manifests[id], call);
      if r.Ok? {
        CallPreserves(manifests[id], call);
        manifests := manifests[id := r.value];
      }
    }

    /** Selects an active manifest; the release selected before becomes previous. */
    method ActivateRelease(id: nat) returns (ok: bool)
      requires Valid() && id in manifests
      modifies this`pointers
      ensures Valid()
      ensures ok <==> manifests[id].status == Active
      ensures !ok ==> pointers == old(pointers)
      ensures ok ==> pointers.Some? && pointers.value.active == id
      ensures ok && old(pointers).Some? && old(pointers).value.active == id ==> pointers == old(pointers)
      ensures ok && old(pointers).Some? && old(pointers).value.active != id
              ==> pointers.value.previous == Some(old(pointers).value.active)
      ensures ok && old(pointers) == None ==> pointers.value.previous == None
    {
      if manifests[id].status != Active { return false; }
      ok := true;
      if pointers.Some? && pointers.value.active == id { return; }
      pointers := Some(Pointers(id, if pointers.Some? then Some(pointers.value.active) else None));
    }
  }
}
