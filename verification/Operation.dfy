/** Operation manifests: what a coordinator records about its own progress, and the checks of every write. */
module Operations {
  import opened Basics
  import opened Releases

  datatype OperationStatus = InProgress | OperationSucceeded | OperationFailedSafe | OperationNeedsRecovery

  datatype RecoveryAction =
    | RemoveNewApplication | RestoreFinalBackup | RestartPreviousApplication | ActivatePreviousTraffic
    | DisableMaintenance | VerifyPrevious | MarkRolledBack | VerifyNew | MarkActive

  /** Stage names; the two announcements and the recovery steps have names of their own. */
  datatype Stage =
    | Opened
    | ReleaseStage(state: DeploymentState)
    | MigrationAnnounced
    | ActivationAnnounced
    | RecoveryStep(action: RecoveryAction)
    | Recovered(active: bool)
    | OtherStage(name: string)

  datatype Operation = Operation(
    id: nat,
    isDeploy: bool,
    status: OperationStatus,
    stage: Stage,
    productionChanged: bool,
    recoveryRequired: bool,
    failed: bool,
    startedAt: nat,
    updatedAt: nat,
    completedAt: Option<nat>,
    lastSequence: nat)

  /** The operation manifest validator. */
  predicate ValidOperation(m: Operation) {
    && m.startedAt <= m.updatedAt && m.lastSequence >= 1
    && (m.status != InProgress <==> m.completedAt.Some?)
    && (m.completedAt.Some? ==> m.completedAt.value == m.updatedAt)
    && (m.status in {OperationFailedSafe, OperationNeedsRecovery} <==> m.failed)
    && (m.status == OperationNeedsRecovery <==> m.recoveryRequired)
  }

  /** A new operation with its first event. */
  function NewOperation(id: nat, isDeploy: bool, now: nat): Operation {
    Operation(id, isDeploy, InProgress, Opened, false, false, false, now, now, None, 1)
  }

  /** A lifecycle transition with its safety facts, or one more event in the same stage. */
  datatype OperationCall =
    | Advance(status: OperationStatus, stage: Stage, productionChanged: bool, recoveryRequired: bool, failed: bool, now: nat)
    | Append(now: nat)

  datatype OperationError = TerminalOperation | ClockMovedBack | SameStage | InvalidOperation

  function NextOperation(m: Operation, call: OperationCall): Operation {
    match call
    case Advance(status, stage, productionChanged, recoveryRequired, failed, now) =>
      m.(status := status, stage := stage, productionChanged := productionChanged,
         recoveryRequired := recoveryRequired, failed := failed, updatedAt := now,
         completedAt := if status == InProgress then None else Some(now), lastSequence := m.lastSequence + 1)
    case Append(now) => m.(updatedAt := now, lastSequence := m.lastSequence + 1)
  }

  /** Every check a write passes before it is stored. */
  function ApplyOperation(m: Operation, call: OperationCall): Result<Operation, OperationError> {
    if m.status != InProgress then Err(TerminalOperation)
    else if call.now < m.updatedAt then Err(ClockMovedBack)
    else if call.Advance? && call.status == InProgress && call.stage == m.stage then Err(SameStage)
    else if !ValidOperation(NextOperation(m, call)) then Err(InvalidOperation)
    else Ok(NextOperation(m, call))
  }

  /**
    A write is refused exactly for a closed operation, a clock moved back, a stage
    not left, or facts that contradict the status.
  */
  lemma AcceptedExactly(m: Operation, call: OperationCall)
    requires ValidOperation(m)
    ensures ApplyOperation(m, call).Ok? <==>
              && m.status == InProgress && m.updatedAt <= call.now
              && (call.Advance? ==>
                    && (call.status == InProgress ==> call.stage != m.stage)
                    && (call.failed <==> call.status in {OperationFailedSafe, OperationNeedsRecovery})
                    && (call.recoveryRequired <==> call.status == OperationNeedsRecovery))
    ensures ApplyOperation(m, call).Ok? ==>
              && ValidOperation(ApplyOperation(m, call).value)
              && ApplyOperation(m, call).value.id == m.id && ApplyOperation(m, call).value.startedAt == m.startedAt
              && ApplyOperation(m, call).value.lastSequence == m.lastSequence + 1
  {
  }
}
