/** The read-only half of recovery: one plan from durable and live evidence. */
module RecoveryPlanning {
  import opened Basics
  import opened Commands
  import opened Databases
  import opened Releases
  import opened Operations

  datatype TrafficAction = EnableMaintenance | DisableMaintenanceHook | ActivateNew | ActivateOld

  datatype CommandEvidence = CommandEvidence(outcome: CommandOutcome, exitCode: Option<int>)

  /** Hook evidence as re-read from the log; the command part may be malformed. */
  datatype HookEvidence = HookEvidence(action: TrafficAction, passed: bool, command: Option<CommandEvidence>)

  datatype Event = Event(operationId: nat, sequence: nat, hook: Option<HookEvidence>)

  datatype Runtime = Running | Stopped | Absent | Unknown

  /** Read-only facts from live resources; a digest is the content it identifies. */
  datatype Live = Live(
    previous: Runtime,
    new_: Runtime,
    finalVerified: bool,
    productionSha: Option<Content>,
    finalSha: Option<Content>)

  datatype Disposition = NoAction | RecoverPrevious | CompleteNew | ManualRequired

  datatype RecoveryPlan = RecoveryPlan(
    disposition: Disposition,
    productionMayHaveChanged: bool,
    trafficMayHaveSwitched: bool,
    restoreAllowed: bool,
    actions: seq<RecoveryAction>)

  datatype Conclusion = ActivationSucceeded | NotAttempted | NotStarted | Uncertain

  predicate IdentityProblem(operation: Operation, events: seq<Event>, release: Manifest) {
    || !operation.isDeploy
    || operation.id != release.operationId
    || events == []
    || events[|events| - 1].operationId != operation.id
    || events[|events| - 1].sequence != operation.lastSequence
  }

  /** The last activate-new evidence of the trail. */
  function LastActivation(events: seq<Event>): Option<HookEvidence> {
    if events == [] then None
    else
      var last := events[|events| - 1];
      if last.hook.Some? && last.hook.value.action == ActivateNew then last.hook
      else LastActivation(events[..|events| - 1])
  }

  /** The forward scan of the event trail that recovery performs. */
  method FindTerminalActivation(events: seq<Event>) returns (terminal: Option<HookEvidence>)
    ensures terminal == LastActivation(events)
  {
    terminal := None;
    for i := 0 to |events|
      invariant terminal == LastActivation(events[..i])
    {
      assert events[..i + 1][..i] == events[..i];
      if events[i].hook.Some? && events[i].hook.value.action == ActivateNew {
        terminal := events[i].hook;
      }
    }
    assert events[..|events|] == events;
  }

  function ActivationConclusion(release: Manifest, events: seq<Event>): Conclusion {
    if release.trafficActivated then ActivationSucceeded
    else if !release.trafficAttempted then NotAttempted
    else
      var terminal := LastActivation(events);
      if terminal == None || terminal.value.command == None then Uncertain
      else
        var command := terminal.value.command.value;
        if terminal.value.passed && command.outcome == Succeeded then ActivationSucceeded
        else if EvidenceOfNoStart(command.outcome, command.exitCode) then NotStarted
        else Uncertain
  }

  function Manual(productionChanged: bool, trafficMayHaveSwitched: bool): RecoveryPlan {
    RecoveryPlan(ManualRequired, productionChanged, trafficMayHaveSwitched, false, [])
  }

  const FINISH_PREVIOUS := [ActivatePreviousTraffic, DisableMaintenance, VerifyPrevious, MarkRolledBack]

  const FINISH_NEW := [DisableMaintenance, VerifyNew, MarkActive]

  /** A rollback: remove the new application, restore, restart, then always the same finish. */
  function RollbackActions(remove: bool, restore: bool, restart: bool): seq<RecoveryAction>
    decreases remove, restore, restart
  {
    if remove then [RemoveNewApplication] + RollbackActions(false, restore, restart)
    else if restore then [RestoreFinalBackup] + RollbackActions(false, false, restart)
    else if restart then [RestartPreviousApplication] + RollbackActions(false, false, false)
    else FINISH_PREVIOUS
  }

  /** Must the database be restored? `None` when that cannot be decided safely. */
  function RestoreNeeded(changed: bool, release: Manifest, live: Live): Option<bool> {
    if !changed then Some(false)
    else if release.finalBackup == None || !live.finalVerified then None
    else if live.productionSha.Some? && live.productionSha == live.finalSha then Some(false)
    else if live.previous == Running then None
    else Some(true)
  }

  predicate MayHaveChanged(operation: Operation, release: Manifest) {
    release.productionChanged || release.migrationStarted || operation.productionChanged
  }

  /** The rollback half: only live facts and the recorded handles and backup remain to be checked. */
  function PlanRollback(changed: bool, release: Manifest, live: Live): RecoveryPlan {
    if release.previousApplication == None then Manual(changed, false)
    else if live.previous in {Absent, Unknown} then Manual(changed, false)
    else if live.new_ == Unknown then Manual(changed, false)
    else if live.new_ in {Running, Stopped} && release.newApplication == None then Manual(changed, false)
    else
      var restore := RestoreNeeded(changed, release, live);
      if restore == None then Manual(true, false)
      else
        RecoveryPlan(RecoverPrevious, changed, false, true,
                     RollbackActions(live.new_ in {Running, Stopped}, restore.value, live.previous == Stopped))
  }

  function BuildRecoveryPlan(operation: Operation, events: seq<Event>, release: Manifest, live: Live): RecoveryPlan {
    if IdentityProblem(operation, events, release) then Manual(true, false)
    else if release.status in {Active, RolledBack, FailedSafe}
            && (operation.status != InProgress || release.recoveryOperation.Some?) then
      RecoveryPlan(NoAction, release.productionChanged, release.trafficActivated, !release.trafficActivated, [])
    else if release.protocolVersion != Some(2) then Manual(true, false)
    else
      var activation := ActivationConclusion(release, events);
      if activation == ActivationSucceeded then
        if live.new_ != Running then Manual(true, true)
        else RecoveryPlan(CompleteNew, true, true, false, FINISH_NEW)
      else if activation == Uncertain then Manual(true, true)
      else if release.status.Early() then Manual(false, false)
      else PlanRollback(MayHaveChanged(operation, release), release, live)
  }

  // ---- what a plan may authorize ----

  function ActionRank(a: RecoveryAction): nat {
    match a
    case RemoveNewApplication => 0 case RestoreFinalBackup => 1 case RestartPreviousApplication => 2
    case ActivatePreviousTraffic => 3 case DisableMaintenance => 4 case VerifyPrevious => 5
    case VerifyNew => 5 case MarkRolledBack => 6 case MarkActive => 6
  }

  predicate Ordered(actions: seq<RecoveryAction>) {
    forall i, j :: 0 <= i < j < |actions| ==> ActionRank(actions[i]) < ActionRank(actions[j])
  }

  lemma RollbackShape(remove: bool, restore: bool, restart: bool)
    ensures var a := RollbackActions(remove, restore, restart);
            && |a| == 4 + (if remove then 1 else 0) + (if restore then 1 else 0) + (if restart then 1 else 0)
            && a[|a| - 4..] == FINISH_PREVIOUS
    decreases remove, restore, restart
  {
    if remove {
      RollbackShape(false, restore, restart);
      SuffixOfPrepend(RemoveNewApplication, RollbackActions(false, restore, restart));
    } else if restore {
      RollbackShape(false, false, restart);
      SuffixOfPrepend(RestoreFinalBackup, RollbackActions(false, false, restart));
    } else if restart {
      RollbackShape(false, false, false);
      SuffixOfPrepend(RestartPreviousApplication, FINISH_PREVIOUS);
    } else {
      assert FINISH_PREVIOUS[0..] == FINISH_PREVIOUS;
    }
  }

  lemma SuffixOfPrepend(first: RecoveryAction, rest: seq<RecoveryAction>)
    requires |rest| >= 4
    ensures ([first] + rest)[|rest| - 3..] == rest[|rest| - 4..]
  {
  }

  lemma RollbackMembers(remove: bool, restore: bool, restart: bool)
    ensures var a := RollbackActions(remove, restore, restart);
            && (RemoveNewApplication in a <==> remove)
            && (RestoreFinalBackup in a <==> restore)
            && (RestartPreviousApplication in a <==> restart)
    decreases remove, restore, restart
  {
    if remove {
      RollbackMembers(false, restore, restart);
    } else if restore {
      RollbackMembers(false, false, restart);
    } else if restart {
      RollbackMembers(false, false, false);
    }
  }

  lemma RollbackFinishes(remove: bool, restore: bool, restart: bool)
    ensures forall action <- FINISH_PREVIOUS :: action in RollbackActions(remove, restore, restart)
    ensures ActivatePreviousTraffic in FINISH_PREVIOUS && DisableMaintenance in FINISH_PREVIOUS
    ensures VerifyPrevious in FINISH_PREVIOUS && MarkRolledBack in FINISH_PREVIOUS
    decreases remove, restore, restart
  {
    if remove {
      RollbackFinishes(false, restore, restart);
    } else if restore {
      RollbackFinishes(false, false, restart);
    } else if restart {
      RollbackFinishes(false, false, false);
    }
  }

  lemma RollbackOrdered(remove: bool, restore: bool, restart: bool)
    ensures var a := RollbackActions(remove, restore, restart);
            && Ordered(a) && a != []
            && ActionRank(a[0]) == if remove then 0 else if restore then 1 else if restart then 2 else 3
    decreases remove, restore, restart
  {
    if remove {
      RollbackOrdered(false, restore, restart);
      Prepend(RemoveNewApplication, RollbackActions(false, restore, restart));
    } else if restore {
      RollbackOrdered(false, false, restart);
      Prepend(RestoreFinalBackup, RollbackActions(false, false, restart));
    } else if restart {
      RollbackOrdered(false, false, false);
      Prepend(RestartPreviousApplication, FINISH_PREVIOUS);
    }
  }

  lemma Prepend(first: RecoveryAction, rest: seq<RecoveryAction>)
    requires Ordered(rest) && rest != [] && ActionRank(first) < ActionRank(rest[0])
    ensures Ordered([first] + rest)
  {
    var all := [first] + rest;
    forall i, j | 0 <= i < j < |all| ensures ActionRank(all[i]) < ActionRank(all[j]) {
      assert all[j] == rest[j - 1];
      if i > 0 { assert all[i] == rest[i - 1]; }
    }
  }

  /**
    A plan that restores has exact evidence for it: traffic was never activated
    and the hook provably never ran, the old writer is stopped, the backup
    verified, no new application survives to see the restored file, and every
    user restarts only afterwards.
  */
  lemma RestoreAuthorizedOnlyWithEvidence(operation: Operation, events: seq<Event>, release: Manifest, live: Live)
    requires RestoreFinalBackup in BuildRecoveryPlan(operation, events, release, live).actions
    ensures var plan := BuildRecoveryPlan(operation, events, release, live);
            && plan.disposition == RecoverPrevious && Ordered(plan.actions)
            && !release.trafficActivated
            && (release.trafficAttempted ==>
                  exists i: nat :: FinalActivation(events, i) && SaysNotStarted(events[i].hook.value))
            && live.previous == Stopped && live.finalVerified && release.finalBackup.Some?
            && (live.new_ == Absent || RemoveNewApplication in plan.actions)
            && RestartPreviousApplication in plan.actions
  {
    var plan := BuildRecoveryPlan(operation, events, release, live);
    assert plan.disposition == RecoverPrevious;
    var remove, restore, restart := RollbackFlags(MayHaveChanged(operation, release), release, live);
    RollbackMembers(remove, restore, restart);
    RollbackOrdered(remove, restore, restart);
    if release.trafficAttempted {
      LastActivationIsRecorded(events);
    }
  }

  predicate IsActivation(e: Event) {
    e.hook.Some? && e.hook.value.action == ActivateNew
  }

  /** Event `i` carries the final word on the activation. */
  predicate FinalActivation(events: seq<Event>, i: nat) {
    i < |events| && IsActivation(events[i]) && forall j :: i < j < |events| ==> !IsActivation(events[j])
  }

  lemma {:induction false} LastActivationIsRecorded(events: seq<Event>)
    ensures LastActivation(events).Some? ==>
              exists i: nat :: FinalActivation(events, i) && events[i].hook == LastActivation(events)
    ensures LastActivation(events) == None ==> forall i :: 0 <= i < |events| ==> !IsActivation(events[i])
  {
    if events != [] {
      var earlier := events[..|events| - 1];
      if IsActivation(events[|events| - 1]) {
        assert FinalActivation(events, |events| - 1);
      } else {
        LastActivationIsRecorded(earlier);
        if LastActivation(earlier).Some? {
          var i: nat :| FinalActivation(earlier, i) && earlier[i].hook == LastActivation(earlier);
          assert FinalActivation(events, i);
        }
      }
    }
  }

  /** What the final word says: the hook passed and its command succeeded, or the command never started. */
  predicate SaysSucceeded(e: HookEvidence) {
    e.passed && e.command.Some? && e.command.value.outcome == Succeeded
  }

  predicate SaysNotStarted(e: HookEvidence) {
    e.command.Some? && EvidenceOfNoStart(e.command.value.outcome, e.command.value.exitCode)
  }

  /**
    Traffic is concluded to have switched, or never to have moved, exactly on the
    release's own record or on the final activation evidence of the trail; an attempt
    without such evidence stays uncertain.
  */
  lemma ConclusionFollowsTheFinalWord(release: Manifest, events: seq<Event>)
    ensures var conclusion := ActivationConclusion(release, events);
            var open := release.trafficAttempted && !release.trafficActivated;
            && (conclusion == NotAttempted <==> !release.trafficAttempted && !release.trafficActivated)
            && (conclusion == ActivationSucceeded <==>
                  || release.trafficActivated
                  || (open && exists i: nat :: FinalActivation(events, i) && SaysSucceeded(events[i].hook.value)))
            && (conclusion == NotStarted <==>
                  open && exists i: nat :: FinalActivation(events, i) && SaysNotStarted(events[i].hook.value))
  {
    LastActivationIsRecorded(events);
    forall i: nat | FinalActivation(events, i) ensures events[i].hook == LastActivation(events) {
      var k: nat :| FinalActivation(events, k) && events[k].hook == LastActivation(events);
      assert i == k;
    }
  }

  /**
    The evidence a plan stands on, in both directions: a rollback is planned exactly
    on complete identity, traffic that provably never switched, and live facts that
    make every action possible; completion exactly on recorded success of a running
    new application. Everything else is left to a person.
  */
  lemma DispositionsAreExact(operation: Operation, events: seq<Event>, release: Manifest, live: Live)
    ensures var proven := release.status in {Active, RolledBack, FailedSafe}
                          && (operation.status != InProgress || release.recoveryOperation.Some?);
            var usable := !IdentityProblem(operation, events, release) && !proven && release.protocolVersion == Some(2);
            var untouched := !release.trafficActivated
                             && (release.trafficAttempted ==> ActivationConclusion(release, events) == NotStarted);
            var decidable := MayHaveChanged(operation, release) ==>
                               release.finalBackup.Some? && live.finalVerified
                               && (live.previous == Stopped
                                   || (live.productionSha.Some? && live.productionSha == live.finalSha));
            var disposition := BuildRecoveryPlan(operation, events, release, live).disposition;
            && (disposition == NoAction <==> !IdentityProblem(operation, events, release) && proven)
            && (disposition == CompleteNew <==>
                  usable && ActivationConclusion(release, events) == ActivationSucceeded && live.new_ == Running)
            && (disposition == RecoverPrevious <==>
                  && usable && untouched && !release.status.Early() && release.previousApplication.Some?
                  && live.previous in {Running, Stopped} && live.new_ != Unknown
                  && (live.new_ != Absent ==> release.newApplication.Some?) && decidable)
  {
  }

  /**
    What every plan tells the operator, for any evidence at all. Evidence that does
    not belong together reports a change and leaves traffic open to question only for
    a person; an activation that may have run is always reported as a change, as
    traffic possibly switched, and as forbidding a restore.
  */
  lemma FlagsAreExact(operation: Operation, events: seq<Event>, release: Manifest, live: Live)
    ensures var plan := BuildRecoveryPlan(operation, events, release, live);
            var atRest := release.status in {Active, RolledBack, FailedSafe}
                          && (operation.status != InProgress || release.recoveryOperation.Some?);
            var foreign := IdentityProblem(operation, events, release) || (!atRest && release.protocolVersion != Some(2));
            var ran := ActivationConclusion(release, events) in {ActivationSucceeded, Uncertain};
            && (plan.productionMayHaveChanged <==>
                  foreign || if atRest then release.productionChanged
                             else ran || (!release.status.Early() && MayHaveChanged(operation, release)))
            && (plan.trafficMayHaveSwitched <==> !foreign && if atRest then release.trafficActivated else ran)
            && (plan.restoreAllowed <==>
                  plan.disposition == RecoverPrevious || (plan.disposition == NoAction && !release.trafficActivated))
  {
  }

  /** Nothing but a complete event trail of the release's own deployment is ever acted on, or taken to be at rest. */
  lemma ForeignEvidenceIsLeftToAPerson(operation: Operation, events: seq<Event>, release: Manifest, live: Live)
    requires BuildRecoveryPlan(operation, events, release, live).disposition != ManualRequired
    ensures operation.isDeploy && operation.id == release.operationId
    ensures events != [] && events[|events| - 1].operationId == operation.id
            && events[|events| - 1].sequence == operation.lastSequence
  {
  }

  /** A rollback plan holds each of its three conditional actions exactly where live facts call for it. */
  lemma ActionsAreExact(operation: Operation, events: seq<Event>, release: Manifest, live: Live)
    requires BuildRecoveryPlan(operation, events, release, live).disposition == RecoverPrevious
    ensures var a := BuildRecoveryPlan(operation, events, release, live).actions;
            && (RemoveNewApplication in a <==> live.new_ in {Running, Stopped})
            && (RestoreFinalBackup in a <==>
                  MayHaveChanged(operation, release) && !(live.productionSha.Some? && live.productionSha == live.finalSha))
            && (RestartPreviousApplication in a <==> live.previous == Stopped)
            && ActivatePreviousTraffic in a && DisableMaintenance in a && VerifyPrevious in a && MarkRolledBack in a
  {
    RollbackPlanned(operation, events, release, live);
    var remove, restore, restart := RollbackFlags(MayHaveChanged(operation, release), release, live);
    hide BuildRecoveryPlan;
    RollbackMembers(remove, restore, restart);
    RollbackFinishes(remove, restore, restart);
  }

  /** Any activation that ran, or whose outcome was never recorded, rules out every rollback plan. */
  lemma ExposureRulesOutRollback(operation: Operation, events: seq<Event>, release: Manifest, live: Live)
    requires release.trafficAttempted
    requires LastActivation(events).Some? && LastActivation(events).value.command.Some? ==>
               !EvidenceOfNoStart(LastActivation(events).value.command.value.outcome,
                                  LastActivation(events).value.command.value.exitCode)
    ensures var plan := BuildRecoveryPlan(operation, events, release, live);
            plan.disposition != RecoverPrevious && RestoreFinalBackup !in plan.actions
  {
  }

  /** Every executable plan is ordered and ends in its own mark, and only there. */
  lemma PlansEndInTheirMark(operation: Operation, events: seq<Event>, release: Manifest, live: Live)
    requires BuildRecoveryPlan(operation, events, release, live).disposition in {RecoverPrevious, CompleteNew}
    ensures var plan := BuildRecoveryPlan(operation, events, release, live);
            && Ordered(plan.actions)
            && MarkedOnlyAtEnd(plan.actions, if plan.disposition == CompleteNew then MarkActive else MarkRolledBack)
  {
    var plan := BuildRecoveryPlan(operation, events, release, live);
    if plan.disposition == RecoverPrevious {
      var remove, restore, restart := RollbackFlags(MayHaveChanged(operation, release), release, live);
      RollbackOrdered(remove, restore, restart);
      RollbackMarked(remove, restore, restart);
    } else {
      assert plan.actions == FINISH_NEW;
      FinishNewOrdered();
    }
  }

  lemma FinishNewOrdered()
    ensures Ordered(FINISH_NEW) && MarkedOnlyAtEnd(FINISH_NEW, MarkActive)
  {
  }

  predicate MarkedOnlyAtEnd(actions: seq<RecoveryAction>, mark: RecoveryAction) {
    && actions != [] && actions[|actions| - 1] == mark
    && forall i :: 0 <= i < |actions| - 1 ==> actions[i] !in {MarkActive, MarkRolledBack}
  }

  lemma RollbackMarked(remove: bool, restore: bool, restart: bool)
    ensures MarkedOnlyAtEnd(RollbackActions(remove, restore, restart), MarkRolledBack)
    decreases remove, restore, restart
  {
    if remove {
      RollbackMarked(false, restore, restart);
    } else if restore {
      RollbackMarked(false, false, restart);
    } else if restart {
      RollbackMarked(false, false, false);
    }
  }

  /** Which flags a rollback plan was built from. */
  lemma RollbackFlags(changed: bool, release: Manifest, live: Live)
      returns (remove: bool, restore: bool, restart: bool)
    requires PlanRollback(changed, release, live).disposition == RecoverPrevious
    ensures remove == (live.new_ != Absent) && restart == (live.previous == Stopped)
    ensures restore == (changed && !(live.productionSha.Some? && live.productionSha == live.finalSha))
    ensures restore ==> restart && live.finalVerified && release.finalBackup.Some?
    ensures PlanRollback(changed, release, live).actions == RollbackActions(remove, restore, restart)
  {
    remove, restart := live.new_ != Absent, live.previous == Stopped;
    restore := RestoreNeeded(changed, release, live).value;
  }

  // ---- crash idempotence ----

  /** How each recovery action changes what the next diagnosis would see. */
  function AfterAction(live: Live, action: RecoveryAction): Live {
    match action
    case RemoveNewApplication => live.(new_ := Absent)
    case RestoreFinalBackup => live.(productionSha := live.finalSha)
    case RestartPreviousApplication => live.(previous := Running)
    case _ => live
  }

  /** What the next diagnosis sees after the first `k` actions. */
  function After(live: Live, actions: seq<RecoveryAction>, k: nat): Live
    requires k <= |actions|
    decreases k
  {
    if k == 0 then live else After(AfterAction(live, actions[0]), actions[1..], k - 1)
  }

  /** Diagnosis learns the digest of a backup it verified. */
  predicate Observed(live: Live) {
    live.finalVerified ==> live.finalSha.Some?
  }

  /** Durable state once recovery took ownership: both records are superseded. */
  predicate Owned(operation: Operation, events: seq<Event>, release: Manifest, plan: RecoveryPlan,
                  operation': Operation, events': seq<Event>, release': Manifest)
  {
    && Superseded(operation, events, plan.productionMayHaveChanged, operation', events')
    && (if release.status == RecoveryRequired then release' == release else SupersededRelease(release, plan, release'))
  }

  predicate Superseded(operation: Operation, events: seq<Event>, changed: bool,
                       operation': Operation, events': seq<Event>)
  {
    && operation'.id == operation.id && operation'.isDeploy == operation.isDeploy
    && (if operation.status == InProgress
        then && operation'.status == OperationNeedsRecovery
             && operation'.productionChanged == (operation.productionChanged || changed)
             && events' == events + [Event(operation.id, operation'.lastSequence, None)]
        else operation' == operation && events' == events)
  }

  predicate SupersededRelease(release: Manifest, plan: RecoveryPlan, release': Manifest) {
    && release'.status == RecoveryRequired
    && release'.productionChanged == plan.productionMayHaveChanged
    && release'.trafficActivated == (plan.disposition == CompleteNew)
    && release'.operationId == release.operationId && release'.protocolVersion == release.protocolVersion
    && release'.migrationStarted == release.migrationStarted && release'.trafficAttempted == release.trafficAttempted
    && release'.previousApplication == release.previousApplication
    && release'.newApplication == release.newApplication && release'.finalBackup == release.finalBackup
    && release'.rehearsalBackup == release.rehearsalBackup
  }

  /** The number of leading actions whose completion a new diagnosis can see. */
  function Observable(actions: seq<RecoveryAction>): nat
    requires |actions| >= |FINISH_PREVIOUS|
  {
    |actions| - |FINISH_PREVIOUS|
  }

  /**
    Crash idempotence. Interrupt a rollback plan after any prefix of its actions;
    diagnosing again yields a rollback plan whose actions are exactly the ones not
    completed (the traffic and verification tail is always repeated).
  */
  lemma ReplanDropsExactlyWhatIsDone(
      operation: Operation, events: seq<Event>, release: Manifest, live: Live, k: nat,
      operation': Operation, events': seq<Event>, release': Manifest)
    requires Observed(live)
    requires var plan := BuildRecoveryPlan(operation, events, release, live);
             && plan.disposition == RecoverPrevious && k < |plan.actions|
             && Owned(operation, events, release, plan, operation', events', release')
    ensures var plan := BuildRecoveryPlan(operation, events, release, live);
            && |plan.actions| >= 4
            && BuildRecoveryPlan(operation', events', release', After(live, plan.actions, k))
               == plan.(actions := plan.actions[Min(k, Observable(plan.actions))..])
  {
    hide BuildRecoveryPlan, PlanRollback, RollbackActions, After, Owned, MayHaveChanged;
    var changed := MayHaveChanged(operation, release);
    RollbackPlanned(operation, events, release, live);
    var plan := PlanRollback(changed, release, live);
    var remove, restore, restart := RollbackFlags(changed, release, live);
    RollbackShape(remove, restore, restart);
    ReplanAfterPrefix(changed, release, live, k);
    OwnedPlansRollback(operation, events, release, live, operation', events', release', After(live, plan.actions, k));
  }

  lemma RollbackPlanned(operation: Operation, events: seq<Event>, release: Manifest, live: Live)
    requires BuildRecoveryPlan(operation, events, release, live).disposition == RecoverPrevious
    ensures BuildRecoveryPlan(operation, events, release, live)
            == PlanRollback(MayHaveChanged(operation, release), release, live)
  {
  }

  /** Superseding the two records leaves only the live facts to decide the next plan. */
  lemma OwnedPlansRollback(
      operation: Operation, events: seq<Event>, release: Manifest, live: Live,
      operation': Operation, events': seq<Event>, release': Manifest, seen: Live)
    requires var plan := BuildRecoveryPlan(operation, events, release, live);
             && plan.disposition == RecoverPrevious
             && Owned(operation, events, release, plan, operation', events', release')
    ensures BuildRecoveryPlan(operation', events', release', seen)
            == PlanRollback(MayHaveChanged(operation, release), release, seen)
  {
    assert events'[..|events|] == events;
    assert LastActivation(events') == LastActivation(events);
  }

  /** One completed observable action is one action fewer in the next plan. */
  lemma ReplanAfterOne(changed: bool, release: Manifest, live: Live)
    requires Observed(live)
    requires var plan := PlanRollback(changed, release, live);
             plan.disposition == RecoverPrevious && |plan.actions| > 4
    ensures var plan := PlanRollback(changed, release, live);
            var next := AfterAction(live, plan.actions[0]);
            Observed(next) && PlanRollback(changed, release, next) == plan.(actions := plan.actions[1..])
  {
    var remove, restore, restart := RollbackFlags(changed, release, live);
    RollbackShape(remove, restore, restart);
  }

  /** The finishing actions change nothing a diagnosis sees. */
  lemma ReplanDuringFinish(changed: bool, release: Manifest, live: Live, k: nat)
    requires var plan := PlanRollback(changed, release, live);
             plan.disposition == RecoverPrevious && |plan.actions| == 4 && k <= 4
    ensures After(live, PlanRollback(changed, release, live).actions, k) == live
  {
    var remove, restore, restart := RollbackFlags(changed, release, live);
    RollbackShape(remove, restore, restart);
    FinishIsInvisible(live, 0, k);
  }

  lemma {:induction false} ReplanAfterPrefix(changed: bool, release: Manifest, live: Live, k: nat)
    requires Observed(live)
    requires var plan := PlanRollback(changed, release, live);
             plan.disposition == RecoverPrevious && |plan.actions| >= 4 && k <= |plan.actions|
    ensures var plan := PlanRollback(changed, release, live);
            PlanRollback(changed, release, After(live, plan.actions, k))
            == plan.(actions := plan.actions[Min(k, Observable(plan.actions))..])
    decreases k
  {
    hide PlanRollback, AfterAction, Observed;
    var a := PlanRollback(changed, release, live).actions;
    if |a| == 4 {
      ReplanDuringFinish(changed, release, live, k);
    } else if k == 0 {
    } else {
      ReplanAfterOne(changed, release, live);
      ReplanAfterPrefix(changed, release, AfterAction(live, a[0]), k - 1);
      DropThenDrop(a, Min(k - 1, |a| - 5));
    }
  }

  lemma DropThenDrop<T>(a: seq<T>, m: nat)
    requires m < |a|
    ensures a[1..][m..] == a[m + 1..]
  {
  }

  lemma {:induction false} FinishIsInvisible(live: Live, from: nat, k: nat)
    requires from + k <= 4
    ensures After(live, FINISH_PREVIOUS[from..], k) == live
    decreases k
  {
    if k == 0 {
    } else {
      assert FINISH_PREVIOUS[from..][1..] == FINISH_PREVIOUS[from + 1..];
      FinishIsInvisible(live, from + 1, k - 1);
    }
  }

  /**
    The one other way a re-diagnosis can go: the restarted application wrote to a
    production database that had needed restoration. The plan is then manual, so
    those writes are never overwritten.
  */
  lemma WritesAfterRestartForceManual(
      operation: Operation, events: seq<Event>, release: Manifest, live: Live)
    requires live.previous == Running && live.productionSha != live.finalSha
    requires release.productionChanged || release.migrationStarted || operation.productionChanged
    ensures BuildRecoveryPlan(operation, events, release, live).disposition != RecoverPrevious
    ensures RestoreFinalBackup !in BuildRecoveryPlan(operation, events, release, live).actions
  {
  }
}
