/** Crash recovery: diagnosis, ownership, the execution of one plan, and whole histories. */
module Recoveries {
  import opened Basics
  import opened Commands
  import opened Databases
  import opened Releases
  import opened Operations
  import opened RecoveryPlanning
  import opened Sites
  import opened Steps
  import opened Hosts
  import opened Deployments

  /** A resolved release whose recovery operation is not durably complete blocks diagnosis. */
  predicate IncompleteResolution(release: Manifest, recoveries: seq<Operation>) {
    && release.recoveryOperation.Some? && release.recoveryOperation.value < |recoveries|
    && recoveries[release.recoveryOperation.value].status != OperationSucceeded
  }

  predicate Executable(plan: RecoveryPlan) {
    plan.disposition in {RecoverPrevious, CompleteNew}
  }

  /**
    The world a plan still needs when `todo` remains of its actions. `back` says
    whether it returns to the previous release or completes the new one, `exact`
    whether a restart has to find exactly what the previous application left.
  */
  predicate Ready(back: bool, exact: bool, todo: seq<RecoveryAction>, s: Site) {
    if back then
      && !s.story.exposed && s.release.previousApplication.Some?
      && VerifyNew !in todo && MarkActive !in todo
      && (RemoveNewApplication in todo || s.world.new_ == Absent)
      && (RemoveNewApplication in todo ==> s.release.newApplication.Some?)
      && (RestartPreviousApplication in todo <==> s.world.previous == Stopped)
      && (RestoreFinalBackup in todo ==>
            && RestartPreviousApplication in todo && s.release.finalBackup.Some? && MayHaveChanged(s.operation, s.release))
      && (exact && RestartPreviousApplication in todo && RestoreFinalBackup !in todo ==>
            Logical(s.world.db) == s.story.committed && s.world.new_ != Running)
      && (DisableMaintenance in todo || !s.world.maintenance)
      && (VerifyPrevious in todo || s.story.verified) && (ActivatePreviousTraffic in todo || s.story.confirmed)
    else
      && s.story.exposed && s.world.target == NewTarget
      && (forall action <- todo :: action in FINISH_NEW)
      && (DisableMaintenance in todo || !s.world.maintenance)
      && (VerifyNew in todo || s.story.verified)
  }

  /** A recovery is exact when it restarts nothing, restores first, or nothing is hidden from its diagnosis. */
  predicate RestartsExactly(s: Site, plan: RecoveryPlan) {
    NothingHidden(s) || RestoreFinalBackup in plan.actions || RestartPreviousApplication !in plan.actions
  }

  /** What a recovery read before it acted: the site at that moment, and the live facts reported for it. */
  datatype Diagnosis = Diagnosis(site: Site, live: Live)

  function PlanOf(d: Diagnosis): RecoveryPlan {
    PlanFor(d.site, d.live)
  }

  /** A diagnosis of `s`, up to what applications wrote before it, that calls for action. */
  predicate Diagnosed(s: Site, d: Diagnosis) {
    Inv(d.site) && Drift(s, d.site) && Reports(d.live, d.site) && Executable(PlanOf(d))
  }

  /** A diagnosis that learns everything finds an executable plan, and the release is still open. */
  predicate Recoverable(s: Site) {
    && !IncompleteResolution(s.release, s.recoveries) && Executable(PlanFor(s, FullReport(s)))
    && s.release.status !in {Active, RolledBack, FailedSafe}
  }

  /** The mark of that plan will be accepted. */
  predicate Markable(s: Site) {
    PlanFor(s, FullReport(s)).disposition == RecoverPrevious ==> s.release.rehearsalBackup.Some?
  }

  /** The release refused to be superseded after its operation was. */
  predicate SupersededOnly(s: Site) {
    s.release.status in {Active, RolledBack, FailedSafe} && s.operation.status != InProgress
  }

  /** The plan restarts the previous application without a restore although rows are hidden from it. */
  predicate Inexact(d: Diagnosis) {
    && PlanOf(d).disposition == RecoverPrevious
    && RestartPreviousApplication in PlanOf(d).actions && RestoreFinalBackup !in PlanOf(d).actions
    && !NothingHidden(d.site)
  }

  lemma ExactUnlessInexact(d: Diagnosis)
    requires Executable(PlanOf(d))
    ensures RestartsExactly(d.site, PlanOf(d)) <==> !Inexact(d)
  {
    assert RestartPreviousApplication !in FINISH_NEW;
  }

  /** What a caller finds before the recovery starts decides: writes before the diagnosis hide nothing new. */
  lemma NothingHiddenStays(s: Site, d: Diagnosis)
    requires Diagnosed(s, d) && NothingHidden(s)
    ensures !Inexact(d)
  {
    if Inexact(d) {
      RollbackPlanned(d.site.operation, d.site.events, d.site.release, d.live);
      var changed := MayHaveChanged(d.site.operation, d.site.release);
      var remove, restore, restart := RollbackFlags(changed, d.site.release, d.live);
      RollbackMembers(remove, restore, restart);
    }
  }

  lemma RollbackNeverMarksActive(remove: bool, restore: bool, restart: bool)
    ensures var a := RollbackActions(remove, restore, restart);
            VerifyNew !in a && MarkActive !in a && DisableMaintenance in a && VerifyPrevious in a && ActivatePreviousTraffic in a
    decreases remove, restore, restart
  {
    if remove {
      RollbackNeverMarksActive(false, restore, restart);
    } else if restore {
      RollbackNeverMarksActive(false, false, restart);
    } else if restart {
      RollbackNeverMarksActive(false, false, false);
    }
  }

  lemma RollbackIsReady(s: Site, live: Live)
    requires Inv(s) && Reports(live, s) && PlanFor(s, live).disposition == RecoverPrevious
    ensures Ready(true, RestartsExactly(s, PlanFor(s, live)), PlanFor(s, live).actions, s)
  {
    assert s.world.previous in {Running, Stopped};
    hide Inv, BuildRecoveryPlan;
    if s.story.exposed { ExposedReleaseIsNeverRolledBack(s, live); }
    RollbackPlanned(s.operation, s.events, s.release, live);
    var remove, restore, restart := RollbackFlags(MayHaveChanged(s.operation, s.release), s.release, live);
    RollbackMembers(remove, restore, restart);
    RollbackNeverMarksActive(remove, restore, restart);
    if RestoreFinalBackup !in PlanFor(s, live).actions && live.previous == Stopped { SkippedRestoreMatched(s, live); }
  }

  /** Every executable plan starts ready. */
  lemma PlanIsReady(s: Site, live: Live)
    requires Inv(s) && Reports(live, s) && Executable(PlanFor(s, live))
    ensures var plan := PlanFor(s, live);
            && Ready(plan.disposition == RecoverPrevious, RestartsExactly(s, plan), plan.actions, s)
            && Ordered(plan.actions)
  {
    PlansEndInTheirMark(s.operation, s.events, s.release, live);
    if PlanFor(s, live).disposition == RecoverPrevious { RollbackIsReady(s, live); }
  }

  /** Records and running applications never make a plan unready. */
  lemma ReadySurvives(back: bool, exact: bool, todo: seq<RecoveryAction>, s: Site, t: Site)
    requires Ready(back, exact, todo, s) && OnlyAppsWrote(s, t)
    requires t.release.previousApplication == s.release.previousApplication
    requires t.release.newApplication == s.release.newApplication && t.release.finalBackup == s.release.finalBackup
    requires back ==> MayHaveChanged(t.operation, t.release) == MayHaveChanged(s.operation, s.release)
    ensures Ready(back, exact, todo, t)
  {
  }

  /** In an ordered plan, finishing the head removes exactly the head. */
  lemma HeadLeaves(todo: seq<RecoveryAction>)
    requires todo != [] && Ordered(todo)
    ensures Ordered(todo[1..])
    ensures forall action :: action in todo[1..] <==> action in todo && action != todo[0]
    ensures forall action <- todo :: ActionRank(todo[0]) <= ActionRank(action)
  {
    forall action ensures action in todo[1..] <==> action in todo && action != todo[0] {
      if action in todo[1..] {
        var i :| 0 <= i < |todo[1..]| && todo[1..][i] == action;
        assert todo[i + 1] == action;
      }
    }
  }

  /** Resolving a release over the world its mark promises keeps the site safe. */
  lemma ResolvingIsSafe(s: Site, back: bool, id: nat, now: nat)
    requires Inv(s) && s.release.status == RecoveryRequired && !s.world.maintenance && s.story.exposed == !back
    requires s.story.verified && (back ==> s.world.previous == Running && s.story.confirmed)
    requires ValidRelease(ResolvedRelease(s.release, back, id, now))
    ensures Inv(s.(release := ResolvedRelease(s.release, back, id, now)))
  {
    UnresolvedHasNoSuccess(s);
    hide ValidRelease, ValidOperation;
    var t := s.(release := ResolvedRelease(s.release, back, id, now));
    assert WorldInv(t) && TerminalInv(t);
    assert TrafficInv(t);
    assert DatabaseInv(t);
  }

  /** The manifest a resolution writes. */
  function ResolvedRelease(m: Manifest, back: bool, id: nat, now: nat): Manifest {
    m.(status := if back then RolledBack else Active, updatedAt := now, completedAt := Some(now),
       trafficActivated := !back, recoveryOperation := Some(id), recoveredAt := Some(now),
       recoveryFailure := m.failure, failure := if back then m.failure else None)
  }

  lemma MarkFacts(s: Site, back: bool, exact: bool)
    requires Inv(s) && Ready(back, exact, [if back then MarkRolledBack else MarkActive], s)
    ensures ValidRelease(s.release) && !s.world.maintenance && s.story.exposed == !back && s.story.verified
    ensures back ==> s.world.previous == Running && s.story.confirmed && s.release.previousApplication.Some?
    ensures !back ==> s.release.trafficAttempted && s.release.rehearsalBackup.Some? && s.release.previousApplication.Some?
  {
  }

  /** The final mark: accepted unless a rollback lacks its rehearsal backup, and then safe. */
  lemma FinalMarkIsSafe(s: Site, back: bool, exact: bool, id: nat, clock: nat)
    requires Inv(s) && s.release.status == RecoveryRequired
    requires Ready(back, exact, [if back then MarkRolledBack else MarkActive], s)
    ensures var mark := DoResolve(if back then RolledBack else Active, id, !back, clock);
            && (Apply(s.release, mark).Ok? <==> !back || s.release.rehearsalBackup.Some?)
            && (Apply(s.release, mark).Ok? ==> Inv(s.(release := Apply(s.release, mark).value)))
  {
    hide Inv, Ready;
    MarkFacts(s, back, exact);
    ResolutionAcceptedExactly(s.release, id, clock);
    var mark := DoResolve(if back then RolledBack else Active, id, !back, clock);
    if Apply(s.release, mark).Ok? {
      assert Apply(s.release, mark).value == ResolvedRelease(s.release, back, id, Max(clock, s.release.updatedAt));
      ResolvingIsSafe(s, back, id, Max(clock, s.release.updatedAt));
    }
  }

  /** A mark at the head is the right one, with maintenance already lifted. */
  lemma MarkIsReady(back: bool, exact: bool, todo: seq<RecoveryAction>, s: Site)
    requires todo != [] && Ordered(todo) && Ready(back, exact, todo, s) && todo[0] in {MarkRolledBack, MarkActive}
    ensures todo[0] == if back then MarkRolledBack else MarkActive
    ensures Ready(back, exact, [todo[0]], s) && !s.world.maintenance
    ensures back ==> s.world.previous != Stopped && s.world.new_ == Absent
  {
    HeadLeaves(todo);
    assert MarkRolledBack !in FINISH_NEW;
    assert todo[0] in todo;
    assert DisableMaintenance !in todo && RestartPreviousApplication !in todo && RemoveNewApplication !in todo;
    assert VerifyPrevious !in todo && VerifyNew !in todo && ActivatePreviousTraffic !in todo;
  }

  /** What a rollback and a completion each promise about the world. */
  predicate PromisedWorld(back: bool, s: Site) {
    && !s.world.maintenance && s.story.verified
    && (if back
        then && !s.story.exposed && s.story.confirmed && s.world.target == OldTarget
             && s.world.previous == Running && s.world.new_ == Absent
        else s.story.exposed && s.world.new_ == Running && s.world.target == NewTarget)
  }

  /** The world at a mark is the one it promises. */
  lemma MarkPromises(back: bool, exact: bool, todo: seq<RecoveryAction>, s: Site)
    requires Inv(s) && todo != [] && Ordered(todo) && Ready(back, exact, todo, s) && todo[0] in {MarkRolledBack, MarkActive}
    ensures PromisedWorld(back, s)
  {
    MarkIsReady(back, exact, todo, s);
  }

  const INTERRUPTED := Failure("recovery_required", "The prior operation was interrupted and recovery took ownership.")

  /** The record that closes a superseded operation. */
  function SupersedingCall(changed: bool, now: nat): OperationCall {
    Advance(OperationNeedsRecovery, ReleaseStage(RecoveryRequired), changed, true, true, now)
  }

  /** What superseding makes of one recovery: closed if it was unfinished, untouched otherwise. */
  predicate Closed(before: Operation, changed: bool, after: Operation) {
    if before.status == InProgress
    then after.status == OperationNeedsRecovery && after.productionChanged == (before.productionChanged || changed)
    else after == before
  }

  lemma SupersedingIsSafe(s: Site, changed: bool, now: nat)
    requires Inv(s) && s.operation.status == InProgress && s.operation.updatedAt <= now
    ensures var call := SupersedingCall(s.operation.productionChanged || changed, now);
            && ApplyOperation(s.operation, call).Ok?
            && Inv(WithOperation(s, ApplyOperation(s.operation, call).value, None))
  {
    RecordsAreValid(s, true);
    AcceptedExactly(s.operation, SupersedingCall(s.operation.productionChanged || changed, now));
    OperationWriteIsSafe(s, SupersedingCall(s.operation.productionChanged || changed, now), None);
  }

  /** Superseding keeps the trail's activation evidence and what it says about production. */
  lemma SupersededEvidence(before: Site, live: Live, operation: Operation, events: seq<Event>)
    requires Inv(before) && Executable(PlanFor(before, live))
    requires Superseded(before.operation, before.events, PlanFor(before, live).productionMayHaveChanged, operation, events)
    ensures LastActivation(events) == LastActivation(before.events)
    ensures operation.productionChanged ==> PlanFor(before, live).productionMayHaveChanged
    ensures operation.status != InProgress
  {
    if before.operation.status == InProgress {
      assert events[..|before.events|] == before.events;
    }
  }

  /** The superseding release record never understates what the plan was built on. */
  lemma OwnershipClosesSafely(before: Site, live: Live, s: Site, change: Change)
    requires Inv(before) && Executable(PlanFor(before, live)) && Inv(s)
    requires s.release == before.release && !s.release.status.Terminal()
    requires LastActivation(s.events) == LastActivation(before.events)
    requires s.operation.productionChanged ==> PlanFor(before, live).productionMayHaveChanged
    requires change.productionChanged == Some(PlanFor(before, live).productionMayHaveChanged)
    requires change.trafficActivated == Some(PlanFor(before, live).disposition == CompleteNew)
    requires change == Change(productionChanged := change.productionChanged,
                              trafficActivated := change.trafficActivated, failure := change.failure)
    requires change.failure.Some?
    ensures ClosesSafely(s, RecoveryRequired, change)
  {
  }

  /** Taking ownership changes the records, not what the plan relies on. */
  lemma OwnedStaysReady(before: Site, live: Live, s: Site)
    requires Inv(before) && Reports(live, before) && Executable(PlanFor(before, live)) && OnlyAppsWrote(before, s)
    requires Owned(before.operation, before.events, before.release, PlanFor(before, live),
                   s.operation, s.events, s.release)
    ensures var plan := PlanFor(before, live);
            && Ready(plan.disposition == RecoverPrevious, RestartsExactly(before, plan), plan.actions, s)
            && plan.actions != [] && Ordered(plan.actions)
            && plan.actions[|plan.actions| - 1] in {MarkRolledBack, MarkActive}
    ensures s.release.status == RecoveryRequired && s.release.rehearsalBackup == before.release.rehearsalBackup
  {
    var plan := PlanFor(before, live);
    PlanIsReady(before, live);
    PlansEndInTheirMark(before.operation, before.events, before.release, live);
    hide Ready, Ordered, RestartsExactly;
    ReadySurvives(plan.disposition == RecoverPrevious, RestartsExactly(before, plan), plan.actions, before, s);
  }

  /** Once a resolution is durable, no diagnosis plans any action again. */
  lemma ResolvedIsNeverReplanned(s: Site, live: Live)
    requires Inv(s) && s.release.recoveryOperation.Some?
    ensures PlanFor(s, live).disposition == NoAction && PlanFor(s, live).actions == []
  {
  }

  /** A terminal release whose operation is closed leaves nothing to plan. */
  lemma RefusedOwnershipSettles(s: Site, live: Live)
    requires Inv(s) && s.release.status in {Active, RolledBack, FailedSafe} && s.operation.status != InProgress
    ensures PlanFor(s, live).disposition == NoAction && PlanFor(s, live).actions == []
  {
  }

  /** Where no record blocks a new command, no diagnosis plans anything. */
  lemma SettledIsNeverPlanned(s: Site, live: Live)
    requires Inv(s) && Settled(s)
    ensures !Executable(PlanFor(s, live))
  {
    if s.release.recoveryOperation.Some? {
      ResolvedIsNeverReplanned(s, live);
    } else {
      SettledOpensTheNext(s);
      UnresolvedHasNoSuccess(s);
      RefusedOwnershipSettles(s, live);
    }
  }

  /**
    The release becomes terminal before its operation does. A crash between the two
    leaves a plan that looks executable, whose ownership the store then refuses; the
    refusal closes the operation, and from then on every plan is empty.
  */
  lemma TerminalReleaseMayStillBePlanned() returns (s: Site, live: Live)
    ensures Inv(s) && Reports(live, s) && s.release.status == Active && !Selected(s.release, s.pointers)
    ensures !s.world.maintenance && Inherited(s) != Some(Serving(s)) && !Serving(s).Bootstrap?
    ensures PlanFor(s, live).disposition == CompleteNew
    ensures forall change: Change, clock: nat ::
              Transition(s.release, RecoveryRequired, change, clock) == Err(TerminalRelease)
    ensures forall t: Site, later: Live ::
              Inv(t) && t.release == s.release && t.operation.status != InProgress ==> PlanFor(t, later).actions == []
  {
    var old_, migrated := Content([1]), Content([1, 2]);
    var challenger := FromRelease(2, 0, "v2", 0);
    var release := Manifest(
      0, 0, "v2", Some(2), Active, None, Some(Bootstrap(1)), Some(challenger), Some(BackupRef(1, old_)),
      Some(BackupRef(2, old_)), true, true, true, true, true, 0, 0, Some(0), None, None, None, None);
    s := Site(release, NewOperation(0, true, 0).(productionChanged := true), [Event(0, 1, None)], [], None,
              World(Database(migrated, None), Bootstrap(1), Some(challenger), Stopped, Running, NewTarget, false),
              Story(migrated, old_, true, NewData, true, true, false, false));
    live := Live(Stopped, Running, false, None, None);
    assert WorldInv(s) && TrafficInv(s) && DatabaseInv(s) && TerminalInv(s);
    forall t: Site, later: Live | Inv(t) && t.release == s.release && t.operation.status != InProgress
      ensures PlanFor(t, later).actions == []
    {
      RefusedOwnershipSettles(t, later);
    }
  }

  lemma ReadyMeans(back: bool, exact: bool, todo: seq<RecoveryAction>, s: Site)
    requires Ready(back, exact, todo, s)
    ensures s.story.exposed == !back
  {
  }

  /** Only a rollback touches applications or the database. */
  lemma OnlyItsOwnActions(back: bool, exact: bool, todo: seq<RecoveryAction>, s: Site)
    requires todo != [] && Ready(back, exact, todo, s)
    ensures todo[0] in {RemoveNewApplication, RestoreFinalBackup, RestartPreviousApplication, ActivatePreviousTraffic} ==> back
  {
    assert todo[0] in todo;
    assert RemoveNewApplication !in FINISH_NEW && RestoreFinalBackup !in FINISH_NEW;
    assert RestartPreviousApplication !in FINISH_NEW && ActivatePreviousTraffic !in FINISH_NEW;
  }

  lemma RecoveryIsValid(s: Site, id: nat)
    requires Inv(s) && id < |s.recoveries|
    ensures ValidOperation(s.recoveries[id])
  {
  }

  /** A restore finds nothing running and the acknowledged content in the backup, and leaves the rest of the plan ready. */
  lemma RestoreMeets(exact: bool, todo: seq<RecoveryAction>, s: Site)
    requires Inv(s) && todo != [] && Ordered(todo) && Ready(true, exact, todo, s) && todo[0] == RestoreFinalBackup
    ensures s.world.previous == Stopped && s.world.new_ == Absent && !s.story.exposed
    ensures Offline(s) && s.world.maintenance && s.world.target == OldTarget && MayHaveChanged(s.operation, s.release)
    ensures s.release.finalBackup.Some? && s.release.finalBackup.value.sha == s.story.committed
    ensures Passed(s) == s
    ensures Ready(true, exact, todo[1..], Performed(s, todo[0]))
  {
    HeadLeaves(todo);
    assert RemoveNewApplication !in todo;
    OfflineFacts(s);
  }

  /** The finishing actions find a world they may act in, and leave the rest of the plan ready. */
  lemma FinishMeets(back: bool, exact: bool, todo: seq<RecoveryAction>, s: Site)
    requires Inv(s) && todo != [] && Ordered(todo) && Ready(back, exact, todo, s)
    requires todo[0] in {ActivatePreviousTraffic, DisableMaintenance, VerifyPrevious, VerifyNew}
    ensures s.story.exposed == !back
    ensures todo[0] == ActivatePreviousTraffic ==> back && s.world.target == OldTarget
    ensures todo[0] == DisableMaintenance ==> s.world.previous == Running || (s.story.exposed && s.world.target == NewTarget)
    ensures todo[0] in {VerifyPrevious, VerifyNew} ==> if back then s.world.previous == Running else s.world.new_ == Running
    ensures Ready(back, exact, todo[1..], Performed(s, todo[0]))
  {
    HeadLeaves(todo);
    OfflineFacts(s);
    OnlyItsOwnActions(back, exact, todo, s);
    hide Inv;
  }

  lemma StaysReady(back: bool, exact: bool, todo: seq<RecoveryAction>, s: Site, t: Site)
    ensures Ready(back, exact, todo, s) && OnlyAppsWrote(s, t) && t.release == s.release && t.operation == s.operation ==>
              Ready(back, exact, todo, t)
  {
  }

  lemma StillReady(back: bool, exact: bool, todo: seq<RecoveryAction>, s: Site, t: Site)
    ensures Ready(back, exact, todo, s) && Drift(s, t) ==> Ready(back, exact, todo, t)
  {
  }

  // ---- actions as steps ----

  /** What a completed action makes of the site, when no application writes meanwhile. */
  function Performed(s: Site, action: RecoveryAction): Site {
    match action
    case RemoveNewApplication => Removed(s, Absent)
    case RestoreFinalBackup =>
      if s.release.finalBackup.Some? then Replaced(s, Database(s.release.finalBackup.value.sha, None)) else s
    case RestartPreviousApplication => if s.world.previous == Stopped then BackUp(s) else s
    case ActivatePreviousTraffic => Routed(s)
    case DisableMaintenance => Maintained(s, false)
    case VerifyPrevious => Passed(s)
    case VerifyNew => Passed(s)
    case _ => s
  }

  class Recovery {
    const host: Host

    /** `faults` bounds how much may go wrong from here on. */
    constructor (host: Host, faults: nat)
      modifies host`faults, host`unknown, host`looseHook, host`checked, host`ran
      ensures this.host == host && host.faults == faults && !host.unknown
    {
      this.host := host;
      new;
      host.Begin(faults);
    }

    // ---- diagnosis ----

    /**
      Reads durable and live evidence; refuses exactly when a resolution is incomplete.
      Whatever cannot be learned is reported as unknown.
    */
    method Diagnose() returns (r: Step<Live>)
      requires host.Safe()
      modifies host`faults
      ensures r.Raise? <==> IncompleteResolution(host.release, host.recoveries)
      ensures r.Done? ==> Reports(r.value, host.Snap())
      ensures host.faults <= old(host.faults) && (host.faults == old(host.faults) && r.Done? ==> r.value == FullReport(host.Snap()))
      ensures !r.Crash?
    {
      if IncompleteResolution(host.release, host.recoveries) {
        return Raise(Expected(true, host.release.productionChanged));
      }
      var previous := Inspect(host.release.previousApplication, host.world.previous);
      var new_ := InspectNew();
      var found := OpenBackup();
      var productionSha := Hash();
      r := Done(Live(previous, new_, found.Some? && found.value == host.release.finalBackup.value.sha, productionSha, found));
      HostFacts();
    }

    /** A recorded container that can be inspected runs or is stopped. */
    method Inspect(handle: Option<Handle>, actual: Runtime) returns (seen: Runtime)
      modifies host`faults
      ensures seen in {Unknown, actual}
      ensures handle == None || actual !in {Running, Stopped} ==> seen == Unknown
      ensures host.faults <= old(host.faults)
      ensures host.faults == old(host.faults) && handle.Some? && actual in {Running, Stopped} ==> seen == actual
    {
      if {
        case handle.Some? && actual in {Running, Stopped} => seen := actual;
        case handle == None || actual !in {Running, Stopped} => seen := Unknown;
        case host.faults > 0 =>
          host.faults := host.faults - 1;
          seen := Unknown;
      }
    }

    /** An unrecorded or missing container is absent only if nothing carries the labels of its release. */
    method InspectNew() returns (seen: Runtime)
      modifies host`faults
      ensures seen in {Unknown, host.world.new_}
      ensures host.release.newApplication == None ==> seen in {Unknown, Absent}
      ensures host.faults <= old(host.faults)
      ensures host.faults == old(host.faults) && (host.release.newApplication.Some? || host.world.new_ == Absent) ==>
                seen in {host.world.new_, Unknown} && (host.world.new_ in {Running, Stopped, Absent} ==> seen == host.world.new_)
    {
      seen := Inspect(host.release.newApplication, host.world.new_);
      if seen == Unknown && host.world.new_ == Absent {
        if {
          case true => seen := Absent;                   // absence proven by label
          case host.faults > 0 => host.faults := host.faults - 1;
        }
      }
    }

    /** The digest of the final backup, if it can be opened and verified. */
    method OpenBackup() returns (found: Option<Content>)
      modifies host`faults
      ensures host.release.finalBackup == None ==> found == None
      ensures host.faults <= old(host.faults)
      ensures host.faults == old(host.faults) && host.release.finalBackup.Some? ==>
                found == Some(host.release.finalBackup.value.sha)
    {
      found := None;
      if host.release.finalBackup.Some? {
        if {
          case true => found := Some(host.release.finalBackup.value.sha);
          case host.faults > 0 =>
            host.faults := host.faults - 1;
            var other: Option<Content> :| true;
            found := other;
        }
      }
    }

    method Hash() returns (sha: Option<Content>)
      modifies host`faults
      ensures sha in {None, Some(host.world.db.main)}
      ensures host.faults <= old(host.faults) && (host.faults == old(host.faults) ==> sha.Some?)
    {
      if {
        case true => sha := Some(host.world.db.main);
        case host.faults > 0 =>
          host.faults := host.faults - 1;
          sha := None;
      }
    }

    /** What every safe host lets a recovery assume. */
    lemma HostFacts()
      requires host.Safe()
      ensures host.world.previous in {Running, Stopped} && host.world.new_ in {Running, Stopped, Absent}
      ensures host.release.newApplication.Some? ==> host.release.newApplication == host.world.challenger
      ensures host.release.previousApplication.Some? ==> host.release.previousApplication.value == host.world.incumbent
    {
    }

    // ---- ownership ----

    /** Every unfinished recovery is closed, newest first; no record is refused. */
    method SupersedeRecoveries(changed: bool) returns (r: Step<()>)
      requires host.Safe()
      modifies host`recoveries, host`world, host`story, host`faults
      ensures host.Safe() && !r.Raise?
      ensures |host.recoveries| == |old(host.recoveries)|
      ensures r.Done? ==> forall i :: 0 <= i < |host.recoveries| ==> Closed(old(host.recoveries)[i], changed, host.recoveries[i])
      ensures OnlyAppsWrote(old(host.Snap()), host.Snap())
      ensures host.faults <= old(host.faults) && (r.Done? || host.faults < old(host.faults))
    {
      hide Inv, Aged;
      AgesNot(host.world, host.story);
      var i := |host.recoveries|;
      while i > 0
        invariant host.Safe() && 0 <= i <= |host.recoveries| == |old(host.recoveries)|
        invariant forall k :: 0 <= k < i ==> host.recoveries[k] == old(host.recoveries)[k]
        invariant forall k :: i <= k < |host.recoveries| ==> Closed(old(host.recoveries)[k], changed, host.recoveries[k])
        invariant OnlyAppsWrote(old(host.Snap()), host.Snap()) && host.faults <= old(host.faults)
      {
        i := i - 1;
        if host.recoveries[i].status == InProgress {
          ghost var before := host.Snap();
          r := CloseRecovery(i, host.recoveries[i].productionChanged || changed);
          AgesTwice(old(host.world), old(host.story), before.world, before.story, host.world, host.story);
          if !r.Done? { return; }
        }
      }
      r := Done(());
    }

    /** Closes one unfinished recovery operation as needing recovery; never refused. */
    method CloseRecovery(id: nat, changed: bool) returns (r: Step<()>)
      requires host.Safe() && id < |host.recoveries| && host.recoveries[id].status == InProgress
      modifies host`recoveries, host`world, host`story, host`faults
      ensures host.Safe() && !r.Raise?
      ensures |host.recoveries| == |old(host.recoveries)|
      ensures forall k :: 0 <= k < |host.recoveries| && k != id ==> host.recoveries[k] == old(host.recoveries)[k]
      ensures r.Done? ==> host.recoveries[id].status == OperationNeedsRecovery && host.recoveries[id].productionChanged == changed
      ensures OnlyAppsWrote(old(host.Snap()), host.Snap())
      ensures host.faults <= old(host.faults) && (r.Done? || host.faults < old(host.faults))
    {
      hide Inv, ValidOperation, Aged;
      var now: nat :| host.recoveries[id].updatedAt <= now;
      RecoveryIsValid(host.Snap(), id);
      AcceptedExactly(host.recoveries[id], SupersedingCall(changed, now));
      RecoveryWriteIsSafe(host.Snap(), id, SupersedingCall(changed, now));
      AgesNot(host.world, host.story);
      r := host.WriteRecovery(id, SupersedingCall(changed, now));
    }

    /** Newest first: every unfinished recovery, and the interrupted deployment last. */
    method SupersedeOperations(changed: bool) returns (r: Step<()>)
      requires host.Safe()
      modifies host`operation, host`events, host`recoveries, host`world, host`story, host`faults
      ensures host.Safe() && !r.Raise?
      ensures OnlyAppsWrote(old(host.Snap()), host.Snap())
      ensures |host.recoveries| == |old(host.recoveries)|
      ensures r.Done? ==>
                && (forall i :: 0 <= i < |host.recoveries| ==> Closed(old(host.recoveries)[i], changed, host.recoveries[i]))
                && Superseded(old(host.operation), old(host.events), changed, host.operation, host.events)
      ensures host.faults <= old(host.faults) && (r.Done? || host.faults < old(host.faults))
    {
      hide Inv, LastActivation, Aged;
      r := SupersedeRecoveries(changed);
      if !r.Done? || host.operation.status != InProgress { return; }
      ghost var before := host.Snap();
      r := SupersedeDeployment(changed);
      AgesTwice(old(host.world), old(host.story), before.world, before.story, host.world, host.story);
    }

    method SupersedeDeployment(changed: bool) returns (r: Step<()>)
      requires host.Safe() && host.operation.status == InProgress
      modifies host`operation, host`events, host`world, host`story, host`faults
      ensures host.Safe() && !r.Raise? && OnlyAppsWrote(old(host.Snap()), host.Snap())
      ensures r.Done? ==> Superseded(old(host.operation), old(host.events), changed, host.operation, host.events)
      ensures host.faults <= old(host.faults) && (r.Done? || host.faults < old(host.faults))
    {
      hide Inv, LastActivation, Aged;
      var now: nat :| host.operation.updatedAt <= now;
      SupersedingIsSafe(host.Snap(), changed, now);
      AgesNot(host.world, host.story);
      r := host.WriteOperation(SupersedingCall(host.operation.productionChanged || changed, now), None);
    }

    /**
      Supersedes every unfinished record before acting. A release that is already
      terminal refuses; its operation is then closed, so the next plan is empty.
    */
    method TakeOwnership(live: Live) returns (r: Step<()>)
      requires host.Safe() && Reports(live, host.Snap()) && Executable(PlanFor(host.Snap(), live))
      modifies host`release, host`operation, host`events, host`recoveries, host`world, host`story, host`faults
      ensures host.Safe() && OnlyAppsWrote(old(host.Snap()), host.Snap())
      ensures host.release.previousApplication == old(host.release).previousApplication
      ensures |host.recoveries| == |old(host.recoveries)|
      ensures r.Done? ==>
                && (forall i :: 0 <= i < |host.recoveries| ==>
                      Closed(old(host.recoveries)[i], old(PlanFor(host.Snap(), live)).productionMayHaveChanged, host.recoveries[i]))
                && Owned(old(host.operation), old(host.events), old(host.release), old(PlanFor(host.Snap(), live)),
                         host.operation, host.events, host.release)
      ensures r.Raise? ==> old(host.release).status in {Active, RolledBack, FailedSafe}
      ensures r.Raise? ==> host.release == old(host.release) && host.operation.status != InProgress
      ensures r.Done? ==> old(host.release).status !in {Active, RolledBack, FailedSafe}
      ensures host.faults <= old(host.faults) && (r.Crash? ==> host.faults < old(host.faults))
    {
      hide Inv, BuildRecoveryPlan, LastActivation, Superseded, Aged;
      var plan := BuildRecoveryPlan(host.operation, host.events, host.release, live);
      ghost var before := host.Snap();
      r := SupersedeOperations(plan.productionMayHaveChanged);
      if !r.Done? { return; }
      SupersededEvidence(before, live, host.operation, host.events);
      if host.release.status == RecoveryRequired { return; }
      ghost var superseded := host.Snap();
      r := SupersedeRelease(before, live, plan);
      AgesTwice(before.world, before.story, superseded.world, superseded.story, host.world, host.story);
    }

    method SupersedeRelease(ghost before: Site, ghost live: Live, plan: RecoveryPlan) returns (r: Step<()>)
      requires host.Safe() && Inv(before) && Executable(plan) && plan == PlanFor(before, live)
      requires host.release == before.release && host.release.status != RecoveryRequired
      requires LastActivation(host.events) == LastActivation(before.events)
      requires host.operation.productionChanged ==> plan.productionMayHaveChanged
      modifies host`release, host`world, host`story, host`faults
      ensures host.Safe() && OnlyAppsWrote(old(host.Snap()), host.Snap())
      ensures host.release.previousApplication == old(host.release).previousApplication
      ensures r.Raise? <==> !r.Crash? && old(host.release).status in {Active, RolledBack, FailedSafe}
      ensures r.Raise? ==> host.release == old(host.release)
      ensures r.Done? ==> SupersededRelease(old(host.release), plan, host.release)
      ensures r.Done? ==> host.release.failure == Some(INTERRUPTED)
      ensures host.faults <= old(host.faults) && (r.Crash? ==> host.faults < old(host.faults))
    {
      hide Inv, BuildRecoveryPlan, LastActivation, ClosesSafely, Aged, ValidRelease;
      var change := Change(productionChanged := Some(plan.productionMayHaveChanged),
                           trafficActivated := Some(plan.disposition == CompleteNew),
                           failure := Some(INTERRUPTED));
      var clock: nat :| true;
      if !host.release.status.Terminal() {
        OwnershipClosesSafely(before, live, host.Snap(), change);
        TerminalWriteIsSafe(host.Snap(), RecoveryRequired, change, clock);
      }
      AgesNot(host.world, host.story);
      r := host.WriteRelease(DoTransition(RecoveryRequired, change, clock));
    }

    // ---- actions ----

    /** Recovery `id` is at work on an owned release, and `todo` is what remains. */
    ghost predicate Executing(back: bool, exact: bool, todo: seq<RecoveryAction>, id: nat)
      reads this, host
    {
      && host.Safe() && host.release.status == RecoveryRequired && !host.unknown
      && id < |host.recoveries| && host.recoveries[id].status == InProgress
      && todo != [] && todo[|todo| - 1] in {MarkRolledBack, MarkActive}
      && Ordered(todo) && Ready(back, exact, todo, host.Snap())
    }

    /** The stage of recovery `id` is none of the steps still to do. */
    ghost predicate NotYet(todo: seq<RecoveryAction>, id: nat)
      reads this, host
    {
      id < |host.recoveries| && (host.recoveries[id].stage.RecoveryStep? ==> host.recoveries[id].stage.action !in todo)
    }

    /** The records and the world when a recovery reports success. */
    ghost predicate Resolved(back: bool, id: nat)
      reads this, host
    {
      && id < |host.recoveries| && host.recoveries[id].status == OperationSucceeded
      && host.recoveries[id].stage == Recovered(!back)
      && host.release.recoveryOperation == Some(id) && PromisedWorld(back, host.Snap())
      && host.release.status == (if back then RolledBack else Active)
      && (!back ==> Selected(host.release, host.pointers))
    }

    lemma RestoreIsMet(exact: bool, todo: seq<RecoveryAction>, id: nat)
      requires Executing(true, exact, todo, id) && todo[0] == RestoreFinalBackup
      ensures host.release.previousApplication.Some? && host.release.finalBackup.Some?
      ensures host.world.previous == Stopped && host.world.new_ == Absent && !host.story.exposed
      ensures host.world.maintenance && host.world.target == OldTarget && MayHaveChanged(host.operation, host.release)
      ensures host.release.finalBackup.value.sha == host.story.committed && Passed(host.Snap()) == host.Snap()
      ensures Ready(true, exact, todo[1..], Performed(host.Snap(), todo[0]))
    {
      RestoreMeets(exact, todo, host.Snap());
    }

    lemma RestartIsMet(exact: bool, todo: seq<RecoveryAction>, id: nat)
      requires Executing(true, exact, todo, id) && todo[0] == RestartPreviousApplication
      ensures host.release.previousApplication == Some(host.world.incumbent)
      ensures host.world.previous == Stopped && host.world.new_ == Absent && !host.story.exposed
      ensures var t := BackUp(host.Snap());
              && Performed(host.Snap(), todo[0]) == t && Ready(true, exact, todo[1..], t)
              && (exact || Logical(host.world.db) == host.story.committed ==> t.story.clean == host.story.clean)
    {
      HeadLeaves(todo);
      assert RemoveNewApplication !in todo && RestoreFinalBackup !in todo;
      OfflineFacts(host.Snap());
    }

    lemma FinishIsMet(back: bool, exact: bool, todo: seq<RecoveryAction>, id: nat)
      requires Executing(back, exact, todo, id)
      requires todo[0] in {ActivatePreviousTraffic, DisableMaintenance, VerifyPrevious, VerifyNew}
      ensures host.story.exposed == !back
      ensures todo[0] == ActivatePreviousTraffic ==> back && host.world.target == OldTarget
      ensures todo[0] == DisableMaintenance ==> host.world.previous == Running || (host.story.exposed && host.world.target == NewTarget)
      ensures todo[0] in {VerifyPrevious, VerifyNew} ==> if back then host.world.previous == Running else host.world.new_ == Running
      ensures Ready(back, exact, todo[1..], Performed(host.Snap(), todo[0]))
    {
      FinishMeets(back, exact, todo, host.Snap());
    }

    method RemoveNew(ghost exact: bool, todo: seq<RecoveryAction>, ghost id: nat) returns (r: Step<()>)
      requires Executing(true, exact, todo, id) && todo[0] == RemoveNewApplication
      modifies host`world, host`story, host`faults, host`unknown
      ensures host.world.challenger == old(host.world.challenger)
      ensures host.Safe() && host.story.clean == old(host.story.clean) && !host.story.exposed
      ensures r.Done? ==> Ready(true, exact, todo[1..], host.Snap())
                          && OnlyAppsWrote(Performed(old(host.Snap()), todo[0]), host.Snap())
      ensures r.Done? ==> !host.unknown
      ensures host.faults <= old(host.faults) && (r.Done? || host.faults < old(host.faults))
    {
      hide Inv, ValidRelease, LastActivation, ActivationConclusion;
      HeadLeaves(todo);
      OfflineFacts(host.Snap());
      if host.release.newApplication == None { return Raise(Expected(true, true)); }
      assert host.release.newApplication == host.world.challenger;
      r := host.RemoveNew(host.release.newApplication.value);
    }

    /** Both applications are down and traffic is blocked, so the literal flags are true; exactly the backup is left. */
    method RestoreBackup(ghost exact: bool, todo: seq<RecoveryAction>, ghost id: nat) returns (r: Step<()>)
      requires Executing(true, exact, todo, id) && todo[0] == RestoreFinalBackup
      modifies host`world, host`story, host`faults, host`unknown, host`checked
      ensures host.world.challenger == old(host.world.challenger)
      ensures host.Safe() && host.story.clean == old(host.story.clean) && !host.story.exposed
      ensures r.Done? ==> Ready(true, exact, todo[1..], host.Snap())
                          && Logical(host.world.db) == host.story.committed
                          && OnlyAppsWrote(Performed(old(host.Snap()), todo[0]), host.Snap())
      ensures r.Done? ==> !host.unknown && {WriterStopped, FinalBackup} <= host.checked
      ensures host.faults <= old(host.faults) && (r.Done? || host.faults < old(host.faults))
    {
      ghost var before := host.Snap();
      RestoreIsMet(exact, todo, id);
      hide Inv, Host.Safe, Ready, Ordered;
      if host.release.previousApplication == None || host.release.finalBackup == None {
        return Raise(Expected(true, true));
      }
      var _ :- host.Check(WriterStopped);              // the previous application is still stopped
      assert host.Snap() == before;
      r := ReplaceDatabase();
    }

    /** Opens and verifies the backup, and only then puts it in place. */
    method ReplaceDatabase() returns (r: Step<()>)
      requires host.Safe() && host.release.finalBackup.Some? && host.release.finalBackup.value.sha == host.story.committed
      requires host.world.previous == Stopped && host.world.new_ == Absent && !host.story.exposed
      requires host.world.maintenance && host.world.target == OldTarget && MayHaveChanged(host.operation, host.release)
      requires !host.unknown && WriterStopped in host.checked
      modifies host`world, host`story, host`faults, host`unknown, host`checked
      ensures host.Safe() && host.world == old(host.world).(db := host.world.db)
      ensures host.story == old(host.story).(lineage := host.story.lineage)
      ensures r.Done? ==> host.Snap() == Replaced(old(host.Snap()), host.world.db)
      ensures r.Done? ==> host.world.db == Database(host.release.finalBackup.value.sha, None) && !host.unknown
      ensures r.Done? ==> host.checked == old(host.checked) + {FinalBackup}
      ensures host.faults <= old(host.faults) && (r.Done? || host.faults < old(host.faults))
    {
      hide Inv, Host.Safe;
      var intact := OpenVerified();
      if !intact { return Raise(Expected(true, true)); }
      r := host.RestoreFinal(true, false);
    }

    /** The final backup opens, and its digest is the recorded one. */
    method OpenVerified() returns (intact: bool)
      requires host.release.finalBackup.Some?
      modifies host`faults, host`checked
      ensures host.checked == old(host.checked) + if intact then {FinalBackup} else {}
      ensures host.faults <= old(host.faults) && (intact || host.faults < old(host.faults))
    {
      var found := OpenBackup();
      intact := found == Some(host.release.finalBackup.value.sha);
      if intact { host.checked := host.checked + {FinalBackup}; }
    }

    /** Exactly the recorded application restarts; `clean` survives whenever it finds what it had left. */
    method RestartPrevious(ghost exact: bool, todo: seq<RecoveryAction>, ghost id: nat) returns (r: Step<()>)
      requires Executing(true, exact, todo, id) && todo[0] == RestartPreviousApplication
      modifies host`world, host`story, host`faults, host`unknown
      ensures host.world.challenger == old(host.world.challenger)
      ensures host.Safe() && !host.story.exposed
      ensures exact || Logical(old(host.world.db)) == old(host.story.committed) ==>
                host.story.clean == old(host.story.clean)
      ensures host.story.clean ==> old(host.story.clean)
      ensures r.Done? ==> Ready(true, exact, todo[1..], host.Snap())
                          && OnlyAppsWrote(Performed(old(host.Snap()), todo[0]), host.Snap())
      ensures r.Done? ==> !host.unknown
      ensures host.faults <= old(host.faults) && (r.Done? || host.faults < old(host.faults))
    {
      ghost var before := host.Snap();
      RestartIsMet(exact, todo, id);
      hide Inv, Host.Safe, Ready, Ordered;
      if host.release.previousApplication == None { return Raise(Expected(true, true)); }
      r := host.RestartPrevious(host.release.previousApplication.value);
      StillReady(true, exact, todo[1..], BackUp(before), host.Snap());
    }

    method ConfirmOldTarget(ghost exact: bool, todo: seq<RecoveryAction>, ghost id: nat) returns (r: Step<()>)
      requires Executing(true, exact, todo, id) && todo[0] == ActivatePreviousTraffic
      modifies host`world, host`story, host`faults, host`unknown, host`ran
      ensures host.world.challenger == old(host.world.challenger)
      ensures host.Safe() && host.story.clean == old(host.story.clean) && !host.story.exposed
      ensures r.Done? ==> Ready(true, exact, todo[1..], host.Snap())
                          && OnlyAppsWrote(Performed(old(host.Snap()), todo[0]), host.Snap())
      ensures r.Done? ==> !host.unknown
      ensures host.faults <= old(host.faults) && (r.Done? || host.faults < old(host.faults))
    {
      ghost var before := host.Snap();
      FinishIsMet(true, exact, todo, id);
      hide Inv, Host.Safe, Ready, Ordered;
      var result :- host.ActivateOldTraffic();
      StillReady(true, exact, todo[1..], Routed(before), host.Snap());
      r := if HookPassed(result) then Done(()) else Raise(Expected(true, true));
    }

    method LiftMaintenance(back: bool, ghost exact: bool, todo: seq<RecoveryAction>, ghost id: nat) returns (r: Step<()>)
      requires Executing(back, exact, todo, id) && todo[0] == DisableMaintenance
      modifies host`world, host`story, host`faults, host`unknown, host`ran
      ensures host.world.challenger == old(host.world.challenger)
      ensures host.Safe() && host.story.clean == old(host.story.clean) && host.story.exposed == !back
      ensures r.Done? ==> Ready(back, exact, todo[1..], host.Snap())
                          && OnlyAppsWrote(Performed(old(host.Snap()), todo[0]), host.Snap())
      ensures r.Done? ==> !host.unknown
      ensures host.faults <= old(host.faults) && (r.Done? || host.faults < old(host.faults))
    {
      ghost var before := host.Snap();
      FinishIsMet(back, exact, todo, id);
      hide Inv, Host.Safe, Ready, Ordered, Maintained;
      var result :- host.DisableMaintenance();
      StillReady(back, exact, todo[1..], Maintained(before, false), host.Snap());
      r := if HookPassed(result) then Done(()) else Raise(Expected(true, true));
    }

    method Verify(back: bool, ghost exact: bool, todo: seq<RecoveryAction>, ghost id: nat) returns (r: Step<()>)
      requires Executing(back, exact, todo, id) && todo[0] in {VerifyPrevious, VerifyNew}
      modifies host`world, host`story, host`faults, host`unknown, host`checked
      ensures host.world.challenger == old(host.world.challenger)
      ensures host.Safe() && host.story.clean == old(host.story.clean) && host.story.exposed == !back
      ensures r.Done? ==> Ready(back, exact, todo[1..], host.Snap())
                          && OnlyAppsWrote(Performed(old(host.Snap()), todo[0]), host.Snap())
      ensures r.Done? ==> !host.unknown
      ensures host.faults <= old(host.faults) && (r.Done? || host.faults < old(host.faults))
    {
      ghost var before := host.Snap();
      var subject := if back then ServingApplication else NewApplication;
      FinishIsMet(back, exact, todo, id);
      assert host.Holds(subject) && Performed(before, todo[0]) == Passed(before);
      hide Inv, Host.Safe, Ready, Ordered, Host.Holds, Performed;
      r := host.Check(subject);
      StillReady(back, exact, todo[1..], Passed(before), host.Snap());
    }

    /** Resolves the release, selects it if active, and only then closes the recovery operation. */
    method Complete(back: bool, ghost exact: bool, todo: seq<RecoveryAction>, id: nat) returns (r: Step<DeploymentState>)
      requires Executing(back, exact, todo, id) && todo[0] in {MarkRolledBack, MarkActive}
      modifies host`release, host`recoveries, host`pointers, host`world, host`story, host`faults
      ensures host.world.challenger == old(host.world.challenger)
      ensures host.Safe() && host.story.exposed == !back && host.story.clean == old(host.story.clean)
      ensures host.release.previousApplication == old(host.release).previousApplication
      ensures |host.recoveries| == |old(host.recoveries)|
      ensures r.Done? ==> Resolved(back, id) && r.value == host.release.status
      ensures r.Done? ==> host.release.recoveryFailure == old(host.release).failure
      ensures r.Raise? ==> back && host.release == old(host.release) && host.release.rehearsalBackup == None
                           && host.recoveries == old(host.recoveries)
      ensures r.Done? ==> (back ==> old(host.release).rehearsalBackup.Some?)
      ensures host.pointers == old(host.pointers) || Selected(host.release, host.pointers)
      ensures r.Done? ==> host.recoveries[id].productionChanged == old(host.recoveries)[id].productionChanged
      ensures host.faults <= old(host.faults) && (r.Crash? ==> host.faults < old(host.faults))
    {
      ReadyMeans(back, exact, todo, host.Snap());
      hide Inv, Ordered, Ready;
      var resolved := Mark(back, exact, todo, id);
      if !resolved.Done? { return resolved.PropagateFailure(); }
      var settled := Settle(back, id);
      r := if settled.Done? then Done(host.release.status) else Crash;
    }

    /** The mark meets exactly the world it promises. */
    method Mark(back: bool, ghost exact: bool, todo: seq<RecoveryAction>, id: nat) returns (r: Step<()>)
      requires Executing(back, exact, todo, id) && todo[0] in {MarkRolledBack, MarkActive}
      modifies host`release, host`world, host`story, host`faults
      ensures host.Safe() && OnlyAppsWrote(old(host.Snap()), host.Snap())
      ensures host.release.previousApplication == old(host.release).previousApplication
      ensures r.Done? ==> && host.release.status == (if back then RolledBack else Active)
                          && host.release.recoveryOperation == Some(id)
                          && host.release.recoveryFailure == old(host.release).failure && PromisedWorld(back, host.Snap())
      ensures r.Raise? ==> back && host.release == old(host.release) && host.release.rehearsalBackup == None
      ensures r.Done? ==> (back ==> old(host.release).rehearsalBackup.Some?)
      ensures host.faults <= old(host.faults) && (r.Crash? ==> host.faults < old(host.faults))
    {
      hide Inv, Ordered, Ready;
      var clock: nat :| true;
      MarkIsReady(back, exact, todo, host.Snap());
      MarkPromises(back, exact, todo, host.Snap());
      FinalMarkIsSafe(host.Snap(), back, exact, id, clock);
      r := ResolveRelease(back, id, clock);
    }

    /** The pointers select an active release before the recovery reports success. */
    method Settle(back: bool, id: nat) returns (r: Step<()>)
      requires host.Safe() && id < |host.recoveries| && host.recoveries[id].status == InProgress
      requires host.release.recoveryOperation == Some(id)
      requires host.release.status == if back then RolledBack else Active
      modifies host`recoveries, host`pointers, host`world, host`story, host`faults
      ensures host.Safe() && !r.Raise? && OnlyAppsWrote(old(host.Snap()), host.Snap())
      ensures |host.recoveries| == |old(host.recoveries)|
      ensures r.Done? ==> host.recoveries[id].status == OperationSucceeded && host.recoveries[id].stage == Recovered(!back)
                          && host.recoveries[id].productionChanged == old(host.recoveries)[id].productionChanged
                          && (!back ==> Selected(host.release, host.pointers))
      ensures host.pointers == old(host.pointers) || Selected(host.release, host.pointers)
      ensures host.faults <= old(host.faults) && (r.Done? || host.faults < old(host.faults))
    {
      hide Inv, Aged;
      AgesNot(host.world, host.story);
      if !back {
        r := host.SwitchPointers();
        if !r.Done? { return; }
      }
      ghost var before := host.Snap();
      r := CloseSuccessfully(back, id);
      AgesTwice(old(host.world), old(host.story), before.world, before.story, host.world, host.story);
    }

    method ResolveRelease(back: bool, id: nat, clock: nat) returns (r: Step<()>)
      requires host.Safe()
      requires var mark := DoResolve(if back then RolledBack else Active, id, !back, clock);
               && (Apply(host.release, mark).Ok? <==> !back || host.release.rehearsalBackup.Some?)
               && (Apply(host.release, mark).Ok? ==> Inv(host.Snap().(release := Apply(host.release, mark).value)))
      modifies host`release, host`world, host`story, host`faults
      ensures host.Safe() && OnlyAppsWrote(old(host.Snap()), host.Snap())
      ensures host.release.previousApplication == old(host.release).previousApplication
      ensures r.Done? ==> && host.release.status == (if back then RolledBack else Active)
                          && host.release.recoveryOperation == Some(id)
                          && host.release.recoveryFailure == old(host.release).failure
      ensures r.Raise? ==> back && host.release == old(host.release) && host.release.rehearsalBackup == None
      ensures r.Done? ==> (back ==> old(host.release).rehearsalBackup.Some?)
      ensures host.faults <= old(host.faults) && (r.Crash? ==> host.faults < old(host.faults))
    {
      hide Inv, ValidRelease, Aged;
      AgesNot(host.world, host.story);
      r := host.WriteRelease(DoResolve(if back then RolledBack else Active, id, !back, clock));
    }

    /** The recovery's own success; accepted, and only after its release and the pointers. */
    method CloseSuccessfully(back: bool, id: nat) returns (r: Step<()>)
      requires host.Safe() && id < |host.recoveries| && host.recoveries[id].status == InProgress
      requires host.release.recoveryOperation == Some(id)
      requires host.release.status == Active ==> Selected(host.release, host.pointers)
      modifies host`recoveries, host`world, host`story, host`faults
      ensures host.Safe() && !r.Raise? && OnlyAppsWrote(old(host.Snap()), host.Snap())
      ensures |host.recoveries| == |old(host.recoveries)|
      ensures r.Done? ==> host.recoveries[id].status == OperationSucceeded && host.recoveries[id].stage == Recovered(!back)
                          && host.recoveries[id].productionChanged == old(host.recoveries)[id].productionChanged
      ensures host.faults <= old(host.faults) && (r.Done? || host.faults < old(host.faults))
    {
      hide Inv, ValidOperation, Aged;
      var now: nat :| host.recoveries[id].updatedAt <= now;
      var call := Advance(OperationSucceeded, Recovered(!back), host.recoveries[id].productionChanged, false, false, now);
      RecoveryIsValid(host.Snap(), id);
      AcceptedExactly(host.recoveries[id], call);
      RecoveryWriteIsSafe(host.Snap(), id, call);
      AgesNot(host.world, host.story);
      r := host.WriteRecovery(id, call);
    }

    // ---- one recovery ----

    method Perform(back: bool, ghost exact: bool, todo: seq<RecoveryAction>, ghost id: nat) returns (r: Step<()>)
      requires Executing(back, exact, todo, id) && todo[0] !in {MarkRolledBack, MarkActive}
      modifies host`world, host`story, host`faults, host`unknown, host`checked, host`ran
      ensures host.world.challenger == old(host.world.challenger)
      ensures host.Safe() && host.story.exposed == !back
      ensures exact ==> host.story.clean == old(host.story.clean)
      ensures host.story.clean ==> old(host.story.clean)
      ensures r.Done? ==> Ready(back, exact, todo[1..], host.Snap())
                          && OnlyAppsWrote(Performed(old(host.Snap()), todo[0]), host.Snap())
      ensures r.Done? ==> !host.unknown
      ensures host.faults <= old(host.faults) && (r.Done? || host.faults < old(host.faults))
    {
      hide Inv, Ordered, Performed;
      OnlyItsOwnActions(back, exact, todo, host.Snap());
      match todo[0]
      case RemoveNewApplication => r := RemoveNew(exact, todo, id);
      case RestoreFinalBackup =>
        r := RestoreBackup(exact, todo, id);
      case RestartPreviousApplication => r := RestartPrevious(exact, todo, id);
      case ActivatePreviousTraffic => r := ConfirmOldTarget(exact, todo, id);
      case DisableMaintenance => r := LiftMaintenance(back, exact, todo, id);
      case VerifyPrevious => r := Verify(back, exact, todo, id);
      case VerifyNew => r := Verify(back, exact, todo, id);
    }

    /** Each action is announced in the recovery's own log before it starts, and recorded after it; no record is refused. */
    method Log(id: nat, call: OperationCall) returns (r: Step<()>)
      requires host.Safe() && id < |host.recoveries| && host.recoveries[id].status == InProgress
      requires host.recoveries[id].updatedAt <= call.now
      requires call.Advance? ==> call.status == InProgress && call.stage != host.recoveries[id].stage
                                 && !call.recoveryRequired && !call.failed
      modifies host`recoveries, host`world, host`story, host`faults
      ensures host.Safe() && !r.Raise? && OnlyAppsWrote(old(host.Snap()), host.Snap())
      ensures |host.recoveries| == |old(host.recoveries)| && host.recoveries[id].status == InProgress
      ensures r.Done? ==> host.recoveries[id].lastSequence == old(host.recoveries)[id].lastSequence + 1
      ensures r.Done? ==> host.recoveries[id].stage == if call.Advance? then call.stage else old(host.recoveries)[id].stage
      ensures r.Done? ==> host.recoveries[id].productionChanged
                          == if call.Advance? then call.productionChanged else old(host.recoveries)[id].productionChanged
      ensures host.faults <= old(host.faults) && (r.Done? || host.faults < old(host.faults))
    {
      hide Inv, ValidOperation, Aged;
      RecoveryIsValid(host.Snap(), id);
      AcceptedExactly(host.recoveries[id], call);
      RecoveryWriteIsSafe(host.Snap(), id, call);
      AgesNot(host.world, host.story);
      r := host.WriteRecovery(id, call);
    }

    /** One announced, performed and recorded action; a mark ends the plan. */
    method ExecuteHead(back: bool, ghost exact: bool, changed: bool, todo: seq<RecoveryAction>, id: nat)
      returns (r: Step<Option<DeploymentState>>)
      requires Executing(back, exact, todo, id) && NotYet(todo, id)
      modifies host`release, host`recoveries, host`pointers, host`world, host`story, host`faults, host`unknown,
               host`checked, host`ran
      ensures host.world.challenger == old(host.world.challenger)
      ensures host.Safe() && host.story.exposed == !back && |host.recoveries| == |old(host.recoveries)|
      ensures exact ==> host.story.clean == old(host.story.clean)
      ensures host.story.clean ==> old(host.story.clean)
      ensures host.release.previousApplication == old(host.release).previousApplication
      ensures r.Done? && r.value.Some? ==> Resolved(back, id) && r.value.value == host.release.status
      ensures r.Done? && r.value == None ==>
                && (|todo| > 1 ==> Executing(back, exact, todo[1..], id) && NotYet(todo[1..], id))
      ensures r.Raise? || (r.Done? && r.value == None) ==>
                host.release == old(host.release) && host.recoveries[id].status == InProgress
      ensures r.Done? && r.value == None ==> |todo| > 1
      ensures r.Raise? && host.faults == old(host.faults) ==> back && old(host.release).rehearsalBackup == None
      ensures r.Done? && r.value.Some? ==> (back ==> old(host.release).rehearsalBackup.Some?)
      ensures host.pointers == old(host.pointers) || Selected(host.release, host.pointers)
      ensures r.Done? && r.value == None ==> host.pointers == old(host.pointers)
      ensures r.Done? ==> host.recoveries[id].productionChanged == changed
      ensures host.faults <= old(host.faults) && (r.Crash? ==> host.faults < old(host.faults))
    {
      hide Inv, Host.Safe, Ready, Ordered;
      ReadyMeans(back, exact, todo, host.Snap());
      var _ :- Announce(back, exact, changed, todo, id);
      if todo[0] in {MarkRolledBack, MarkActive} {
        var state :- Complete(back, exact, todo, id);
        return Done(Some(state));
      }
      var _ :- PerformAndRecord(back, exact, todo, id);
      r := Done(None);
    }

    method Announce(back: bool, ghost exact: bool, changed: bool, todo: seq<RecoveryAction>, id: nat) returns (r: Step<()>)
      requires Executing(back, exact, todo, id) && NotYet(todo, id)
      modifies host`recoveries, host`world, host`story, host`faults
      ensures host.Safe() && !r.Raise? && OnlyAppsWrote(old(host.Snap()), host.Snap())
      ensures |host.recoveries| == |old(host.recoveries)|
      ensures r.Done? ==> Executing(back, exact, todo, id) && host.recoveries[id].stage == RecoveryStep(todo[0])
      ensures r.Done? ==> host.recoveries[id].productionChanged == changed
      ensures host.faults <= old(host.faults) && (r.Done? || host.faults < old(host.faults))
    {
      hide Inv, Host.Safe, Ready, Ordered, Aged;
      ghost var before := host.Snap();
      var now: nat :| host.recoveries[id].updatedAt <= now;
      r := Log(id, Advance(InProgress, RecoveryStep(todo[0]), changed, false, false, now));
      StaysReady(back, exact, todo, before, host.Snap());
    }

    method PerformAndRecord(back: bool, ghost exact: bool, todo: seq<RecoveryAction>, id: nat) returns (r: Step<()>)
      requires Executing(back, exact, todo, id) && todo[0] !in {MarkRolledBack, MarkActive}
      requires host.recoveries[id].stage == RecoveryStep(todo[0])
      modifies host`recoveries, host`world, host`story, host`faults, host`unknown, host`checked, host`ran
      ensures host.world.challenger == old(host.world.challenger)
      ensures host.Safe() && host.story.exposed == !back && |host.recoveries| == |old(host.recoveries)|
      ensures exact ==> host.story.clean == old(host.story.clean)
      ensures host.story.clean ==> old(host.story.clean)
      ensures host.recoveries[id].status == InProgress
      ensures r.Done? ==> host.recoveries[id].lastSequence == old(host.recoveries)[id].lastSequence + 1
      ensures r.Done? && |todo| > 1 ==> Executing(back, exact, todo[1..], id) && NotYet(todo[1..], id)
      ensures r.Done? ==> host.recoveries[id].productionChanged == old(host.recoveries)[id].productionChanged
      ensures host.faults <= old(host.faults) && (r.Done? || host.faults < old(host.faults))
    {
      hide Inv, Host.Safe, Ready, Ordered, Performed;
      HeadLeaves(todo);
      var _ :- Perform(back, exact, todo, id);
      r := RecordDone(back, exact, todo[1..], id);
    }

    /** The action's evidence, after it; what remains stays ready. */
    method RecordDone(ghost back: bool, ghost exact: bool, ghost rest: seq<RecoveryAction>, id: nat) returns (r: Step<()>)
      requires host.Safe() && id < |host.recoveries| && host.recoveries[id].status == InProgress
      requires Ready(back, exact, rest, host.Snap())
      modifies host`recoveries, host`world, host`story, host`faults
      ensures host.Safe() && !r.Raise? && OnlyAppsWrote(old(host.Snap()), host.Snap())
      ensures |host.recoveries| == |old(host.recoveries)| && host.recoveries[id].status == InProgress
      ensures r.Done? ==>
                && Ready(back, exact, rest, host.Snap()) && host.recoveries[id].stage == old(host.recoveries)[id].stage
                && host.recoveries[id].lastSequence == old(host.recoveries)[id].lastSequence + 1
                && host.recoveries[id].productionChanged == old(host.recoveries)[id].productionChanged
      ensures host.faults <= old(host.faults) && (r.Done? || host.faults < old(host.faults))
    {
      hide Inv, Host.Safe, Ready, Ordered, Aged;
      ghost var performed := host.Snap();
      var now: nat :| host.recoveries[id].updatedAt <= now;
      r := Log(id, Append(now));
      StaysReady(back, exact, rest, performed, host.Snap());
    }

    method ExecutePlan(back: bool, ghost exact: bool, changed: bool, actions: seq<RecoveryAction>, id: nat)
      returns (r: Step<DeploymentState>)
      requires Executing(back, exact, actions, id) && NotYet(actions, id)
      modifies host`release, host`recoveries, host`pointers, host`world, host`story, host`faults, host`unknown,
               host`checked, host`ran
      ensures host.world.challenger == old(host.world.challenger)
      ensures host.Safe() && host.story.exposed == !back
      ensures exact ==> host.story.clean == old(host.story.clean)
      ensures host.story.clean ==> old(host.story.clean)
      ensures host.release.previousApplication == old(host.release).previousApplication
      ensures r.Done? ==> Resolved(back, id) && r.value == host.release.status && |host.recoveries| == |old(host.recoveries)|
      ensures r.Raise? ==> id < |host.recoveries| && host.recoveries[id].status == InProgress
                           && host.release == old(host.release)
      ensures r.Raise? ==> |host.recoveries| == |old(host.recoveries)|
      ensures host.faults == old(host.faults) ==> (r.Done? <==> back ==> old(host.release).rehearsalBackup.Some?)
      ensures host.pointers == old(host.pointers) || Selected(host.release, host.pointers)
      ensures r.Done? ==> host.recoveries[id].productionChanged == changed
      ensures host.faults <= old(host.faults) && (r.Crash? ==> host.faults < old(host.faults))
    {
      hide Inv, Host.Safe, Ready, Ordered;
      ReadyMeans(back, exact, actions, host.Snap());
      var todo := actions;
      while todo != []
        invariant todo != [] ==> Executing(back, exact, todo, id) && NotYet(todo, id)
        invariant id < |host.recoveries| == |old(host.recoveries)| && host.recoveries[id].status == InProgress
        invariant host.Safe() && host.story.exposed == !back && host.world.challenger == old(host.world.challenger)
        invariant exact ==> host.story.clean == old(host.story.clean)
        invariant host.story.clean ==> old(host.story.clean)
        invariant host.release == old(host.release) && host.pointers == old(host.pointers) && host.faults <= old(host.faults)
        invariant host.faults == old(host.faults) ==> todo != []
        decreases |todo|
      {
        var ended :- ExecuteHead(back, exact, changed, todo, id);
        if ended.Some? { return Done(ended.value); }
        todo := todo[1..];
      }
      r := Raise(Expected(true, true));
    }

    /** Takes ownership and opens the recovery operation. */
    method Own(live: Live) returns (r: Step<RecoveryPlan>)
      requires host.Safe() && Reports(live, host.Snap()) && Executable(PlanFor(host.Snap(), live)) && !host.unknown
      modifies host`release, host`operation, host`events, host`recoveries, host`world, host`story, host`faults
      ensures host.Safe() && OnlyAppsWrote(old(host.Snap()), host.Snap())
      ensures host.release.previousApplication == old(host.release).previousApplication
      ensures r.Done? ==>
                && r.value == old(PlanFor(host.Snap(), live)) && host.recoveries != []
                && Executing(r.value.disposition == RecoverPrevious, RestartsExactly(old(host.Snap()), r.value),
                             r.value.actions, |host.recoveries| - 1)
                && NotYet(r.value.actions, |host.recoveries| - 1)
      ensures r.Done? ==> host.release.rehearsalBackup == old(host.release).rehearsalBackup
      ensures r.Done? ==> old(host.release).status !in {Active, RolledBack, FailedSafe}
      ensures r.Raise? ==> old(host.release).status in {Active, RolledBack, FailedSafe} && host.operation.status != InProgress
                           && host.release == old(host.release)
      ensures !r.Crash? ==> |host.recoveries| == |old(host.recoveries)| + if r.Done? then 1 else 0
      ensures host.faults <= old(host.faults) && (r.Crash? ==> host.faults < old(host.faults))
    {
      hide Inv, Ready, BuildRecoveryPlan, Ordered, Reports, RestartsExactly, Aged;
      var plan := BuildRecoveryPlan(host.operation, host.events, host.release, live);
      ghost var before := host.Snap();
      var owned := TakeOwnership(live);
      if !owned.Done? { return owned.PropagateFailure(); }
      OwnedStaysReady(before, live, host.Snap());
      ghost var mine := host.Snap();
      var started := Open(plan.disposition == RecoverPrevious, RestartsExactly(before, plan), plan.actions);
      AgesTwice(before.world, before.story, mine.world, mine.story, host.world, host.story);
      r := if started.Done? then Done(plan) else Crash;
    }

    method Open(back: bool, ghost exact: bool, actions: seq<RecoveryAction>) returns (r: Step<()>)
      requires host.Safe() && host.release.status == RecoveryRequired && !host.unknown
      requires actions != [] && actions[|actions| - 1] in {MarkRolledBack, MarkActive}
      requires Ordered(actions) && Ready(back, exact, actions, host.Snap())
      modifies host`recoveries, host`world, host`story, host`faults
      ensures host.Safe() && !r.Raise? && OnlyAppsWrote(old(host.Snap()), host.Snap())
      ensures r.Done? ==> host.recoveries != [] && Executing(back, exact, actions, |host.recoveries| - 1)
                          && NotYet(actions, |host.recoveries| - 1)
      ensures r.Done? ==> |host.recoveries| == |old(host.recoveries)| + 1
      ensures host.faults <= old(host.faults) && (r.Done? || host.faults < old(host.faults))
    {
      hide Inv, Ready, Ordered, Aged;
      ghost var before := host.Snap();
      AgesNot(host.world, host.story);
      var now: nat :| true;
      var created := host.CreateRecovery(now);
      if !created.Done? { return Crash; }
      ReadySurvives(back, exact, actions, before, host.Snap());
      r := Done(());
    }

    /**
      Diagnoses `site`, refuses what is not executable without writing anything, and
      takes ownership of exactly what was diagnosed.
    */
    method Begin() returns (r: Step<RecoveryPlan>, ghost site: Site, ghost diagnosis: Option<Diagnosis>)
      requires host.Safe() && !host.unknown
      modifies host`release, host`operation, host`events, host`recoveries, host`world, host`story, host`faults
      ensures host.Safe() && OnlyAppsWrote(old(host.Snap()), host.Snap())
      ensures host.release.previousApplication == old(host.release).previousApplication
      ensures Inv(site) && Drift(old(host.Snap()), site)
      ensures r.Done? <==> diagnosis.Some?
      ensures diagnosis.Some? ==>
                && Diagnosed(old(host.Snap()), diagnosis.value) && r.value == PlanOf(diagnosis.value)
                && diagnosis.value.site == site && host.recoveries != []
                && Executing(r.value.disposition == RecoverPrevious, RestartsExactly(diagnosis.value.site, r.value),
                             r.value.actions, |host.recoveries| - 1)
                && NotYet(r.value.actions, |host.recoveries| - 1)
                && host.release.rehearsalBackup == site.release.rehearsalBackup
      ensures r.Raise? ==> host.Snap() == site || SupersededOnly(host.Snap())
      ensures Settled(old(host.Snap())) ==> r.Raise? && Drift(old(host.Snap()), host.Snap())
      ensures !r.Crash? ==> |host.recoveries| == |old(host.recoveries)| + if r.Done? then 1 else 0
      ensures host.faults <= old(host.faults) && (r.Crash? ==> host.faults < old(host.faults))
      ensures host.faults == old(host.faults) ==>
                && (r.Done? <==> Recoverable(site))
                && (r.Done? ==> diagnosis.value.live == FullReport(site))
    {
      hide Inv, Reports, BuildRecoveryPlan, Executable, RestartsExactly, Aged;
      diagnosis := None;
      host.Elapse();                                     // whatever was written since
      site := host.Snap();
      var diagnosed := Diagnose();
      if !diagnosed.Done? { return diagnosed.PropagateFailure(), site, None; }
      var live := diagnosed.value;
      var plan := BuildRecoveryPlan(host.operation, host.events, host.release, live);
      if !Executable(plan) { return Raise(Expected(true, plan.productionMayHaveChanged)), site, None; }
      if Settled(site) { SettledIsNeverPlanned(site, live); }
      r := Own(live);
      if r.Done? { diagnosis := Some(Diagnosis(site, live)); }
      AgesTwice(old(host.world), old(host.story), site.world, site.story, host.world, host.story);
    }

    /**
      One recovery, cut short anywhere. It never exposes anything, restarts only the
      recorded previous application, and succeeds only with the world its mark
      promises, where the application traffic reaches has passed its checks. Every
      restart finds exactly what that application had left, unless the plan of its
      own diagnosis skips the restore while rows are hidden; nothing hidden beforehand
      is enough. Without a diagnosis only records change. With nothing going wrong it
      succeeds exactly where the site it diagnosed is recoverable, and a recovery that
      raises leaves its own record asking for another one.
    */
    method Recover() returns (r: Step<DeploymentState>, ghost site: Site, ghost diagnosis: Option<Diagnosis>)
      requires host.Safe() && !host.unknown
      modifies host
      ensures host.world.challenger == old(host.world.challenger)
      ensures host.Safe() && host.story.exposed == old(host.story.exposed)
      ensures host.release.previousApplication == old(host.release).previousApplication
      ensures Inv(site) && Drift(old(host.Snap()), site)
      ensures diagnosis.Some? ==> Diagnosed(old(host.Snap()), diagnosis.value) && diagnosis.value.site == site
      ensures diagnosis == None ==> !r.Done? && OnlyAppsWrote(old(host.Snap()), host.Snap())
      ensures host.story.clean ==> old(host.story.clean)
      ensures (diagnosis.Some? ==> !Inexact(diagnosis.value)) ==> host.story.clean == old(host.story.clean)
      ensures NothingHidden(old(host.Snap())) ==> host.story.clean == old(host.story.clean)
      ensures Settled(old(host.Snap())) ==> diagnosis == None && Drift(old(host.Snap()), host.Snap())
      ensures r.Done? ==> host.recoveries != [] && r.value == host.release.status
                          && Resolved(r.value == RolledBack, |host.recoveries| - 1)
                          && (r.value == RolledBack <==> PlanOf(diagnosis.value).disposition == RecoverPrevious)
      ensures r.Raise? && diagnosis == None ==> host.Snap() == site || SupersededOnly(host.Snap())
      ensures r.Raise? && diagnosis.Some? ==>
                host.recoveries != [] && host.recoveries[|host.recoveries| - 1].status == OperationNeedsRecovery
      ensures host.pointers == old(host.pointers) || Selected(host.release, host.pointers)
      ensures !r.Crash? && diagnosis.Some? ==>
                && host.recoveries != []
                && host.recoveries[|host.recoveries| - 1].productionChanged == PlanOf(diagnosis.value).productionMayHaveChanged
      ensures !r.Crash? ==> |host.recoveries| == |old(host.recoveries)| + if diagnosis.Some? then 1 else 0
      ensures host.faults <= old(host.faults) && (r.Crash? ==> host.faults < old(host.faults))
      ensures host.faults == old(host.faults) ==>
                && (r.Done? <==> Recoverable(site) && Markable(site))
                && (r.Done? ==> diagnosis.value.live == FullReport(site))
    {
      hide Inv, RestartsExactly, Executing, NotYet, Inexact, NothingHidden, Settled, Resolved, Drift, Recoverable,
           SupersededOnly, Host.Safe;
      ghost var before := host.Snap();
      var begun;
      begun, site, diagnosis := Begin();
      if !begun.Done? { return begun.PropagateFailure(), site, None; }
      ExactUnlessInexact(diagnosis.value);
      if NothingHidden(before) { NothingHiddenStays(before, diagnosis.value); }
      r := CarryOut(begun.value, RestartsExactly(diagnosis.value.site, begun.value));
    }

    /** Executes an owned plan; a failure closes the recovery as needing another one. */
    method CarryOut(plan: RecoveryPlan, ghost exact: bool) returns (r: Step<DeploymentState>)
      requires host.recoveries != []
      requires Executing(plan.disposition == RecoverPrevious, exact, plan.actions, |host.recoveries| - 1)
      requires NotYet(plan.actions, |host.recoveries| - 1)
      modifies host`release, host`recoveries, host`pointers, host`world, host`story, host`faults, host`unknown,
               host`checked, host`ran
      ensures host.world.challenger == old(host.world.challenger)
      ensures host.Safe() && host.story.exposed == old(host.story.exposed)
      ensures exact ==> host.story.clean == old(host.story.clean)
      ensures host.story.clean ==> old(host.story.clean)
      ensures host.release.previousApplication == old(host.release).previousApplication
      ensures r.Done? ==> host.recoveries != [] && r.value == host.release.status
                          && Resolved(r.value == RolledBack, |host.recoveries| - 1)
      ensures r.Done? ==> (r.value == RolledBack <==> plan.disposition == RecoverPrevious)
      ensures r.Raise? ==> host.recoveries != [] && host.recoveries[|host.recoveries| - 1].status == OperationNeedsRecovery
      ensures host.faults == old(host.faults) ==>
                (r.Done? <==> plan.disposition == RecoverPrevious ==> old(host.release).rehearsalBackup.Some?)
      ensures host.pointers == old(host.pointers) || Selected(host.release, host.pointers)
      ensures !r.Crash? ==> host.recoveries != []
                            && host.recoveries[|host.recoveries| - 1].productionChanged == plan.productionMayHaveChanged
      ensures !r.Crash? ==> |host.recoveries| == |old(host.recoveries)|
      ensures host.faults <= old(host.faults) && (r.Crash? ==> host.faults < old(host.faults))
    {
      hide Inv, Host.Safe, ValidRelease, Ready, NotYet, Ordered;
      ReadyMeans(plan.disposition == RecoverPrevious, exact, plan.actions, host.Snap());
      var id := |host.recoveries| - 1;
      r := ExecutePlan(plan.disposition == RecoverPrevious, exact, plan.productionMayHaveChanged, plan.actions, id);
      if r.Raise? {
        var closed := CloseRecovery(id, plan.productionMayHaveChanged);
        if !closed.Done? { r := Crash; }
      }
    }
  }

  // ---- histories ----

  /** One recovery of a history: where it began, what it acted on, and where it ended. */
  datatype Attempt = Attempt(before: Site, diagnosis: Option<Diagnosis>, after: Site)

  /** What every recovery, cut short anywhere, does between the two sites. */
  predicate Attempted(a: Attempt) {
    && (a.diagnosis.Some? ==> Diagnosed(a.before, a.diagnosis.value))
    && (a.diagnosis == None ==> OnlyAppsWrote(a.before, a.after))
    && a.after.story.exposed == a.before.story.exposed && SameRelease(a.before.release, a.after.release)
    && a.after.world.incumbent == a.before.world.incumbent && a.after.world.challenger == a.before.world.challenger
    && (a.after.story.clean ==> a.before.story.clean)
    && ((a.diagnosis.Some? ==> !Inexact(a.diagnosis.value)) ==> a.after.story.clean == a.before.story.clean)
  }

  /** The attempts lead from `first` to `last` without a gap. */
  predicate Chained(first: Site, log: seq<Attempt>, last: Site)
    decreases |log|
  {
    if log == [] then last == first
    else
      var final := log[|log| - 1];
      Attempted(final) && last == final.after && Chained(first, log[..|log| - 1], final.before)
  }

  /** Along a chain exactness is lost only in an attempt whose own diagnosis was inexact. */
  lemma {:induction false} ChainKeepsClean(first: Site, log: seq<Attempt>, last: Site)
    requires Chained(first, log, last) && first.story.clean
    requires forall a <- log :: a.diagnosis.Some? ==> !Inexact(a.diagnosis.value)
    ensures last.story.clean
    decreases |log|
  {
    if log == [] {
    } else {
      assert log[|log| - 1] in log;
      hide Inexact, Diagnosed;
      ChainKeepsClean(first, log[..|log| - 1], log[|log| - 1].before);
    }
  }

  /**
    Every history: one deployment, cut short anywhere, then any number of
    recoveries, each cut short anywhere. `log` tells what each of them began with and
    diagnosed. Whatever happened, an exposed release is never planned for rollback,
    traffic is open only to one running application, and a rolled-back release has
    its previous application back and checked. While every restart found what the
    previous application had left, no acknowledged write is lost and the application
    traffic reaches is on its own data; that holds unless some recovery in the log
    restarted without a restore while rows were hidden from its diagnosis.
  */
  method AnyHistory(host: Host, attempts: nat) returns (ghost deployed: Site, ghost log: seq<Attempt>)
    requires host.Safe() && Initial(host.Snap())
    modifies host
    ensures host.Safe() && |log| == attempts && Chained(deployed, log, host.Snap())
    ensures Inv(deployed) && deployed.story.clean && SameRelease(old(host.release), deployed.release)
    ensures (forall a <- log :: a.diagnosis.Some? ==> !Inexact(a.diagnosis.value)) ==> host.story.clean
    ensures host.story.exposed ==> forall live: Live ::
              PlanFor(host.Snap(), live).disposition != RecoverPrevious
              && RestoreFinalBackup !in PlanFor(host.Snap(), live).actions
    ensures host.story.clean ==>
              || Logical(host.world.db) == host.story.committed
              || (Offline(host.Snap()) && host.release.finalBackup.Some?
                  && host.release.finalBackup.value.sha == host.story.committed)
    ensures !host.world.maintenance ==>
              if host.story.exposed
              then host.world.previous == Stopped && host.world.new_ == Running && host.story.lineage == NewData
              else host.world.previous == Running && host.world.new_ == Absent
                   && (host.story.clean ==> host.story.lineage == OldData)
    ensures host.release.status == RolledBack ==>
              && host.world.previous == Running && host.world.new_ == Absent && !host.story.exposed
              && host.story.verified && host.story.confirmed
    ensures host.release.status == Active && host.release.recoveryOperation.Some? ==> host.story.verified
  {
    deployed, log := RunHistory(host, attempts);
    if forall a <- log :: a.diagnosis.Some? ==> !Inexact(a.diagnosis.value) {
      ChainKeepsClean(deployed, log, host.Snap());
    }
    if host.story.exposed {
      forall live: Live
        ensures PlanFor(host.Snap(), live).disposition != RecoverPrevious
                && RestoreFinalBackup !in PlanFor(host.Snap(), live).actions
      {
        ExposedReleaseIsNeverRolledBack(host.Snap(), live);
      }
    }
    if host.story.clean { AcknowledgedWritesSurvive(host.Snap()); }
  }

  method RunHistory(host: Host, attempts: nat) returns (ghost deployed: Site, ghost log: seq<Attempt>)
    requires host.Safe() && Initial(host.Snap())
    modifies host
    ensures host.Safe() && |log| == attempts && Chained(deployed, log, host.Snap())
    ensures Inv(deployed) && deployed.story.clean && SameRelease(old(host.release), deployed.release)
  {
    hide Inv, Attempted, Inexact, Diagnosed, Initial;
    var remote, faults: nat := *, *;
    var deployment := new Deployment(host, remote, faults);
    var _, _ := deployment.RunDeployment();
    deployed, log := host.Snap(), [];
    for i := 0 to attempts
      invariant host.Safe() && |log| == i && Chained(deployed, log, host.Snap())
    {
      ghost var attempt := TryRecovery(host);
      assert (log + [attempt])[..|log|] == log;
      log := log + [attempt];
    }
  }

  method TryRecovery(host: Host) returns (ghost attempt: Attempt)
    requires host.Safe()
    modifies host
    ensures host.Safe() && Attempted(attempt) && attempt.before == old(host.Snap()) && attempt.after == host.Snap()
  {
    hide Inv, Inexact, Diagnosed, Settled, NothingHidden;
    ghost var before := host.Snap();
    var faults: nat := *;
    var recovery := new Recovery(host, faults);
    var _, _, diagnosis := recovery.Recover();
    attempt := Attempt(before, diagnosis, host.Snap());
  }
}
