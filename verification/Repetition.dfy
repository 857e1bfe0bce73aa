/** Recovery over whole sites: when a restart is exact, and why interrupting and repeating one is harmless. */
module Repetitions {
  import opened Basics
  import opened Commands
  import opened Databases
  import opened Releases
  import opened Operations
  import opened RecoveryPlanning
  import opened Sites
  import opened Steps
  import opened Hosts
  import opened Deployments
  import opened Recoveries

  // ---- restarting exactly ----

  /**
    When a rollback plan skips the restore, the restart finds what the previous
    application left in every continuation exactly if nothing was hidden when the
    recovery began: no rows behind the digest, and no new application still writing.
  */
  lemma SkippedRestoreIsExact(s: Site, live: Live)
    requires Inv(s) && Reports(live, s)
    requires PlanFor(s, live).disposition == RecoverPrevious
    requires RestoreFinalBackup !in PlanFor(s, live).actions && live.previous == Stopped
    ensures (forall t: Site :: Inv(t) && Drift(s, t) ==> Logical(t.world.db) == t.story.committed)
            <==> NothingHidden(s)
  {
    SkippedRestoreMatched(s, live);
    if s.world.new_ == Running {
      var other := Database(Content(s.story.committed.bytes + [1]), None);
      assert other.main.bytes != s.story.committed.bytes;
      WritesAreSafe(s, other);
      assert Logical(Written(s, other).world.db) != Written(s, other).story.committed;
    } else {
      assert Drift(s, s);
    }
  }

  const LEFT := Content([1])
  const WRITTEN := Content([1, 2])
  const CHALLENGER := FromRelease(2, 0, "v2", 0)

  /** A first release behind maintenance, its backup taken and its migration under way. */
  function Cutover(status: DeploymentState, challenger: Option<Handle>, db: Database, new_: Runtime, story: Story): Site {
    Site(Manifest(0, 0, "v2", Some(2), status, None, Some(Bootstrap(1)), challenger, Some(BackupRef(1, LEFT)),
                  Some(BackupRef(2, LEFT)), challenger.Some?, challenger.Some?, true, false, false, 0, 0, None, None,
                  None, None, None),
         NewOperation(0, true, 0).(productionChanged := true), [Event(0, 1, None)], [], None,
         World(db, Bootstrap(1), challenger, Stopped, new_, OldTarget, true), story)
  }

  /**
    Rows behind the digest: a migration that crashed with its rows still in the
    write-ahead log leaves a main file equal to the backup, so the plan restarts the
    previous application on the migrated rows.
  */
  lemma HiddenMigrationIsKept() returns (s: Site, live: Live)
    ensures Inv(s) && Reports(live, s) && s.story.clean && s.world.new_ == Absent
    ensures PlanFor(s, live).disposition == RecoverPrevious
    ensures RestoreFinalBackup !in PlanFor(s, live).actions && RestartPreviousApplication in PlanFor(s, live).actions
    ensures Logical(s.world.db) != s.story.committed
  {
    s := Cutover(FinalSnapshotVerified, None, Database(LEFT, Some(WRITTEN)), Absent,
                 Story(LEFT, LEFT, false, MixedData, true, false, false, false));
    live := Live(Stopped, Absent, true, Some(LEFT), Some(LEFT));
    CutoverIsSafe(s.release.status, None, s.world.db, Absent, s.story);
    hide Inv;
    assert LEFT.bytes != WRITTEN.bytes;
    assert RollbackActions(false, false, true) == [RestartPreviousApplication] + FINISH_PREVIOUS;
    assert PlanFor(s, live).actions == RollbackActions(false, false, true);
  }

  lemma CutoverIsSafe(status: DeploymentState, challenger: Option<Handle>, db: Database, new_: Runtime, story: Story)
    requires (status, challenger, new_) in {(FinalSnapshotVerified, None, Absent), (NewAppHealthy, Some(CHALLENGER), Running)}
    requires story == Story(LEFT, LEFT, false, if challenger.Some? then NewData else MixedData, true, challenger.Some?, false, false)
    ensures Inv(Cutover(status, challenger, db, new_, story))
  {
    var s := Cutover(status, challenger, db, new_, story);
    assert ValidRelease(s.release) && ValidOperation(s.operation);
    hide ValidRelease, ValidOperation;
    assert WorldInv(s) && TrafficInv(s) && DatabaseInv(s) && TerminalInv(s);
  }

  /**
    A late write: the database still equals the backup when it is hashed, but the
    new application runs behind maintenance and writes before it is removed.
  */
  lemma LateWriteIsKept() returns (s: Site, live: Live, t: Site)
    ensures Inv(s) && Reports(live, s) && live == FullReport(s) && s.story.clean && s.world.new_ == Running
    ensures Logical(s.world.db) == s.world.db.main == s.story.committed
    ensures PlanFor(s, live).actions == [RemoveNewApplication, RestartPreviousApplication] + FINISH_PREVIOUS
    ensures Inv(t) && Drift(s, t) && Logical(t.world.db) != t.story.committed
  {
    s := Cutover(NewAppHealthy, Some(CHALLENGER), Database(LEFT, None), Running,
                 Story(LEFT, LEFT, false, NewData, true, true, false, false));
    live := Live(Stopped, Running, true, Some(LEFT), Some(LEFT));
    CutoverIsSafe(s.release.status, Some(CHALLENGER), s.world.db, Running, s.story);
    t := Written(s, Database(WRITTEN, None));
    WritesAreSafe(s, Database(WRITTEN, None));
    hide Inv;
    assert LEFT.bytes != WRITTEN.bytes;
    assert RollbackActions(false, false, true) == [RestartPreviousApplication] + FINISH_PREVIOUS;
    assert PlanFor(s, live).actions == RollbackActions(true, false, true);
  }

  /** A second release that needed recovery before its rehearsal backup. */
  function Unprepared(): Site {
    var serving := FromRelease(1, 4, "v1", 3);
    Site(Manifest(5, 0, "v2", Some(2), RecoveryRequired, Some(4), Some(serving), None, None, None,
                  false, false, false, false, false, 0, 0, Some(0), Some(INTERRUPTED), None, None, None),
         NewOperation(0, true, 0).(status := OperationNeedsRecovery, recoveryRequired := true, failed := true,
                                   completedAt := Some(0)),
         [Event(0, 1, None)], [], Some(Pointers(4, None)),
         World(Database(LEFT, None), serving, None, Running, Absent, OldTarget, false),
         Story(LEFT, LEFT, false, OldData, true, false, false, false))
  }

  lemma UnpreparedIsSafe()
    ensures Inv(Unprepared()) && ValidRelease(Unprepared().release)
  {
    var s := Unprepared();
    assert ValidRelease(s.release) && ValidOperation(s.operation);
    hide ValidRelease, ValidOperation;
    assert WorldInv(s) && TrafficInv(s) && DatabaseInv(s) && TerminalInv(s);
  }

  /**
    A rollback plan can be executable although its mark never will be accepted: the
    release inherited a previous application and needed recovery before its
    rehearsal backup.
  */
  lemma UnmarkableRollbackIsPlanned() returns (s: Site, live: Live)
    ensures Inv(s) && Reports(live, s) && s.release.status == RecoveryRequired
    ensures PlanFor(s, live).actions == FINISH_PREVIOUS
    ensures forall id: nat, clock: nat :: Apply(s.release, DoResolve(RolledBack, id, false, clock)).Err?
  {
    s, live := Unprepared(), Live(Running, Absent, false, None, None);
    UnpreparedIsSafe();
    forall id: nat, clock: nat ensures Apply(s.release, DoResolve(RolledBack, id, false, clock)).Err? {
      ResolutionAcceptedExactly(s.release, id, clock);
    }
    hide Inv, Apply;
    assert PlanFor(s, live).actions == RollbackActions(false, false, false);
  }

  // ---- interruption and repetition ----

  function AllPerformed(s: Site, actions: seq<RecoveryAction>): Site
    decreases |actions|
  {
    if actions == [] then s else AllPerformed(Performed(s, actions[0]), actions[1..])
  }

  /**
    Which crash sites a recovery that learns everything resolves by itself. It
    completes the new release exactly when its exposure is proven, and rolls back
    exactly when exposure is ruled out beyond the candidate stage, the applications
    are recorded, and a changed database has its final backup and no running writer
    that changed it since. Every other site at work is left to a person.
  */
  lemma ResolvedAutomaticallyExactly(s: Site)
    requires Inv(s)
    ensures var atRest := AtRest(s);
            var conclusion := ActivationConclusion(s.release, s.events);
            var disposition := PlanFor(s, FullReport(s)).disposition;
            && (disposition == NoAction <==> atRest)
            && (disposition == CompleteNew <==> !atRest && conclusion == ActivationSucceeded)
            && (disposition == CompleteNew ==> s.story.exposed && s.world.new_ == Running)
            && (disposition == RecoverPrevious <==>
                  && !atRest && conclusion in {NotAttempted, NotStarted} && !s.release.status.Early()
                  && s.release.previousApplication.Some? && (s.world.new_ != Absent ==> s.release.newApplication.Some?)
                  && (MayHaveChanged(s.operation, s.release) ==>
                        && s.release.finalBackup.Some?
                        && (s.world.previous == Stopped || DigestMatches(s.world.db, s.release.finalBackup))))
            && (disposition == RecoverPrevious ==> !s.story.exposed)
  {
    DispositionsAreExact(s.operation, s.events, s.release, FullReport(s));
    hide BuildRecoveryPlan;
    assert Paired(s.operation, s.events, s.release) && WorldInv(s) && TrafficInv(s);
    assert ValidRelease(s.release);
  }

  /** Nothing but the records and the live facts of a rollback decide what a full diagnosis sees. */
  predicate Reportable(s: Site) {
    && s.release.previousApplication.Some? && s.world.previous in {Running, Stopped}
    && (s.release.newApplication.Some? || s.world.new_ == Absent)
  }

  lemma PerformedStaysReady(todo: seq<RecoveryAction>, s: Site)
    requires todo != [] && Ordered(todo) && Ready(true, false, todo, s) && Reportable(s)
    ensures var t := Performed(s, todo[0]);
            && Ready(true, false, todo[1..], t) && Reportable(t)
            && FullReport(t) == AfterAction(FullReport(s), todo[0])
            && t.release == s.release && t.operation == s.operation && t.events == s.events
  {
    HeadLeaves(todo);
    assert todo[0] in todo;
  }

  lemma {:induction false} ReportFollowsPlan(todo: seq<RecoveryAction>, s: Site, k: nat)
    requires Ordered(todo) && Ready(true, false, todo, s) && Reportable(s) && k <= |todo|
    ensures FullReport(AllPerformed(s, todo[..k])) == After(FullReport(s), todo, k)
    ensures AllPerformed(s, todo[..k]).release == s.release
    decreases k
  {
    if k == 0 {
      assert todo[..0] == [];
    } else {
      PerformedStaysReady(todo, s);
      HeadLeaves(todo);
      ReportFollowsPlan(todo[1..], Performed(s, todo[0]), k - 1);
      assert todo[..k][0] == todo[0] && todo[..k][1..] == todo[1..][..k - 1];
    }
  }

  lemma {:induction false} PerformedInParts(s: Site, first: seq<RecoveryAction>, rest: seq<RecoveryAction>)
    ensures AllPerformed(s, first + rest) == AllPerformed(AllPerformed(s, first), rest)
    decreases |first|
  {
    if first == [] {
      assert first + rest == rest;
    } else {
      assert (first + rest)[1..] == first[1..] + rest;
      PerformedInParts(Performed(s, first[0]), first[1..], rest);
    }
  }

  /** The records a recovery rewrites do not change what its actions do. */
  lemma {:induction false} RecordsDoNotMatter(s: Site, t: Site, actions: seq<RecoveryAction>)
    requires s.world == t.world && s.story == t.story && s.release.finalBackup == t.release.finalBackup
    ensures AllPerformed(s, actions).world == AllPerformed(t, actions).world
    ensures AllPerformed(s, actions).story == AllPerformed(t, actions).story
    decreases |actions|
  {
    if actions == [] {
    } else {
      PerformedAlike(s, t, actions[0]);
      hide Performed;
      RecordsDoNotMatter(Performed(s, actions[0]), Performed(t, actions[0]), actions[1..]);
    }
  }

  lemma PerformedAlike(s: Site, t: Site, action: RecoveryAction)
    requires s.world == t.world && s.story == t.story && s.release.finalBackup == t.release.finalBackup
    ensures Performed(s, action).world == Performed(t, action).world
    ensures Performed(s, action).story == Performed(t, action).story
    ensures Performed(s, action).release == s.release && Performed(t, action).release == t.release
  {
  }

  /** Confirming the target, lifting maintenance and verifying can be repeated from any point. */
  lemma FinishIsIdempotent(s: Site, j: nat)
    requires j < |FINISH_PREVIOUS|
    ensures AllPerformed(AllPerformed(s, FINISH_PREVIOUS[..j]), FINISH_PREVIOUS) == AllPerformed(s, FINISH_PREVIOUS)
  {
    FinishUnfolds(s);
    var a := Routed(s);
    if j == 0 {
      assert FINISH_PREVIOUS[..0] == [];
    } else if j == 1 {
      assert FINISH_PREVIOUS[..1] == [ActivatePreviousTraffic];
      FinishUnfolds(a);
    } else if j == 2 {
      assert FINISH_PREVIOUS[..2] == [ActivatePreviousTraffic] + [DisableMaintenance];
      PerformedInParts(s, [ActivatePreviousTraffic], [DisableMaintenance]);
      FinishUnfolds(Maintained(a, false));
    } else {
      assert FINISH_PREVIOUS[..3] == [ActivatePreviousTraffic] + ([DisableMaintenance] + [VerifyPrevious]);
      PerformedInParts(s, [ActivatePreviousTraffic], [DisableMaintenance] + [VerifyPrevious]);
      PerformedInParts(a, [DisableMaintenance], [VerifyPrevious]);
      FinishUnfolds(Passed(Maintained(a, false)));
    }
  }

  lemma FinishUnfolds(s: Site)
    ensures AllPerformed(s, FINISH_PREVIOUS) == Passed(Maintained(Routed(s), false))
  {
    assert FINISH_PREVIOUS[1..] == [DisableMaintenance, VerifyPrevious, MarkRolledBack];
    assert [DisableMaintenance, VerifyPrevious, MarkRolledBack][1..] == [VerifyPrevious, MarkRolledBack];
    assert [VerifyPrevious, MarkRolledBack][1..] == [MarkRolledBack];
    assert [MarkRolledBack][1..] == [];
  }

  /** Doing the observable rest, or the whole finish again, ends where the uninterrupted plan ends. */
  lemma RepeatingEndsTheSame(s: Site, a: seq<RecoveryAction>, k: nat)
    requires |a| >= 4 && a[|a| - 4..] == FINISH_PREVIOUS && k < |a|
    ensures AllPerformed(AllPerformed(s, a[..k]), a[Min(k, Observable(a))..]) == AllPerformed(s, a)
  {
    var m := Observable(a);
    if k <= m {
      assert a == a[..k] + a[k..];
      PerformedInParts(s, a[..k], a[k..]);
    } else {
      assert a[..k] == a[..m] + FINISH_PREVIOUS[..k - m] by {
        assert a[..k] == a[..m] + a[m..][..k - m];
      }
      assert a == a[..m] + FINISH_PREVIOUS;
      PerformedInParts(s, a[..m], FINISH_PREVIOUS[..k - m]);
      PerformedInParts(s, a[..m], FINISH_PREVIOUS);
      FinishIsIdempotent(AllPerformed(s, a[..m]), k - m);
    }
  }

  /** The next diagnosis of an interrupted rollback plans exactly what was not completed. */
  lemma InterruptedRollbackIsReplanned(
      s: Site, k: nat, operation': Operation, events': seq<Event>, release': Manifest)
    requires Inv(s) && PlanFor(s, FullReport(s)).disposition == RecoverPrevious
    requires k < |PlanFor(s, FullReport(s)).actions|
    requires Owned(s.operation, s.events, s.release, PlanFor(s, FullReport(s)), operation', events', release')
    ensures var plan := PlanFor(s, FullReport(s));
            var t := AllPerformed(s, plan.actions[..k]).(operation := operation', events := events', release := release');
            && |plan.actions| >= 4 && plan.actions[|plan.actions| - 4..] == FINISH_PREVIOUS
            && PlanFor(t, FullReport(t)) == plan.(actions := plan.actions[Min(k, Observable(plan.actions))..])
  {
    var plan := PlanFor(s, FullReport(s));
    RollbackIsReportable(s);
    hide BuildRecoveryPlan, Owned, Ordered, AllPerformed, Inv, After, Ready, Reportable;
    ReportFollowsPlan(plan.actions, s, k);
    ReplanDropsExactlyWhatIsDone(s.operation, s.events, s.release, FullReport(s), k, operation', events', release');
    var done := AllPerformed(s, plan.actions[..k]);
    OwnedKeepsHandles(s, plan, operation', events', release');
    assert FullReport(done.(operation := operation', events := events', release := release')) == FullReport(done);
  }

  lemma RollbackIsReportable(s: Site)
    requires Inv(s) && PlanFor(s, FullReport(s)).disposition == RecoverPrevious
    ensures var a := PlanFor(s, FullReport(s)).actions;
            && Ordered(a) && Ready(true, false, a, s) && Reportable(s) && Observed(FullReport(s))
            && |a| >= 4 && a[|a| - 4..] == FINISH_PREVIOUS
  {
    var live := FullReport(s);
    assert Reports(live, s) && Reportable(s) && Observed(live) by { ResolvedAutomaticallyExactly(s); }
    hide Inv, BuildRecoveryPlan, FullReport, Reports, Reportable, Observed, Ordered, Ready;
    PlanIsReady(s, live);
    RollbackPlanned(s.operation, s.events, s.release, live);
    var remove, restore, restart := RollbackFlags(MayHaveChanged(s.operation, s.release), s.release, live);
    RollbackShape(remove, restore, restart);
    LooserReady(RestartsExactly(s, PlanFor(s, live)), PlanFor(s, live).actions, s);
  }

  /**
    Crash idempotence over the whole world: interrupt a rollback after any prefix of
    its actions, diagnose again, and the next plan is exactly what was not completed;
    carrying it out ends in the same database, applications, traffic target and
    maintenance as the uninterrupted recovery.
  */
  lemma InterruptedRecoveryConverges(
      s: Site, k: nat, operation': Operation, events': seq<Event>, release': Manifest)
    requires Inv(s) && PlanFor(s, FullReport(s)).disposition == RecoverPrevious
    requires k < |PlanFor(s, FullReport(s)).actions|
    requires Owned(s.operation, s.events, s.release, PlanFor(s, FullReport(s)), operation', events', release')
    ensures var plan := PlanFor(s, FullReport(s));
            && |plan.actions| >= 4
            && var rest := plan.actions[Min(k, Observable(plan.actions))..];
               var t := AllPerformed(s, plan.actions[..k]).(operation := operation', events := events', release := release');
               && PlanFor(t, FullReport(t)) == plan.(actions := rest)
               && AllPerformed(t, rest).world == AllPerformed(s, plan.actions).world
               && AllPerformed(t, rest).story == AllPerformed(s, plan.actions).story
  {
    var plan := PlanFor(s, FullReport(s));
    hide BuildRecoveryPlan, Owned, Ordered, AllPerformed, Inv, Ready;
    InterruptedRollbackIsReplanned(s, k, operation', events', release');
    RollbackIsReportable(s);
    hide FullReport, Reportable, PlanFor;
    ReportFollowsPlan(plan.actions, s, k);
    OwnedKeepsHandles(s, plan, operation', events', release');
    var done := AllPerformed(s, plan.actions[..k]);
    RepeatingEndsTheSame(s, plan.actions, k);
    RecordsDoNotMatter(
      done.(operation := operation', events := events', release := release'), done,
      plan.actions[Min(k, Observable(plan.actions))..]);
  }

  lemma LooserReady(exact: bool, todo: seq<RecoveryAction>, s: Site)
    requires Ready(true, exact, todo, s)
    ensures Ready(true, false, todo, s)
  {
  }

  lemma OwnedKeepsHandles(s: Site, plan: RecoveryPlan, operation': Operation, events': seq<Event>, release': Manifest)
    requires Owned(s.operation, s.events, s.release, plan, operation', events', release')
    ensures release'.previousApplication == s.release.previousApplication
    ensures release'.newApplication == s.release.newApplication && release'.finalBackup == s.release.finalBackup
  {
  }
}
