/**
  Everything that outlives the deploying process: its durable records, the
  production world they describe, and (for the proofs only) the history that
  decides whether an outcome was safe.
*/
module Sites {
  import opened Basics
  import opened Commands
  import opened Databases
  import opened Releases
  import opened Operations
  import opened RecoveryPlanning

  datatype Target = OldTarget | NewTarget

  /** `incumbent` served when the deployment began; `challenger` is the container it started, if any. */
  datatype World = World(
    db: Database,
    incumbent: Handle,
    challenger: Option<Handle>,
    previous: Runtime,
    new_: Runtime,
    target: Target,
    maintenance: bool)

  /** Whose data the database holds: the incumbent's, the checked migration's, or neither. */
  datatype Lineage = OldData | NewData | MixedData

  /**
    History. `committed` is the content the last acknowledged write left behind,
    and `left` the one the incumbent last left; `exposed` says the activate-new hook
    may have run; `clean` that every start of the incumbent found exactly what it had
    left; `healthy` that the running challenger passed its checks; `verified` that
    the application traffic reaches did, with traffic open, since maintenance was last
    enabled; `confirmed` that the hook back to the old target passed.
  */
  datatype Story = Story(
    committed: Content,
    left: Content,
    exposed: bool,
    lineage: Lineage,
    clean: bool,
    healthy: bool,
    verified: bool,
    confirmed: bool)

  datatype Site = Site(
    release: Manifest,
    operation: Operation,
    events: seq<Event>,
    recoveries: seq<Operation>,
    pointers: Option<Pointers>,
    world: World,
    story: Story)

  /** The old writer is down and nothing has been exposed: the only time a database is replaced. */
  predicate Offline(s: Site) {
    s.world.previous == Stopped && !s.story.exposed
  }

  predicate DigestMatches(db: Database, final: Option<BackupRef>) {
    final.Some? && db.main == final.value.sha
  }

  /** The pointers select this release. */
  predicate Selected(release: Manifest, pointers: Option<Pointers>) {
    pointers.Some? && pointers.value.active == release.releaseId
  }

  predicate Requested(m: Manifest, handle: Handle) {
    && handle.FromRelease? && handle.release == m.releaseId
    && handle.version == m.requestedVersion && handle.operation == m.operationId
  }

  // ---- the invariant ----

  /** Operation, events and release describe one deploy. */
  predicate Paired(operation: Operation, events: seq<Event>, release: Manifest) {
    && release.protocolVersion == Some(2)
    && !IdentityProblem(operation, events, release)
  }

  /** Every manifest passes its validator. */
  predicate RecordsValid(release: Manifest, operation: Operation, recoveries: seq<Operation>) {
    && ValidRelease(release) && ValidOperation(operation)
    && forall i :: 0 <= i < |recoveries| ==> ValidOperation(recoveries[i])
  }

  /** A closed operation never contradicts its release, nor a successful recovery its resolution. */
  predicate RecordsAgree(
      release: Manifest, operation: Operation, recoveries: seq<Operation>, pointers: Option<Pointers>)
  {
    && (operation.status == OperationSucceeded ==> release.status == Active && Selected(release, pointers))
    && (operation.status == OperationFailedSafe ==> release.status in {RolledBack, FailedSafe})
    && (forall i :: 0 <= i < |recoveries| ==>
          && recoveries[i].status != OperationFailedSafe
          && (recoveries[i].status == OperationSucceeded ==>
                release.recoveryOperation == Some(i) && (release.status == Active ==> Selected(release, pointers))))
  }

  /** The pointers are those the release was created under, until an active release is selected. */
  predicate PointersInv(release: Manifest, pointers: Option<Pointers>) {
    && release.previousReleaseId != Some(release.releaseId)
    && if Selected(release, pointers)
       then release.status == Active && pointers.value.previous == release.previousReleaseId
       else release.previousReleaseId == if pointers.Some? then Some(pointers.value.active) else None
  }

  /** The recorded handles are exactly the containers of this machine. */
  predicate IdentityInv(release: Manifest, world: World) {
    && (release.previousApplication.Some? ==> release.previousApplication.value == world.incumbent)
    && (release.previousReleaseId.Some? ==> release.previousApplication.Some?)
    && (release.previousReleaseId == None ==> world.incumbent.Bootstrap?)
    && (release.newApplication.Some? ==> release.newApplication == world.challenger)
    && (world.challenger.Some? ==> Requested(release, world.challenger.value))
    && (world.new_ != Absent ==> world.challenger.Some?)
  }

  /** What the applications, traffic and maintenance may look like. */
  predicate WorldInv(s: Site) {
    && s.world.previous in {Running, Stopped}
    && s.world.new_ in {Running, Stopped, Absent}
    && (s.world.previous == Running ==> s.world.new_ == Absent)
    && (s.story.exposed ==> s.world.previous == Stopped && s.world.new_ == Running)
    && (!s.story.exposed ==> s.world.target == OldTarget)
    && (Offline(s) ==> s.world.maintenance)
    && (s.story.exposed && !s.world.maintenance ==> s.world.target == NewTarget)
    && (s.world.maintenance ==> !s.story.verified)
  }

  /** Durable evidence never understates what has happened to traffic. */
  predicate TrafficInv(s: Site) {
    var conclusion := ActivationConclusion(s.release, s.events);
    && (s.story.exposed ==> s.release.trafficAttempted && conclusion in {ActivationSucceeded, Uncertain})
    && (conclusion == ActivationSucceeded ==> s.story.exposed && s.world.target == NewTarget)
    && (s.release.healthPassed ==> s.story.healthy)
    && (s.release.trafficAttempted || LastActivation(s.events) == None)
    && (s.release.trafficAttempted ==> s.release.rehearsalBackup.Some? && s.release.previousApplication.Some?)
  }

  /** Durable evidence never understates what has happened to the database. */
  predicate DatabaseInv(s: Site) {
    && (!MayHaveChanged(s.operation, s.release) ==> Logical(s.world.db) == s.story.committed)
    && (s.story.lineage == NewData ==> s.release.migrationStarted)
    && (s.world.new_ != Absent ==> s.story.lineage == NewData)
    && (s.story.exposed ==> Logical(s.world.db) == s.story.committed)
    && (!s.story.exposed ==> s.story.committed == s.story.left)
    && (s.world.previous == Running && s.story.clean ==>
          Logical(s.world.db) == s.story.committed && s.story.lineage == OldData)
    && (s.release.finalBackup.Some? && s.world.previous == Stopped ==>
          s.release.finalBackup.value.sha == s.story.left)
    && (s.release.finalBackup == None && Offline(s) ==> Logical(s.world.db) == s.story.committed)
    && (s.release.status.Early() ==> s.release.finalBackup == None && s.story.clean)
  }

  /** What a terminal release status promises about the world. */
  predicate TerminalInv(s: Site) {
    && (s.release.status == RolledBack ==>
          && s.world.previous == Running && !s.world.maintenance && !s.story.exposed
          && s.story.verified && s.story.confirmed)
    && (s.release.status == FailedSafe ==>
          s.world.previous == Running && !s.world.maintenance && !s.release.migrationStarted)
    && (s.release.status == Active ==> s.story.exposed && !s.world.maintenance)
    && (s.release.status == Active && s.release.recoveryOperation.Some? ==> s.story.verified)
  }

  /** The invariant of every reachable site. */
  predicate Inv(s: Site) {
    && RecordsValid(s.release, s.operation, s.recoveries) && Paired(s.operation, s.events, s.release)
    && RecordsAgree(s.release, s.operation, s.recoveries, s.pointers)
    && PointersInv(s.release, s.pointers) && IdentityInv(s.release, s.world)
    && WorldInv(s) && TrafficInv(s) && DatabaseInv(s) && TerminalInv(s)
  }

  // ---- where a deployment opens ----

  /** A manifest as `create_release` leaves it. */
  predicate JustCreated(m: Manifest) {
    && ValidRelease(m) && m.status == Created && m.protocolVersion == Some(2)
    && m.rehearsalBackup == None && m.finalBackup == None && m.newApplication == None
    && !m.migrationStarted && !m.trafficAttempted && !m.productionChanged && !m.healthPassed
  }

  /** The release inherits what the pointers select, and that is the application that serves. */
  predicate Inherits(m: Manifest, pointers: Option<Pointers>, serving: Handle) {
    && m.previousReleaseId == (if pointers.Some? then Some(pointers.value.active) else None)
    && m.previousReleaseId != Some(m.releaseId)
    && (if pointers.Some? then m.previousApplication == Some(serving)
        else m.previousApplication == None && serving.Bootstrap?)
  }

  /** A release just created while `serving` serves `db`. */
  function Opening(release: Manifest, pointers: Option<Pointers>, serving: Handle, db: Database, now: nat): Site {
    Site(release, NewOperation(release.operationId, true, now), [Event(release.operationId, 1, None)], [], pointers,
         World(db, serving, None, Running, Absent, OldTarget, false),
         Story(Logical(db), Logical(db), false, OldData, true, false, false, false))
  }

  predicate Initial(s: Site) {
    && JustCreated(s.release) && Inherits(s.release, s.pointers, s.world.incumbent)
    && s == Opening(s.release, s.pointers, s.world.incumbent, s.world.db, s.operation.startedAt)
  }

  lemma InitialIsSafe(s: Site)
    requires Initial(s)
    ensures Inv(s)
  {
    assert TrafficInv(s) && DatabaseInv(s) && TerminalInv(s);
  }

  // ---- what every reachable site promises ----

  /** The newest operation: the deployment, or the last recovery of it. */
  function Latest(s: Site): Operation {
    if s.recoveries == [] then s.operation else s.recoveries[|s.recoveries| - 1]
  }

  /** No record blocks a new command. */
  predicate Settled(s: Site) {
    Latest(s).status in {OperationSucceeded, OperationFailedSafe}
  }

  /** The application traffic reaches. */
  function Serving(s: Site): Handle {
    if s.world.target == NewTarget && s.world.challenger.Some? then s.world.challenger.value else s.world.incumbent
  }

  /** The application `create_release` would inherit now. */
  function Inherited(s: Site): Option<Handle> {
    if Selected(s.release, s.pointers) then s.release.newApplication
    else if s.pointers.Some? then s.release.previousApplication
    else None
  }

  /**
    Whenever traffic is open exactly one application runs, it is the one traffic
    reaches, and unless the incumbent was restarted inexactly the database holds
    its data.
  */
  lemma OpenTrafficReachesItsOwnData(s: Site)
    requires Inv(s) && !s.world.maintenance
    ensures if s.story.exposed
            then && s.world.challenger == Some(Serving(s)) && s.world.new_ == Running && s.world.previous == Stopped
                 && s.story.lineage == NewData
            else && s.world.incumbent == Serving(s) && s.world.previous == Running && s.world.new_ == Absent
                 && (s.story.clean ==> s.story.lineage == OldData)
    ensures s.story.exposed || s.story.clean ==> Logical(s.world.db) == s.story.committed
  {
  }

  /**
    The next release would inherit exactly the serving application, or discover it
    when there was none to inherit, unless the exposed release is not yet selected
    by the pointers.
  */
  lemma InheritedServesExactly(s: Site)
    requires Inv(s) && !s.world.maintenance
    ensures s.pointers == None ==> Inherited(s) == None
    ensures (Inherited(s) == Some(Serving(s)) || (Inherited(s) == None && Serving(s).Bootstrap?))
            <==> (s.story.exposed ==> Selected(s.release, s.pointers))
  {
  }

  /** Once no record blocks a new command, traffic is open to the application the next release inherits. */
  lemma SettledOpensTheNext(s: Site)
    requires Inv(s) && Settled(s)
    ensures s.release.status in {Active, RolledBack, FailedSafe}
    ensures !s.world.maintenance && (s.story.exposed <==> s.release.status == Active)
    ensures s.story.exposed ==> Selected(s.release, s.pointers)
    ensures s.pointers.Some? ==> Inherited(s) == Some(Serving(s))
    ensures s.pointers == None ==> Serving(s).Bootstrap?
  {
  }

  /**
    Conservation of acknowledged writes: at every reachable site the last
    acknowledged content is in the production database, or both applications are
    behind the block and it is in the final backup.
  */
  lemma AcknowledgedWritesSurvive(s: Site)
    requires Inv(s) && s.story.clean
    ensures || Logical(s.world.db) == s.story.committed
            || (Offline(s) && s.release.finalBackup.Some? && s.release.finalBackup.value.sha == s.story.committed)
  {
  }

  // ---- what diagnosis may report, and what that authorizes ----

  /** Diagnosis either learns the exact live state or reports that it could not. */
  predicate Reports(live: Live, s: Site) {
    && live.previous in {Unknown, s.world.previous}
    && live.new_ in {Unknown, s.world.new_}
    && (s.release.previousApplication == None ==> live.previous == Unknown)
    && (s.release.newApplication == None ==> live.new_ in {Unknown, Absent})
    && (live.finalVerified ==>
          s.release.finalBackup.Some? && live.finalSha == Some(s.release.finalBackup.value.sha))
    && (live.productionSha.Some? ==> live.productionSha.value == s.world.db.main)
  }

  /** A diagnosis that learns everything it can. */
  function FullReport(s: Site): Live {
    var final := if s.release.finalBackup.Some? then Some(s.release.finalBackup.value.sha) else None;
    Live(if s.release.previousApplication.Some? then s.world.previous else Unknown,
         if s.release.newApplication.Some? || s.world.new_ == Absent then s.world.new_ else Unknown,
         final.Some?, Some(s.world.db.main), final)
  }

  function PlanFor(s: Site, live: Live): RecoveryPlan {
    BuildRecoveryPlan(s.operation, s.events, s.release, live)
  }

  /** Once the new application may have been exposed, no diagnosis ever plans its rollback. */
  lemma ExposedReleaseIsNeverRolledBack(s: Site, live: Live)
    requires Inv(s) && s.story.exposed
    ensures PlanFor(s, live).disposition != RecoverPrevious
    ensures RestoreFinalBackup !in PlanFor(s, live).actions
  {
  }

  /** A terminal release whose operation is closed, or which a recovery resolved. */
  predicate AtRest(s: Site) {
    && s.release.status in {Active, RolledBack, FailedSafe}
    && (s.operation.status != InProgress || s.release.recoveryOperation.Some?)
  }

  /**
    What a plan tells the operator, executable or not. A site whose new application
    may be exposed is always reported as changed, possibly switched, and not to be
    restored; a plan that denies a production change at a site still at work finds
    exactly the acknowledged content in production.
  */
  lemma PlanTellsTheTruth(s: Site, live: Live)
    requires Inv(s)
    ensures var plan := PlanFor(s, live);
            && (s.story.exposed ==> plan.trafficMayHaveSwitched && plan.productionMayHaveChanged && !plan.restoreAllowed)
            && (!plan.productionMayHaveChanged && !AtRest(s) ==> Logical(s.world.db) == s.story.committed)
            && (!plan.productionMayHaveChanged ==> !s.story.exposed)
  {
  }

  /** Each flag of a plan, exactly. */
  lemma PlanFlagsAreExact(s: Site, live: Live)
    requires Inv(s)
    ensures var plan, uncertain := PlanFor(s, live), ActivationConclusion(s.release, s.events) in {ActivationSucceeded, Uncertain};
            && (plan.trafficMayHaveSwitched <==> if AtRest(s) then s.release.status == Active else uncertain)
            && (plan.restoreAllowed <==>
                  if AtRest(s) then s.release.status != Active else plan.disposition == RecoverPrevious)
            && (plan.productionMayHaveChanged <==>
                  if AtRest(s) then s.release.productionChanged
                  else uncertain || (!s.release.status.Early() && MayHaveChanged(s.operation, s.release)))
  {
  }

  /**
    Whenever a plan restores the final backup, nothing is running on the database
    once the planned removal is done, normal traffic is blocked, and the backup
    holds exactly the last acknowledged content.
  */
  lemma PlannedRestoreLosesNothing(s: Site, live: Live)
    requires Inv(s) && Reports(live, s) && RestoreFinalBackup in PlanFor(s, live).actions
    ensures Offline(s) && s.world.maintenance && s.world.target == OldTarget
    ensures s.release.finalBackup.Some? && s.release.finalBackup.value.sha == s.story.committed
    ensures s.world.new_ == Absent || RemoveNewApplication in PlanFor(s, live).actions
  {
    RestoreAuthorizedOnlyWithEvidence(s.operation, s.events, s.release, live);
  }

  /**
    What a caller can check before recovering: the new application is not running,
    and either nothing may have changed or the write-ahead log adds nothing.
  */
  predicate NothingHidden(s: Site) {
    && s.world.new_ != Running
    && (!MayHaveChanged(s.operation, s.release) || Logical(s.world.db) == s.world.db.main)
  }

  /** A plan that skips the restore matched the digest of the main file, which says nothing about the log. */
  lemma SkippedRestoreMatched(s: Site, live: Live)
    requires Inv(s) && Reports(live, s)
    requires PlanFor(s, live).disposition == RecoverPrevious
    requires RestoreFinalBackup !in PlanFor(s, live).actions && live.previous == Stopped
    ensures !MayHaveChanged(s.operation, s.release) || DigestMatches(s.world.db, s.release.finalBackup)
    ensures Offline(s)
    ensures Logical(s.world.db) == s.story.committed
            <==> !MayHaveChanged(s.operation, s.release) || Logical(s.world.db) == s.world.db.main
  {
    RollbackPlanned(s.operation, s.events, s.release, live);
    var remove, restore, restart := RollbackFlags(MayHaveChanged(s.operation, s.release), s.release, live);
    RollbackMembers(remove, restore, restart);
  }
}
