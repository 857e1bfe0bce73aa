/**
  The steps of a site: what each durable write, external action or application
  write makes of it, and that it keeps the invariant where it is allowed.
*/
module Steps {
  import opened Basics
  import opened Databases
  import opened Releases
  import opened Operations
  import opened RecoveryPlanning
  import opened Sites

  // ---- application writes ----

  /** Whoever runs writes `db`; a served writer is acknowledged. */
  function Written(s: Site, db: Database): Site {
    if s.world.previous == Running then
      s.(world := s.world.(db := db), story := s.story.(committed := Logical(db), left := Logical(db)))
    else if s.world.new_ == Running then
      s.(world := s.world.(db := db),
         story := s.story.(committed := if s.story.exposed then Logical(db) else s.story.committed))
    else s
  }

  lemma WritesAreSafe(s: Site, db: Database)
    requires Inv(s)
    ensures Inv(Written(s, db)) && Drift(s, Written(s, db))
  {
    var t := Written(s, db);
    hide ValidRelease, ValidOperation;
    assert WorldInv(t) && TrafficInv(t) && TerminalInv(t);
    assert DatabaseInv(t) by { MigrationHasBackup(s); }
  }

  lemma MigrationHasBackup(s: Site)
    requires Inv(s)
    ensures s.release.migrationStarted ==> s.release.finalBackup.Some?
    ensures s.release.trafficAttempted ==> s.release.newApplication.Some?
  {
  }

  /** What application writes may change between two steps. */
  predicate Drift(before: Site, after: Site) {
    && after.release == before.release && after.operation == before.operation && after.events == before.events
    && after.recoveries == before.recoveries && after.pointers == before.pointers
    && OnlyAppsWrote(before, after)
  }

  lemma DriftsNot(s: Site)
    ensures Drift(s, s)
  {
  }

  lemma DriftKeeps(s: Site, t: Site)
    requires Drift(s, t)
    ensures t.world == s.world.(db := t.world.db) && t.story == s.story.(committed := t.story.committed, left := t.story.left)
    ensures t.release == s.release && t.pointers == s.pointers
  {
  }

  lemma DriftIsSilent(s: Site, t: Site)
    requires Drift(s, t) && s.world.previous != Running && !s.story.exposed
    ensures t.story == s.story
  {
  }

  /** Whatever was recorded meanwhile, beyond that only applications acted. */
  predicate OnlyAppsWrote(before: Site, after: Site) {
    Aged(before.world, before.story, after.world, after.story)
  }

  predicate Aged(w: World, s: Story, w': World, s': Story) {
    && w' == w.(db := w'.db)
    && s' == s.(committed := s'.committed, left := s'.left)
    && (w.previous != Running && w.new_ != Running ==> w'.db == w.db)
    && (w.previous != Running ==> s'.left == s.left)
    && (w.previous != Running && !s.exposed ==> s'.committed == s.committed)
  }

  lemma AgesTwice(w: World, s: Story, w': World, s': Story, w'': World, s'': Story)
    requires Aged(w, s, w', s') && Aged(w', s', w'', s'')
    ensures Aged(w, s, w'', s'')
  {
  }

  lemma AgesNot(w: World, s: Story)
    ensures Aged(w, s, w, s)
  {
  }

  // ---- traffic ----

  function Maintained(s: Site, on: bool): Site {
    s.(world := s.world.(maintenance := on), story := s.story.(verified := s.story.verified && !on))
  }

  lemma MaintenanceKeeps(s: Site, t: Site, on: bool)
    ensures Drift(s, t) || Drift(Maintained(s, on), t) ==>
              && t.world == s.world.(db := t.world.db, maintenance := t.world.maintenance)
              && t.story == s.story.(committed := t.story.committed, left := t.story.left, verified := t.story.verified)
              && t.release == s.release && t.operation == s.operation && t.events == s.events
    ensures Drift(Maintained(s, on), t) ==> t.world.maintenance == on
  {
  }

  lemma MaintenanceIsSafe(s: Site, on: bool)
    requires Inv(s)
    requires if on then !s.release.status.Terminal()
             else s.world.previous == Running || (s.story.exposed && s.world.target == NewTarget)
    ensures Inv(Maintained(s, on))
  {
    hide ValidRelease, ValidOperation;
    var t := Maintained(s, on);
    assert WorldInv(t) && TrafficInv(t) && DatabaseInv(t) && TerminalInv(t);
  }

  /** The activate-new hook started; `effect` says whether it moved the target. */
  function Exposed(s: Site, effect: bool): Site {
    s.(world := s.world.(target := if effect then NewTarget else s.world.target),
       story := s.story.(exposed := true, committed := Logical(s.world.db)))
  }

  lemma ExposureIsSafe(s: Site, effect: bool)
    requires Inv(s) && !s.release.status.Terminal() && Offline(s) && s.world.new_ == Running
    requires s.release.trafficAttempted && LastActivation(s.events) == None && !s.release.trafficActivated
    ensures Inv(Exposed(s, effect))
  {
    hide ValidRelease, ValidOperation;
    var t := Exposed(s, effect);
    assert WorldInv(t) && TrafficInv(t) && DatabaseInv(t) && TerminalInv(t);
  }

  // ---- applications ----

  function Halted(s: Site): Site {
    s.(world := s.world.(previous := Stopped))
  }

  lemma HaltIsSafe(s: Site)
    requires Inv(s) && !s.release.status.Terminal() && !MayHaveChanged(s.operation, s.release)
    requires s.world.maintenance && !s.story.exposed && s.release.finalBackup == None
    ensures Inv(Halted(s))
  {
    hide ValidRelease, ValidOperation;
    var t := Halted(s);
    assert WorldInv(t) && TrafficInv(t) && DatabaseInv(t) && TerminalInv(t);
  }

  /** The new container is created, and reaches `state`. */
  function Launched(s: Site, handle: Handle, state: Runtime): Site {
    s.(world := s.world.(challenger := Some(handle), new_ := state))
  }

  lemma LaunchIsSafe(s: Site, handle: Handle, state: Runtime)
    requires Inv(s) && !s.release.status.Terminal() && Offline(s)
    requires s.world.new_ == Absent && s.release.newApplication == None && s.story.lineage == NewData
    requires Requested(s.release, handle) && state in {Running, Stopped, Absent}
    ensures Inv(Launched(s, handle, state))
  {
    hide ValidRelease, ValidOperation;
    var t := Launched(s, handle, state);
    assert WorldInv(t) && TrafficInv(t) && DatabaseInv(t) && TerminalInv(t);
  }

  function Removed(s: Site, state: Runtime): Site {
    s.(world := s.world.(new_ := state))
  }

  lemma RemovalIsSafe(s: Site, state: Runtime)
    requires Inv(s) && !s.story.exposed
    requires state == s.world.new_ || (s.world.new_ != Absent && state in {Stopped, Absent})
    ensures Inv(Removed(s, state))
  {
    hide ValidRelease, ValidOperation;
    var t := Removed(s, state);
    assert WorldInv(t) && TrafficInv(t) && DatabaseInv(t) && TerminalInv(t);
  }

  /** The incumbent runs again; `clean` remembers whether it found exactly what it had left. */
  function BackUp(s: Site): Site {
    var exact := Logical(s.world.db) == s.story.committed;
    s.(world := s.world.(previous := Running),
       story := s.story.(clean := s.story.clean && exact, lineage := if exact then OldData else s.story.lineage))
  }

  lemma RuntimeKnown(s: Site)
    requires Inv(s)
    ensures s.world.previous in {Running, Stopped}
  {
  }

  lemma RestartIsSafe(s: Site)
    requires Inv(s) && !s.story.exposed && s.world.previous == Stopped && s.world.new_ == Absent
    requires !s.release.status.Early()
    ensures Inv(BackUp(s))
  {
    hide ValidRelease, ValidOperation;
    var t := BackUp(s);
    assert WorldInv(t) && TrafficInv(t) && DatabaseInv(t) && TerminalInv(t);
  }

  // ---- the database ----

  /** The migration command ran; only a checked result belongs to the new release. */
  function Migrated(s: Site, db: Database, checked: bool): Site {
    s.(world := s.world.(db := db), story := s.story.(lineage := if checked then NewData else MixedData))
  }

  lemma MigrationIsSafe(s: Site, db: Database, checked: bool)
    requires Inv(s) && Offline(s) && s.world.new_ == Absent && s.release.migrationStarted
    ensures Inv(Migrated(s, db, checked))
  {
    MigrationHasBackup(s);
    hide ValidRelease, ValidOperation;
    var t := Migrated(s, db, checked);
    assert WorldInv(t) && TrafficInv(t) && DatabaseInv(t) && TerminalInv(t);
  }

  /** A restore left `db`; exactly the backup is the incumbent's data again. */
  function Replaced(s: Site, db: Database): Site
    requires s.release.finalBackup.Some?
  {
    s.(world := s.world.(db := db),
       story := s.story.(lineage := if db == Database(s.release.finalBackup.value.sha, None) then OldData
                                    else if db == s.world.db then s.story.lineage else MixedData))
  }

  lemma ReplacementIsSafe(s: Site, db: Database)
    requires Inv(s) && Offline(s) && s.world.new_ == Absent && s.release.finalBackup.Some?
    requires MayHaveChanged(s.operation, s.release)
    ensures Inv(Replaced(s, db))
  {
    hide ValidRelease, ValidOperation;
    var t := Replaced(s, db);
    assert WorldInv(t) && TrafficInv(t) && DatabaseInv(t) && TerminalInv(t);
  }

  // ---- checks and pointers ----

  /** Passing checks prove the running new application, and with traffic open the one it reaches. */
  function Passed(s: Site): Site {
    s.(story := s.story.(healthy := s.story.healthy || s.world.new_ == Running,
                         verified := s.story.verified
                                     || (!s.world.maintenance && (s.world.previous == Running || s.story.exposed))))
  }

  lemma PassingIsSafe(s: Site)
    requires Inv(s)
    ensures Inv(Passed(s))
  {
    hide ValidRelease, ValidOperation;
    var t := Passed(s);
    assert WorldInv(t) && TrafficInv(t) && DatabaseInv(t) && TerminalInv(t);
  }

  /** The hook back to the old target passed; nothing was routed elsewhere. */
  function Routed(s: Site): Site {
    s.(world := s.world.(target := OldTarget), story := s.story.(confirmed := true))
  }

  lemma RoutingIsSafe(s: Site)
    requires Inv(s) && !s.story.exposed
    ensures Inv(Routed(s))
  {
    hide ValidRelease, ValidOperation;
    var t := Routed(s);
    assert WorldInv(t) && TrafficInv(t) && DatabaseInv(t) && TerminalInv(t);
  }

  /** The pointer file selects this release; the release selected before becomes previous. */
  function Pointed(s: Site): Site {
    if Selected(s.release, s.pointers) then s
    else s.(pointers := Some(Pointers(s.release.releaseId, if s.pointers.Some? then Some(s.pointers.value.active) else None)))
  }

  lemma PointingIsSafe(s: Site)
    requires Inv(s) && s.release.status == Active
    ensures Inv(Pointed(s)) && Selected(s.release, Pointed(s).pointers)
  {
    hide ValidRelease, ValidOperation;
    var t := Pointed(s);
    assert TrafficInv(t);
  }

  // ---- records ----

  function WithOperation(s: Site, next: Operation, hook: Option<HookEvidence>): Site {
    s.(operation := next, events := s.events + [Event(next.id, next.lastSequence, hook)])
  }

  /** A recovery's own record may move as long as it does not outrun its release. */
  lemma RecoveryWriteIsSafe(s: Site, id: nat, call: OperationCall)
    requires Inv(s) && id < |s.recoveries| && ApplyOperation(s.recoveries[id], call).Ok?
    requires ApplyOperation(s.recoveries[id], call).value.status != OperationFailedSafe
    requires ApplyOperation(s.recoveries[id], call).value.status == OperationSucceeded ==>
               s.release.recoveryOperation == Some(id) && (s.release.status == Active ==> Selected(s.release, s.pointers))
    ensures Inv(s.(recoveries := s.recoveries[id := ApplyOperation(s.recoveries[id], call).value]))
  {
    hide ValidRelease;
    var t := s.(recoveries := s.recoveries[id := ApplyOperation(s.recoveries[id], call).value]);
    assert TrafficInv(t) && DatabaseInv(t) && WorldInv(t) && TerminalInv(t);
  }

  lemma NewRecoveryIsSafe(s: Site, now: nat)
    requires Inv(s)
    ensures Inv(s.(recoveries := s.recoveries + [NewOperation(|s.recoveries|, false, now)]))
  {
    hide ValidRelease;
    var t := s.(recoveries := s.recoveries + [NewOperation(|s.recoveries|, false, now)]);
    assert TrafficInv(t) && DatabaseInv(t) && WorldInv(t) && TerminalInv(t);
  }
}
