/** Manual restore of the protected previous release: the preview, the coordinator and its own rollback. */
module ManualRestores {
  import opened Basics
  import opened Commands
  import opened Databases
  import opened Releases
  import opened Operations
  import opened RecoveryPlanning
  import opened Sites

  // ---- the preview ----

  /** What the preview learns about a backup it opened and verified. */
  datatype FoundBackup = FoundBackup(isFinal: bool, operationId: nat, sha: Content)

  datatype Selection = Selection(active: Manifest, selected: Manifest, backup: BackupRef)

  /** The preview's checks, over the release history and the backup it can open. */
  predicate PreviewAccepts(manifests: map<nat, Manifest>, pointers: Option<Pointers>, id: nat, found: Option<FoundBackup>) {
    && pointers.Some? && id in manifests && pointers.value.active in manifests
    && pointers.value.previous == Some(id)
    && var active, selected := manifests[pointers.value.active], manifests[id];
       && active.status == Active && selected.status == Active
       && active.previousReleaseId == Some(selected.releaseId)
       && active.newApplication.Some? && selected.newApplication.Some?
       && active.previousApplication == selected.newApplication
       && active.newApplication.value.container != selected.newApplication.value.container
       && active.finalBackup.Some? && found.Some?
       && found.value == FoundBackup(true, active.operationId, active.finalBackup.value.sha)
  }

  /** Each refusal in its own order; nothing is written. */
  method Preview(store: ReleaseStore, id: nat, found: Option<FoundBackup>) returns (r: Option<Selection>)
    requires store.Valid()
    ensures r.Some? <==> PreviewAccepts(store.manifests, store.pointers, id, found)
    ensures r.Some? ==>
              && r.value.active == store.manifests[store.pointers.value.active]
              && r.value.selected == store.manifests[id]
              && r.value.backup.sha == found.value.sha && Some(r.value.backup) == r.value.active.finalBackup
  {
    r := None;
    if id !in store.manifests { return; }
    var selected := store.manifests[id];
    if store.pointers == None || store.pointers.value.previous == None { return; }
    if store.pointers.value.previous != Some(id) { return; }
    var active := store.manifests[store.pointers.value.active];
    if active.status != Active || selected.status != Active { return; }
    if active.previousReleaseId != Some(selected.releaseId) { return; }
    if active.newApplication == None || selected.newApplication == None { return; }
    if active.previousApplication != selected.newApplication { return; }
    if active.newApplication.value.container == selected.newApplication.value.container { return; }
    if active.finalBackup == None || found == None { return; }
    if found.value != FoundBackup(true, active.operationId, active.finalBackup.value.sha) { return; }
    r := Some(Selection(active, selected, active.finalBackup.value));
  }

  /** Ids number the creations, and a release names an earlier one as previous. */
  predicate Lineage(manifests: map<nat, Manifest>) {
    forall id <- manifests ::
      && manifests[id].releaseId == id
      && (manifests[id].previousReleaseId.Some? ==> manifests[id].previousReleaseId.value < id)
  }

  /**
    A completed manual restore swaps the two pointers. From then on every preview
    is refused, whatever releases are created or finished, until a new activation
    moves the pointers: the restored release was created before the replaced one
    and cannot name it as previous.
  */
  lemma NoSecondRestoreBeforeActivation(
      manifests: map<nat, Manifest>, pointers: Option<Pointers>, id: nat, found: Option<FoundBackup>,
      later: map<nat, Manifest>, next: nat, backup: Option<FoundBackup>)
    requires PreviewAccepts(manifests, pointers, id, found) && Lineage(manifests) && Lineage(later)
    ensures !PreviewAccepts(later, Some(Pointers(id, Some(pointers.value.active))), next, backup)
  {
    assert manifests[pointers.value.active].previousReleaseId.value < pointers.value.active;
    if next == pointers.value.active && id in later && later[id].previousReleaseId.Some? {
      assert later[id].previousReleaseId.value < id;
    }
  }

  /** The pointers once `id` is selected: the release selected before becomes the protected previous one. */
  function Reselected(pointers: Option<Pointers>, id: nat): Option<Pointers> {
    if pointers.Some? && pointers.value.active == id then pointers
    else Some(Pointers(id, if pointers.Some? then Some(pointers.value.active) else None))
  }

  // ---- the coordinator ----

  /** A coordinator exception: one of the program's own, or anything else. */
  datatype Fault = Known(needsRecovery: bool) | Foreign

  datatype Try<+T> = Fine(value: T) | Failed(fault: Fault) {
    predicate IsFailure() { Failed? }
    function PropagateFailure<U>(): Try<U>
      requires Failed?
    {
      Failed(fault)
    }
    function Extract(): T
      requires Fine?
    {
      value
    }
  }

  datatype RestoreEnding = RestoreCompleted | RestoreFailedSafe | RestoreNeedsRecovery

  /** What a restore establishes: by inspection, by checks, or by a durable record. */
  datatype Proof = Identified | SelectedHealthy | CurrentBack | Recorded

  datatype Scene = Scene(
    db: Database,
    current: Runtime,
    selected: Runtime,
    target: Target,
    maintenance: bool)

  /**
    `acknowledged` is what the last served application left; `left` is the database
    the current application left when it was stopped, and `restartedOn` the one it
    was restarted on; `onSelected` says the database descends from the selected backup.
  */
  datatype Past = Past(acknowledged: Content, left: Option<Database>, onSelected: bool, restartedOn: Option<Database>)

  /** What the current application may come back to: untouched, its log removed, or its own backup. */
  predicate Returnable(left: Database, db: Database) {
    db == left || db == left.(wal := None) || db == Database(Logical(left), None)
  }

  /**
    A restore that fails safe brings back every row in all its outcomes exactly when
    the write-ahead log added nothing to what the stopped application left.
  */
  lemma SafeFailureKeepsRowsExactly(left: Database)
    ensures (forall db: Database :: Returnable(left, db) ==> Logical(db) == Logical(left)) <==> Logical(left) == left.main
  {
    assert Returnable(left, left.(wal := None));
  }

  /**
    The losing run: committed rows are in the log when the application stops, the
    replacement is refused after the log was removed, the database counts as not
    replaced, and so the application returns to what is left of it.
  */
  lemma SafeFailureCanLoseRows() returns (left: Database, selected: Content, kept: Database)
    ensures RestoreEffect(left, selected, FailedBeforeReplacement, kept)
    ensures Returnable(left, kept) && Logical(kept) != Logical(left)
  {
    left, selected := Database(Content([1]), Some(Content([1, 2]))), Content([3]);
    kept := left.(wal := None);
    assert Logical(left).bytes != Logical(kept).bytes;
  }

  class ManualRestore {
    const selectedBackup: Artifact
    var scene: Scene
    ghost var past: Past
    var maintenanceEnabled: bool
    var stopAttempted: bool
    var stopped: bool
    var restartAttempted: bool
    var selectedRunning: bool
    var databaseReplaced: bool
    var trafficAttempted: bool
    var trafficMayBeEnabled: bool
    var preRestore: Option<Artifact>
    /** How often something may still go wrong. */
    var faults: nat
    /** A stop, a restart or a replacement, or a check of one, left something unknown behind. */
    ghost var unknown: bool
    /** The hook that enables maintenance may still run; whether maintenance is on is not known. */
    ghost var looseHook: bool
    ghost var blockUnknown: bool
    /** Whether the hook back to the old target may have run, once it was called. */
    ghost var routing: Option<bool>
    /** The hook to the current application's target passed. */
    ghost var confirmed: bool
    ghost var proven: set<Proof>

    /** `faults` bounds how much may go wrong from here on. */
    constructor (backup: Artifact, scene: Scene, faults: nat)
      requires scene.current == Running && scene.selected == Stopped && scene.target == NewTarget && !scene.maintenance
      ensures selectedBackup == backup && Safe() && AtStart() && this.scene == scene && this.faults == faults
    {
      selectedBackup := backup;
      this.scene := scene;
      past := Past(Logical(scene.db), None, false, None);
      maintenanceEnabled, stopAttempted, stopped, restartAttempted := false, false, false, false;
      selectedRunning, databaseReplaced, trafficAttempted, trafficMayBeEnabled := false, false, false, false;
      preRestore := None;
      this.faults, unknown, looseHook, blockUnknown, routing, confirmed, proven :=
        faults, false, false, false, None, false, {};
    }

    /** No two applications on one database, each only on its own data, and traffic only to a running one. */
    ghost predicate Safe()
      reads this
    {
      && scene.current in {Running, Stopped} && scene.selected in {Running, Stopped}
      && !(scene.current == Running && scene.selected == Running)
      && (scene.selected == Running ==> past.onSelected)
      && (scene.current == Running ==> !past.onSelected)
      && (past.left == None ==> scene.current == Running && Logical(scene.db) == past.acknowledged)
      && (past.left.Some? && scene.current == Stopped && !past.onSelected ==> Returnable(past.left.value, scene.db))
      && (past.left.Some? && scene.current == Running ==>
            && past.restartedOn.Some? && Returnable(past.left.value, past.restartedOn.value)
            && (Logical(past.restartedOn.value) == Logical(past.left.value) ==> Logical(scene.db) == past.acknowledged))
      && (!scene.maintenance ==>
            || (scene.current == Running && scene.target == NewTarget)
            || (scene.selected == Running && scene.target == OldTarget))
    }

    ghost predicate AtStart()
      reads this
    {
      && scene.current == Running && scene.target == NewTarget && scene.selected == Stopped
      && !maintenanceEnabled && !stopAttempted && !stopped && !restartAttempted && !selectedRunning
      && !databaseReplaced && !trafficAttempted && !trafficMayBeEnabled && preRestore == None && past.left == None
      && !unknown && !looseHook && !blockUnknown && routing == None && !confirmed
    }

    // ---- what the world does ----

    /** Running applications write; a served one is acknowledged. */
    method Elapse()
      requires Safe()
      modifies `scene, `past
      ensures Safe()
      ensures scene == old(scene).(db := scene.db) && past == old(past).(acknowledged := past.acknowledged)
      ensures old(scene.current) != Running && old(scene.selected) != Running ==> scene == old(scene) && past == old(past)
      ensures old(scene.current) != Running && old(scene.maintenance) ==> past == old(past)
    {
      var db: Database :| true;
      if scene.current == Running {
        scene, past := scene.(db := db), past.(acknowledged := Logical(db));
      } else if scene.selected == Running {
        if !scene.maintenance { past := past.(acknowledged := Logical(db)); }
        scene := scene.(db := db);
      }
    }

    /** Inspections, health, SQLite and state writes; a failed one may itself ask for recovery. */
    method Check(proof: Proof) returns (r: Try<()>)
      requires Safe()
      modifies `scene, `past, `faults, `unknown, `proven
      ensures Safe()
      ensures scene == old(scene).(db := scene.db) && past == old(past).(acknowledged := past.acknowledged)
      ensures old(scene.current) != Running && old(scene.selected) != Running ==> scene == old(scene) && past == old(past)
      ensures old(scene.current) != Running && old(scene.maintenance) ==> past == old(past)
      ensures unknown <==> old(unknown) || r == Failed(Known(true))
      ensures proven == if r.Fine? then old(proven) + {proof} else old(proven)
      ensures faults <= old(faults) && (r.Fine? || faults < old(faults))
    {
      Elapse();
      if {
        case true =>
          proven := proven + {proof};
          return Fine(());
        case faults > 0 =>
      }
      var fault: Fault :| true;
      faults, unknown := faults - 1, unknown || fault == Known(true);
      r := Failed(fault);
    }

    method Hook() returns (result: CommandResult, started: bool)
      modifies `faults
      ensures ValidResult(result) && (started <==> HookMayHaveRun(result)) && (HookPassed(result) ==> started)
      ensures faults <= old(faults) && (!HookPassed(result) ==> faults < old(faults))
    {
      ghost var readersFailed;
      result, started, readersFailed := RunCommand(10, 10, faults == 0);
      if !HookPassed(result) { faults := faults - 1; }
    }

    method EnableMaintenance() returns (result: CommandResult)
      requires Safe()
      modifies `scene, `past, `faults, `looseHook
      ensures Safe() && ValidResult(result)
      ensures scene == old(scene).(db := scene.db, maintenance := scene.maintenance)
      ensures past == old(past).(acknowledged := past.acknowledged)
      ensures HookPassed(result) ==> scene.maintenance
      ensures looseHook <==> old(looseHook) || result.outcome == CleanupFailed
      ensures faults <= old(faults) && (!HookPassed(result) ==> faults < old(faults))
    {
      var started;
      result, started := Hook();
      looseHook := looseHook || result.outcome == CleanupFailed;
      var effect :| HookPassed(result) ==> effect;
      if started && effect { scene := scene.(maintenance := true); }
      Elapse();
    }

    /** Only for a running application that traffic is routed to. */
    method DisableMaintenance() returns (result: CommandResult)
      requires Safe()
      requires || (scene.current == Running && scene.target == NewTarget)
               || (scene.selected == Running && scene.target == OldTarget)
      modifies `scene, `past, `faults, `blockUnknown
      ensures Safe() && ValidResult(result)
      ensures scene == old(scene).(db := scene.db, maintenance := scene.maintenance)
      ensures past == old(past).(acknowledged := past.acknowledged)
      ensures HookPassed(result) ==> !scene.maintenance
      ensures blockUnknown <==> old(blockUnknown) || !HookPassed(result)
      ensures faults <= old(faults) && (!HookPassed(result) ==> faults < old(faults))
    {
      var started;
      result, started := Hook();
      blockUnknown := blockUnknown || !HookPassed(result);
      var effect :| HookPassed(result) ==> effect;
      if started && effect { scene := scene.(maintenance := false); }
      Elapse();
    }

    method ActivateOld() returns (result: CommandResult)
      requires Safe() && scene.maintenance && scene.current != Running
      modifies `scene, `faults, `routing
      ensures Safe() && ValidResult(result)
      ensures scene == old(scene).(db := scene.db, target := scene.target)
      ensures HookPassed(result) ==> scene.target == OldTarget
      ensures !HookMayHaveRun(result) ==> scene.target == old(scene.target)
      ensures routing == Some(HookMayHaveRun(result))
      ensures faults <= old(faults) && (!HookPassed(result) ==> faults < old(faults))
    {
      var started;
      result, started := Hook();
      routing := Some(started);
      var effect :| HookPassed(result) ==> effect;
      if started && effect { scene := scene.(target := OldTarget); }
      if scene.selected == Running { var db: Database :| true; scene := scene.(db := db); }
    }

    method ActivateNew() returns (result: CommandResult)
      requires Safe() && scene.target == NewTarget
      modifies `scene, `past, `faults, `confirmed
      ensures confirmed <==> old(confirmed) || HookPassed(result)
      ensures Safe() && ValidResult(result)
      ensures scene == old(scene).(db := scene.db) && past == old(past).(acknowledged := past.acknowledged)
      ensures faults <= old(faults) && (!HookPassed(result) ==> faults < old(faults))
    {
      var started;
      result, started := Hook();
      confirmed := confirmed || HookPassed(result);
      Elapse();
    }

    method StopCurrent() returns (r: Try<()>)
      requires Safe() && scene.current == Running && scene.maintenance && past.left == None
      modifies `scene, `past, `faults, `unknown
      ensures Safe()
      ensures scene == old(scene).(db := scene.db, current := scene.current)
      ensures past == old(past).(acknowledged := past.acknowledged, left := past.left)
      ensures scene.current == Stopped ==> past.left == Some(scene.db) && past.acknowledged == Logical(scene.db)
      ensures r.Fine? ==> scene.current == Stopped
      ensures r.Failed? ==> r.fault == Foreign
      ensures unknown <==> old(unknown) || r.Failed?
      ensures faults <= old(faults) && (r.Fine? || faults < old(faults))
    {
      Elapse();
      if {
        case true =>
          scene := scene.(current := Stopped);
          past := past.(left := Some(scene.db));
        case faults > 0 =>
      }
      if scene.current == Stopped {
        if { case true => return Fine(()); case faults > 0 => }
      }
      faults, unknown := faults - 1, true;
      r := Failed(Foreign);
    }

    method RestartSelected() returns (r: Try<()>)
      requires Safe() && scene.current == Stopped && scene.maintenance && past.onSelected
      modifies `scene, `faults, `unknown
      ensures Safe()
      ensures scene == old(scene).(db := scene.db, selected := scene.selected)
      ensures r.Fine? ==> scene.selected == Running
      ensures r.Failed? ==> r.fault == Foreign
      ensures unknown <==> old(unknown) || r.Failed?
      ensures faults <= old(faults) && (r.Fine? || faults < old(faults))
    {
      if {
        case true =>
          var db: Database :| true;
          scene := scene.(selected := Running, db := db);
          if { case true => return Fine(()); case faults > 0 => }
        case faults > 0 =>
      }
      faults, unknown := faults - 1, true;
      r := Failed(Foreign);
    }

    method StopSelected() returns (r: Try<()>)
      requires Safe() && scene.maintenance && scene.selected == Running
      modifies `scene, `faults
      ensures Safe()
      ensures scene == old(scene).(db := scene.db, selected := scene.selected)
      ensures r.Fine? ==> scene.selected == Stopped
      ensures faults <= old(faults) && (r.Fine? || faults < old(faults))
    {
      var db: Database :| true;
      scene := scene.(db := db);
      if {
        case true =>
          scene := scene.(selected := Stopped);
          if { case true => return Fine(()); case faults > 0 => }
        case faults > 0 =>
      }
      faults := faults - 1;
      r := Failed(Foreign);
    }

    /** The current application comes back only to its own data. */
    method RestartCurrent() returns (r: Try<()>)
      requires Safe() && scene.selected == Stopped && !past.onSelected && scene.maintenance && scene.current == Stopped
      requires past.left.Some? && past.acknowledged == Logical(past.left.value)
      modifies `scene, `past, `faults
      ensures Safe()
      ensures scene == old(scene).(db := scene.db, current := scene.current)
      ensures past == old(past).(acknowledged := past.acknowledged, restartedOn := past.restartedOn)
      ensures r.Fine? ==> scene.current == Running
      ensures faults <= old(faults) && (r.Fine? || faults < old(faults))
    {
      if {
        case true =>
          past := past.(restartedOn := Some(scene.db));
          scene := scene.(current := Running);
          Elapse();
          if { case true => return Fine(()); case faults > 0 => }
        case faults > 0 =>
      }
      faults := faults - 1;
      r := Failed(Foreign);
    }

    /** Both applications are down and traffic is blocked at every replacement. */
    method ReplaceDatabase(artifact: Artifact, forward: bool) returns (r: Try<()>)
      requires Safe() && scene.current == Stopped && scene.selected == Stopped && scene.maintenance
      requires past.left.Some?
      requires !forward ==> past.onSelected && artifact.recorded == Logical(past.left.value)
      requires forward ==> !past.onSelected && past.left.value == scene.db
      modifies `scene, `past, `faults, `unknown
      ensures Safe()
      ensures scene == old(scene).(db := scene.db)
      ensures past == old(past).(onSelected := past.onSelected)
      ensures r.Fine? ==> scene.db == Database(artifact.recorded, None) && past.onSelected == forward
      ensures r == Failed(Known(false)) ==>
                past.onSelected == old(past.onSelected)
                && RestoreEffect(old(scene.db), artifact.recorded, FailedBeforeReplacement, scene.db)
      ensures r.Failed? ==> r.fault.Known?
      ensures unknown <==> old(unknown) || r == Failed(Known(true))
      ensures artifact.file != artifact.recorded ==> r.Failed? && scene == old(scene)
      ensures faults <= old(faults)
      ensures r.Failed? ==> faults < old(faults) || (artifact.file != artifact.recorded && r == Failed(Known(false)))
    {
      var directory := new DatabaseDirectory(scene.db, faults);
      var outcome := directory.RestoreVerifiedDatabase(artifact, true, false);
      scene, faults := scene.(db := directory.files), directory.faults;
      if outcome == Restored {
        past := past.(onSelected := forward);
        r := Fine(());
      } else if outcome == FailedBeforeReplacement {
        r := Failed(Known(false));
      } else {                                           // replaced without proof, or cut short
        past, unknown := past.(onSelected := true), true;
        r := Failed(Known(true));
      }
    }

    // ---- where the coordinator is ----

    function NeedsRecovery(fault: Fault): bool
      reads this
    {
      match fault
      case Known(needsRecovery) => needsRecovery
      case Foreign => (stopAttempted && !stopped) || (restartAttempted && !selectedRunning)
    }

    /** Enough for the coordinator's own rollback. */
    ghost predicate Rollbackable()
      reads this
    {
      && Safe() && !unknown && scene.target == NewTarget && !trafficAttempted && !trafficMayBeEnabled
      && stopAttempted == stopped && restartAttempted == selectedRunning
      && scene.current == (if stopped then Stopped else Running)
      && scene.selected == (if selectedRunning then Running else Stopped)
      && (selectedRunning ==> databaseReplaced) && (databaseReplaced <==> past.onSelected)
      && (databaseReplaced ==> preRestore.Some? && stopped)
      && (stopped ==> scene.maintenance)
      && (stopped <==> past.left.Some?)
      && (stopped ==> past.acknowledged == Logical(past.left.value))
      && (preRestore.Some? ==> stopped && preRestore.value.recorded == Logical(past.left.value))
    }

    /** What holds when the forward half raises. */
    ghost predicate Raised(fault: Fault)
      reads this
    {
      && Safe() && (unknown ==> NeedsRecovery(fault))
      && (NeedsRecovery(fault) ==> unknown || looseHook || blockUnknown || trafficAttempted || trafficMayBeEnabled)
      && (!trafficAttempted && !trafficMayBeEnabled ==> routing != Some(true))
      && (!NeedsRecovery(fault) && !trafficAttempted && !trafficMayBeEnabled ==> Rollbackable())
    }

    // ---- the forward half ----

    method EnterMaintenance() returns (r: Try<()>)
      requires AtStart() && Safe()
      modifies `scene, `past, `maintenanceEnabled, `faults, `unknown, `looseHook, `blockUnknown, `proven
      ensures r.Fine? ==> Rollbackable() && scene.maintenance && !stopped && !looseHook && !blockUnknown && maintenanceEnabled
      ensures r.Fine? ==> Identified in proven
      ensures r.Failed? ==> Raised(r.fault)
      ensures past == old(past).(acknowledged := past.acknowledged)
      ensures faults <= old(faults) && (r.Fine? || faults < old(faults))
      ensures looseHook && old(faults) <= 1 ==> r == Failed(Known(true))
      ensures blockUnknown ==> faults + 2 <= old(faults) && (old(faults) == 2 ==> r == Failed(Known(true)))
    {
      var _ :- Check(Identified);                        // both applications are as recorded
      r := Block();
    }

    method Block() returns (r: Try<()>)
      requires AtStart() && Safe()
      modifies `scene, `past, `maintenanceEnabled, `faults, `unknown, `looseHook, `blockUnknown, `proven
      ensures r.Fine? ==> Rollbackable() && scene.maintenance && !stopped && !looseHook && !blockUnknown && maintenanceEnabled
      ensures r.Fine? ==> old(proven) <= proven
      ensures r.Failed? ==> Raised(r.fault)
      ensures past == old(past).(acknowledged := past.acknowledged)
      ensures faults <= old(faults) && (r.Fine? || faults < old(faults))
      ensures looseHook && old(faults) <= 1 ==> r == Failed(Known(true))
      ensures blockUnknown ==> faults + 2 <= old(faults) && (old(faults) == 2 ==> r == Failed(Known(true)))
    {
      var result := EnableMaintenance();
      var _ :- Check(Recorded);
      if !HookPassed(result) {
        r := UndoMaintenance(result);
        return;
      }
      maintenanceEnabled := true;
      r := Check(Recorded);
    }

    /** A failed hook is undone before the failure is reported. */
    method UndoMaintenance(result: CommandResult) returns (r: Try<()>)
      requires Rollbackable() && scene.current == Running && !blockUnknown && routing == None && past.left == None
      requires looseHook <==> result.outcome == CleanupFailed
      modifies `scene, `past, `faults, `unknown, `blockUnknown, `proven
      ensures r.Failed? && Raised(r.fault)
      ensures past == old(past).(acknowledged := past.acknowledged) && faults <= old(faults)
      ensures looseHook && faults == old(faults) ==> r.fault == Known(true)
      ensures blockUnknown ==> faults < old(faults) && (faults + 1 == old(faults) ==> r.fault == Known(true))
    {
      var cleanup := DisableMaintenance();
      var _ :- Check(Recorded);
      if !HookPassed(cleanup) { return Failed(Known(true)); }
      r := Failed(Known(result.outcome == CleanupFailed));
    }

    method StopAndBackUp() returns (r: Try<()>)
      requires Rollbackable() && scene.maintenance && !stopped && preRestore == None && past.left == None
      requires routing == None
      modifies `scene, `past, `stopAttempted, `stopped, `preRestore, `faults, `unknown, `proven
      ensures r.Fine? ==> Rollbackable() && stopped && preRestore.Some? && !databaseReplaced && past.left == Some(scene.db)
      ensures preRestore.Some? ==> preRestore.value.file == preRestore.value.recorded
      ensures r.Failed? ==> Raised(r.fault)
      ensures faults <= old(faults) && (r.Fine? || faults < old(faults)) && (r.Fine? ==> old(proven) <= proven)
    {
      stopAttempted := true;
      var _ :- StopCurrent();
      stopped := true;
      var _ :- Check(Recorded);
      r := BackUp();
    }

    /** What the stopped application left, before anything replaces it. */
    method BackUp() returns (r: Try<()>)
      requires Rollbackable() && stopped && preRestore == None && !databaseReplaced && routing == None
      requires past.left == Some(scene.db)
      modifies `scene, `past, `preRestore, `faults, `unknown, `proven
      ensures r.Fine? ==> Rollbackable() && preRestore.Some? && past.left == Some(scene.db)
      ensures preRestore.Some? ==> preRestore.value.file == preRestore.value.recorded
      ensures r.Failed? ==> Raised(r.fault)
      ensures faults <= old(faults) && (r.Fine? || faults < old(faults)) && (r.Fine? ==> old(proven) <= proven)
    {
      var directory := new DatabaseDirectory(scene.db, faults);
      var backup := directory.CreateVerifiedBackup();
      faults := directory.faults;
      if backup == None { return Failed(Known(false)); }
      preRestore := backup;
      r := Check(Recorded);
    }

    /** A damaged selected backup is refused before anything is replaced. */
    method ReplaceAndRestart() returns (r: Try<()>)
      requires Rollbackable() && stopped && preRestore.Some? && !databaseReplaced && !selectedRunning
      requires past.left == Some(scene.db) && routing == None
      modifies `scene, `past, `databaseReplaced, `restartAttempted, `selectedRunning, `faults, `unknown, `proven
      ensures r.Fine? ==> Rollbackable() && selectedRunning && SelectedHealthy in proven && old(proven) <= proven
      ensures r.Failed? ==> Raised(r.fault)
      ensures faults <= old(faults) && (r.Fine? ==> selectedBackup.file == selectedBackup.recorded)
      ensures r.Fine? || faults < old(faults)
              || (selectedBackup.file != selectedBackup.recorded && r == Failed(Known(false)))
    {
      var _ :- Check(Recorded);
      var _ :- ReplaceDatabase(selectedBackup, true);
      databaseReplaced := true;
      var _ :- Check(Recorded);
      r := StartSelected();
    }

    method StartSelected() returns (r: Try<()>)
      requires Rollbackable() && stopped && databaseReplaced && !selectedRunning && routing == None
      modifies `scene, `past, `restartAttempted, `selectedRunning, `faults, `unknown, `proven
      ensures r.Fine? ==> Rollbackable() && selectedRunning && SelectedHealthy in proven && old(proven) <= proven
      ensures r.Failed? ==> Raised(r.fault)
      ensures faults <= old(faults) && (r.Fine? || faults < old(faults))
    {
      restartAttempted := true;
      var _ :- RestartSelected();
      selectedRunning := true;
      r := Check(SelectedHealthy);                       // SQLite and health
    }

    /** From the first hook that may route traffic away, only recovery may follow a failure. */
    method SelectOldTarget() returns (r: Try<()>)
      requires Rollbackable() && selectedRunning && routing == None
      modifies `scene, `past, `trafficAttempted, `faults, `unknown, `routing, `proven
      ensures r.Fine? ==> Safe() && !unknown && trafficAttempted && scene.target == OldTarget
                          && scene.selected == Running && scene.current == Stopped
                          && old(proven) <= proven
      ensures r.Failed? ==> Raised(r.fault)
      ensures faults <= old(faults) && (r.Fine? || faults < old(faults))
      ensures r.Failed? && routing.Some? && old(faults) <= 1 ==> trafficAttempted == routing.value
    {
      trafficAttempted := true;
      var _ :- Check(Recorded);
      var result := ActivateOld();
      var _ :- Check(Recorded);
      if !HookPassed(result) {
        trafficAttempted := HookMayHaveRun(result);
        return Failed(Known(result.outcome == CleanupFailed));
      }
      r := Fine(());
    }

    /** Lifts maintenance for the selected application, and then selects its release; the former selection becomes previous. */
    method OpenTraffic(store: ReleaseStore, id: nat) returns (r: Try<()>)
      requires Safe() && !unknown && trafficAttempted && scene.target == OldTarget
      requires scene.selected == Running && scene.current == Stopped
      requires store.Valid() && id in store.manifests && store.manifests[id].status == Active
      modifies `scene, `past, `trafficMayBeEnabled, `maintenanceEnabled, `faults, `unknown, `blockUnknown, `proven,
               store`pointers
      ensures Safe() && store.Valid()
      ensures r.Fine? ==> scene == Scene(scene.db, Stopped, Running, OldTarget, false)
                          && store.pointers == Reselected(old(store.pointers), id)
                          && old(proven) <= proven && !unknown && blockUnknown == old(blockUnknown)
                          && !maintenanceEnabled
      ensures r.Failed? ==> Raised(r.fault)
      ensures r.Failed? && !trafficMayBeEnabled ==> store.pointers == old(store.pointers)
      ensures store.pointers in {old(store.pointers), Reselected(old(store.pointers), id)} && trafficMayBeEnabled
      ensures faults <= old(faults) && (r.Fine? || faults < old(faults))
    {
      hide ManualRestore.Rollbackable, Returnable, Reselected;
      trafficMayBeEnabled := true;
      var _ :- Check(Recorded);
      var off := DisableMaintenance();
      var _ :- Check(Recorded);
      if !HookPassed(off) { return Failed(Known(true)); }
      maintenanceEnabled := false;
      r := Select(store, id);
    }

    method Select(store: ReleaseStore, id: nat) returns (r: Try<()>)
      requires Safe() && !unknown && trafficMayBeEnabled && trafficAttempted
      requires store.Valid() && id in store.manifests && store.manifests[id].status == Active
      modifies `scene, `past, `faults, `unknown, `proven, store`pointers
      ensures Safe() && store.Valid() && store.pointers == Reselected(old(store.pointers), id)
      ensures scene == old(scene).(db := scene.db)
      ensures if r.Fine? then !unknown && old(proven) <= proven else Raised(r.fault)
      ensures faults <= old(faults) && (r.Fine? || faults < old(faults))
    {
      var _ := store.ActivateRelease(id);
      r := Check(Recorded);
    }

    // ---- the coordinator's own rollback ----

    method Rollback() returns (r: Try<()>)
      requires Rollbackable() && (preRestore.Some? ==> preRestore.value.file == preRestore.value.recorded)
      requires !confirmed
      modifies `scene, `past, `selectedRunning, `faults, `unknown, `blockUnknown, `confirmed, `proven
      ensures Safe()
      ensures r.Fine? ==> scene.current == Running && scene.selected == Stopped
                          && scene.target == NewTarget && confirmed && !scene.maintenance && CurrentBack in proven && !unknown
      ensures faults <= old(faults) && (r.Fine? || faults < old(faults))
    {
      if selectedRunning {
        var _ :- StopSelected();
        selectedRunning := false;
      }
      if databaseReplaced {
        var _ :- ReplaceDatabase(preRestore.value, false);
      }
      if stopped {
        var _ :- RestartCurrent();
      }
      var target := ActivateNew();
      var _ :- Check(Recorded);
      if !HookPassed(target) { return Failed(Foreign); }
      var off := DisableMaintenance();
      var _ :- Check(Recorded);
      if !HookPassed(off) { return Failed(Foreign); }
      r := Check(CurrentBack);
    }

    /** Up to the checked selected application behind maintenance; a damaged selected backup ends it before that. */
    method Prepare() returns (r: Try<()>)
      requires AtStart() && Safe()
      modifies `scene, `past, `maintenanceEnabled, `stopAttempted, `stopped, `preRestore, `databaseReplaced,
               `restartAttempted, `selectedRunning, `faults, `unknown, `looseHook, `blockUnknown, `proven
      ensures r.Fine? ==> Rollbackable() && selectedRunning && {Identified, SelectedHealthy} <= proven && !looseHook
      ensures r.Fine? ==> selectedBackup.file == selectedBackup.recorded
      ensures r.Failed? ==> Raised(r.fault)
      ensures preRestore.Some? ==> preRestore.value.file == preRestore.value.recorded
      ensures faults <= old(faults) && (blockUnknown ==> faults + 2 <= old(faults))
      ensures r.Fine? || faults < old(faults)
              || (selectedBackup.file != selectedBackup.recorded && r == Failed(Known(false)))
      ensures r.Failed? && looseHook && old(faults) <= 1 ==> r.fault == Known(true)
    {
      hide ManualRestore.Rollbackable, ManualRestore.Raised, ManualRestore.Safe;
      var _ :- EnterMaintenance();
      var _ :- StopAndBackUp();
      r := ReplaceAndRestart();
    }

    method Forward(store: ReleaseStore, id: nat) returns (r: Try<()>)
      requires AtStart() && Safe() && store.Valid() && id in store.manifests && store.manifests[id].status == Active
      modifies this, store`pointers
      ensures store.Valid() && !confirmed
      ensures r.Fine? ==> Safe() && scene.selected == Running && scene.current == Stopped
                          && scene.target == OldTarget && !scene.maintenance && !unknown
                          && {Identified, SelectedHealthy} <= proven
                          && store.pointers == Reselected(old(store.pointers), id)
                          && selectedBackup.file == selectedBackup.recorded
      ensures r.Failed? ==> Raised(r.fault)
      ensures preRestore.Some? ==> preRestore.value.file == preRestore.value.recorded
      ensures r.Failed? && !trafficMayBeEnabled ==> store.pointers == old(store.pointers)
      ensures store.pointers in {old(store.pointers), Reselected(old(store.pointers), id)}
      ensures faults <= old(faults) && (blockUnknown && !trafficMayBeEnabled ==> faults + 2 <= old(faults))
      ensures || r.Fine? || faults < old(faults)
              || (selectedBackup.file != selectedBackup.recorded && r == Failed(Known(false))
                  && !trafficAttempted && !trafficMayBeEnabled)
      ensures r.Failed? && looseHook && old(faults) <= 1 ==> r.fault == Known(true)
      ensures r.Failed? && routing.Some? && old(faults) <= 1 && !trafficMayBeEnabled ==> trafficAttempted == routing.value
    {
      hide ManualRestore.Rollbackable, ManualRestore.Raised, ManualRestore.Safe, Reselected;
      var _ :- Prepare();
      var _ :- SelectOldTarget();
      r := OpenTraffic(store, id);
    }

    /**
      One confirmed restore. Completed means the selected application on the selected
      data, checked, with traffic open and its release selected in place of the one
      that was; failed safe means the current application back and checked, on exactly
      its last acknowledged content if the log added nothing when it was stopped;
      anything unproven is reported as needing recovery and leaves traffic on a
      running application or blocked. An intact backup is restored unless something
      goes wrong, and one known failure before traffic is touched ends safe.
    */
    method RunManualRestore(store: ReleaseStore, id: nat) returns (ending: RestoreEnding)
      requires AtStart() && Safe() && store.Valid() && id in store.manifests && store.manifests[id].status == Active
      modifies this, store`pointers
      ensures Safe() && store.Valid()
      ensures ending == RestoreCompleted ==>
                && scene.selected == Running && scene.current == Stopped
                && scene.target == OldTarget && !scene.maintenance && past.onSelected
                && {Identified, SelectedHealthy} <= proven
                && store.pointers == Reselected(old(store.pointers), id)
      ensures ending == RestoreFailedSafe ==>
                && scene.current == Running && scene.selected == Stopped
                && scene.target == NewTarget && confirmed && !scene.maintenance && !past.onSelected && CurrentBack in proven
                && store.pointers == old(store.pointers)
                && (past.left.Some? ==> past.restartedOn.Some? && Returnable(past.left.value, past.restartedOn.value))
      ensures ending == RestoreFailedSafe && (past.left == None || Logical(past.left.value) == past.left.value.main) ==>
                Logical(scene.db) == past.acknowledged
      ensures store.pointers in {old(store.pointers), Reselected(old(store.pointers), id)}
      ensures unknown || (routing == Some(true) && ending != RestoreCompleted) ==> ending == RestoreNeedsRecovery
      ensures old(faults) == 0 ==>
                ending == if selectedBackup.file == selectedBackup.recorded then RestoreCompleted else RestoreFailedSafe
      ensures old(faults) <= 1 && ending != RestoreCompleted && selectedBackup.file == selectedBackup.recorded ==>
                (ending == RestoreNeedsRecovery <==> unknown || looseHook || trafficAttempted || trafficMayBeEnabled)
    {
      var attempt := Forward(store, id);
      if attempt.Fine? { return RestoreCompleted; }
      if NeedsRecovery(attempt.fault) || trafficAttempted || trafficMayBeEnabled { return RestoreNeedsRecovery; }
      var undone := Rollback();
      if past.left.Some? { SafeFailureKeepsRowsExactly(past.left.value); }
      ending := if undone.Fine? then RestoreFailedSafe else RestoreNeedsRecovery;
    }
  }
}
