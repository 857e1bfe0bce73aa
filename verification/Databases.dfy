/**
  The production SQLite database as the restore code sees it: a main file that
  is hashed and replaced, and a write-ahead log that readers see through but the
  hash does not cover.
*/
module Databases {
  import opened Basics

  datatype Content = Content(bytes: seq<bv8>)

  /** `wal` holds what a reader sees through the sidecar when there is one. */
  datatype Database = Database(main: Content, wal: Option<Content>)

  function Logical(db: Database): Content {
    if db.wal.Some? then db.wal.value else db.main
  }

  /** A committed backup: its file, and the size and digest recorded for it. */
  datatype Artifact = Artifact(file: Content, recorded: Content)

  datatype RestoreOutcome =
    | Restored
    | Refused                  // a flag passed by the caller forbids the restore
    | FailedBeforeReplacement  // safe failure: the replacement never started
    | ReplacementUnproven      // recovery required: replaced, then not verified
    | RestoreCrashed

  /** Everything `restore_verified_database` may leave behind, by outcome. */
  predicate RestoreEffect(before: Database, backup: Content, outcome: RestoreOutcome, after: Database) {
    match outcome
    case Restored => after == Database(backup, None)
    case Refused => after == before
    case FailedBeforeReplacement => after == before || after == before.(wal := None)
    case ReplacementUnproven => after == Database(backup, None)
    case RestoreCrashed => after == before || after == before.(wal := None) || after == Database(backup, None)
  }

  /**
    "Failed before replacement" always keeps the main file, but the sidecar is
    removed first: every such failure keeps the rows a reader sees exactly when the
    write-ahead log adds nothing to the main file before the call.
  */
  lemma FailureBeforeReplacementKeepsContent(before: Database, backup: Content)
    ensures forall after: Database :: RestoreEffect(before, backup, FailedBeforeReplacement, after) ==> after.main == before.main
    ensures (forall after: Database ::
               RestoreEffect(before, backup, FailedBeforeReplacement, after) ==> Logical(after) == Logical(before))
            <==> Logical(before) == before.main
  {
    assert RestoreEffect(before, backup, FailedBeforeReplacement, before.(wal := None));
  }

  /** A concrete loss: committed rows live in the log when directory sync fails. */
  lemma FailureBeforeReplacementCanLoseRows()
    ensures exists before: Database, backup: Content, after: Database ::
              && RestoreEffect(before, backup, FailedBeforeReplacement, after)
              && Logical(after) != Logical(before)
  {
    var checkpointed, committed := Content([1]), Content([1, 2]);
    assert checkpointed.bytes != committed.bytes;
    var before := Database(checkpointed, Some(committed));
    assert RestoreEffect(before, checkpointed, FailedBeforeReplacement, before.(wal := None));
    assert Logical(before.(wal := None)) != Logical(before);
  }

  const COPY_CHUNK_BYTES: nat := 1048576

  /** The directory holding the production database; `faults` bounds how often something may still go wrong there. */
  class DatabaseDirectory {
    var files: Database
    var faults: nat

    constructor (db: Database, faults: nat)
      ensures files == db && this.faults == faults
    {
      files, this.faults := db, faults;
    }

    /** The staged copy loop: chunk by chunk, or a failure that leaves nothing staged. */
    method Materialize(source: Content) returns (staged: Option<Content>)
      modifies this`faults
      ensures staged.Some? ==> staged.value == source
      ensures faults <= old(faults) && (staged == None ==> faults < old(faults))
    {
      var written: seq<bv8> := [];
      while |written| < |source.bytes|
        invariant written <= source.bytes && faults == old(faults)
        decreases |source.bytes| - |written|
      {
        if { case faults > 0 => faults := faults - 1; return None; case true => }   // deadline, read or write failure
        var next := Min(|written| + COPY_CHUNK_BYTES, |source.bytes|);
        written := written + source.bytes[|written|..next];
      }
      assert written == source.bytes;
      staged := Some(Content(written));
    }

    /** Removes the write-ahead log, then syncs; either half may fail. */
    method RemoveSidecars() returns (ok: bool)
      modifies this
      ensures files == old(files) || files == old(files).(wal := None)
      ensures ok ==> files == old(files).(wal := None)
      ensures faults <= old(faults) && (!ok ==> faults < old(faults))
    {
      if { case faults > 0 => faults := faults - 1; return false; case true => }
      files := files.(wal := None);
      if { case faults > 0 => faults := faults - 1; return false; case true => }
      ok := true;
    }

    /** `os.replace` of a staged file over the main file. */
    method Replace(staged: Content) returns (ok: bool)
      modifies this
      ensures files == if ok then old(files).(main := staged) else old(files)
      ensures faults <= old(faults) && (!ok ==> faults < old(faults))
    {
      if { case faults > 0 => faults := faults - 1; return false; case true => }
      files := files.(main := staged);
      ok := true;
    }

    /**
      Each outcome leaves one of its states. A permitted restore of an intact backup
      succeeds unless something goes wrong, and one of a damaged backup never touches
      the files.
    */
    method RestoreVerifiedDatabase(artifact: Artifact, applicationStopped: bool, trafficActivated: bool)
      returns (outcome: RestoreOutcome)
      modifies this
      ensures RestoreEffect(old(files), artifact.recorded, outcome, files)
      ensures outcome == Refused <==> trafficActivated || !applicationStopped
      ensures artifact.file != artifact.recorded ==> files == old(files) && outcome != Restored
      ensures faults <= old(faults)
      ensures outcome in {ReplacementUnproven, RestoreCrashed} ==> faults < old(faults)
      ensures outcome == FailedBeforeReplacement && artifact.file == artifact.recorded ==> faults < old(faults)
    {
      if trafficActivated || !applicationStopped { return Refused; }
      if { case faults > 0 => faults := faults - 1; return RestoreCrashed; case true => }
      if artifact.file != artifact.recorded { return FailedBeforeReplacement; }
      if { case faults > 0 => faults := faults - 1; return FailedBeforeReplacement; case true => }   // SQLite check of the backup
      var staged := Materialize(artifact.file);
      if { case faults > 0 => faults := faults - 1; return RestoreCrashed; case true => }
      if staged == None || staged.value != artifact.recorded { return FailedBeforeReplacement; }
      if { case faults > 0 => faults := faults - 1; return FailedBeforeReplacement; case true => }   // SQLite check of the staged copy
      var removed := RemoveSidecars();
      if { case faults > 0 => faults := faults - 1; return RestoreCrashed; case true => }
      if !removed { return FailedBeforeReplacement; }
      var replaced := Replace(staged.value);
      if { case faults > 0 => faults := faults - 1; return RestoreCrashed; case true => }
      if !replaced { return FailedBeforeReplacement; }
      if { case faults > 0 => faults := faults - 1; return ReplacementUnproven; case true => }       // mode, directory sync, recheck
      if files.main != artifact.recorded { return ReplacementUnproven; }
      outcome := Restored;
    }

    /** Reading through SQLite, an online backup captures the logical content. */
    method CreateVerifiedBackup() returns (artifact: Option<Artifact>)
      modifies this`faults
      ensures artifact.Some? ==> artifact.value == Artifact(Logical(files), Logical(files))
      ensures faults <= old(faults) && (artifact == None ==> faults < old(faults))
    {
      if { case faults > 0 => faults := faults - 1; return None; case true => }
      artifact := Some(Artifact(Logical(files), Logical(files)));
    }

    /** The rollback half of the stopped-application restore. */
    method RestorePrevious(preRestore: Artifact) returns (ok: bool, crashed: bool)
      requires preRestore.file == preRestore.recorded
      modifies this
      ensures ok ==> !crashed && files == Database(preRestore.recorded, None)
      ensures files.main in {old(files).main, preRestore.recorded}
      ensures faults <= old(faults) && (!ok ==> faults < old(faults))
    {
      ok, crashed := false, false;
      var staged := Materialize(preRestore.file);
      if staged == None { return; }
      if { case faults > 0 => faults := faults - 1; return; case true => }
      var removed := RemoveSidecars();
      if { case faults > 0 => faults := faults - 1; crashed := true; return; case true => }
      if !removed { return; }
      var replaced := Replace(staged.value);
      if { case faults > 0 => faults := faults - 1; crashed := true; return; case true => }
      if !replaced { return; }
      if { case faults > 0 => faults := faults - 1; return; case true => }
      ok := true;
    }

    /**
      The stopped-application restore is all or nothing on logical content:
      success is the selected backup, a safe failure is exactly the rows that
      were there before, and everything else is reported as recovery required. A
      damaged backup never touches the files, an intact one is restored unless
      something goes wrong, and a single failure after the replacement began is undone.
    */
    method RestoreStoppedDatabase(selected: Artifact) returns (status: StoppedRestore)
      modifies this
      ensures status == StoppedSucceeded ==> selected.file == selected.recorded && files == Database(selected.recorded, None)
      ensures status == StoppedFailedSafe ==> Logical(files) == Logical(old(files))
      ensures files.main in {old(files).main, selected.recorded, Logical(old(files))}
      ensures selected.file != selected.recorded ==> files == old(files) && status in {StoppedFailedSafe, StoppedCrash}
      ensures old(faults) == 0 ==>
                status == if selected.file == selected.recorded then StoppedSucceeded else StoppedFailedSafe
      ensures old(faults) <= 1 && status == StoppedNeedsRecovery ==> files == old(files)
      ensures old(faults) <= 1 && status != StoppedCrash && files != old(files) ==>
                status == StoppedSucceeded || files == Database(Logical(old(files)), None)
    {
      ghost var original := files;
      if { case faults > 0 => faults := faults - 1; return StoppedCrash; case true => }
      if selected.file != selected.recorded { return StoppedFailedSafe; }
      var preRestore := CreateVerifiedBackup();
      if preRestore == None { return StoppedFailedSafe; }
      var staged := Materialize(selected.file);
      if staged == None { return StoppedFailedSafe; }
      if {
        case faults > 0 => faults := faults - 1; return StoppedCrash;
        case faults > 0 => faults := faults - 1; return StoppedFailedSafe;          // fault after staging
        case faults > 0 => faults := faults - 1; return StoppedNeedsRecovery;       // operation log rejected the write
        case true =>
      }
      // From here `production_mutation_started` is true.
      var ok := RemoveSidecars();
      if { case faults > 0 => faults := faults - 1; return StoppedCrash; case true => }
      if ok { ok := Replace(staged.value); }
      if { case faults > 0 => faults := faults - 1; return StoppedCrash; case true => }
      if { case faults > 0 => faults := faults - 1; ok := false; case true => }     // sync, recheck or final transition
      if ok { return StoppedSucceeded; }
      var restored, crashed := RestorePrevious(preRestore.value);
      if crashed { return StoppedCrash; }
      status := if restored then StoppedFailedSafe else StoppedNeedsRecovery;
    }
  }

  datatype StoppedRestore = StoppedSucceeded | StoppedFailedSafe | StoppedNeedsRecovery | StoppedCrash
}
