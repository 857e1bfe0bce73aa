/**
  Backup storage for one backup id, remote and local. Metadata is the commit
  marker: published last, removed first. Requests may fail with or without
  effect, and the process may stop after any of them.
*/
module Backups {
  import opened Basics
  import opened Databases

  /** Committed metadata: the digest stands for the content it identifies. */
  datatype Record = Record(sha: Content, release: Option<nat>)

  /** A remote object carries the digest header of the artifact it was uploaded for. */
  datatype Object = Object(bytes: Content, header: Content)

  datatype Outcome<+T> = Done(value: T) | Failed | Crashed {
    predicate IsFailure() { !Done? }
    function PropagateFailure<U>(): Outcome<U>
      requires !Done?
    {
      if Failed? then Failed else Crashed
    }
    function Extract(): T
      requires Done?
    {
      value
    }
  }

  datatype Verified = Accepted(record: Record) | Missing | Rejected

  datatype Slot = Slot(meta: Option<Record>, db: Option<Object>)

  /** A commit marker beside database bytes always describes exactly those bytes. */
  predicate Sound(s: Slot) {
    s.meta.Some? && s.db.Some? ==> s.db.value == Object(s.meta.value.sha, s.meta.value.sha)
  }

  /** The marker beside an object of its size and headers; the bytes themselves may differ. */
  predicate Described(s: Slot) {
    && s.meta.Some? && s.db.Some? && s.db.value.header == s.meta.value.sha
    && |s.db.value.bytes.bytes| == |s.meta.value.sha.bytes|
  }

  /** The marker survives but the bytes are gone. */
  predicate Orphaned(s: Slot) {
    s.meta.Some? && s.db == None
  }

  /** When a put with no further fault commits `record`. */
  predicate PutConverges(s: Slot, record: Record) {
    s.meta == None || (s.db.Some? && s.meta.value == record)
  }

  const STREAM_CHUNK_BYTES: nat := 1048576

  /**
    What happens to a request: it may be lost, or the process cut off, before or
    after taking effect; a file may change while it is sent.
  */
  datatype Fault = NoFault | Altered(sent: Content) | Lost(effect: bool) | Cut(effect: bool)

  function Effective(f: Fault): bool {
    f.NoFault? || f.Altered? || f.effect
  }

  function Reply<T>(f: Fault, value: T): Outcome<T> {
    if f.Lost? then Failed else if f.Cut? then Crashed else Done(value)
  }

  function Head(script: seq<Fault>): Fault {
    if script == [] then NoFault else script[0]
  }

  function Tail(script: seq<Fault>): seq<Fault> {
    if script == [] then [] else script[1..]
  }

  class RemoteBackup {
    var slot: Slot
    /** The faults still to come, one for each request; after them nothing fails. */
    var script: seq<Fault>

    constructor (slot: Slot, script: seq<Fault>)
      ensures this.slot == slot && this.script == script
    {
      this.slot, this.script := slot, script;
    }

    // ---- requests ----

    method Next() returns (f: Fault)
      modifies this`script
      ensures f == Head(old(script)) && script == Tail(old(script))
    {
      f := Head(script);
      script := Tail(script);
    }

    method PutDatabase(stored: Object) returns (r: Outcome<()>)
      modifies this
      ensures script == Tail(old(script)) && r == Reply(Head(old(script)), ())
      ensures var f := Head(old(script));
              slot == if !Effective(f) then old(slot)
                      else old(slot).(db := Some(if f.Altered? then Object(f.sent, stored.header) else stored))
    {
      var f := Next();
      if Effective(f) {
        slot := slot.(db := Some(if f.Altered? then Object(f.sent, stored.header) else stored));
      }
      r := Reply(f, ());
    }

    method PutMetadata(record: Record) returns (r: Outcome<()>)
      modifies this
      ensures script == Tail(old(script)) && r == Reply(Head(old(script)), ())
      ensures slot == if Effective(Head(old(script))) then old(slot).(meta := Some(record)) else old(slot)
    {
      var f := Next();
      if Effective(f) { slot := slot.(meta := Some(record)); }
      r := Reply(f, ());
    }

    method DeleteMetadata() returns (r: Outcome<()>)
      modifies this
      ensures script == Tail(old(script)) && r == Reply(Head(old(script)), ())
      ensures slot == if Effective(Head(old(script))) then old(slot).(meta := None) else old(slot)
    {
      var f := Next();
      if Effective(f) { slot := slot.(meta := None); }
      r := Reply(f, ());
    }

    method DeleteDatabase() returns (r: Outcome<()>)
      modifies this
      ensures script == Tail(old(script)) && r == Reply(Head(old(script)), ())
      ensures slot == if Effective(Head(old(script))) then old(slot).(db := None) else old(slot)
    {
      var f := Next();
      if Effective(f) { slot := slot.(db := None); }
      r := Reply(f, ());
    }

    method DatabaseExists() returns (r: Outcome<bool>)
      modifies this`script
      ensures script == Tail(old(script)) && r == Reply(Head(old(script)), slot.db.Some?)
    {
      var f := Next();
      r := Reply(f, slot.db.Some?);
    }

    // ---- verification ----

    /** Marker, then size and headers of the object; the bytes themselves are not read. */
    method VerifyMetadata() returns (r: Outcome<Verified>)
      modifies this`script
      ensures script == Tail(old(script))
      ensures r.Done? <==> Reply(Head(old(script)), ()).Done?
      ensures r.Done? ==> (r.value == Missing <==> slot.meta == None)
      ensures r.Done? ==> (r.value.Accepted? <==> Described(slot))
      ensures r.Done? && r.value.Accepted? ==> Some(r.value.record) == slot.meta
    {
      var f := Next();
      if f.Lost? { return Failed; }
      if f.Cut? { return Crashed; }
      if slot.meta == None { return Done(Missing); }
      var record := slot.meta.value;
      if slot.db == None { return Done(Rejected); }
      var stored := slot.db.value;
      if |stored.bytes.bytes| != |record.sha.bytes| || stored.header != record.sha { return Done(Rejected); }
      r := Done(Accepted(record));
    }

    /** Headers, then every byte streamed through a digest. */
    method VerifyDatabaseBytes(sha: Content) returns (r: Outcome<bool>)
      modifies this`script
      ensures script == Tail(old(script)) && r == Reply(Head(old(script)), slot.db == Some(Object(sha, sha)))
    {
      var f := Next();
      if f.Lost? { return Failed; }
      if f.Cut? { return Crashed; }
      if slot.db == None { return Done(false); }
      var stored := slot.db.value;
      if |stored.bytes.bytes| != |sha.bytes| || stored.header != sha { return Done(false); }
      var digested: seq<bv8> := [];
      while |digested| < |stored.bytes.bytes|
        invariant digested <= stored.bytes.bytes
        decreases |stored.bytes.bytes| - |digested|
      {
        var next := Min(|digested| + STREAM_CHUNK_BYTES, |stored.bytes.bytes|);
        digested := digested + stored.bytes.bytes[|digested|..next];
      }
      assert digested == stored.bytes.bytes;
      r := Done(digested == sha.bytes);
    }

    // ---- put ----

    /** Leaves the artifact's own object in place, replacing anything else under its key. */
    method UploadDatabase(artifact: Artifact) returns (r: Outcome<()>)
      requires slot.meta == None
      modifies this
      ensures slot.meta == None
      ensures old(slot).db == Some(Object(artifact.recorded, artifact.recorded)) ==> slot == old(slot)
      ensures old(script) == [] ==>
                r.Done? && script == [] && slot.db == Some(Object(artifact.recorded, artifact.recorded))
      ensures |old(script)| > 3 && old(script)[..3] == [NoFault, NoFault, NoFault] && old(slot).db == None ==>
                r.Done? && script == old(script)[3..] && slot.db == Some(Object(artifact.recorded, artifact.recorded))
    {
      var present :- DatabaseExists();
      if present {
        var intact := VerifyDatabaseBytes(artifact.recorded);
        if intact.Crashed? { return Crashed; }
        if intact.Failed? { return Failed; }
        if !intact.value {
          var _ :- DeleteDatabase();
        }
      }
      present :- DatabaseExists();
      if !present {
        var _ :- PutDatabase(Object(artifact.recorded, artifact.recorded));
      }
      r := Done(());
    }

    /** Readback, then the marker, then the marker read back. */
    method Commit(record: Record) returns (r: Outcome<()>)
      requires slot.meta == None
      modifies this
      ensures Sound(slot) && slot.db == old(slot.db) && slot.meta in {None, Some(record)}
      ensures r.Done? ==> slot == Slot(Some(record), Some(Object(record.sha, record.sha)))
      ensures old(script) == [] ==> script == [] && (r.Done? <==> slot.db == Some(Object(record.sha, record.sha)))
      ensures |old(script)| > 1 && old(script)[0] == NoFault && old(script)[1] == Lost(true)
              && slot.db == Some(Object(record.sha, record.sha)) ==>
                r == Failed && slot.meta == Some(record) && script == old(script)[2..]
    {
      var intact :- VerifyDatabaseBytes(record.sha);
      if !intact { return Failed; }
      var _ :- PutMetadata(record);
      var committed :- VerifyMetadata();
      if committed != Accepted(record) { return Failed; }
      r := Done(());
    }

    /** Best-effort removal after a failed commit; each deletion may fail on its own. */
    method CleanUp() returns (crashed: bool)
      modifies this
      ensures slot.meta in {None, old(slot.meta)} && slot.db in {None, old(slot.db)}
      ensures old(script) == [] ==> script == [] && !crashed && slot == Slot(None, None)
      ensures old(script) == [Lost(false), NoFault] ==> !crashed && slot == old(slot).(db := None)
    {
      var metadata := DeleteMetadata();
      if metadata.Crashed? { return true; }
      var database := DeleteDatabase();
      crashed := database.Crashed?;
    }

    /**
      Commits the artifact, or fails. An accepted marker always has its bytes. A put
      that meets no fault commits exactly when no other marker is in its way; the one
      state an interrupted put can leave that blocks its own repetition is the orphan
      of a half-failed clean-up.
    */
    method Put(artifact: Artifact, release: Option<nat>) returns (r: Outcome<Record>)
      requires Sound(slot)
      modifies this
      ensures Sound(slot)
      ensures r.Done? ==> artifact.file == artifact.recorded && r.value == Record(artifact.recorded, release)
                          && slot == Slot(Some(r.value), Some(Object(r.value.sha, r.value.sha)))
      ensures old(script) == [] && artifact.file == artifact.recorded ==>
                (r.Done? <==> PutConverges(old(slot), Record(artifact.recorded, release)))
      ensures PutConverges(old(slot), Record(artifact.recorded, release)) ==>
                PutConverges(slot, Record(artifact.recorded, release)) || Orphaned(slot)
      ensures old(slot).meta.Some? ==> slot == old(slot)
      ensures old(script) == ORPHANING && old(slot) == Slot(None, None) && artifact.file == artifact.recorded ==>
                r == Failed && Orphaned(slot) && slot.meta == Some(Record(artifact.recorded, release))
    {
      if artifact.file != artifact.recorded { return Failed; }
      var record := Record(artifact.recorded, release);
      var before :- VerifyMetadata();
      if before != Missing {
        if before == Accepted(record) { return Done(record); }
        return Failed;
      }
      var _ :- UploadDatabase(artifact);
      var committed := Commit(record);
      if committed.Crashed? { return Crashed; }
      if committed.Failed? {
        var crashed := CleanUp();
        return if crashed then Crashed else Failed;
      }
      r := Done(record);
    }

    /** Marker first, so an interrupted deletion never orphans; repeating it converges. */
    method Delete() returns (r: Outcome<()>)
      requires Sound(slot)
      modifies this
      ensures Sound(slot)
      ensures r.Done? ==> slot == Slot(None, None)
      ensures old(script) == [] ==> r.Done? && script == []
      ensures Orphaned(slot) ==> Orphaned(old(slot))
      ensures slot.meta in {None, old(slot.meta)} && slot.db in {None, old(slot.db)}
    {
      var _ :- DeleteMetadata();
      var _ :- DeleteDatabase();
      var marker := Next();                            // proving the marker absent
      if marker.Lost? { return Failed; }
      if marker.Cut? { return Crashed; }
      var remaining :- DatabaseExists();
      if slot.meta.Some? || remaining { return Failed; }
      r := Done(());
    }
  }

  /** Put reaches the marker, its reply is lost, and only half of the clean-up gets through. */
  const ORPHANING := [NoFault, NoFault, NoFault, NoFault, NoFault, Lost(true), Lost(false), NoFault]

  /**
    The orphan is reached by one interrupted put into an empty slot. Repeating that
    put without any fault still fails; deleting first clears the way.
  */
  method InterruptedPutOrphans(sha: Content) returns (orphaned: Slot, again: Outcome<Record>, afterDelete: Outcome<Record>)
    ensures Orphaned(orphaned) && orphaned.meta == Some(Record(sha, None))
    ensures !again.Done? && afterDelete == Done(Record(sha, None))
  {
    var remote := new RemoteBackup(Slot(None, None), ORPHANING);
    var _ := remote.Put(Artifact(sha, sha), None);
    orphaned := remote.slot;
    var retry := new RemoteBackup(orphaned, []);
    again := retry.Put(Artifact(sha, sha), None);
    var cleared := new RemoteBackup(orphaned, []);
    var _ := cleared.Delete();
    afterDelete := cleared.Put(Artifact(sha, sha), None);
  }

  /** Any sequence of puts and deletions, each interrupted anywhere: an accepted backup has its recorded bytes. */
  method AcceptedBackupsAreIntact(artifacts: seq<Artifact>, deletions: set<nat>, script: seq<Fault>)
    returns (slot: Slot, verified: Option<Record>)
    ensures Sound(slot)
    ensures verified.Some? ==> slot == Slot(verified, Some(Object(verified.value.sha, verified.value.sha)))
  {
    var remote := new RemoteBackup(Slot(None, None), script);
    for i := 0 to |artifacts|
      invariant Sound(remote.slot)
    {
      if i in deletions {
        var _ := remote.Delete();
      } else {
        var _ := remote.Put(artifacts[i], None);
      }
    }
    slot, verified := remote.slot, None;
    var seen := remote.VerifyMetadata();
    if seen.Done? && seen.value.Accepted? { verified := Some(seen.value.record); }
  }

  // ---- local storage ----

  /** Files of one backup id in the private directory. */
  datatype Files = Files(meta: Option<Content>, db: Option<Content>, staged: Option<Content>)

  predicate LocalSound(f: Files) {
    f.meta.Some? && f.db.Some? ==> f.db.value == f.meta.value
  }

  /** When a deletion with no further fault empties the directory. */
  predicate DeleteConverges(f: Files) {
    f.meta == None || f.db.Some?
  }

  /** How many requests of a script fail or are cut off. */
  function Failures(script: seq<Fault>): nat {
    if script == [] then 0
    else Failures(script[1..]) + if script[0].Lost? || script[0].Cut? then 1 else 0
  }

  /** The private directory, and the faults still to come in it, one for each step. */
  class LocalBackup {
    var files: Files
    var script: seq<Fault>

    constructor (files: Files, script: seq<Fault>)
      ensures this.files == files && this.script == script
    {
      this.files, this.script := files, script;
    }

    method Next() returns (f: Fault)
      modifies this`script
      ensures f == Head(old(script)) && script == Tail(old(script))
      ensures Failures(script) == Failures(old(script)) - if f.Lost? || f.Cut? then 1 else 0
    {
      f := Head(script);
      script := Tail(script);
    }

    /** One step that makes the files what they should be, unless it is lost or cut off. */
    method Step(next: Files) returns (r: Outcome<()>)
      modifies this
      ensures r == Reply(Head(old(script)), ()) && script == Tail(old(script))
      ensures files == if Effective(Head(old(script))) then next else old(files)
      ensures Failures(script) == Failures(old(script)) - if r.Done? then 0 else 1
    {
      var f := Next();
      if Effective(f) { files := next; }
      r := Reply(f, ());
    }

    /** The marker has to be valid and the database file there; its bytes are not read. */
    method Get() returns (r: Option<Content>)
      ensures r.Some? <==> files.meta.Some? && files.db.Some?
      ensures LocalSound(files) && r.Some? ==> files.meta == files.db == r
    {
      if files.meta == None { return None; }
      if files.db == None { return None; }
      r := files.meta;
    }

    /** A database is staged for a later put. */
    method Stage(sha: Content)
      modifies this`files
      ensures files == old(files).(staged := Some(sha))
    {
      files := files.(staged := Some(sha));
    }

    /** Links the staged database, removes the staged name, syncs; then links the marker and syncs. */
    method Publish(sha: Content) returns (r: Outcome<()>)
      requires files == Files(None, None, Some(sha))
      modifies this
      ensures files.meta in {None, Some(sha)} && files.db in {None, Some(sha)} && (files.meta.Some? ==> files.db.Some?)
      ensures r.Done? ==> files == Files(Some(sha), Some(sha), None) && Failures(script) == Failures(old(script))
      ensures Failures(script) == Failures(old(script)) - if r.Done? then 0 else 1
      ensures old(script) == [] ==> r.Done? && script == []
      ensures old(script) == MARKER_LEFT ==> r == Failed && files == Files(Some(sha), Some(sha), None) && script == []
    {
      var _ :- Step(files.(db := files.staged));
      var _ :- Step(files.(staged := None));
      var _ :- Step(files);                              // mode and directory sync
      var _ :- Step(files.(meta := Some(sha)));
      r := Step(files);                                  // unlink of the temporary name, directory sync
    }

    /**
      Database first, marker last; a failure removes the database again if it can.
      Nothing is ever replaced, what a put leaves is its own, and after a single
      failure no database is left that `get` could accept.
    */
    method Put(sha: Content) returns (r: Outcome<Content>)
      requires LocalSound(files) && files.staged == Some(sha)
      modifies this
      ensures LocalSound(files)
      ensures r.Done? ==> r.value == sha && files == Files(Some(sha), Some(sha), None)
      ensures old(files).meta.Some? || old(files).db.Some? ==> r == Failed && files == old(files)
      ensures files.meta in {old(files).meta, Some(sha)} && files.db in {old(files).db, Some(sha)}
      ensures r == Failed && Failures(old(script)) <= 1 ==> files.db == old(files).db
      ensures old(script) == [] ==> script == [] && (r.Done? <==> old(files).meta == None && old(files).db == None)
      ensures old(script) == MARKER_LEFT && old(files).meta == old(files).db == None ==>
                r == Failed && files == Files(Some(sha), None, None)
    {
      if files.db.Some? || files.meta.Some? { return Failed; }
      var published := Publish(sha);
      if published.Crashed? { return Crashed; }
      if published.Failed? {
        var _ := Step(files.(db := None));
        return Failed;
      }
      var kept := Get();
      r := if kept.Some? then Done(kept.value) else Failed;
    }

    /** Refuses a marker without its database; otherwise repeating it converges. */
    method Delete() returns (r: Outcome<()>)
      requires LocalSound(files)
      modifies this
      ensures LocalSound(files)
      ensures r.Done? ==> files.meta == None && files.db == None
      ensures old(script) == [] ==> script == [] && (r.Done? <==> DeleteConverges(old(files)))
      ensures DeleteConverges(old(files)) ==> DeleteConverges(files)
      ensures !DeleteConverges(old(files)) ==> r == Failed && files == old(files)
      ensures files.meta in {None, old(files).meta} && files.db in {None, old(files).db}
    {
      if files.meta == None && files.db == None { return Done(()); }
      if files.meta.Some? && files.db == None { return Failed; }
      var _ :- Step(files.(meta := None));
      var _ :- Step(files.(db := None));
      r := Step(files);                                  // directory sync
    }
  }

  /**
    Any sequence of local puts and deletions, each interrupted anywhere: whatever
    `get` then accepts is one of the contents put, with its database file beside the
    marker, and without a fault or a deletion it is the first.
  */
  method AcceptedLocalBackupsAreIntact(contents: seq<Content>, deletions: set<nat>, script: seq<Fault>)
    returns (files: Files, accepted: Option<Content>)
    ensures LocalSound(files) && (accepted.Some? <==> files.meta.Some? && files.db.Some?)
    ensures accepted.Some? ==> files.meta == files.db == accepted && accepted.value in contents
    ensures script == [] && contents != [] && deletions == {} ==> accepted == Some(contents[0])
  {
    var local := new LocalBackup(Files(None, None, None), script);
    for i := 0 to |contents|
      invariant LocalSound(local.files)
      invariant local.files.meta.Some? ==> local.files.meta.value in contents
      invariant local.files.db.Some? ==> local.files.db.value in contents
      invariant script == [] && deletions == {} ==>
                  local.script == [] && local.files.meta == local.files.db == if i == 0 then None else Some(contents[0])
    {
      if i in deletions {
        var _ := local.Delete();
      } else {
        local.Stage(contents[i]);
        var _ := local.Put(contents[i]);
      }
    }
    files := local.files;
    accepted := local.Get();
  }

  /** Only the last sync of a put fails; its clean-up then removes the database, but not the marker. */
  const MARKER_LEFT := [NoFault, NoFault, NoFault, NoFault, Lost(true)]

  /**
    One put with one fault into an empty directory leaves its marker without the
    database. `get` refuses what is left, and so do a repeated put and a deletion, each
    without any fault of its own.
  */
  method InterruptedLocalPutWedges(sha: Content) returns (left: Files, accepted: Option<Content>, put: bool, deleted: bool)
    ensures left.meta == Some(sha) && left.db == None
    ensures accepted == None && !put && !deleted
  {
    var local := new LocalBackup(Files(None, None, Some(sha)), MARKER_LEFT);
    var _ := local.Put(sha);
    left := local.files;
    accepted := local.Get();
    local.Stage(sha);
    local.script := [];
    var again := local.Put(sha);
    var removal := local.Delete();
    put, deleted := again.Done?, removal.Done?;
  }
}
