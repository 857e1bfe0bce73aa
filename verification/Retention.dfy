/** Backup retention: which backups a release history protects, and what is deleted in which order. */
module Retention {
  import opened Basics
  import opened Releases
  import opened ManualRestores

  /** One verified inventory record; ids have a fixed length, so their order is numeric. */
  datatype Entry = Entry(id: nat, project: string, completed: nat)

  predicate Older(a: Entry, b: Entry) {
    a.completed < b.completed || (a.completed == b.completed && a.id < b.id)
  }

  predicate DistinctIds(s: seq<Entry>) {
    forall i, j :: 0 <= i < j < |s| ==> s[i].id != s[j].id
  }

  predicate Ascending(s: seq<Entry>) {
    forall i, j :: 0 <= i < j < |s| ==> Older(s[i], s[j])
  }

  function Ids(s: seq<Entry>): set<nat> {
    set e <- s :: e.id
  }

  // ---- sorting ----

  function Insert(e: Entry, s: seq<Entry>): seq<Entry> {
    if s == [] || Older(e, s[0]) then [e] + s else [s[0]] + Insert(e, s[1..])
  }

  function Sort(s: seq<Entry>): seq<Entry> {
    if s == [] then [] else Insert(s[0], Sort(s[1..]))
  }

  lemma {:induction false} InsertKeeps(e: Entry, s: seq<Entry>)
    ensures forall x :: x in Insert(e, s) <==> x == e || x in s
    ensures Ascending(s) && (forall x <- s :: x.id != e.id) ==> Ascending(Insert(e, s))
  {
    if s == [] {
    } else if !Older(e, s[0]) {
      InsertKeeps(e, s[1..]);
      assert s == [s[0]] + s[1..];
      if Ascending(s) && forall x <- s :: x.id != e.id {
        var rest := Insert(e, s[1..]);
        assert forall i :: 0 <= i < |s[1..]| ==> s[1..][i] == s[i + 1];
        forall x | x in rest ensures Older(s[0], x) {
          if x != e {
            var i :| 0 <= i < |s[1..]| && s[1..][i] == x;
            assert Older(s[0], s[i + 1]);
          } else {
            assert s[0].id != e.id;
          }
        }
      }
    } else {
      assert forall x <- s :: x == s[0] || x in s[1..];
      if Ascending(s) {
        forall x | x in s ensures Older(e, x) {
          var i :| 0 <= i < |s| && s[i] == x;
          if i > 0 { assert Older(s[0], s[i]); }
        }
      }
    }
  }

  lemma {:induction false} SortSorts(s: seq<Entry>)
    ensures forall x :: x in Sort(s) <==> x in s
    ensures DistinctIds(s) ==> Ascending(Sort(s))
  {
    if s == [] {
    } else {
      SortSorts(s[1..]);
      InsertKeeps(s[0], Sort(s[1..]));
      assert s == [s[0]] + s[1..];
      if DistinctIds(s) {
        assert DistinctIds(s[1..]);
        forall x | x in Sort(s[1..]) ensures x.id != s[0].id {
          var i :| 0 <= i < |s[1..]| && s[1..][i] == x;
          assert s[i + 1] == x;
        }
      }
    }
  }

  /** An ascending sequence is determined by its elements. */
  lemma {:induction false} AscendingIsUnique(a: seq<Entry>, b: seq<Entry>)
    requires Ascending(a) && Ascending(b) && forall x :: x in a <==> x in b
    ensures a == b
  {
    if a == [] {
      NonEmptyHasMember(b);
    } else {
      assert a[0] in b;
      assert b[0] in b;
      FirstIsOldest(b, a[0]);
      FirstIsOldest(a, b[0]);
      forall x ensures x in a[1..] <==> x in b[1..] {
        TailMembers(a, x);
        TailMembers(b, x);
      }
      AscendingIsUnique(a[1..], b[1..]);
      assert a == [a[0]] + a[1..] && b == [b[0]] + b[1..];
    }
  }

  lemma NonEmptyHasMember(s: seq<Entry>)
    ensures s != [] ==> exists x :: x in s
  {
    if s != [] { assert s[0] in s; }
  }

  lemma FirstIsOldest(s: seq<Entry>, x: Entry)
    requires Ascending(s) && x in s
    ensures x == s[0] || Older(s[0], x)
  {
    var i :| 0 <= i < |s| && s[i] == x;
  }

  lemma TailMembers(s: seq<Entry>, x: Entry)
    requires Ascending(s) && s != []
    ensures x in s[1..] <==> x in s && x != s[0]
  {
    if x in s[1..] {
      var i :| 0 <= i < |s[1..]| && s[1..][i] == x;
      assert s[i + 1] == x && Older(s[0], s[i + 1]);
    }
  }

  // ---- the plan ----

  function Select(records: seq<Entry>, want: Entry -> bool): seq<Entry> {
    if records == [] then []
    else if want(records[0]) then [records[0]] + Select(records[1..], want)
    else Select(records[1..], want)
  }

  lemma {:induction false} Selects(records: seq<Entry>, want: Entry -> bool)
    ensures forall x :: x in Select(records, want) <==> x in records && want(x)
    ensures DistinctIds(records) ==> DistinctIds(Select(records, want))
  {
    if records == [] {
    } else {
      Selects(records[1..], want);
      assert records == [records[0]] + records[1..];
      if DistinctIds(records) {
        assert DistinctIds(records[1..]);
        forall x | x in Select(records[1..], want) ensures x.id != records[0].id {
          var i :| 0 <= i < |records[1..]| && records[1..][i] == x;
          assert records[i + 1] == x;
        }
      }
    }
  }

  function Unprotected(records: seq<Entry>, project: string, protected: set<nat>): seq<Entry> {
    Select(records, (e: Entry) => e.project == project && e.id !in protected)
  }

  /** The newest `keep` unprotected backups: a descending sort, cut short. */
  function Kept(records: seq<Entry>, project: string, protected: set<nat>, keep: nat): seq<Entry> {
    var sorted := Sort(Unprotected(records, project, protected));
    sorted[Max(0, |sorted| - keep)..]
  }

  function Retained(records: seq<Entry>, project: string, protected: set<nat>, keep: nat): set<nat> {
    set e <- records | e.id in protected || e.id in Ids(Kept(records, project, protected, keep)) || e.project != project :: e.id
  }

  function Deleted(records: seq<Entry>, project: string, protected: set<nat>, keep: nat): seq<Entry> {
    Sort(Select(records, (e: Entry) => e.project == project && e.id !in Retained(records, project, protected, keep)))
  }

  datatype Plan = Plan(deleted: seq<Entry>, retained: set<nat>)

  /** `None` is the refusal of an inventory with duplicate identities. */
  function PlanInventory(records: seq<Entry>, project: string, protected: set<nat>, keep: nat): Option<Plan> {
    if !DistinctIds(records) then None
    else Some(Plan(Deleted(records, project, protected, keep), Retained(records, project, protected, keep)))
  }

  lemma CutMembers(s: seq<Entry>, cut: nat, i: nat)
    requires cut <= |s| && i < |s|
    ensures if i < cut then s[i] in s[..cut] else s[i] in s[cut..]
  {
    if i < cut { assert s[..cut][i] == s[i]; } else { assert s[cut..][i - cut] == s[i]; }
  }

  lemma OneEntryPerId(records: seq<Entry>, a: Entry, b: Entry)
    requires DistinctIds(records) && a in records && b in records
    ensures a.id == b.id ==> a == b
  {
    var i :| 0 <= i < |records| && records[i] == a;
    var j :| 0 <= j < |records| && records[j] == b;
  }

  /** What is deleted is the oldest part of the sorted unprotected backups, oldest first. */
  lemma DeletedIsOldestPrefix(records: seq<Entry>, project: string, protected: set<nat>, keep: nat)
    requires DistinctIds(records)
    ensures var sorted := Sort(Unprotected(records, project, protected));
            && Ascending(sorted)
            && Deleted(records, project, protected, keep) == sorted[..Max(0, |sorted| - keep)]
  {
    var unprotected := Unprotected(records, project, protected);
    var sorted := Sort(unprotected);
    var cut := Max(0, |sorted| - keep);
    var kept := sorted[cut..];
    var retained := Retained(records, project, protected, keep);
    var doomed := Select(records, (e: Entry) => e.project == project && e.id !in retained);
    Selects(records, (e: Entry) => e.project == project && e.id !in protected);
    Selects(records, (e: Entry) => e.project == project && e.id !in retained);
    SortSorts(unprotected);
    SortSorts(doomed);
    forall x ensures x in doomed <==> x in sorted[..cut] {
      if x in sorted[..cut] {
        var i :| 0 <= i < cut && sorted[i] == x;
        forall y | y in kept ensures y.id != x.id {
          var j :| 0 <= j < |kept| && kept[j] == y;
          assert Older(sorted[i], sorted[cut + j]);
          OneEntryPerId(records, x, y);
        }
        assert x in unprotected && x.id !in Ids(kept);
        forall e | e in records && e.id == x.id ensures e == x { OneEntryPerId(records, e, x); }
        assert x.id !in retained;
      }
      if x in doomed {
        assert x in sorted;
        var i :| 0 <= i < |sorted| && sorted[i] == x;
        CutMembers(sorted, cut, i);
      }
    }
    AscendingIsUnique(Sort(doomed), sorted[..cut]);
  }

  /**
    The plan partitions the inventory, spares every protected and foreign backup,
    and keeps exactly the newest unprotected ones, as many as were asked for.
  */
  lemma PlanIsExact(records: seq<Entry>, project: string, protected: set<nat>, keep: nat)
    requires DistinctIds(records)
    ensures var plan := PlanInventory(records, project, protected, keep).value;
            var unprotected := Unprotected(records, project, protected);
            && Ids(plan.deleted) !! plan.retained && Ids(plan.deleted) + plan.retained == Ids(records)
            && (forall e <- plan.deleted :: e in records && e.project == project && e.id !in protected)
            && |Sort(unprotected)| - |plan.deleted| == Min(keep, |Sort(unprotected)|)
            && (forall old_ <- plan.deleted, e <- unprotected :: e.id in plan.retained ==>
                  old_.completed < e.completed || (old_.completed == e.completed && old_.id < e.id))
  {
    DoomedExactly(records, project, protected, keep);
    DeletedIsOldestPrefix(records, project, protected, keep);
    DeletedAreOlder(records, project, protected, keep);
    var retained := Retained(records, project, protected, keep);
    var deleted := Deleted(records, project, protected, keep);
    forall id ensures id in Ids(deleted) + retained <==> id in Ids(records) {
      if id in Ids(records) {
        var e :| e in records && e.id == id;
        if id !in retained { assert e in deleted; }
      }
    }
  }

  lemma DoomedExactly(records: seq<Entry>, project: string, protected: set<nat>, keep: nat)
    ensures forall e :: e in Deleted(records, project, protected, keep)
                        <==> e in records && e.project == project && e.id !in Retained(records, project, protected, keep)
  {
    var retained := Retained(records, project, protected, keep);
    Selects(records, (e: Entry) => e.project == project && e.id !in retained);
    SortSorts(Select(records, (e: Entry) => e.project == project && e.id !in retained));
  }

  lemma DeletedAreOlder(records: seq<Entry>, project: string, protected: set<nat>, keep: nat)
    requires DistinctIds(records)
    ensures forall old_ <- Deleted(records, project, protected, keep), e <- Unprotected(records, project, protected) ::
              e.id in Retained(records, project, protected, keep) ==> Older(old_, e)
  {
    var unprotected := Unprotected(records, project, protected);
    var sorted := Sort(unprotected);
    var deleted := Deleted(records, project, protected, keep);
    DoomedExactly(records, project, protected, keep);
    DeletedIsOldestPrefix(records, project, protected, keep);
    SortSorts(unprotected);
    hide Deleted, Retained, Sort, Unprotected;
    forall old_, e | old_ in deleted && e in unprotected && e.id in Retained(records, project, protected, keep)
      ensures Older(old_, e)
    {
      var i :| 0 <= i < |deleted| && sorted[i] == old_;
      var j :| 0 <= j < |sorted| && sorted[j] == e;
      CutMembers(sorted, |deleted|, j);
    }
  }

  // ---- interruption ----

  /** `rest` is the inventory once the first `k` planned deletions are done. */
  ghost predicate DeletedUpTo(records: seq<Entry>, deleted: seq<Entry>, k: nat, rest: seq<Entry>)
    requires k <= |deleted|
  {
    DistinctIds(rest) && forall x :: x in rest <==> x in records && x !in deleted[..k]
  }

  /**
    Deletions run oldest first, so planning again after any prefix of them deletes
    exactly the others and retains exactly the same; after all of them, nothing.
  */
  lemma ReplanYieldsTheRest(
      records: seq<Entry>, project: string, protected: set<nat>, keep: nat, k: nat, rest: seq<Entry>)
    requires DistinctIds(records) && k <= |Deleted(records, project, protected, keep)|
    requires DeletedUpTo(records, Deleted(records, project, protected, keep), k, rest)
    ensures Deleted(rest, project, protected, keep) == Deleted(records, project, protected, keep)[k..]
    ensures Retained(rest, project, protected, keep) == Retained(records, project, protected, keep)
  {
    var deleted := Deleted(records, project, protected, keep);
    var sorted := Sort(Unprotected(records, project, protected));
    var sorted' := Sort(Unprotected(rest, project, protected));
    DeletedIsOldestPrefix(records, project, protected, keep);
    DeletedIsOldestPrefix(rest, project, protected, keep);
    Selects(records, (e: Entry) => e.project == project && e.id !in protected);
    Selects(rest, (e: Entry) => e.project == project && e.id !in protected);
    SortSorts(Unprotected(records, project, protected));
    SortSorts(Unprotected(rest, project, protected));
    assert deleted[..k] == sorted[..k];
    forall x ensures x in sorted' <==> x in sorted[k..] { SuffixMembers(sorted, k, x); }
    AscendingIsUnique(sorted', sorted[k..]);
    assert deleted[k..] == sorted'[..Max(0, |sorted'| - keep)];
    SameRetained(records, project, protected, keep, deleted[..k], rest);
  }

  lemma SuffixMembers(s: seq<Entry>, k: nat, x: Entry)
    requires Ascending(s) && k <= |s|
    ensures x in s[k..] <==> x in s && x !in s[..k]
  {
    if x in s[k..] {
      var i :| 0 <= i < |s[k..]| && s[k..][i] == x;
      assert s[k + i] == x;
      forall j | 0 <= j < k ensures s[..k][j] != x { assert Older(s[j], s[k + i]); }
    }
    if x in s && x !in s[..k] {
      var i :| 0 <= i < |s| && s[i] == x;
      CutMembers(s, k, i);
    }
  }

  /** Partition on both sides leaves the retained identities equal. */
  lemma SameRetained(
      records: seq<Entry>, project: string, protected: set<nat>, keep: nat, gone: seq<Entry>, rest: seq<Entry>)
    requires DistinctIds(records) && DistinctIds(rest)
    requires forall x :: x in rest <==> x in records && x !in gone
    requires gone <= Deleted(records, project, protected, keep)
    requires Deleted(rest, project, protected, keep) == Deleted(records, project, protected, keep)[|gone|..]
    ensures Retained(rest, project, protected, keep) == Retained(records, project, protected, keep)
  {
    PlanIsExact(records, project, protected, keep);
    PlanIsExact(rest, project, protected, keep);
    var deleted := Deleted(records, project, protected, keep);
    assert deleted == gone + deleted[|gone|..];
    assert Ids(deleted) == Ids(gone) + Ids(deleted[|gone|..]);
    forall id ensures id in Ids(records) - Ids(deleted) <==> id in Ids(rest) - Ids(deleted[|gone|..]) {
      if id in Ids(records) - Ids(deleted) {
        var e :| e in records && e.id == id;
        assert e !in gone && e in rest;
      }
      if id in Ids(rest) && id in Ids(gone) {
        var e :| e in rest && e.id == id;
        var g :| g in gone && g.id == id;
        assert g in deleted;
        OneEntryPerId(records, e, g);
      }
    }
    assert Retained(records, project, protected, keep) == Ids(records) - Ids(deleted);
    assert Retained(rest, project, protected, keep) == Ids(rest) - Ids(deleted[|gone|..]);
  }

  // ---- protection ----

  function BackupsOf(m: Manifest): set<nat> {
    (if m.rehearsalBackup.Some? then {m.rehearsalBackup.value.id} else {})
    + (if m.finalBackup.Some? then {m.finalBackup.value.id} else {})
  }

  function Selected(pointers: Option<Pointers>): seq<nat> {
    if pointers == None then []
    else [pointers.value.active] + (if pointers.value.previous.Some? then [pointers.value.previous.value] else [])
  }

  function ProtectedBy(manifests: map<nat, Manifest>, ids: seq<nat>): set<nat> {
    if ids == [] then {}
    else (if ids[0] in manifests then BackupsOf(manifests[ids[0]]) else {}) + ProtectedBy(manifests, ids[1..])
  }

  lemma {:induction false} SelectedAreProtected(manifests: map<nat, Manifest>, ids: seq<nat>)
    ensures forall id <- ids :: id in manifests ==> BackupsOf(manifests[id]) <= ProtectedBy(manifests, ids)
  {
    if ids == [] {
    } else {
      SelectedAreProtected(manifests, ids[1..]);
      assert ids == [ids[0]] + ids[1..];
    }
  }

  /** The release names this backup, as the one of its rehearsal or as its final one. */
  predicate Names(m: Manifest, backup: nat) {
    || (m.rehearsalBackup.Some? && m.rehearsalBackup.value.id == backup)
    || (m.finalBackup.Some? && m.finalBackup.value.id == backup)
  }

  lemma {:induction false} ProtectedIsNamed(manifests: map<nat, Manifest>, ids: seq<nat>)
    ensures forall backup: nat :: backup in ProtectedBy(manifests, ids)
                                  <==> exists id <- ids :: id in manifests && Names(manifests[id], backup)
  {
    if ids == [] {
    } else {
      ProtectedIsNamed(manifests, ids[1..]);
      assert ids == [ids[0]] + ids[1..];
    }
  }

  /** Whether a selected release is missing, or belongs to another project. */
  predicate Unresolved(manifests: map<nat, Manifest>, projectOf: nat -> string, project: string, id: nat) {
    id !in manifests || projectOf(id) != project
  }

  /** Backups named by the active and the previous release; both must be known and of this project. */
  method ProtectedBackupIds(
      manifests: map<nat, Manifest>, projectOf: nat -> string, pointers: Option<Pointers>, project: string)
    returns (r: Option<set<nat>>)
    ensures r == None <==> exists id <- Selected(pointers) :: Unresolved(manifests, projectOf, project, id)
    ensures r.Some? ==> r.value == ProtectedBy(manifests, Selected(pointers))
    ensures r.Some? && pointers == None ==> r.value == {}
    ensures r.Some? && pointers.Some? ==>
              var active, previous := pointers.value.active, pointers.value.previous;
              && active in manifests && (previous.Some? ==> previous.value in manifests)
              && forall backup: nat ::
                   backup in r.value <==>
                     || Names(manifests[active], backup)
                     || (previous.Some? && Names(manifests[previous.value], backup))
  {
    var selected, protected := Selected(pointers), {};
    for i := 0 to |selected|
      invariant forall j :: 0 <= j < i ==> !Unresolved(manifests, projectOf, project, selected[j])
      invariant protected + ProtectedBy(manifests, selected[i..]) == ProtectedBy(manifests, selected)
    {
      if selected[i] !in manifests || projectOf(selected[i]) != project {
        assert Unresolved(manifests, projectOf, project, selected[i]);
        return None;
      }
      protected := protected + BackupsOf(manifests[selected[i]]);
    }
    ProtectedIsNamed(manifests, selected);
    if pointers.Some? {
      assert selected[0] == pointers.value.active && !Unresolved(manifests, projectOf, project, selected[0]);
      if pointers.value.previous.Some? {
        assert selected[1] == pointers.value.previous.value && !Unresolved(manifests, projectOf, project, selected[1]);
      }
      forall backup: nat
        ensures (exists id <- selected :: id in manifests && Names(manifests[id], backup)) <==>
                  || Names(manifests[pointers.value.active], backup)
                  || (pointers.value.previous.Some? && Names(manifests[pointers.value.previous.value], backup))
      {
        assert pointers.value.active in selected;
        assert forall id <- selected :: id == pointers.value.active || Some(id) == pointers.value.previous;
      }
    }
    r := Some(protected);
  }

  /** The backups of one storage; `faults` bounds how often a deletion may still fail. */
  class Inventory {
    var records: seq<Entry>
    var faults: nat

    constructor (records: seq<Entry>, faults: nat)
      ensures this.records == records && this.faults == faults
    {
      this.records, this.faults := records, faults;
    }

    /** A deletion happens completely, or is reported as failed either way. */
    method Delete(id: nat) returns (ok: bool)
      modifies this
      ensures records == old(records) || records == Select(old(records), (e: Entry) => e.id != id)
      ensures ok ==> records == Select(old(records), (e: Entry) => e.id != id)
      ensures faults <= old(faults) && (ok || faults < old(faults))
    {
      if { case faults > 0 => faults := faults - 1; return false; case true => }
      records := Select(records, (e: Entry) => e.id != id);
      if { case faults > 0 => faults := faults - 1; return false; case true => }
      ok := true;
    }
  }

  datatype RetentionOutcome = RetentionRefused | RetentionInterrupted | RetentionCompleted

  /** The first `done` planned deletions were carried out, and planning again yields exactly the others. */
  ghost predicate Pruned(
      before: seq<Entry>, project: string, protected: set<nat>, keep: nat, done: nat, now: seq<Entry>)
  {
    var deleted := Deleted(before, project, protected, keep);
    && done <= |deleted| && DeletedUpTo(before, deleted, done, now)
    && Deleted(now, project, protected, keep) == deleted[done..]
    && Retained(now, project, protected, keep) == Retained(before, project, protected, keep)
  }

  /** Carries out one inventory's plan, oldest first; the first failure stops it. */
  method Prune(inventory: Inventory, deleted: seq<Entry>, ghost project: string, ghost protected: set<nat>, ghost keep: nat)
    returns (ok: bool, ghost done: nat)
    requires DistinctIds(inventory.records) && deleted == Deleted(inventory.records, project, protected, keep)
    modifies inventory
    ensures Pruned(old(inventory.records), project, protected, keep, done, inventory.records)
    ensures ok ==> done == |deleted|
    ensures inventory.faults <= old(inventory.faults) && (ok || inventory.faults < old(inventory.faults))
  {
    ghost var before := inventory.records;
    PlanIsExact(before, project, protected, keep);
    DeletedIsOldestPrefix(before, project, protected, keep);
    var i := 0;
    ok, done := true, 0;
    while i < |deleted| && ok
      invariant 0 <= i <= |deleted| && done <= |deleted| && (ok ==> done == i)
      invariant inventory.faults <= old(inventory.faults) && (ok || inventory.faults < old(inventory.faults))
      invariant DeletedUpTo(before, deleted, done, inventory.records)
      decreases |deleted| - i, ok
    {
      DeletesOne(before, deleted, i, inventory.records);
      ghost var was := inventory.records;
      ok := inventory.Delete(deleted[i].id);
      if inventory.records != was || ok { done := i + 1; }
      i := i + 1;
    }
    ReplanYieldsTheRest(before, project, protected, keep, done, inventory.records);
  }

  /**
    Plans both inventories before it deletes anything, then deletes the local
    backups and after all of them the remote ones, oldest first. Stopped anywhere,
    some prefix of each plan is done and a repetition plans exactly the others.
  */
  method ApplyRetention(
      manifests: map<nat, Manifest>, projectOf: nat -> string, pointers: Option<Pointers>, project: string, keep: nat,
      local: Inventory, remote: Inventory?)
    returns (outcome: RetentionOutcome, ghost localDone: nat, ghost remoteDone: nat)
    requires local != remote
    modifies local, remote
    ensures outcome == RetentionRefused <==>
              || keep < 1 || (exists id <- Selected(pointers) :: Unresolved(manifests, projectOf, project, id))
              || !DistinctIds(old(local.records)) || (remote != null && !DistinctIds(old(remote.records)))
    ensures outcome == RetentionRefused ==>
              local.records == old(local.records) && (remote != null ==> remote.records == old(remote.records))
    ensures outcome == RetentionInterrupted ==>
              old(local.faults) > 0 || (remote != null && old(remote.faults) > 0)
    ensures outcome != RetentionRefused ==>
              var protected := ProtectedBy(manifests, Selected(pointers));
              && Pruned(old(local.records), project, protected, keep, localDone, local.records)
              && (remote != null ==> Pruned(old(remote.records), project, protected, keep, remoteDone, remote.records))
              && (remote != null && remoteDone > 0 ==> localDone == |Deleted(old(local.records), project, protected, keep)|)
              && (outcome == RetentionCompleted ==>
                    && localDone == |Deleted(old(local.records), project, protected, keep)|
                    && (remote != null ==> remoteDone == |Deleted(old(remote.records), project, protected, keep)|))
  {
    hide Pruned;
    outcome, localDone, remoteDone := RetentionRefused, 0, 0;
    if keep < 1 { return; }
    var protected := ProtectedBackupIds(manifests, projectOf, pointers, project);
    if protected == None { return; }
    var plan := PlanInventory(local.records, project, protected.value, keep);
    var remotePlan :=
      if remote == null then Some(Plan([], {})) else PlanInventory(remote.records, project, protected.value, keep);
    if plan == None || remotePlan == None { return; }
    if remote != null { NothingPruned(remote.records, project, protected.value, keep); }
    var ok;
    ok, localDone := Prune(local, plan.value.deleted, project, protected.value, keep);
    if ok && remote != null {
      ok, remoteDone := Prune(remote, remotePlan.value.deleted, project, protected.value, keep);
    }
    outcome := if ok then RetentionCompleted else RetentionInterrupted;
  }

  lemma NothingPruned(records: seq<Entry>, project: string, protected: set<nat>, keep: nat)
    requires DistinctIds(records)
    ensures Pruned(records, project, protected, keep, 0, records)
  {
  }

  lemma DeletesOne(before: seq<Entry>, deleted: seq<Entry>, i: nat, records: seq<Entry>)
    requires DistinctIds(before) && i < |deleted| && (forall e <- deleted :: e in before)
    requires DeletedUpTo(before, deleted, i, records)
    ensures DeletedUpTo(before, deleted, i + 1, Select(records, (e: Entry) => e.id != deleted[i].id))
  {
    var rest := Select(records, (e: Entry) => e.id != deleted[i].id);
    Selects(records, (e: Entry) => e.id != deleted[i].id);
    assert deleted[..i + 1] == deleted[..i] + [deleted[i]];
    forall x | x in before ensures x in rest <==> x !in deleted[..i + 1] {
      OneEntryPerId(before, x, deleted[i]);
    }
  }

  // ---- over any history ----

  datatype Era = Era(manifests: map<nat, Manifest>, pointers: Option<Pointers>, inventory: seq<Entry>)

  /** What can happen to the history between two looks at it. */
  datatype Turn =
    | Unfinished(manifest: Manifest, backups: seq<Entry>)
    | Deployed(manifest: Manifest, backups: seq<Entry>, project: string, keep: nat, done: nat, rest: seq<Entry>)
    | Restored(id: nat, found: Option<FoundBackup>)

  function Protected(era: Era): set<nat> {
    ProtectedBy(era.manifests, Selected(era.pointers))
  }

  function Activated(era: Era, m: Manifest, backups: seq<Entry>): Era {
    Era(era.manifests[m.releaseId := m],
        Reselected(era.pointers, m.releaseId),
        era.inventory + backups)
  }

  /** New ids are fresh, an activated release names its own backups, and retention runs after activation. */
  ghost predicate Possible(era: Era, turn: Turn) {
    match turn
    case Unfinished(m, backups) =>
      m.releaseId !in era.manifests && DistinctIds(era.inventory + backups)
    case Deployed(m, backups, project, keep, done, rest) =>
      && m.releaseId !in era.manifests && DistinctIds(era.inventory + backups)
      && m.finalBackup.Some? && BackupsOf(m) <= Ids(backups)
      && var next := Activated(era, m, backups);
         var deleted := Deleted(next.inventory, project, Protected(next), keep);
         done <= |deleted| && DeletedUpTo(next.inventory, deleted, done, rest)
    case Restored(id, found) => PreviewAccepts(era.manifests, era.pointers, id, found)
  }

  function After(era: Era, turn: Turn): Era {
    match turn
    case Unfinished(m, backups) =>
      era.(manifests := era.manifests[m.releaseId := m], inventory := era.inventory + backups)
    case Deployed(m, backups, _, _, _, rest) => Activated(era, m, backups).(inventory := rest)
    case Restored(id, _) =>
      era.(pointers := Reselected(era.pointers, id))
  }

  /** Both selected releases are known and the backups they name are still there. */
  predicate Guarded(era: Era) {
    && DistinctIds(era.inventory)
    && forall id <- Selected(era.pointers) ::
         && id in era.manifests
         && BackupsOf(era.manifests[id]) <= Ids(era.inventory)
  }

  lemma TurnKeepsGuarded(era: Era, turn: Turn)
    requires Guarded(era) && Possible(era, turn)
    ensures Guarded(After(era, turn))
  {
    match turn
    case Unfinished(m, backups) =>
    case Deployed(m, backups, project, keep, done, rest) =>
      var next := Activated(era, m, backups);
      assert forall e :: e in next.inventory <==> e in era.inventory || e in backups;
      PlanIsExact(next.inventory, project, Protected(next), keep);
      var protected := Protected(next);
      SelectedAreProtected(next.manifests, Selected(next.pointers));
      forall e | e in next.inventory && e.id in protected ensures e in rest {
        assert e !in Deleted(next.inventory, project, protected, keep);
      }
    case Restored(_, _) =>
  }

  function History(era: Era, turns: seq<Turn>): Era
    decreases |turns|
  {
    if turns == [] then era else History(After(era, turns[0]), turns[1..])
  }

  ghost predicate AllPossible(era: Era, turns: seq<Turn>)
    decreases |turns|
  {
    turns == [] || (Possible(era, turns[0]) && AllPossible(After(era, turns[0]), turns[1..]))
  }

  /**
    Over every history of deployments, pruned partly or completely, and manual
    restores: whenever a restore preview is accepted, the final backup it needs has
    not been deleted.
  */
  lemma {:induction false} AcceptedRestoreHasItsBackup(era: Era, turns: seq<Turn>, id: nat, found: Option<FoundBackup>)
    requires Guarded(era) && AllPossible(era, turns)
    ensures var last := History(era, turns);
            && Guarded(last)
            && (PreviewAccepts(last.manifests, last.pointers, id, found) ==>
                  last.manifests[last.pointers.value.active].finalBackup.value.id in Ids(last.inventory))
    decreases |turns|
  {
    if turns == [] {
    } else {
      TurnKeepsGuarded(era, turns[0]);
      AcceptedRestoreHasItsBackup(After(era, turns[0]), turns[1..], id, found);
    }
  }
}
