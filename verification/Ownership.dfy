/**
  Who may act: the kernel lock with its owner record, under any interleaving of
  processes, and the operations that successive lock holders leave behind.
*/
module Ownership {
  import opened Basics
  import opened Operations

  datatype OwnerRecord = OwnerRecord(token: nat, operation: nat, active: bool)

  /** One `DeploymentLock` instance: its descriptor and what it read and wrote. */
  datatype Process = Process(descriptor: bool, previous: Option<OwnerRecord>, owner: Option<OwnerRecord>)

  datatype Inspection = Idle | HeldByOther | StaleOwner

  datatype Step =
    | Acquire(process: nat)
    | Record(process: nat, operation: nat, replace: Option<nat>)
    | Release(process: nat)
    | Die(process: nat)

  function Last(s: seq<nat>): nat
    requires s != []
  {
    s[|s| - 1]
  }

  class LockDirectory {
    var held: Option<nat>
    var owner: Option<OwnerRecord>
    var processes: map<nat, Process>
    var nextToken: nat
    /** How often a write may still fail. */
    var faults: nat
    /** Every token ever recorded, in order, and those whose holder released them. */
    ghost var recorded: seq<nat>
    ghost var released: set<nat>

    /** Mutual exclusion, and an owner file that tells the truth about the last recorded owner. */
    ghost predicate Valid()
      reads this
    {
      && (forall p <- processes :: processes[p].descriptor <==> held == Some(p))
      && (held.Some? ==> held.value in processes)
      && (forall p <- processes :: processes[p].descriptor && processes[p].owner.Some? ==>
            owner == processes[p].owner && owner.value.active)
      && (owner == None <==> recorded == [])
      && (owner.Some? ==> owner.value.token == Last(recorded) && (owner.value.active <==> owner.value.token !in released))
      && (forall t <- recorded :: t < nextToken) && (forall t <- released :: t < nextToken)
    }

    constructor (faults: nat)
      ensures Valid() && recorded == [] && processes == map[] && this.faults == faults
    {
      held, owner, processes, nextToken, recorded, released := None, None, map[], 0, [], {};
      this.faults := faults;
    }

    /** What an instance needs before it may record an owner: the lock, unchanged evidence, and the token of a stale record. */
    predicate MayRecord(p: nat, replace: Option<nat>)
      reads this`processes, this`owner
    {
      && p in processes && processes[p].descriptor && processes[p].owner == None && owner == processes[p].previous
      && replace == if owner.Some? && owner.value.active then Some(owner.value.token) else None
    }

    /** Nonblocking: fails while another instance holds the lock. */
    method Acquire(p: nat) returns (ok: bool)
      requires Valid() && (p in processes ==> !processes[p].descriptor)
      modifies this
      ensures Valid() && owner == old(owner) && recorded == old(recorded) && released == old(released)
      ensures ok <==> old(held) == None
      ensures ok ==> held == Some(p) && processes == old(processes)[p := Process(true, owner, None)]
      ensures !ok ==> held == old(held) && processes == old(processes)
    {
      if held.Some? { return false; }
      held := Some(p);
      processes := processes[p := Process(true, owner, None)];
      ok := true;
    }

    /** Replaces an active record only under its exact token; a failed sync may leave the new record behind. */
    method RecordOwner(p: nat, operation: nat, replace: Option<nat>) returns (ok: bool)
      requires Valid()
      modifies this
      ensures Valid() && held == old(held) && released == old(released) && old(recorded) <= recorded
      ensures processes.Keys == old(processes).Keys
      ensures ok ==> p in processes && owner.Some? && owner == processes[p].owner && owner.value.active
                     && owner.value.operation == operation && recorded == old(recorded) + [owner.value.token]
                     && owner.value.token !in old(recorded)
      ensures !old(MayRecord(p, replace)) ==> !ok && unchanged(this)
      ensures old(MayRecord(p, replace)) && old(faults) == 0 ==> ok
      ensures owner == old(owner) || owner == Some(OwnerRecord(old(nextToken), operation, true))
      ensures owner != old(owner) && old(owner).Some? && old(owner).value.active ==>
                replace == Some(old(owner).value.token)
      ensures faults <= old(faults)
    {
      if p !in processes || !processes[p].descriptor || processes[p].owner.Some? { return false; }
      if owner != processes[p].previous { return false; }
      if owner.Some? && owner.value.active {
        if replace != Some(owner.value.token) { return false; }
      } else if replace.Some? {
        return false;
      }
      if { case faults > 0 => faults := faults - 1; return false; case true => }     // not replaced
      owner := Some(OwnerRecord(nextToken, operation, true));
      recorded := recorded + [nextToken];
      nextToken := nextToken + 1;
      if { case faults > 0 => faults := faults - 1; return false; case true => }     // replaced, directory sync failed
      processes := processes[p := processes[p].(owner := owner)];
      ok := true;
    }

    /**
      Finalizes the record this instance wrote, then always drops the kernel lock.
      It reports success exactly if its record, if it has one, was finalized without a
      failure; a stale record of somebody else is left as it is.
    */
    method Release(p: nat) returns (ok: bool)
      requires Valid()
      modifies this
      ensures Valid() && recorded == old(recorded) && processes.Keys == old(processes).Keys
      ensures p !in old(processes) || !old(processes)[p].descriptor ==> ok && unchanged(this)
      ensures p in old(processes) && old(processes)[p].descriptor ==>
                && held == None && processes == old(processes)[p := old(processes)[p].(descriptor := false)]
                && match old(processes)[p].owner
                   case None => ok && owner == old(owner) && released == old(released)
                   case Some(mine) =>
                     && (ok ==> owner == Some(mine.(active := false)) && released == old(released) + {mine.token})
                     && (|| (owner == old(owner) && released == old(released))
                         || (owner == Some(mine.(active := false)) && released == old(released) + {mine.token}))
      ensures old(faults) == 0 ==> ok
      ensures owner != old(owner) ==> old(owner).Some? && old(owner).value.token in released
    {
      ok := true;
      if p !in processes || !processes[p].descriptor { return; }
      if processes[p].owner.Some? { ok := Finalize(); }
      held := None;
      processes := processes[p := processes[p].(descriptor := false)];
    }

    /** The owner record becomes a released one; a failed sync may leave it so. */
    method Finalize() returns (ok: bool)
      requires Valid() && held.Some? && processes[held.value].owner.Some?
      modifies this`owner, this`released, this`faults
      ensures || (owner == old(owner) && released == old(released))
              || (owner == Some(old(owner).value.(active := false)) && released == old(released) + {old(owner).value.token})
      ensures ok ==> owner == Some(old(owner).value.(active := false))
      ensures forall t <- released :: t < nextToken
      ensures faults <= old(faults) && (ok || faults < old(faults))
    {
      if { case faults > 0 => faults := faults - 1; return false; case true => }
      assert owner.value.token in recorded;
      released := released + {owner.value.token};
      owner := Some(owner.value.(active := false));
      if { case faults > 0 => faults := faults - 1; return false; case true => }
      ok := true;
    }

    /** The kernel drops the lock of a process that dies; nothing is written. */
    method Die(p: nat)
      requires Valid()
      modifies this
      ensures Valid() && owner == old(owner) && recorded == old(recorded) && released == old(released)
      ensures held == (if old(held) == Some(p) then None else old(held))
      ensures p !in processes
    {
      if held == Some(p) { held := None; }
      processes := processes - {p};
    }

    /** Read-only: a stale owner is reported exactly when the lock is free and its last owner never released. */
    method Inspect() returns (state: Inspection)
      requires Valid()
      ensures state == HeldByOther <==> held.Some?
      ensures state == StaleOwner <==> held == None && recorded != [] && Last(recorded) !in released
    {
      if held.Some? { return HeldByOther; }
      state := if owner.Some? && owner.value.active then StaleOwner else Idle;
    }

    /** Any interleaving: at most one holder at every point, and no active record lost without its token. */
    method Interleave(steps: seq<Step>)
      requires Valid()
      modifies this
      ensures Valid()
      ensures forall p <- processes, q <- processes :: processes[p].descriptor && processes[q].descriptor ==> p == q
      ensures old(recorded) <= recorded
      ensures owner != old(owner) && old(owner).Some? && old(owner).value.active ==>
                || old(owner).value.token in released
                || exists i :: 0 <= i < |steps| && steps[i].Record? && steps[i].replace == Some(old(owner).value.token)
    {
      for i := 0 to |steps|
        invariant Valid() && old(recorded) <= recorded && old(released) <= released
        invariant owner != old(owner) && old(owner).Some? && old(owner).value.active ==>
                    || old(owner).value.token in released
                    || exists j :: 0 <= j < i && steps[j].Record? && steps[j].replace == Some(old(owner).value.token)
      {
        match steps[i]
        case Acquire(p) =>
          if p !in processes || !processes[p].descriptor { var _ := Acquire(p); }
        case Record(p, operation, replace) =>
          var _ := RecordOwner(p, operation, replace);
        case Release(p) =>
          var _ := Release(p);
        case Die(p) =>
          Die(p);
      }
    }
  }

  // ---- successive holders ----

  datatype Kind = DeployKind | RecoverKind | OtherKind

  datatype Source = Source(operation: nat, release: nat)

  /** Operations are numbered in creation order; a recovery's first event names its source. */
  datatype Recorded = Recorded(kind: Kind, status: OperationStatus, source: Option<Source>)

  /** At most one operation is unfinished, and it is the newest. */
  predicate OnlyNewestUnfinished(operations: seq<Recorded>) {
    forall i :: 0 <= i < |operations| - 1 ==> operations[i].status != InProgress
  }

  /** Same operations, some unfinished ones of the plan's lineage superseded. */
  predicate Superseding(before: seq<Recorded>, after: seq<Recorded>, plan: Source) {
    && |after| == |before|
    && forall i :: 0 <= i < |before| ==>
         || after[i] == before[i]
         || (&& before[i].status == InProgress && (i == plan.operation || before[i].kind == RecoverKind)
             && after[i] == before[i].(status := OperationNeedsRecovery))
  }

  /** Which stale record a recovery of `plan` may replace: its own deploy, or an unfinished recovery of the same. */
  predicate MayReplace(owner: OwnerRecord, operations: seq<Recorded>, plan: Source) {
    || owner.operation == plan.operation
    || (&& owner.operation < |operations| && operations[owner.operation].kind == RecoverKind
        && operations[owner.operation].status == InProgress && operations[owner.operation].source == Some(plan))
  }

  /** Diagnosis only ever plans the recovery of a deployment. */
  predicate Plannable(operations: seq<Recorded>, plan: Source) {
    plan.operation < |operations| && operations[plan.operation].kind == DeployKind
  }

  datatype Ending = Finished(status: OperationStatus) | RefusedToStart | Died

  /** The owner record every command writes once its operation exists. */
  predicate Owns(owner: Option<OwnerRecord>, operation: nat, active: bool) {
    owner.Some? && owner.value.operation == operation && owner.value.active == active
  }

  /** What the successive holders of the lock leave in the state directory. */
  class OperationDirectory {
    var owner: Option<OwnerRecord>
    var operations: seq<Recorded>
    var nextToken: nat

    constructor ()
      ensures operations == [] && owner == None
    {
      owner, operations, nextToken := None, [], 0;
    }

    method RecordOwner()
      requires operations != []
      modifies this`owner, this`nextToken
      ensures Owns(owner, |operations| - 1, true)
    {
      owner := Some(OwnerRecord(nextToken, |operations| - 1, true));
      nextToken := nextToken + 1;
    }

    /**
      A deployment, restore, rehearsal or other command that ends with `status`, or
      dies before step `cut`: creating the operation, recording the owner, the
      terminal record, the release of the owner.
    */
    method RunCommand(kind: Kind, status: OperationStatus, cut: nat) returns (ending: Ending)
      requires OnlyNewestUnfinished(operations) && kind != RecoverKind && status != InProgress
      modifies this
      ensures OnlyNewestUnfinished(operations)
      ensures ending == RefusedToStart <==>
                || (old(owner).Some? && old(owner).value.active)
                || (old(operations) != [] && old(operations)[|old(operations)| - 1].status in {InProgress, OperationNeedsRecovery})
      ensures ending == RefusedToStart || cut == 0 ==> operations == old(operations) && owner == old(owner)
      ensures ending != RefusedToStart ==> (ending == if cut < 4 then Died else Finished(status))
      ensures ending != RefusedToStart && cut > 0 ==>
                && operations == old(operations) + [Recorded(kind, if cut < 3 then InProgress else status, None)]
                && (if cut == 1 then owner == old(owner) else Owns(owner, |old(operations)|, cut < 4))
    {
      if owner.Some? && owner.value.active { return RefusedToStart; }
      if operations != [] && operations[|operations| - 1].status in {InProgress, OperationNeedsRecovery} {
        return RefusedToStart;
      }
      if cut == 0 { return Died; }
      operations := operations + [Recorded(kind, InProgress, None)];
      if cut == 1 { return Died; }
      RecordOwner();
      if cut == 2 { return Died; }
      operations := operations[|operations| - 1 := Recorded(kind, status, None)];
      if cut == 3 { return Died; }
      owner := Some(owner.value.(active := false));
      ending := Finished(status);
    }

    /** Supersedes every unfinished operation, newest first; an unrelated one refuses, and the process may die on the way. */
    method Supersede(plan: Source, mayDie: bool) returns (ok: bool, died: bool)
      requires OnlyNewestUnfinished(operations)
      modifies this`operations
      ensures OnlyNewestUnfinished(operations) && Superseding(old(operations), operations, plan)
      ensures ok ==> !died && forall i :: 0 <= i < |operations| ==> operations[i].status != InProgress
      ensures !ok && !died ==>
                exists i :: (&& 0 <= i < |operations| && i != plan.operation
                             && operations[i].status == InProgress && operations[i].kind != RecoverKind)
      ensures died ==> mayDie
    {
      ok, died := false, false;
      var i := |operations|;
      while i > 0
        invariant 0 <= i <= |operations| == |old(operations)|
        invariant OnlyNewestUnfinished(operations) && Superseding(old(operations), operations, plan)
        invariant forall k :: i <= k < |operations| ==> operations[k].status != InProgress
      {
        i := i - 1;
        if operations[i].status == InProgress {
          if i != plan.operation && operations[i].kind != RecoverKind { return; }
          if mayDie {
            if * { died := true; return; }
          }
          operations := operations[i := operations[i].(status := OperationNeedsRecovery)];
        }
      }
      ok := true;
    }

    /**
      One recovery of `plan` that ends with `status` or dies before step `cut`:
      superseding, creating its operation, recording the owner, the terminal record,
      the release of the owner. Only the dead owner of this very lineage is replaced;
      `superseded` is whether the release still accepts the superseding record.
    */
    method Recover(plan: Source, superseded: bool, status: OperationStatus, cut: nat) returns (ending: Ending)
      requires OnlyNewestUnfinished(operations) && Plannable(operations, plan) && status != InProgress
      modifies this
      ensures OnlyNewestUnfinished(operations)
      ensures owner != old(owner) && old(owner).Some? && old(owner).value.active ==>
                MayReplace(old(owner).value, old(operations), plan)
      ensures old(owner).Some? && old(owner).value.active && !MayReplace(old(owner).value, old(operations), plan) ==>
                ending == RefusedToStart && operations == old(operations) && owner == old(owner)
      ensures ending == RefusedToStart ==> owner == old(owner) && |operations| == |old(operations)|
      ensures |old(operations)| <= |operations| && Superseding(old(operations), operations[..|old(operations)|], plan)
      ensures ending != RefusedToStart && cut > 1 ==>
                && |operations| == |old(operations)| + 1
                && operations[|old(operations)|] == Recorded(RecoverKind, if cut < 4 then InProgress else status, Some(plan))
                && (if cut == 2 then owner == old(owner) else Owns(owner, |old(operations)|, cut < 5))
                && (forall i :: 0 <= i < |old(operations)| ==> operations[i].status != InProgress)
                && ending == if cut < 5 then Died else Finished(status)
      ensures !superseded ==> ending in {RefusedToStart, Died} && owner == old(owner) && |operations| == |old(operations)|
      ensures ending == RefusedToStart && superseded ==>
                || (old(owner).Some? && old(owner).value.active && !MayReplace(old(owner).value, old(operations), plan))
                || exists i :: (&& 0 <= i < |operations| && i != plan.operation
                                && operations[i].status == InProgress && operations[i].kind != RecoverKind)
    {
      if owner.Some? && owner.value.active && !MayReplace(owner.value, operations, plan) { return RefusedToStart; }
      var ok, died := Supersede(plan, cut == 0);
      assert operations[..|operations|] == operations;
      if died { return Died; }
      if !ok { return RefusedToStart; }
      if cut <= 1 { return Died; }
      if !superseded { return RefusedToStart; }          // the release is already terminal
      operations := operations + [Recorded(RecoverKind, InProgress, Some(plan))];
      assert operations[..|old(operations)|] + [operations[|old(operations)|]] == operations;
      if cut == 2 { return Died; }                       // before the owner record is replaced
      RecordOwner();
      if cut == 3 { return Died; }
      operations := operations[|operations| - 1 := operations[|operations| - 1].(status := status)];
      if cut == 4 { return Died; }
      owner := Some(owner.value.(active := false));
      ending := Finished(status);
    }

    /** Any sequence of commands of every kind and of recoveries, each of which may die before any step. */
    method AnySessions(sessions: seq<Session>)
      requires OnlyNewestUnfinished(operations)
      modifies this
      ensures OnlyNewestUnfinished(operations)
      ensures Wedged(old(owner), old(operations)) ==> owner == old(owner) && operations == old(operations)
    {
      for i := 0 to |sessions|
        invariant OnlyNewestUnfinished(operations)
        invariant Wedged(old(owner), old(operations)) ==> owner == old(owner) && operations == old(operations)
      {
        match sessions[i]
        case Command(kind, status, cut) =>
          if kind != RecoverKind && status != InProgress { var _ := RunCommand(kind, status, cut); }
        case Recovery(plan, superseded, status, cut) =>
          if Plannable(operations, plan) && status != InProgress { var _ := Recover(plan, superseded, status, cut); }
      }
    }
  }

  datatype Session =
    | Command(kind: Kind, status: OperationStatus, cut: nat)
    | Recovery(plan: Source, superseded: bool, status: OperationStatus, cut: nat)

  /**
    A recovery that died holding the owner record, after its own operation stopped
    being in progress. No plan may replace that record and no command may start.
  */
  predicate Wedged(owner: Option<OwnerRecord>, operations: seq<Recorded>) {
    && owner.Some? && owner.value.active && owner.value.operation < |operations|
    && operations[owner.value.operation].kind == RecoverKind
    && operations[owner.value.operation].status != InProgress
  }

  /** A deployment dies at work; its recovery succeeds, but dies before it releases the owner record. */
  method UnreleasedRecoveryWedges() returns (directory: OperationDirectory)
    ensures fresh(directory) && Wedged(directory.owner, directory.operations)
    ensures directory.operations[|directory.operations| - 1].status == OperationSucceeded
  {
    directory := new OperationDirectory();
    var _ := directory.RunCommand(DeployKind, OperationSucceeded, 2);
    assert directory.operations == [Recorded(DeployKind, InProgress, None)];
    var _ := directory.Recover(Source(0, 0), true, OperationSucceeded, 4);
    assert |directory.operations| == 2;
  }

  /** A deployment and its recovery die at work; a second recovery supersedes the first, but dies before it records itself. */
  method UnrecordedRecoveryWedges() returns (directory: OperationDirectory)
    ensures fresh(directory) && Wedged(directory.owner, directory.operations)
    ensures directory.operations[|directory.operations| - 1].status == InProgress
  {
    directory := new OperationDirectory();
    var _ := directory.RunCommand(DeployKind, OperationSucceeded, 2);
    assert directory.operations == [Recorded(DeployKind, InProgress, None)];
    var _ := directory.Recover(Source(0, 0), true, OperationSucceeded, 3);
    assert |directory.operations| == 2 && directory.operations[0].kind == DeployKind by {
      assert directory.operations[..1][0] == directory.operations[0];
    }
    var _ := directory.Recover(Source(0, 0), true, OperationSucceeded, 2);
    assert |directory.operations| == 3 && directory.operations[1].kind == RecoverKind by {
      assert directory.operations[..2][1] == directory.operations[1];
    }
  }

  /** An unfinished command of another kind makes every recovery refuse, and changes nothing older. */
  method UnrelatedOperationRefuses() returns (directory: OperationDirectory, ending: Ending)
    ensures fresh(directory) && ending == RefusedToStart
    ensures |directory.operations| == 2 && directory.operations[1] == Recorded(OtherKind, InProgress, None)
  {
    directory := new OperationDirectory();
    var _ := directory.RunCommand(DeployKind, OperationFailedSafe, 4);
    var _ := directory.RunCommand(OtherKind, OperationSucceeded, 1);
    assert directory.operations == [Recorded(DeployKind, OperationFailedSafe, None), Recorded(OtherKind, InProgress, None)];
    ghost var before := directory.operations;
    ending := directory.Recover(Source(0, 0), true, OperationSucceeded, 5);
    assert directory.operations[..2][1] == before[1];
  }

  /** A second deployment dies before its release exists: no plan belongs to it, so neither recovery nor command gets on. */
  method OrphanedDeploymentBlocks() returns (directory: OperationDirectory, recovery: Ending, command: Ending)
    ensures fresh(directory) && recovery == command == RefusedToStart
    ensures |directory.operations| == 2 && directory.operations[1] == Recorded(DeployKind, InProgress, None)
    ensures directory.owner.Some? && !MayReplace(directory.owner.value, directory.operations, Source(0, 0))
  {
    directory := new OperationDirectory();
    var _ := directory.RunCommand(DeployKind, OperationFailedSafe, 4);
    var _ := directory.RunCommand(DeployKind, OperationSucceeded, 2);
    assert directory.operations == [Recorded(DeployKind, OperationFailedSafe, None), Recorded(DeployKind, InProgress, None)];
    recovery := directory.Recover(Source(0, 0), true, OperationSucceeded, 5);
    command := directory.RunCommand(OtherKind, OperationSucceeded, 4);
  }

  /** Some recovery may still replace an active record exactly when it is a deployment's, or an unfinished recovery's. */
  lemma ReplaceableExactly(owner: OwnerRecord, operations: seq<Recorded>)
    requires owner.operation < |operations|
    requires forall r <- operations :: r.kind == RecoverKind ==> r.source.Some? && Plannable(operations, r.source.value)
    ensures (exists plan: Source :: Plannable(operations, plan) && MayReplace(owner, operations, plan))
            <==> || operations[owner.operation].kind == DeployKind
                 || (operations[owner.operation].kind == RecoverKind && operations[owner.operation].status == InProgress)
  {
    var mine := operations[owner.operation];
    if mine.kind == DeployKind {
      assert MayReplace(owner, operations, Source(owner.operation, 0));
    } else if mine.kind == RecoverKind && mine.status == InProgress {
      assert MayReplace(owner, operations, mine.source.value);
    }
  }
}
