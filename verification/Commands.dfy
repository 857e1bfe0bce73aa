/**
  The subprocess runner: what a `CommandResult` may claim, and how the runner
  derives it from a child process it can only poll and signal.
*/
module Commands {
  import opened Basics

  datatype CommandOutcome = Succeeded | NonzeroExit | StartFailed | TimedOut | Cancelled | CleanupFailed

  datatype TerminationReason = Timeout | Cancellation | Interruption

  datatype CapturedOutput = CapturedOutput(totalBytes: nat, retainedBytes: nat, truncated: bool)

  datatype CommandResult = CommandResult(
    outcome: CommandOutcome,
    exitCode: Option<int>,
    stdout: CapturedOutput,
    stderr: CapturedOutput,
    terminationReason: Option<TerminationReason>,
    terminationAttempted: bool,
    forcedKill: bool,
    startError: bool,
    cleanupError: bool)

  const NO_OUTPUT := CapturedOutput(0, 0, false)

  predicate ValidOutput(o: CapturedOutput) {
    o.retainedBytes <= o.totalBytes && o.truncated == (o.retainedBytes < o.totalBytes)
  }

  /** The construction checks of a result record. */
  predicate ValidResult(r: CommandResult) {
    && ValidOutput(r.stdout) && ValidOutput(r.stderr)
    && (r.outcome == Succeeded ==> r.exitCode == Some(0))
    && (r.outcome == NonzeroExit ==> r.exitCode != None && r.exitCode != Some(0))
    && (if r.outcome == StartFailed then r.exitCode == None && r.startError else !r.startError)
    && r.cleanupError == (r.outcome == CleanupFailed)
    && (r.outcome in {TimedOut, Cancelled, CleanupFailed} ==> r.terminationReason.Some?)
    && (r.outcome == TimedOut ==> r.terminationAttempted)
    && (r.outcome == Cancelled && r.exitCode.Some? ==> r.terminationAttempted)
    && (r.forcedKill ==> r.terminationAttempted)
  }

  /** A hook passes on exit zero with both streams captured in full. */
  predicate HookPassed(r: CommandResult) {
    r.outcome == Succeeded && !r.stdout.truncated && !r.stderr.truncated
  }

  /** Used by the deploy and the manual-restore coordinators. */
  predicate HookMayHaveRun(r: CommandResult) {
    !(r.outcome == StartFailed || (r.outcome == Cancelled && r.exitCode == None))
  }

  /** Used by the production migration. */
  predicate MigrationMayHaveChangedProduction(r: CommandResult) {
    r.outcome !in {StartFailed, Cancelled} || r.exitCode.Some?
  }

  /** The durable form that recovery re-reads from the event log. */
  predicate EvidenceOfNoStart(outcome: CommandOutcome, exitCode: Option<int>) {
    outcome == StartFailed || (outcome == Cancelled && exitCode == None)
  }

  /** The three independently written tests agree on every record the runner can build. */
  lemma MayHaveRunTestsAgree(r: CommandResult)
    requires ValidResult(r)
    ensures HookMayHaveRun(r) <==> MigrationMayHaveChangedProduction(r)
    ensures HookMayHaveRun(r) <==> !EvidenceOfNoStart(r.outcome, r.exitCode)
    ensures HookPassed(r) ==>
              && HookMayHaveRun(r) && r.exitCode == Some(0)
              && r.stdout.retainedBytes == r.stdout.totalBytes && r.stderr.retainedBytes == r.stderr.totalBytes
  {
  }

  /**
    A started child. The runner sees it only through `Poll`; between polls the
    operating system may let it exit, let its group disappear, end a reader or
    record a reader failure, and a caller may request cancellation. A calm child
    exits at once with zero, and nothing goes wrong with it.
  */
  class Child {
    const calm: bool
    var returnCode: Option<int>
    var groupExists: bool
    var readersAlive: bool
    var readerFailed: bool
    var cancelRequested: bool
    ghost var polls: nat

    constructor (calm: bool)
      ensures Valid() && returnCode == None && this.calm == calm
    {
      this.calm := calm;
      returnCode, groupExists, readersAlive, readerFailed, cancelRequested, polls := None, true, true, false, false, 0;
    }

    ghost predicate Valid()
      reads this
    {
      calm ==> returnCode in {None, Some(0)} && !readerFailed && !cancelRequested
    }

    /** What observations can never undo. */
    twostate predicate Later()
      reads this
    {
      && old(polls) <= polls && (old(returnCode).Some? ==> returnCode == old(returnCode))
      && (!old(groupExists) ==> !groupExists) && (!old(readersAlive) ==> !readersAlive)
      && (old(readerFailed) ==> readerFailed) && (old(cancelRequested) ==> cancelRequested)
    }

    /** One observation: exits are final, vanished groups and ended readers stay so. */
    method Poll()
      requires Valid()
      modifies this
      ensures Valid() && Later() && polls == old(polls) + 1
      ensures calm ==> returnCode == Some(0) && !groupExists && !readersAlive
    {
      polls := polls + 1;
      if calm {
        if returnCode == None { returnCode := Some(0); }
        groupExists, readersAlive := false, false;
        return;
      }
      if returnCode == None {
        if * {
          var code: int := *;
          returnCode := Some(code);
        }
      }
      if * { groupExists := false; }
      if * { readersAlive := false; }
      if readersAlive {
        if * { readerFailed := true; }
      }
      if * { cancelRequested := true; }
    }

    /** No reason means it is over; otherwise a cancellation was requested, or the whole budget went by without one. */
    method WaitForCompletion(budget: nat) returns (reason: Option<TerminationReason>)
      requires Valid()
      modifies this
      ensures Valid() && Later()
      ensures reason == None <==> returnCode.Some? && !readersAlive
      ensures reason == Some(Cancellation) ==> cancelRequested
      ensures reason == Some(Timeout) ==> !cancelRequested && polls == old(polls) + budget + 1
      ensures reason != Some(Interruption)
      ensures calm ==> reason == None
    {
      var remaining := budget;
      while true
        invariant Valid() && Later() && 0 <= remaining <= budget && polls == old(polls) + budget - remaining
        decreases remaining
      {
        Poll();
        if returnCode.Some? && !readersAlive { return None; }
        if cancelRequested { return Some(Cancellation); }
        if remaining == 0 { return Some(Timeout); }
        remaining := remaining - 1;
      }
    }

    /** True exactly when exit, group disappearance and reader shutdown were all observed. */
    method WaitForGroupCleanup(budget: nat) returns (proven: bool)
      requires Valid()
      modifies this
      ensures Valid() && Later()
      ensures proven <==> !groupExists && returnCode.Some? && !readersAlive
      ensures old(polls) < polls <= old(polls) + budget + 1
      ensures calm ==> proven
    {
      var remaining := budget;
      while remaining > 0
        invariant Valid() && Later() && 0 <= remaining <= budget && polls == old(polls) + budget - remaining
      {
        Poll();
        if !groupExists && returnCode.Some? && !readersAlive { return true; }
        remaining := remaining - 1;
      }
      Poll();
      return !groupExists && returnCode.Some? && !readersAlive;
    }

    /** TERM, wait, then, if that was not enough, KILL and wait again; every failed signal or wait is an error. */
    method TerminateGroup(grace: nat) returns (forcedKill: bool, error: bool)
      requires Valid()
      modifies this
      ensures Valid() && Later()
      ensures !error ==> returnCode.Some? && !groupExists && !readersAlive && !readerFailed
      ensures readerFailed ==> error
      ensures !forcedKill ==> polls <= old(polls) + grace + 1 && returnCode.Some? && !groupExists && !readersAlive
      ensures calm ==> !error && !forcedKill
    {
      error, forcedKill := false, false;
      if { case !calm => error := true; case true => }        // SIGTERM may not be sent
      var clean := WaitForGroupCleanup(grace);
      if !clean {
        forcedKill := true;
        if { case !calm => error := true; case true => }      // SIGKILL may not be sent
        clean := WaitForGroupCleanup(grace);
        if !clean { error := true; }
      }
      if readerFailed { error := true; }
    }
  }

  method Snapshot(whole: bool) returns (o: CapturedOutput)
    ensures ValidOutput(o) && (whole ==> !o.truncated)
  {
    var total: nat, retained: nat :| retained <= total && (whole ==> retained == total);
    o := CapturedOutput(total, retained, retained < total);
  }

  /** Why the runner ended the command decides its outcome, unless its cleanup could not be proven. */
  predicate ReasonFits(r: CommandResult) {
    match r.terminationReason
    case None => r.outcome in {Succeeded, NonzeroExit, StartFailed}
    case Some(Timeout) => r.outcome in {TimedOut, CleanupFailed}
    case Some(Cancellation) => r.outcome in {Cancelled, CleanupFailed}
    case Some(Interruption) => r.outcome == CleanupFailed
  }

  /**
    One attempted command. Every record returned passes its own construction
    checks, and it carries "never started" evidence exactly when no process was
    started; so a test that trusts that evidence never mistakes a command that ran.
    A reader that failed is never passed over.
    Where nothing goes wrong, the command passes.
  */
  method RunCommand(timeout: nat, grace: nat, calm: bool)
    returns (r: CommandResult, started: bool, ghost readersFailed: bool)
    ensures ValidResult(r) && ReasonFits(r)
    ensures started <==> HookMayHaveRun(r)
    ensures started <==> MigrationMayHaveChangedProduction(r)
    ensures started <==> !EvidenceOfNoStart(r.outcome, r.exitCode)
    ensures r.outcome in {Succeeded, NonzeroExit} ==> !r.terminationAttempted
    ensures readersFailed ==> r.outcome == CleanupFailed
    ensures calm ==> HookPassed(r) && started
  {
    started, readersFailed := false, false;
    if {
      case !calm =>                                    // cancellation was already requested
        r := CommandResult(Cancelled, None, NO_OUTPUT, NO_OUTPUT, Some(Cancellation), false, false, false, false);
        return;
      case !calm =>                                    // the operating system refused to start it
        r := CommandResult(StartFailed, None, NO_OUTPUT, NO_OUTPUT, None, false, false, true, false);
        return;
      case true =>
    }
    var child := new Child(calm);
    started := true;
    var reason := child.WaitForCompletion(timeout);
    if reason == None {
      readersFailed := child.readerFailed;
      if child.readerFailed {
        var forced, _ := child.TerminateGroup(grace);
        var out := Snapshot(calm);
        var err := Snapshot(calm);
        r := CommandResult(CleanupFailed, child.returnCode, out, err, Some(Interruption), true, forced, false, true);
        return;
      }
      var out := Snapshot(calm);
      var err := Snapshot(calm);
      var outcome := if child.returnCode == Some(0) then Succeeded else NonzeroExit;
      r := CommandResult(outcome, child.returnCode, out, err, None, false, false, false, false);
      return;
    }
    var forced, error := child.TerminateGroup(grace);
    readersFailed := child.readerFailed;
    var out := Snapshot(calm);
    var err := Snapshot(calm);
    var outcome := if error then CleanupFailed else if reason == Some(Timeout) then TimedOut else Cancelled;
    r := CommandResult(outcome, child.returnCode, out, err, reason, true, forced, false, error);
  }
}
