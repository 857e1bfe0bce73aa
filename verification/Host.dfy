/**
  The host a coordinator acts on. Every method is one durable write or one
  external action. Any of them may be cut short by a crash, possibly after the
  action took effect, and running applications may write between any two of
  them. Preconditions say when the action is safe; every exit keeps `Inv`.
*/
module Hosts {
  import opened Basics
  import opened Commands
  import opened Databases
  import opened Releases
  import opened Operations
  import opened RecoveryPlanning
  import opened Sites
  import opened Steps

  /** What an exception at a coordinator boundary can be. */
  datatype RawError =
    | Expected(needsRecovery: bool, productionChanged: bool)   // DployDBError and its payload
    | StartError(cleanupProven: bool)
    | CleanupError
    | InspectionError
    | RunnerError(cleanupFailed: bool)
    | ReadinessError
    | SmokeError(smokeCleanupProven: bool)
    | UnexpectedError

  /** A step completes, raises, or never returns because the process died. */
  datatype Step<+T> = Done(value: T) | Raise(error: RawError) | Crash {
    predicate IsFailure() { !Done? }
    function PropagateFailure<U>(): Step<U>
      requires IsFailure()
    {
      if Raise? then Raise(error) else Crash
    }
    function Extract(): T
      requires Done?
    {
      value
    }
  }

  /**
    What an error says about the step that raised it: what it left behind is not
    known, because a process of its own may still run, because containers contradict
    their records, or because nobody expected the error.
  */
  predicate LeavesUnknown(e: RawError) {
    match e
    case Expected(needsRecovery, _) => needsRecovery
    case StartError(cleanupProven) => !cleanupProven
    case RunnerError(cleanupFailed) => cleanupFailed
    case SmokeError(cleanupProven) => !cleanupProven
    case ReadinessError => false
    case _ => true
  }

  /** What an error claims about production. */
  predicate SaysChanged(e: RawError) {
    match e
    case Expected(_, changed) => changed
    case StartError(_) => true
    case _ => false
  }

  /** The hook outcomes a log of events holds, in order. */
  function Trail(events: seq<Event>): seq<HookEvidence> {
    if events == [] then []
    else
      var hook := events[|events| - 1].hook;
      Trail(events[..|events| - 1]) + if hook.Some? then [hook.value] else []
  }

  lemma TrailGrows(events: seq<Event>, e: Event)
    ensures Trail(events + [e]) == Trail(events) + if e.hook.Some? then [e.hook.value] else []
  {
    assert (events + [e])[..|events|] == events;
  }

  function Evidence(action: TrafficAction, r: CommandResult): HookEvidence {
    HookEvidence(action, HookPassed(r), Some(CommandEvidence(r.outcome, r.exitCode)))
  }

  /** What a coordinator establishes by looking. */
  datatype Subject =
    | CandidateStage(stage: DeploymentState)
    | CandidateResult
    | ServingApplication
    | WriterStopped
    | FinalBackup
    | RemoteCopy
    | NewApplication

  /** The facts of a release that no later record may change. */
  predicate SameRelease(a: Manifest, b: Manifest) {
    && a.releaseId == b.releaseId && a.operationId == b.operationId
    && a.requestedVersion == b.requestedVersion && a.previousReleaseId == b.previousReleaseId
  }

  class Host {
    const created: Manifest
    const inherited: Option<Pointers>
    const serving: Handle
    var release: Manifest
    var operation: Operation
    var events: seq<Event>
    var recoveries: seq<Operation>
    var pointers: Option<Pointers>
    var world: World
    ghost var story: Story
    /** How often something may still go wrong: a crash, an error, a hook that does not pass. */
    var faults: nat
    /** What some step of the coordinator at work left behind is not known. */
    ghost var unknown: bool
    /** The process of the hook that enables maintenance may still run. */
    ghost var looseHook: bool
    /** What the coordinator at work has established, and the hooks it has run, in order. */
    ghost var checked: set<Subject>
    ghost var ran: seq<HookEvidence>

    ghost function Snap(): Site
      reads `release, `operation, `events, `recoveries, `pointers, `world, `story
    {
      Site(release, operation, events, recoveries, pointers, world, story)
    }

    ghost predicate Safe()
      reads `release, `operation, `events, `recoveries, `pointers, `world, `story
    {
      && Inv(Snap()) && SameRelease(created, release) && Inherits(created, inherited, serving) && world.incumbent == serving
      && (Selected(release, pointers) || pointers == inherited)
    }

    lemma IsSafe()
      requires Safe()
      ensures Inv(Snap()) && SameRelease(created, release)
    {
    }

    constructor (release: Manifest, pointers: Option<Pointers>, serving: Handle, db: Database, now: nat)
      requires JustCreated(release) && Inherits(release, pointers, serving)
      ensures Snap() == Opening(release, pointers, serving, db, now) && Safe()
      ensures this.created == release && this.inherited == pointers && this.serving == serving
    {
      this.created, this.inherited, this.serving := release, pointers, serving;
      this.release := release;
      this.pointers := pointers;
      operation := NewOperation(release.operationId, true, now);
      events := [Event(release.operationId, 1, None)];
      recoveries := [];
      world := World(db, serving, None, Running, Absent, OldTarget, false);
      story := Story(Logical(db), Logical(db), false, OldData, true, false, false, false);
      faults, unknown, looseHook, checked, ran := 0, false, false, {}, [];
      new;
      InitialIsSafe(Snap());
    }

    /** A coordinator begins: it has seen and done nothing yet, and `faults` more things may go wrong. */
    method Begin(faults: nat)
      modifies `faults, `unknown, `looseHook, `checked, `ran
      ensures this.faults == faults && !unknown && !looseHook && checked == {} && ran == []
    {
      this.faults, unknown, looseHook, checked, ran := faults, false, false, {}, [];
    }

    /** Running applications write: the served one is acknowledged, the unexposed new one is not. */
    method Elapse()
      requires Safe()
      modifies `world, `story
      ensures Safe() && Drift(old(Snap()), Snap())
    {
      hide Inv;
      var db: Database :| true;
      WritesAreSafe(Snap(), db);
      if world.previous == Running {
        world := world.(db := db);
        story := story.(committed := Logical(db), left := Logical(db));
      } else if world.new_ == Running {
        world := world.(db := db);
        story := story.(committed := if story.exposed then Logical(db) else story.committed);
      }
      assert Snap() == Written(old(Snap()), db);
    }

    /** One step of the world that keeps the invariant. */
    method Become(next: World, ghost story: Story)
      requires Safe() && next.incumbent == world.incumbent && Inv(Snap().(world := next, story := story))
      modifies `world, `story
      ensures Safe() && Snap() == old(Snap()).(world := next, story := story)
    {
      hide Inv;
      world := next;
      this.story := story;
    }

    // ---- durable writes ----

    /** One release-store call; a refused call raises and writes nothing. */
    method WriteRelease(call: Call) returns (r: Step<()>)
      requires Safe()
      requires Apply(release, call).Ok? ==> Inv(Snap().(release := Apply(release, call).value))
      modifies `release, `world, `story, `faults
      ensures Safe()
      ensures r.Done? ==> Apply(old(release), call) == Ok(release)
                          && Drift(old(Snap()).(release := release), Snap())
      ensures !r.Done? ==> Snap() == old(Snap())
      ensures r.Raise? ==> Apply(old(release), call).Err?
      ensures faults <= old(faults) && (r.Crash? ==> faults < old(faults))
    {
      var next := Apply(release, call);
      if next.Ok? { CallPreserves(release, call); }
      hide Inv, Apply, ValidRelease;
      if { case faults > 0 => faults := faults - 1; return Crash; case true => }
      if next.Err? { return Raise(UnexpectedError); }
      release := next.value;
      Elapse();
      r := Done(());
    }

    /** One event and the manifest that agrees with it, as a single durable write; a refused one raises. */
    method WriteOperation(call: OperationCall, hook: Option<HookEvidence>) returns (r: Step<()>)
      requires Safe()
      requires ApplyOperation(operation, call).Ok? ==>
                 Inv(WithOperation(Snap(), ApplyOperation(operation, call).value, hook))
      modifies `operation, `events, `world, `story, `faults
      ensures Safe()
      ensures r.Done? ==> ApplyOperation(old(operation), call) == Ok(operation)
                          && Drift(WithOperation(old(Snap()), operation, hook), Snap())
      ensures !r.Done? ==> Snap() == old(Snap())
      ensures r.Raise? ==> ApplyOperation(old(operation), call).Err?
      ensures faults <= old(faults) && (r.Crash? ==> faults < old(faults))
    {
      hide Inv, ApplyOperation;
      if { case faults > 0 => faults := faults - 1; return Crash; case true => }
      var next := ApplyOperation(operation, call);
      if next.Err? { return Raise(UnexpectedError); }
      operation := next.value;
      events := events + [Event(operation.id, operation.lastSequence, hook)];
      assert Snap() == WithOperation(old(Snap()), next.value, hook);
      Elapse();
      r := Done(());
    }

    /** A new recovery operation is appended in progress; its number is its id. */
    method CreateRecovery(now: nat) returns (r: Step<nat>)
      requires Safe()
      modifies `recoveries, `world, `story, `faults
      ensures Safe()
      ensures r.Done? ==> r.value == |old(recoveries)|
                          && recoveries == old(recoveries) + [NewOperation(r.value, false, now)]
                          && Drift(old(Snap()).(recoveries := recoveries), Snap())
      ensures !r.Done? ==> r.Crash? && Snap() == old(Snap())
      ensures faults <= old(faults) && (r.Crash? ==> faults < old(faults))
    {
      hide Inv;
      NewRecoveryIsSafe(Snap(), now);
      if { case faults > 0 => faults := faults - 1; return Crash; case true => }
      recoveries := recoveries + [NewOperation(|recoveries|, false, now)];
      Elapse();
      r := Done(|recoveries| - 1);
    }

    method WriteRecovery(id: nat, call: OperationCall) returns (r: Step<()>)
      requires Safe() && id < |recoveries|
      requires ApplyOperation(recoveries[id], call).Ok? ==>
                 Inv(Snap().(recoveries := recoveries[id := ApplyOperation(recoveries[id], call).value]))
      modifies `recoveries, `world, `story, `faults
      ensures Safe()
      ensures r.Done? ==> ApplyOperation(old(recoveries)[id], call).Ok?
                          && recoveries == old(recoveries)[id := ApplyOperation(old(recoveries)[id], call).value]
                          && Drift(old(Snap()).(recoveries := recoveries), Snap())
      ensures !r.Done? ==> Snap() == old(Snap())
      ensures r.Raise? ==> ApplyOperation(old(recoveries)[id], call).Err?
      ensures faults <= old(faults) && (r.Crash? ==> faults < old(faults))
    {
      hide Inv, ApplyOperation;
      if { case faults > 0 => faults := faults - 1; return Crash; case true => }
      var next := ApplyOperation(recoveries[id], call);
      if next.Err? { return Raise(UnexpectedError); }
      recoveries := recoveries[id := next.value];
      Elapse();
      r := Done(());
    }

    /** The pointer file selects the active release. */
    method SwitchPointers() returns (r: Step<()>)
      requires Safe() && release.status == Active
      modifies `pointers, `world, `story, `faults
      ensures Safe() && !r.Raise?
      ensures Drift(old(Snap()), Snap()) || Drift(Pointed(old(Snap())), Snap())
      ensures r.Done? ==> Drift(Pointed(old(Snap())), Snap()) && Selected(release, pointers)
      ensures faults <= old(faults) && (r.Crash? ==> faults < old(faults))
    {
      hide Inv;
      PointingIsSafe(Snap());
      if { case faults > 0 => faults := faults - 1; return Crash; case true => }
      if pointers == None || pointers.value.active != release.releaseId {
        pointers := Some(Pointers(release.releaseId, if pointers.Some? then Some(pointers.value.active) else None));
      }
      assert Snap() == Pointed(old(Snap()));
      if { case faults > 0 => faults := faults - 1; return Crash; case true => }
      Elapse();
      r := Done(());
    }

    // ---- traffic hooks ----

    /** One command; any that does not pass is something that went wrong. */
    method Run() returns (command: CommandResult, started: bool)
      modifies `faults
      ensures ValidResult(command) && (started <==> HookMayHaveRun(command)) && (HookPassed(command) ==> started)
      ensures faults <= old(faults) && (!HookPassed(command) ==> faults < old(faults))
    {
      ghost var readersFailed;
      command, started, readersFailed := RunCommand(10, 10, faults == 0);
      if !HookPassed(command) { faults := faults - 1; }
    }

    method RunHook(action: TrafficAction) returns (command: CommandResult, started: bool)
      modifies `faults, `ran
      ensures ValidResult(command) && (started <==> HookMayHaveRun(command)) && (HookPassed(command) ==> started)
      ensures faults <= old(faults) && (!HookPassed(command) ==> faults < old(faults))
      ensures ran == old(ran) + [Evidence(action, command)]
    {
      command, started := Run();
      ran := ran + [Evidence(action, command)];
    }

    /** The process may die at once; otherwise applications go on writing. */
    method Survive() returns (r: Step<()>)
      requires Safe()
      modifies `world, `story, `faults
      ensures Safe() && Drift(old(Snap()), Snap()) && !r.Raise?
      ensures faults <= old(faults) && (r.Done? || faults < old(faults))
    {
      hide Inv;
      if { case faults > 0 => faults := faults - 1; return Crash; case true => }
      Elapse();
      r := Done(());
    }

    /** A hook that passed took effect; one that failed may have, if it started. */
    method SwitchMaintenance(on: bool) returns (command: CommandResult)
      requires Safe() && Inv(Maintained(Snap(), on))
      modifies `world, `story, `faults, `ran
      ensures Safe() && ValidResult(command)
      ensures Snap() == old(Snap()) || Snap() == Maintained(old(Snap()), on)
      ensures HookPassed(command) ==> Snap() == Maintained(old(Snap()), on)
      ensures faults <= old(faults) && (!HookPassed(command) ==> faults < old(faults))
      ensures ran == old(ran) + [Evidence(if on then TrafficAction.EnableMaintenance else DisableMaintenanceHook, command)]
    {
      hide Inv, ValidResult, HookPassed, HookMayHaveRun;
      var started;
      command, started := RunHook(if on then TrafficAction.EnableMaintenance else DisableMaintenanceHook);
      var effect :| HookPassed(command) ==> effect;
      if started && effect {
        Become(world.(maintenance := on), Maintained(Snap(), on).story);
      }
    }

    method EnableMaintenance() returns (r: Step<CommandResult>)
      requires Safe() && !release.status.Terminal()
      modifies `world, `story, `faults, `looseHook, `checked, `ran
      ensures Safe() && !r.Raise?
      ensures Drift(old(Snap()), Snap()) || Drift(Maintained(old(Snap()), true), Snap())
      ensures r.Done? ==> ValidResult(r.value)
      ensures r.Done? && HookPassed(r.value) ==> Drift(Maintained(old(Snap()), true), Snap())
      ensures faults <= old(faults) && (r.Done? && HookPassed(r.value) <== faults == old(faults))
      ensures r.Done? ==> (looseHook <==> old(looseHook) || r.value.outcome == CleanupFailed)
      ensures checked == old(checked) - {ServingApplication}
      ensures r.Done? ==> ran == old(ran) + [Evidence(TrafficAction.EnableMaintenance, r.value)]
    {
      hide Inv, ValidResult, HookPassed, Evidence, Maintained, Inherits, SameRelease, Selected;
      MaintenanceIsSafe(Snap(), true);
      var command := SwitchMaintenance(true);
      checked, looseHook := checked - {ServingApplication}, looseHook || command.outcome == CleanupFailed;
      var alive := Survive();
      r := if alive.Done? then Done(command) else Crash;
    }

    /** Only while traffic can reach a running application: the old one, or the exposed new one. */
    method DisableMaintenance() returns (r: Step<CommandResult>)
      requires Safe() && (world.previous == Running || (story.exposed && world.target == NewTarget))
      modifies `world, `story, `faults, `unknown, `ran
      ensures Safe() && !r.Raise?
      ensures Drift(old(Snap()), Snap()) || Drift(Maintained(old(Snap()), false), Snap())
      ensures r.Done? ==> ValidResult(r.value)
      ensures r.Done? && HookPassed(r.value) ==> Drift(Maintained(old(Snap()), false), Snap())
      ensures faults <= old(faults) && (r.Done? && HookPassed(r.value) <== faults == old(faults))
      ensures r.Done? ==> (unknown <==> old(unknown) || !HookPassed(r.value))
      ensures r.Done? ==> ran == old(ran) + [Evidence(DisableMaintenanceHook, r.value)]
    {
      hide Inv, ValidResult, HookPassed, Evidence, Maintained, Inherits, SameRelease, Selected;
      MaintenanceIsSafe(Snap(), false);
      var command := SwitchMaintenance(false);
      unknown := unknown || !HookPassed(command);        // whether maintenance is on
      var alive := Survive();
      r := if alive.Done? then Done(command) else Crash;
    }

    /** Exposes the checked new application; needs the attempt to be durable first. */
    method Expose() returns (command: CommandResult)
      requires Safe() && !release.status.Terminal()
      requires release.trafficAttempted && LastActivation(events) == None && !release.trafficActivated
      requires Offline(Snap()) && world.new_ == Running
      modifies `world, `story, `faults, `ran
      ensures Safe() && ValidResult(command)
      ensures Snap() in {old(Snap()), Exposed(old(Snap()), true), Exposed(old(Snap()), false)}
      ensures story.exposed == HookMayHaveRun(command) && (HookPassed(command) ==> world.target == NewTarget)
      ensures faults <= old(faults) && (!HookPassed(command) ==> faults < old(faults))
      ensures ran == old(ran) + [Evidence(ActivateNew, command)]
    {
      hide Inv, ValidResult, HookPassed, HookMayHaveRun, Evidence;
      ghost var before := Snap();
      ExposureIsSafe(before, true);
      ExposureIsSafe(before, false);
      var started;
      command, started := RunHook(ActivateNew);
      var effect :| HookPassed(command) ==> effect;
      if started {
        Become(if effect then world.(target := NewTarget) else world, Exposed(before, effect).story);
      }
    }

    method ActivateNewTraffic() returns (r: Step<CommandResult>)
      requires Safe() && !release.status.Terminal()
      requires release.trafficAttempted && LastActivation(events) == None && !release.trafficActivated
      requires Offline(Snap()) && world.new_ == Running
      modifies `world, `story, `faults, `unknown, `ran
      ensures Safe() && !r.Raise?
      ensures || Drift(old(Snap()), Snap())
              || Drift(Exposed(old(Snap()), true), Snap()) || Drift(Exposed(old(Snap()), false), Snap())
      ensures r.Done? ==> ValidResult(r.value)
      ensures r.Done? ==> story.exposed == HookMayHaveRun(r.value)
      ensures r.Done? && HookPassed(r.value) ==> world.target == NewTarget
      ensures faults <= old(faults) && (r.Done? && HookPassed(r.value) <== faults == old(faults))
      ensures r.Done? ==> (unknown <==> old(unknown) || r.value.outcome == CleanupFailed)
      ensures r.Done? ==> ran == old(ran) + [Evidence(ActivateNew, r.value)]
    {
      hide Inv, ValidResult, HookPassed, HookMayHaveRun, Evidence, Drift, Exposed, Inherits, SameRelease, Selected;
      ghost var before := Snap();
      var command := Expose();
      unknown := unknown || command.outcome == CleanupFailed;
      ghost var now := Snap();
      DriftsNot(now);
      var _ :- Survive();
      DriftKeeps(now, Snap());
      r := Done(command);
    }

    /** Confirms the old target; nothing was ever routed elsewhere. */
    method ActivateOldTraffic() returns (r: Step<CommandResult>)
      requires Safe() && !story.exposed
      modifies `world, `story, `faults, `unknown, `ran
      ensures Safe() && !r.Raise?
      ensures Drift(old(Snap()), Snap()) || Drift(Routed(old(Snap())), Snap())
      ensures r.Done? ==> ValidResult(r.value)
      ensures r.Done? && HookPassed(r.value) ==> Drift(Routed(old(Snap())), Snap())
      ensures faults <= old(faults) && (r.Done? && HookPassed(r.value) <== faults == old(faults))
      ensures r.Done? ==> (unknown <==> old(unknown) || !HookPassed(r.value))
      ensures r.Done? ==> ran == old(ran) + [Evidence(ActivateOld, r.value)]
    {
      hide Inv, ValidResult, HookPassed, HookMayHaveRun;
      RoutingIsSafe(Snap());
      var command, started := RunHook(ActivateOld);
      if HookPassed(command) {
        world := world.(target := OldTarget);
        story := story.(confirmed := true);
        assert Snap() == Routed(old(Snap()));
      }
      unknown := unknown || !HookPassed(command);        // where traffic goes
      var _ :- Survive();
      r := Done(command);
    }

    // ---- applications ----

    /** Finds the one running container. */
    method Discover() returns (r: Step<Handle>)
      requires Safe() && world.previous == Running
      modifies `world, `story, `faults, `unknown, `checked
      ensures Safe() && Drift(old(Snap()), Snap())
      ensures r.Done? ==> r.value == world.incumbent && checked == old(checked) + {ServingApplication}
      ensures r.Raise? ==> r.error == InspectionError
      ensures faults <= old(faults) && (r.Done? || faults < old(faults))
      ensures !r.Crash? ==> (unknown <==> old(unknown) || r.Raise?)
    {
      Elapse();
      if {
        case faults > 0 =>
          faults := faults - 1;
          return Crash;
        case faults > 0 =>
          faults, unknown := faults - 1, true;
          return Raise(InspectionError);
        case true =>
      }
      checked := checked + {ServingApplication};
      r := Done(world.incumbent);
    }

    /** Stops exactly the incumbent behind maintenance, before any final backup exists. */
    method StopPrevious(handle: Handle) returns (r: Step<()>)
      requires Safe() && !release.status.Terminal() && !MayHaveChanged(operation, release)
      requires world.maintenance && !story.exposed && release.finalBackup == None && handle == world.incumbent
      modifies `world, `story, `faults, `unknown, `checked
      ensures Safe()
      ensures world == old(world).(db := world.db, previous := world.previous)
      ensures story == old(story).(committed := story.committed, left := story.left)
      ensures r.Done? ==> world.previous == Stopped && checked == old(checked) + {WriterStopped}
      ensures r.Raise? ==> r.error.RunnerError?
      ensures faults <= old(faults) && (r.Done? || faults < old(faults))
      ensures !r.Crash? ==> (unknown <==> old(unknown) || (r.Raise? && LeavesUnknown(r.error)))
    {
      hide Inv;
      Elapse();
      HaltIsSafe(Snap());
      if {
        case true =>
          ghost var before := Snap();
          world := world.(previous := Stopped);
          assert Snap() == Halted(before);
        case faults > 0 =>
      }
      if { case faults > 0 => faults := faults - 1; return Crash; case true => }
      if world.previous == Stopped {
        if {
          case true =>
            checked := checked + {WriterStopped};
            return Done(());
          case faults > 0 =>
        }
      }
      var cleanupFailed: bool :| true;
      faults, unknown := faults - 1, unknown || cleanupFailed;
      r := Raise(RunnerError(cleanupFailed));
    }

    /** Starts the new application on a checked migration; a failed start cleans up or says so. */
    method StartNew() returns (r: Step<Handle>)
      requires Safe() && Offline(Snap()) && story.lineage == NewData && !release.status.Terminal()
      requires world.new_ == Absent && release.newApplication == None
      modifies `world, `story, `faults, `unknown
      ensures Safe()
      ensures world == old(world).(db := world.db, challenger := world.challenger, new_ := world.new_)
      ensures story == old(story)
      ensures r.Done? ==> world.new_ == Running && world.challenger == Some(r.value) && Requested(release, r.value)
      ensures r.Raise? ==> r.error.StartError? || r.error == UnexpectedError
      ensures r.Raise? && r.error == StartError(true) ==> world.new_ == Absent
      ensures faults <= old(faults) && (r.Done? || faults < old(faults))
      ensures !r.Crash? ==> (unknown <==> old(unknown) || (r.Raise? && LeavesUnknown(r.error)))
    {
      hide Inv, Drift;
      ghost var before := Snap();
      var container: nat :| true;
      var handle := FromRelease(container, release.releaseId, release.requestedVersion, release.operationId);
      var state :| state in {Running, Stopped, Absent} && (faults == 0 ==> state == Running);
      Launch(handle, state);
      DriftKeeps(Launched(before, handle, state), Snap());
      DriftIsSilent(Launched(before, handle, state), Snap());
      if { case faults > 0 => faults := faults - 1; return Crash; case true => }
      if state == Running {
        if { case true => return Done(handle); case faults > 0 => }
      }
      faults := faults - 1;
      if state == Absent { return Raise(StartError(true)); }
      unknown := true;
      if * { return Raise(UnexpectedError); }
      r := Raise(StartError(false));
    }

    method Launch(handle: Handle, state: Runtime)
      requires Safe() && Offline(Snap()) && story.lineage == NewData && !release.status.Terminal()
      requires world.new_ == Absent && release.newApplication == None
      requires Requested(release, handle) && state in {Running, Stopped, Absent}
      modifies `world, `story
      ensures Safe() && Drift(Launched(old(Snap()), handle, state), Snap())
    {
      hide Inv;
      LaunchIsSafe(Snap(), handle, state);
      world := world.(challenger := Some(handle), new_ := state);
      assert Snap() == Launched(old(Snap()), handle, state);
      Elapse();
    }

    /** Removes exactly the container this deployment started, never once it may have been exposed. */
    method RemoveNew(handle: Handle) returns (r: Step<()>)
      requires Safe() && !story.exposed && world.challenger == Some(handle)
      modifies `world, `story, `faults, `unknown
      ensures Safe()
      ensures exists state :: Drift(Removed(old(Snap()), state), Snap())
      ensures r.Done? ==> Drift(Removed(old(Snap()), Absent), Snap())
      ensures r.Raise? ==> r.error == CleanupError
      ensures faults <= old(faults) && (r.Done? || faults < old(faults))
      ensures !r.Crash? ==> (unknown <==> old(unknown) || r.Raise?)
    {
      hide Inv;
      var state: Runtime :|
        && (state == world.new_ || (world.new_ != Absent && state in {Stopped, Absent}))
        && (faults == 0 ==> state == Absent);
      RemovalIsSafe(Snap(), state);
      world := world.(new_ := state);
      assert Snap() == Removed(old(Snap()), state);
      if { case faults > 0 => faults := faults - 1; return Crash; case true => }
      if world.new_ == Absent {
        if { case true => Elapse(); return Done(()); case faults > 0 => }
      }
      faults, unknown := faults - 1, true;
      r := Raise(CleanupError);
    }

    /** Restarts exactly the incumbent; `clean` remembers whether it found what it had left. */
    method RestartPrevious(handle: Handle) returns (r: Step<()>)
      requires Safe() && !story.exposed && world.new_ == Absent && handle == world.incumbent
      requires !release.status.Early()
      modifies `world, `story, `faults, `unknown
      ensures Safe()
      ensures || Drift(old(Snap()), Snap())
              || (old(world.previous) == Stopped && Drift(BackUp(old(Snap())), Snap()))
      ensures r.Done? ==> world.previous == Running
      ensures r.Raise? ==> r.error.RunnerError?
      ensures faults <= old(faults) && (r.Done? || faults < old(faults))
      ensures !r.Crash? ==> (unknown <==> old(unknown) || (r.Raise? && LeavesUnknown(r.error)))
    {
      RuntimeKnown(Snap());
      hide Inv, Drift, Aged;
      ghost var before := Snap();
      if world.previous == Stopped {
        RestartIsSafe(before);
        if {
          case true => Become(world.(previous := Running), BackUp(before).story);
          case faults > 0 =>
        }
      }
      ghost var now := Snap();
      DriftsNot(now);
      if { case faults > 0 => faults := faults - 1; return Crash; case true => }
      Elapse();
      DriftKeeps(now, Snap());
      if world.previous == Running {
        if { case true => return Done(()); case faults > 0 => }
      }
      var cleanupFailed: bool :| true;
      faults, unknown := faults - 1, unknown || cleanupFailed;
      r := Raise(RunnerError(cleanupFailed));
    }

    // ---- the database ----

    /** The stopped-writer snapshot holds exactly what the incumbent left. */
    method CreateFinalBackup() returns (r: Step<BackupRef>)
      requires Safe() && Offline(Snap()) && world.new_ == Absent && !MayHaveChanged(operation, release)
      modifies `faults
      ensures r.Done? ==> r.value.sha == story.left
      ensures r.Raise? ==> r.error == Expected(false, false)
      ensures faults <= old(faults) && (r.Done? || faults < old(faults))
    {
      var id: nat :| true;
      if {
        case faults > 0 =>
          faults := faults - 1;
          return Crash;
        case faults > 0 =>
          faults := faults - 1;
          return Raise(Expected(false, false));
        case true =>
      }
      r := Done(BackupRef(id, Logical(world.db)));
    }

    /** Runs the migration command on production; it needs its intent to be durable first. */
    method Migrate() returns (r: Step<()>)
      requires Safe() && Offline(Snap()) && world.new_ == Absent && release.migrationStarted
      modifies `world, `story, `faults, `unknown
      ensures Safe()
      ensures world == old(world).(db := world.db) && story == old(story).(lineage := story.lineage)
      ensures r.Done? ==> story.lineage == NewData
      ensures r.Raise? ==> r.error.Expected?
      ensures r.Raise? && !r.error.productionChanged ==> world == old(world)
      ensures faults <= old(faults) && (r.Done? || faults < old(faults))
      ensures !r.Crash? ==> (unknown <==> old(unknown) || (r.Raise? && LeavesUnknown(r.error)))
    {
      hide Inv, ValidResult, HookPassed, MigrationMayHaveChangedProduction;
      if { case faults > 0 => faults := faults - 1; return Raise(Expected(false, false)); case true => }   // refused
      var command :- RunMigration();
      if command.outcome == CleanupFailed { return Raise(Expected(true, true)); }
      if !HookPassed(command) { return Raise(Expected(false, MigrationMayHaveChangedProduction(command))); }
      r := CheckMigration();
    }

    method CheckMigration() returns (r: Step<()>)
      requires Safe() && Offline(Snap()) && world.new_ == Absent && release.migrationStarted
      modifies `story, `faults
      ensures Safe() && story == old(story).(lineage := story.lineage)
      ensures if r.Done? then story.lineage == NewData else r == Raise(Expected(false, true))
      ensures faults <= old(faults) && (r.Done? || faults < old(faults))
    {
      hide Inv;
      if { case faults > 0 => faults := faults - 1; return Raise(Expected(false, true)); case true => }
      MigrationIsSafe(Snap(), world.db, true);
      story := story.(lineage := NewData);
      assert Snap() == Migrated(old(Snap()), world.db, true);
      r := Done(());
    }

    /** The command itself, and the durable evidence of its outcome. */
    method RunMigration() returns (r: Step<CommandResult>)
      requires Safe() && Offline(Snap()) && world.new_ == Absent && release.migrationStarted
      modifies `world, `story, `faults, `unknown
      ensures Safe()
      ensures world == old(world).(db := world.db) && story == old(story).(lineage := story.lineage)
      ensures r.Done? && !MigrationMayHaveChangedProduction(r.value) ==> world == old(world)
      ensures r.Done? ==> (HookPassed(r.value) ==> r.value.outcome != CleanupFailed)
      ensures r.Done? && r.value.outcome == CleanupFailed ==> MigrationMayHaveChangedProduction(r.value)
      ensures r.Raise? ==> r.error.Expected? && (!r.error.productionChanged ==> world == old(world))
      ensures faults <= old(faults) && (r.Done? && HookPassed(r.value) <== faults == old(faults))
      ensures r.Raise? ==> (unknown <==> old(unknown) || LeavesUnknown(r.error))
      ensures r.Done? ==> (unknown <==> old(unknown) || r.value.outcome == CleanupFailed)
    {
      hide Inv, ValidResult, HookPassed, MigrationMayHaveChangedProduction;
      var command := Transform();
      if {
        case faults > 0 =>
          faults := faults - 1;
          return Crash;
        case faults > 0 =>                               // evidence not durable
          faults, unknown := faults - 1, true;
          return Raise(Expected(true, MigrationMayHaveChangedProduction(command)));
        case true =>
      }
      r := Done(command);
    }

    /** Whatever a command that started did to the database. */
    method Transform() returns (command: CommandResult)
      requires Safe() && Offline(Snap()) && world.new_ == Absent && release.migrationStarted
      modifies `world, `story, `faults, `unknown
      ensures Safe()
      ensures world == old(world).(db := world.db) && story == old(story).(lineage := story.lineage)
      ensures !MigrationMayHaveChangedProduction(command) ==> world == old(world)
      ensures HookPassed(command) ==> command.outcome != CleanupFailed
      ensures command.outcome == CleanupFailed ==> MigrationMayHaveChangedProduction(command)
      ensures faults <= old(faults) && (HookPassed(command) <== faults == old(faults))
      ensures unknown <==> old(unknown) || command.outcome == CleanupFailed
    {
      var started;
      command, started := Run();
      MayHaveRunTestsAgree(command);
      hide Inv, ValidResult, MigrationMayHaveChangedProduction;
      var db: Database :| !started ==> db == world.db;
      MigrationIsSafe(Snap(), db, false);
      unknown := unknown || command.outcome == CleanupFailed;
      if started { Become(world.(db := db), story.(lineage := MixedData)); }
    }

    /**
      Replaces the production database with the final backup. Every caller must
      show that no application is running on it, that it saw the writer stopped, that
      none of its steps left anything unknown, that normal traffic is blocked and never
      reached the new release, and that the backup is exactly the last acknowledged
      content.
    */
    method RestoreFinal(applicationStopped: bool, trafficActivated: bool) returns (r: Step<()>)
      requires Safe() && Offline(Snap()) && world.new_ == Absent && world.maintenance && world.target == OldTarget
      requires release.finalBackup.Some? && release.finalBackup.value.sha == story.committed
      requires MayHaveChanged(operation, release) && !unknown
      requires applicationStopped && !trafficActivated && WriterStopped in checked
      modifies `world, `story, `faults, `unknown
      ensures Safe()
      ensures Snap() == Replaced(old(Snap()), world.db)
      ensures r.Done? ==> world.db == Database(release.finalBackup.value.sha, None)
      ensures r.Raise? ==> r.error.Expected? && r.error.productionChanged
      ensures r.Raise? && !r.error.needsRecovery ==> world.db in {old(world.db), old(world.db).(wal := None)}
      ensures faults <= old(faults) && (r.Done? || faults < old(faults))
      ensures !r.Crash? ==> (unknown <==> r.Raise? && LeavesUnknown(r.error))
    {
      hide Inv;
      var sha := release.finalBackup.value.sha;
      var file: Content :| faults == 0 ==> file == sha;
      var directory := new DatabaseDirectory(world.db, faults);
      var outcome := directory.RestoreVerifiedDatabase(Artifact(file, sha), applicationStopped, trafficActivated);
      ReplacementIsSafe(Snap(), directory.files);
      story := Replaced(Snap(), directory.files).story;
      world := world.(db := directory.files);
      faults := if outcome == FailedBeforeReplacement then faults - 1 else directory.faults;
      match outcome
      case Restored => r := Done(());
      case RestoreCrashed => r := Crash;
      case ReplacementUnproven =>
        unknown := true;
        r := Raise(Expected(true, true));
      case _ => r := Raise(Expected(false, true));
    }

    /** What has to be so for a check of `subject` to pass. */
    predicate Holds(subject: Subject)
      reads `world
    {
      match subject
      case ServingApplication => world.previous == Running || world.new_ == Running
      case WriterStopped => world.previous == Stopped
      case NewApplication => world.new_ == Running
      case _ => true
    }

    /**
      Inspections, logs, SQLite and health checks: no effect but what they prove, and
      any of them may fail. Only a failed check of the new application claims a
      production change without asking for recovery.
    */
    method Check(subject: Subject) returns (r: Step<()>)
      requires Safe()
      modifies `world, `story, `faults, `unknown, `checked
      ensures Safe()
      ensures if r.Done? then Drift(Passed(old(Snap())), Snap()) else Drift(old(Snap()), Snap())
      ensures checked == if r.Done? then old(checked) + {subject} else old(checked)
      ensures r.Raise? ==> !r.error.StartError?
      ensures r.Raise? && r.error.Expected? && r.error.productionChanged ==> r.error.needsRecovery || subject == NewApplication
      ensures faults <= old(faults) && (r.Done? ==> Holds(subject))
      ensures r.Done? || (r.Raise? && !old(Holds(subject))) || faults < old(faults)
      ensures !r.Crash? ==> (unknown <==> old(unknown) || (r.Raise? && LeavesUnknown(r.error)))
    {
      hide Inv;
      PassingIsSafe(Snap());
      var died := false;
      if {
        case Holds(subject) =>
          story := Passed(Snap()).story;
          checked := checked + {subject};
          Elapse();
          return Done(());
        case !Holds(subject) =>
        case faults > 0 =>
          faults := faults - 1;
          died := *;
      }
      Elapse();
      if died { return Crash; }
      var error: RawError :|
        !error.StartError?
        && (error.Expected? && error.productionChanged ==> error.needsRecovery || subject == NewApplication);
      unknown := unknown || LeavesUnknown(error);
      r := Raise(error);
    }
  }
}
