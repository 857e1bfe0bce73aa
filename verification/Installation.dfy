/**
  One installation over its whole life: deployments, recoveries and manual restores
  in any order, the containers they leave behind, and whose data the database holds.
*/
module Installations {
  import opened Basics
  import opened Databases
  import opened Releases
  import opened Operations
  import opened RecoveryPlanning
  import opened Sites
  import opened Steps
  import opened Hosts
  import opened Deployments
  import opened Recoveries
  import opened ManualRestores

  /** Whose data a database or a backup holds: the application of a release, of none, or nobody's. */
  datatype Holder = DataOf(release: Option<nat>) | Nobodys

  function ReleaseOf(handle: Handle): Option<nat> {
    if handle.Bootstrap? then None else Some(handle.release)
  }

  /** The holder that a deployment's lineage stands for, when it opened on data of `base`. */
  function HolderOf(lineage: Lineage, base: Holder, release: nat): Holder {
    match lineage
    case OldData => base
    case NewData => DataOf(Some(release))
    case MixedData => Nobodys
  }

  /** The containers, the database, where traffic goes, and whose data it reaches. */
  datatype Machine = Machine(apps: map<Handle, Runtime>, db: Database, routed: Handle, maintenance: bool, holder: Holder)

  /** The machine is what a deployment's site shows of it, and runs nothing else. */
  predicate Shows(m: Machine, s: Site, base: Holder) {
    && m.db == s.world.db && m.maintenance == s.world.maintenance && m.routed == Serving(s)
    && m.holder == HolderOf(s.story.lineage, base, s.release.releaseId)
    && s.world.incumbent in m.apps && m.apps[s.world.incumbent] == s.world.previous
    && (s.world.challenger.Some? ==>
          s.world.challenger.value in m.apps && m.apps[s.world.challenger.value] == s.world.new_)
    && (forall h <- m.apps :: h != s.world.incumbent && Some(h) != s.world.challenger ==> m.apps[h] != Running)
    && (forall h <- m.apps :: ReleaseOf(h) == Some(s.release.releaseId) ==> Some(h) == s.world.challenger)
  }

  lemma HandlesDiffer(s: Site)
    requires Inv(s)
    ensures s.world.challenger.Some? ==> s.world.challenger.value != s.world.incumbent
    ensures s.world.challenger.Some? ==> ReleaseOf(s.world.challenger.value) == Some(s.release.releaseId)
    ensures !s.story.exposed ==> s.world.target == OldTarget
  {
  }

  lemma RecordFacts(s: Site)
    requires Inv(s)
    ensures ValidRelease(s.release) && s.world.previous in {Running, Stopped}
    ensures s.release.status == Active ==>
              && s.release.newApplication.Some? && s.release.newApplication == s.world.challenger && s.world.new_ == Running
              && s.release.previousApplication == Some(s.world.incumbent)
    ensures Selected(s.release, s.pointers) ==>
              s.release.status == Active && s.pointers.value.previous == s.release.previousReleaseId
    ensures s.release.previousReleaseId != Some(s.release.releaseId)
    ensures !Selected(s.release, s.pointers) ==>
              s.release.previousReleaseId == if s.pointers.Some? then Some(s.pointers.value.active) else None
  {
  }

  lemma ExposedIsRecorded(s: Site)
    requires Inv(s)
    ensures s.story.exposed ==> s.release.newApplication.Some? && s.release.newApplication == s.world.challenger
    ensures Selected(s.release, s.pointers) ==> s.release.status == Active && s.story.exposed
    ensures s.pointers == None ==> s.world.incumbent.Bootstrap?
  {
  }

  /** A deployment that ended for good serves its own application, or the one before it. */
  lemma EndedServes(host: Host)
    requires host.Safe() && !host.world.maintenance
    ensures host.story.exposed && Selected(host.release, host.pointers) ==>
              && ReleaseOf(Serving(host.Snap())) == Some(host.created.releaseId)
              && host.pointers.Some? && host.pointers.value.active == host.created.releaseId
    ensures !host.story.exposed ==> Serving(host.Snap()) == host.serving
  {
    OpenTrafficReachesItsOwnData(host.Snap());
    HandlesDiffer(host.Snap());
  }

  function SeenApps(apps: map<Handle, Runtime>, w: World): map<Handle, Runtime> {
    if w.challenger.Some? then apps[w.incumbent := w.previous][w.challenger.value := w.new_]
    else apps[w.incumbent := w.previous]
  }

  lemma SeenIsShown(apps: map<Handle, Runtime>, s: Site, base: Holder)
    requires Inv(s)
    requires forall h <- apps :: h != s.world.incumbent && Some(h) != s.world.challenger ==> apps[h] != Running
    requires forall h <- apps :: ReleaseOf(h) == Some(s.release.releaseId) ==> Some(h) == s.world.challenger
    ensures Shows(Machine(SeenApps(apps, s.world), s.world.db, Serving(s), s.world.maintenance,
                          HolderOf(s.story.lineage, base, s.release.releaseId)), s, base)
  {
    HandlesDiffer(s);
  }

  /** Writes alone change nothing a machine shows but its database. */
  lemma ShownThroughWrites(m: Machine, s: Site, t: Site, base: Holder)
    requires Shows(m, s, base) && Drift(s, t)
    ensures Shows(m.(db := t.world.db), t, base)
    ensures t.release == s.release && t.pointers == s.pointers
    ensures SeenApps(m.apps, t.world) == m.apps && Serving(t) == m.routed && t.world.maintenance == m.maintenance
  {
  }

  lemma Unmoved(m: Machine, s: Site, t: Site, base: Holder)
    requires Shows(m, s, base)
    ensures Drift(s, t) ==>
              && t.release == s.release && t.pointers == s.pointers && SeenApps(m.apps, t.world) == m.apps
              && Serving(t) == m.routed && t.world.maintenance == m.maintenance
  {
    if Drift(s, t) { ShownThroughWrites(m, s, t, base); }
  }

  /** What a manual restore leaves: never two applications, each on its own data, traffic only to a running one. */
  predicate SceneIsSafe(scene: Scene, onSelected: bool) {
    && scene.current in {Running, Stopped} && scene.selected in {Running, Stopped}
    && !(scene.current == Running && scene.selected == Running)
    && (scene.selected == Running ==> onSelected) && (scene.current == Running ==> !onSelected)
    && (!scene.maintenance ==>
          || (scene.current == Running && scene.target == NewTarget)
          || (scene.selected == Running && scene.target == OldTarget))
  }

  /** Every application of an active release still exists, and every known container belongs to a release. */
  predicate AppsKept(manifests: map<nat, Manifest>, apps: map<Handle, Runtime>) {
    && (forall h <- apps :: h.FromRelease? ==> h.release in manifests)
    && (forall id <- manifests :: manifests[id].status == Active ==>
          && manifests[id].newApplication.Some? && manifests[id].newApplication.value in apps
          && manifests[id].newApplication.value.FromRelease? && manifests[id].newApplication.value.release == id
          && apps[manifests[id].newApplication.value] in {Running, Stopped})
  }

  lemma SceneServesOne(
      manifests: map<nat, Manifest>, apps: map<Handle, Runtime>, routed: Handle, selected: Handle, scene: Scene,
      onSelected: bool)
    requires AppsKept(manifests, apps) && routed in apps && selected in apps && selected != routed
    requires forall h <- apps :: h != routed && h != selected ==> apps[h] != Running
    requires SceneIsSafe(scene, onSelected)
    ensures var next := apps[routed := scene.current][selected := scene.selected];
            var serving := if scene.target == OldTarget then selected else routed;
            && AppsKept(manifests, next) && serving in next
            && (!scene.maintenance ==>
                  && (forall h <- next :: next[h] == Running <==> h == serving)
                  && onSelected == (serving == selected))
  {
  }

  /** What a release inherited still is as it was selected. */
  predicate InheritedKept(manifests: map<nat, Manifest>, inherited: Option<Pointers>, serving: Handle, id: nat) {
    inherited.Some? ==>
      && inherited.value.active in manifests && inherited.value.active != id
      && manifests[inherited.value.active].status == Active
      && manifests[inherited.value.active].newApplication == Some(serving)
      && (inherited.value.previous.Some? ==>
            inherited.value.previous.value in manifests && inherited.value.previous.value != inherited.value.active)
  }

  /** Every active release's final backup holds the data of the application it replaced. */
  predicate BackupsKept(manifests: map<nat, Manifest>, origin: map<nat, Holder>) {
    forall id <- manifests :: manifests[id].status == Active ==>
      id in origin && manifests[id].previousApplication.Some?
      && origin[id] == DataOf(ReleaseOf(manifests[id].previousApplication.value))
  }

  /** A release just created adds nothing to keep. */
  lemma CreatingKeeps(
      before: map<nat, Manifest>, after: map<nat, Manifest>, id: nat, apps: map<Handle, Runtime>, origin: map<nat, Holder>)
    requires after.Keys == before.Keys + {id} && id !in before && (forall k <- before :: after[k] == before[k])
    requires after[id].status == Created
    ensures AppsKept(before, apps) ==> AppsKept(after, apps) && forall h <- apps :: ReleaseOf(h) != Some(id)
    ensures BackupsKept(before, origin) ==> BackupsKept(after, origin)
  {
  }

  lemma AdoptingKeepsApps(manifests: map<nat, Manifest>, apps: map<Handle, Runtime>, s: Site)
    requires Inv(s) && AppsKept(manifests, apps) && s.release.releaseId in manifests && s.world.incumbent in apps
    ensures AppsKept(manifests[s.release.releaseId := s.release], SeenApps(apps, s.world))
  {
    HandlesDiffer(s);
    RecordFacts(s);
    hide Inv, ValidRelease;
    var next := SeenApps(apps, s.world);
    forall id <- manifests | id != s.release.releaseId && manifests[id].status == Active
      ensures manifests[id].newApplication.value in next && next[manifests[id].newApplication.value] in {Running, Stopped}
    {
      assert Some(manifests[id].newApplication.value) != s.world.challenger;
    }
  }

  lemma AdoptingKeepsBackups(manifests: map<nat, Manifest>, origin: map<nat, Holder>, s: Site, base: Holder)
    requires Inv(s) && BackupsKept(manifests, origin) && base == DataOf(ReleaseOf(s.world.incumbent))
    ensures BackupsKept(manifests[s.release.releaseId := s.release], origin[s.release.releaseId := base])
  {
    RecordFacts(s);
  }

  /** Releases that are not at rest. */
  function Unresolved(manifests: map<nat, Manifest>): set<nat> {
    set id <- manifests | manifests[id].status !in {Active, RolledBack, FailedSafe}
  }

  /** The release diagnosis takes up: the only unresolved one, or else the newest; several are refused. */
  predicate Chosen(manifests: map<nat, Manifest>, id: nat) {
    if Unresolved(manifests) == {} then id in manifests && forall k <- manifests :: k <= id
    else Unresolved(manifests) == {id}
  }

  lemma DiagnosedFacts(s: Site, d: Diagnosis)
    requires Diagnosed(s, d)
    ensures Inv(d.site) && Reports(d.live, d.site) && Executable(PlanOf(d)) && d.site.release == s.release
  {
  }

  lemma SettledThroughWrites(s: Site, t: Site)
    requires Settled(s)
    ensures Drift(s, t) ==> Settled(t)
  {
  }

  /** A command, and how often something may go wrong while it runs. */
  datatype Turn =
    | Deploy(version: string, clock: nat, faults: nat)
    | Recover(faults: nat)
    | Restore(id: nat, found: Option<FoundBackup>, file: Content, faults: nat)

  /**
    What becomes of a deployment: turned away; over before it created its release,
    either without a trace or with an operation that no release belongs to; cut
    short; or ended by its coordinator.
  */
  datatype DeployTurn = TurnedAway | LeftNothing | Orphaned | Died | EndedAs(ending: Ending)

  class Installation {
    const store: ReleaseStore
    /** The newest deployment, and whether the machine still is as it left it. */
    var host: Host?
    var current: bool
    var apps: map<Handle, Runtime>
    var db: Database
    var routed: Handle
    var maintenance: bool
    /** A process died holding the lock's owner record. */
    var ownerActive: bool
    /** The newest operation is a restore that needs recovery, or an unclosed deployment that got no release. */
    var restoreUnresolved: bool
    var orphaned: bool
    /** Whose data the database, the database the newest deployment opened on, and each final backup hold. */
    ghost var holder: Holder
    ghost var base: Holder
    ghost var origin: map<nat, Holder>
    /** Every restart of a previous application found exactly what it had left. */
    ghost var exact: bool

    ghost function Repr(): set<object>
      reads this
    {
      {this, store} + (if host == null then {} else {host})
    }

    /** The release that `create_release` would name as previous has this application, or there is none to name. */
    ghost predicate InheritsServing()
      reads this`routed, store
    {
      if store.pointers.Some?
      then store.pointers.value.active in store.manifests
           && store.manifests[store.pointers.value.active].newApplication == Some(routed)
      else routed.Bootstrap?
    }

    /** Traffic is open to exactly one running application, on its own data. */
    ghost predicate OneServes()
      reads this`apps, this`routed, this`holder, this`exact
    {
      && routed in apps && (forall h <- apps :: apps[h] == Running <==> h == routed)
      && (exact ==> holder == DataOf(ReleaseOf(routed)))
    }

    /** The newest operation blocks every command, and no release is left that a recovery could take up. */
    predicate Wedged()
      reads this`restoreUnresolved, this`orphaned
    {
      restoreUnresolved || orphaned
    }

    /** The protected release is newer than the selected one, as a completed restore leaves them. */
    predicate Swapped()
      reads store
    {
      store.pointers.Some? && store.pointers.value.previous.Some?
      && store.pointers.value.previous.value > store.pointers.value.active
    }

    /** Swapped, or a release at least as new as `release` is selected. */
    predicate SwappedOrPast(release: nat)
      reads store
    {
      Swapped() || (store.pointers.Some? && store.pointers.value.active >= release)
    }

    /** The newest deployment's release is selected. */
    predicate NewestSelected()
      reads this`host, store, host
    {
      && host != null && store.pointers.Some? && store.pointers.value.active == host.release.releaseId
      && forall id <- store.manifests :: id <= host.release.releaseId
    }

    /** What `require_clean_operation_state` demands of the lock owner and the newest operation. */
    predicate Startable()
      reads this, host
    {
      && !ownerActive && !Wedged()
      && (host != null && current ==>
            (if host.recoveries == [] then host.operation else host.recoveries[|host.recoveries| - 1]).status
            in {OperationSucceeded, OperationFailedSafe})
    }

    ghost predicate Kept()
      reads this`apps, this`exact, this`origin, store`manifests
    {
      AppsKept(store.manifests, apps) && (exact ==> BackupsKept(store.manifests, origin))
    }

    /** The machine as its newest deployment sees it. */
    ghost predicate InView()
      reads this`host, this`restoreUnresolved, this`apps, this`db, this`routed, this`maintenance, this`holder, this`base,
            this`exact, store`pointers, host
      requires host != null
    {
      && store.pointers == host.pointers && !restoreUnresolved
      && Shows(Machine(apps, db, routed, maintenance, holder), host.Snap(), base)
      && (exact ==> host.story.clean && base == DataOf(ReleaseOf(host.serving)))
    }

    /** The newest deployment's manifest is the store's, and every older release is at rest. */
    ghost predicate Behind()
      reads this`host, store`manifests, host
    {
      && (host != null ==>
            && host.Safe() && host.release.releaseId in store.manifests
            && store.manifests[host.release.releaseId] == host.release
            && (forall id <- store.manifests :: id <= host.release.releaseId)
            && InheritedKept(store.manifests, host.inherited, host.serving, host.created.releaseId))
      && (forall id <- store.manifests :: host == null || id != host.release.releaseId ==>
            store.manifests[id].status in {Active, RolledBack, FailedSafe})
      && (host == null ==> store.manifests == map[])
    }

    /** Release history, applications and routing are as given. */
    ghost predicate SameRecords(
        manifests: map<nat, Manifest>, pointers: Option<Pointers>, apps: map<Handle, Runtime>, routed: Handle,
        maintenance: bool)
      reads this`apps, this`routed, this`maintenance, store
    {
      && store.manifests == manifests && store.pointers == pointers
      && this.apps == apps && this.routed == routed && this.maintenance == maintenance
    }

    ghost predicate HostSettled()
      reads this`host, host
    {
      host != null ==> Settled(host.Snap())
    }

    ghost predicate Valid()
      reads this, store, host
    {
      && store.Valid() && Kept() && Behind() && (orphaned ==> HostSettled())
      && (if host != null && current then InView()
          else && (!maintenance ==> OneServes())
               && (!restoreUnresolved ==> !maintenance && InheritsServing())
               && HostSettled())
    }

    constructor (serving: nat, db: Database)
      ensures Valid() && fresh(Repr()) && exact && Startable()
      ensures store.manifests == map[] && apps == map[Bootstrap(serving) := Running]
    {
      store := new ReleaseStore();
      host, current := null, false;
      apps, this.db := map[Bootstrap(serving) := Running], db;
      routed, maintenance, ownerActive, restoreUnresolved, orphaned := Bootstrap(serving), false, false, false, false;
      holder, base, origin, exact := DataOf(None), DataOf(None), map[], true;
    }

    // ---- what every installation promises ----

    /** Whenever traffic is open, exactly the routed application runs, on its own data. */
    lemma OpenTrafficServesOne()
      requires Valid() && !maintenance
      ensures OneServes()
    {
      if host != null && current {
        OpenTrafficReachesItsOwnData(host.Snap());
        HandlesDiffer(host.Snap());
      }
    }

    /** Once a command may start, traffic is open and the next release inherits the routed application. */
    lemma StartableServesTheInherited()
      requires Valid() && Startable()
      ensures !maintenance && !Wedged() && OneServes() && InheritsServing() && HostSettled()
      ensures forall id <- store.manifests :: store.manifests[id].status in {Active, RolledBack, FailedSafe}
    {
      if host != null && current {
        SettledOpensTheNext(host.Snap());
        ExposedIsRecorded(host.Snap());
      }
      OpenTrafficServesOne();
    }

    /**
      While a deployment is under way, or was cut short, an open installation would
      hand on the serving application exactly if an exposed release is selected.
    */
    lemma InheritedExactly()
      requires Valid() && !maintenance && host != null && current
      ensures InheritsServing() <==> (host.story.exposed ==> Selected(host.release, host.pointers))
    {
      OpenTrafficReachesItsOwnData(host.Snap());
      ExposedIsRecorded(host.Snap());
      HandlesDiffer(host.Snap());
    }

    /** Diagnosis is never ambiguous: it always takes up the newest deployment, and finds none only before the first. */
    lemma DiagnosisFollowsTheNewest(id: nat)
      requires Valid()
      ensures Chosen(store.manifests, id) <==> host != null && id == host.release.releaseId
      ensures |Unresolved(store.manifests)| <= 1
    {
      var unresolved := Unresolved(store.manifests);
      if host != null {
        var newest := host.release.releaseId;
        assert unresolved <= {newest};
        assert unresolved == {} || unresolved == {newest} by { if newest in unresolved { assert {newest} <= unresolved; } }
      } else {
        assert unresolved == {};
      }
    }

    lemma SwappedIsKnown()
      requires Valid() && Swapped()
      ensures store.pointers.Some? && store.pointers.value.previous.Some?
      ensures store.pointers.value.previous.value in store.manifests && SwappedOrPast(store.pointers.value.previous.value)
      ensures forall id: nat, found: Option<FoundBackup> ::
                !PreviewAccepts(store.manifests, store.pointers, id, found)
    {
      forall id: nat, found: Option<FoundBackup> ensures !PreviewAccepts(store.manifests, store.pointers, id, found) {
        SwappedAcceptsNoRestore(id, found);
      }
    }

    /** While the pointers are swapped no restore is accepted, whatever backup is found. */
    lemma SwappedAcceptsNoRestore(id: nat, found: Option<FoundBackup>)
      requires store.Valid() && Swapped()
      ensures !PreviewAccepts(store.manifests, store.pointers, id, found)
    {
    }

    // ---- turns ----

    /** Everything but the newest deployment is at rest, and that deployment opened on what served. */
    ghost predicate Anchored(created: Manifest, inherited: Option<Pointers>, serving: Handle)
      reads this`apps, this`base, this`exact, this`origin, store
    {
      && store.Valid() && Kept() && created.releaseId in store.manifests
      && store.manifests[created.releaseId].previousReleaseId == created.previousReleaseId
      && (store.pointers == inherited || Selected(created, store.pointers))
      && InheritedKept(store.manifests, inherited, serving, created.releaseId)
      && (forall id <- store.manifests :: id <= created.releaseId)
      && (forall id <- store.manifests :: id != created.releaseId ==>
            store.manifests[id].status in {Active, RolledBack, FailedSafe})
      && serving in apps
      && (forall h <- apps :: h != serving && ReleaseOf(h) != Some(created.releaseId) ==> apps[h] != Running)
      && (exact ==> base == DataOf(ReleaseOf(serving)))
    }

    /** The newest deployment or a recovery of it acted on what it opened on. */
    ghost predicate Changed()
      reads this`host, this`apps, this`base, this`exact, this`origin, store, host
    {
      && host != null && host.Safe() && Anchored(host.created, host.inherited, host.serving)
      && (exact ==> host.story.clean)
      && (forall h <- apps :: ReleaseOf(h) == Some(host.created.releaseId) ==> Some(h) == host.world.challenger)
    }

    /** The deployment's manifest and pointers are the store's. */
    method AdoptRecords()
      requires Changed()
      modifies store
      ensures store.Valid() && store.pointers == host.pointers
      ensures store.manifests == old(store.manifests)[host.release.releaseId := host.release]
    {
      hide Inv, ValidRelease;
      RecordFacts(host.Snap());
      store.manifests := store.manifests[host.release.releaseId := host.release];
      store.pointers := host.pointers;
    }

    method AdoptMachine()
      requires host != null && host.Safe()
      modifies this`apps, this`db, this`routed, this`maintenance, this`holder
      ensures apps == SeenApps(old(apps), host.world)
      ensures db == host.world.db && maintenance == host.world.maintenance && routed == Serving(host.Snap())
      ensures holder == HolderOf(host.story.lineage, base, host.release.releaseId)
    {
      apps := apps[host.world.incumbent := host.world.previous];
      if host.world.challenger.Some? { apps := apps[host.world.challenger.value := host.world.new_]; }
      db, maintenance := host.world.db, host.world.maintenance;
      routed := if host.world.target == NewTarget && host.world.challenger.Some? then host.world.challenger.value
                else host.world.incumbent;
      holder := HolderOf(host.story.lineage, base, host.release.releaseId);
    }

    /** Until the newest release is selected, the pointers are those it was created under. */
    lemma SelectedOrInherited()
      requires Valid() && host != null && current
      ensures store.pointers == host.inherited || NewestSelected()
      ensures !host.story.exposed ==> store.pointers == host.inherited
      ensures Selected(host.release, store.pointers) ==> NewestSelected()
    {
      ExposedIsRecorded(host.Snap());
    }

    /** What the installation will look like once it has caught up. */
    lemma ChangedShows()
      requires Changed()
      ensures var s, manifests := host.Snap(), store.manifests[host.release.releaseId := host.release];
              && AppsKept(manifests, SeenApps(apps, s.world))
              && (exact ==> BackupsKept(manifests, origin[host.release.releaseId := base]) && host.story.clean
                            && base == DataOf(ReleaseOf(host.serving)))
              && Shows(Machine(SeenApps(apps, s.world), s.world.db, Serving(s), s.world.maintenance,
                               HolderOf(s.story.lineage, base, s.release.releaseId)), s, base)
    {
      hide Inv, AppsKept, BackupsKept, InheritedKept, Shows, SeenApps, Serving;
      AdoptingKeepsApps(store.manifests, apps, host.Snap());
      SeenIsShown(apps, host.Snap(), base);
      if exact { AdoptingKeepsBackups(store.manifests, origin, host.Snap(), base); }
    }

    method AdoptEverything()
      requires host != null && host.Safe() && Changed() && !restoreUnresolved
      modifies this`current, this`apps, this`db, this`routed, this`maintenance, this`holder, this`origin, store
      ensures store.Valid() && Kept() && InView() && current
      ensures routed == Serving(host.Snap()) && maintenance == host.world.maintenance
      ensures store.manifests == old(store.manifests)[host.release.releaseId := host.release]
      ensures store.pointers == host.pointers && apps == SeenApps(old(apps), host.world)
    {
      hide Inv, Changed, AppsKept, BackupsKept, Shows, SeenApps, Serving, HolderOf;
      ChangedShows();
      AdoptRecords();
      AdoptMachine();
      current := true;
      origin := origin[host.release.releaseId := base];
    }

    /** Brings the installation up to date with what the newest deployment or recovery did. */
    method Observe()
      requires Changed() && !restoreUnresolved && (orphaned ==> HostSettled())
      modifies this`current, this`apps, this`db, this`routed, this`maintenance, this`holder, this`origin, store
      ensures Valid() && current && store.manifests == old(store.manifests)[host.release.releaseId := host.release]
      ensures store.manifests.Keys == old(store.manifests.Keys) && apps == SeenApps(old(apps), host.world)
      ensures host.Safe() && routed == Serving(host.Snap()) && maintenance == host.world.maintenance
      ensures store.pointers == host.pointers
      ensures !host.story.exposed ==> store.pointers == host.inherited
      ensures if Selected(host.release, store.pointers) then NewestSelected() else store.pointers == host.inherited
    {
      hide Inv, ValidRelease, AppsKept, BackupsKept, Shows;
      RecordFacts(host.Snap());
      AdoptEverything();
      SelectedOrInherited();
    }

    /**
      A new deployment: refused unless a command may start, and then opened on what
      actually serves. It may be over before it creates its release; an operation it
      leaves unclosed then blocks every later command. A command may start again
      exactly if it left nothing or came to one of its three good endings.
    */
    method RunDeploy(version: string, clock: nat, faults: nat) returns (turn: DeployTurn)
      requires Valid()
      modifies Repr()
      ensures Valid() && fresh(Repr() - old(Repr())) && exact == old(exact)
      ensures turn == TurnedAway <==> !old(Startable())
      ensures turn in {TurnedAway, LeftNothing} ==> unchanged(this) && unchanged(store)
      ensures turn == Orphaned ==>
                && orphaned && unchanged(store) && host == old(host) && current == old(current)
                && apps == old(apps) && db == old(db) && routed == old(routed) && maintenance == old(maintenance)
      ensures turn.Died? || turn.EndedAs? ==>
                && host != null && fresh(host) && current && host.created.releaseId !in old(store.manifests)
                && store.manifests.Keys == old(store.manifests.Keys) + {host.created.releaseId}
                && host.serving == old(routed) && host.inherited == old(store.pointers) && base == old(holder)
      ensures turn == EndedAs(EndedActive) ==> NewestSelected()
      ensures turn == EndedAs(EndedActive) ==>
                && !maintenance && host != null && ReleaseOf(routed) == Some(host.created.releaseId)
                && store.pointers.Some? && store.pointers.value.active == host.created.releaseId
      ensures turn in {EndedAs(EndedRolledBack), EndedAs(EndedUntouched)} ==>
                !maintenance && routed == old(routed) && store.pointers == old(store.pointers)
      ensures store.pointers != old(store.pointers) ==> NewestSelected()
      ensures faults == 0 && old(Startable()) ==> turn == EndedAs(EndedActive)
      ensures Startable() <==> turn == LeftNothing || (turn.EndedAs? && turn.ending != EndedNeedingRecovery)
    {
      hide Valid, Inv, OneServes, InheritsServing, HostSettled, ReleaseOf;
      if !Startable() { return TurnedAway; }
      StartableServesTheInherited();
      if {
        case faults > 0 => return LeftNothing;           // not begun, or closed as failed safe
        case faults > 0 =>
          Orphan();
          return Orphaned;
        case true =>
      }
      var ending := Proceed(version, clock, faults);
      turn := if ending.Some? then EndedAs(ending.value) else Died;
    }

    method Proceed(version: string, clock: nat, faults: nat) returns (ending: Option<Ending>)
      requires Valid() && !maintenance && !Wedged() && OneServes() && InheritsServing()
      requires forall id <- store.manifests :: store.manifests[id].status in {Active, RolledBack, FailedSafe}
      modifies Repr()
      ensures Valid() && fresh(Repr() - old(Repr())) && exact == old(exact)
      ensures host != null && fresh(host) && current && host.created.releaseId !in old(store.manifests)
      ensures store.manifests.Keys == old(store.manifests.Keys) + {host.created.releaseId}
      ensures host.serving == old(routed) && host.inherited == old(store.pointers) && base == old(holder)
      ensures ending == Some(EndedActive) ==> NewestSelected()
      ensures ending == Some(EndedActive) ==>
                && !maintenance && ReleaseOf(routed) == Some(host.created.releaseId)
                && store.pointers.Some? && store.pointers.value.active == host.created.releaseId
      ensures ending in {Some(EndedRolledBack), Some(EndedUntouched)} ==>
                !maintenance && routed == old(routed) && store.pointers == old(store.pointers)
      ensures store.pointers != old(store.pointers) ==> NewestSelected()
      ensures faults == 0 ==> ending == Some(EndedActive)
      ensures Startable() <==> ending.Some? && ending.value != EndedNeedingRecovery
    {
      hide Valid, Inv, Initial, Anchored, OneServes, InheritsServing, HostSettled, Changed, Serving, ReleaseOf,
           Selected, Startable;
      CreateRelease(version, clock);
      ending := Follow(faults);
    }

    /** The operation exists, its release does not; the process died, or closed it as needing recovery. */
    method Orphan()
      requires Valid() && HostSettled() && !restoreUnresolved
      modifies this`orphaned, this`ownerActive
      ensures Valid() && orphaned
    {
      hide Inv, InView, Behind, Kept, OneServes, InheritsServing;
      orphaned := true;
      var died: bool :| true;
      ownerActive := died;
    }

    /** Runs the deployment just created, and takes up what it did. */
    method Follow(faults: nat) returns (ending: Option<Ending>)
      requires host != null && host.Safe() && Initial(host.Snap()) && Anchored(host.created, host.inherited, host.serving)
      requires (forall h <- apps :: ReleaseOf(h) != Some(host.created.releaseId)) && !Wedged()
      modifies host, store, this`ownerActive, this`current, this`apps, this`db, this`routed, this`maintenance, this`holder,
               this`origin
      ensures Valid() && current && store.manifests.Keys == old(store.manifests.Keys)
      ensures ending == Some(EndedActive) ==> NewestSelected()
      ensures ending == Some(EndedActive) ==>
                && !maintenance && ReleaseOf(routed) == Some(host.created.releaseId)
                && store.pointers.Some? && store.pointers.value.active == host.created.releaseId
      ensures ending in {Some(EndedRolledBack), Some(EndedUntouched)} ==>
                !maintenance && routed == host.serving && store.pointers == host.inherited
      ensures store.pointers == host.inherited || NewestSelected()
      ensures faults == 0 ==> ending == Some(EndedActive)
      ensures Startable() <==> ending.Some? && ending.value != EndedNeedingRecovery
    {
      hide Valid, Inv, Initial, Anchored, Changed, Serving, ReleaseOf, Selected;
      ending := Undertake(faults);
      ownerActive := ending == None;
      Observe();
      if ending.Some? && ending.value != EndedNeedingRecovery { EndedServes(host); }
    }

    /** Runs the deployment, cut short anywhere; only its own host changes. */
    method Undertake(faults: nat) returns (ending: Option<Ending>)
      requires host != null && host.Safe() && Initial(host.Snap()) && Anchored(host.created, host.inherited, host.serving)
      requires forall h <- apps :: ReleaseOf(h) != Some(host.created.releaseId)
      modifies host
      ensures Changed() && host.recoveries == []
      ensures ending == Some(EndedActive) ==>
                host.story.exposed && !host.world.maintenance && Selected(host.release, host.pointers)
      ensures ending in {Some(EndedRolledBack), Some(EndedUntouched)} ==> !host.story.exposed && !host.world.maintenance
      ensures faults == 0 ==> ending == Some(EndedActive)
      ensures ending.Some? ==>
                (host.operation.status in {OperationSucceeded, OperationFailedSafe} <==> ending.value != EndedNeedingRecovery)
    {
      hide Inv, ValidRelease, Anchored;
      var remoteRequired: bool := *;
      var deployment := new Deployment(host, remoteRequired, faults);
      var r, _ := deployment.RunDeployment();
      ending := if r.Done? then Some(r.value) else None;
    }

    /** `create_release`, and the host the deployment acts on. */
    method CreateRelease(version: string, clock: nat)
      requires Valid() && !maintenance && OneServes() && InheritsServing()
      requires forall id <- store.manifests :: store.manifests[id].status in {Active, RolledBack, FailedSafe}
      modifies store, this`host, this`base
      ensures host != null && fresh(host) && host.Safe() && Initial(host.Snap())
      ensures Anchored(host.created, host.inherited, host.serving)
      ensures forall h <- apps :: ReleaseOf(h) != Some(host.created.releaseId)
      ensures host.created.releaseId !in old(store.manifests)
      ensures store.manifests.Keys == old(store.manifests.Keys) + {host.created.releaseId}
      ensures host.serving == routed && host.inherited == old(store.pointers) && base == holder
    {
      hide Inv, ValidRelease, AppsKept, BackupsKept, Anchored, InView, Behind, HostSettled;
      base := holder;
      var id := AddRelease(version, clock);
      host := new Host(store.manifests[id], store.pointers, routed, db, clock);
    }

    method AddRelease(version: string, clock: nat) returns (id: nat)
      requires store.Valid() && Kept() && OneServes() && InheritsServing() && base == holder
      requires forall id <- store.manifests :: store.manifests[id].status in {Active, RolledBack, FailedSafe}
      modifies store
      ensures id in store.manifests && store.manifests[id].releaseId == id
      ensures JustCreated(store.manifests[id]) && Inherits(store.manifests[id], store.pointers, routed)
      ensures Anchored(store.manifests[id], store.pointers, routed)
      ensures forall h <- apps :: ReleaseOf(h) != Some(id)
      ensures id !in old(store.manifests) && store.manifests.Keys == old(store.manifests.Keys) + {id}
      ensures store.pointers == old(store.pointers)
    {
      hide AppsKept, BackupsKept;
      ghost var before := store.manifests;
      var operationId: nat :| true;
      id := store.CreateRelease(operationId, version, clock);
      CreatingKeeps(before, store.manifests, id, apps, origin);
    }

    /** A deployment that is still in view can be taken up by a recovery. */
    lemma CanBeResumed()
      requires Valid() && host != null && current
      ensures Changed() && !restoreUnresolved && (orphaned ==> Settled(host.Snap()))
      ensures Shows(Machine(apps, db, routed, maintenance, holder), host.Snap(), base)
      ensures store.pointers == host.pointers && host.release.releaseId in store.manifests
      ensures store.manifests[host.release.releaseId] == host.release
    {
      HandlesDiffer(host.Snap());
      RecordFacts(host.Snap());
      hide Inv, ValidRelease, AppsKept, BackupsKept, InheritedKept;
    }

    /**
      One recovery. After a manual restore the newest deployment is settled, so there
      is nothing to plan, and neither is there for a blocking operation without a
      release. Exactness is lost only if the plan of its own diagnosis skips the
      restore while rows are hidden.
    */
    method RunRecover(faults: nat) returns (resolved: bool, ghost site: Option<Site>, ghost diagnosis: Option<Diagnosis>)
      requires Valid()
      modifies Repr()
      ensures Valid() && Repr() == old(Repr()) && host == old(host)
      ensures diagnosis.Some? ==>
                host != null && Diagnosed(old(host.Snap()), diagnosis.value)
                && diagnosis.value.site.release.releaseId in store.manifests
      ensures exact ==> old(exact)
      ensures (diagnosis.Some? ==> !Inexact(diagnosis.value)) ==> exact == old(exact)
      ensures store.manifests.Keys == old(store.manifests.Keys)
      ensures resolved ==> Startable() && host != null && host.release.recoveryOperation.Some?
      ensures old(Wedged()) ==>
                Wedged() && SameRecords(old(store.manifests), old(store.pointers), old(apps), old(routed), old(maintenance))
      ensures site.Some? <==> host != null && old(current)
      ensures site.Some? ==> Inv(site.value) && Drift(old(host.Snap()), site.value)
      ensures faults == 0 ==> (resolved <==> site.Some? && Recoverable(site.value) && Markable(site.value))
      ensures faults == 0 ==> (ownerActive <==> old(ownerActive) && diagnosis == None)
      ensures store.pointers != old(store.pointers) ==> NewestSelected()
    {
      hide Valid, Startable, Inexact, Diagnosed, Recoverable, Markable, Drift, Inv;
      resolved, site, diagnosis := false, None, None;
      if host != null && current {
        ghost var found;
        resolved, found, diagnosis := RecoverInView(faults);
        site := Some(found);
      }
    }

    method RecoverInView(faults: nat) returns (resolved: bool, ghost site: Site, ghost diagnosis: Option<Diagnosis>)
      requires Valid() && host != null && current
      modifies host, store, this`exact, this`ownerActive, this`current, this`apps, this`db, this`routed, this`maintenance,
               this`holder, this`origin
      ensures Valid()
      ensures diagnosis.Some? ==>
                Diagnosed(old(host.Snap()), diagnosis.value) && diagnosis.value.site.release.releaseId in store.manifests
      ensures exact ==> old(exact)
      ensures (diagnosis.Some? ==> !Inexact(diagnosis.value)) ==> exact == old(exact)
      ensures store.manifests.Keys == old(store.manifests.Keys)
      ensures resolved ==> Startable() && host.release.recoveryOperation.Some?
      ensures Wedged() == old(Wedged())
      ensures old(Wedged()) ==>
                SameRecords(old(store.manifests), old(store.pointers), old(apps), old(routed), old(maintenance))
      ensures Inv(site) && Drift(old(host.Snap()), site)
      ensures faults == 0 ==> (resolved <==> Recoverable(site) && Markable(site))
      ensures faults == 0 ==> (ownerActive <==> old(ownerActive) && diagnosis == None)
      ensures store.pointers != old(store.pointers) ==> NewestSelected()
    {
      hide Recoverable, Markable;
      hide Valid, Inv, Changed, Inexact, Serving, Diagnosed, SeenApps, Settled, Shows, Drift, Reports, Executable;
      resolved, site, diagnosis, ownerActive := ResumeInView(faults);
      Observe();
    }

    /** The recovery itself; for a wedged installation it leaves nothing to catch up with. */
    method ResumeInView(faults: nat)
      returns (resolved: bool, ghost site: Site, ghost diagnosis: Option<Diagnosis>, died: bool)
      requires Valid() && host != null && current
      modifies host, this`exact
      ensures Changed() && !restoreUnresolved && (orphaned ==> HostSettled())
      ensures diagnosis.Some? ==>
                Diagnosed(old(host.Snap()), diagnosis.value) && diagnosis.value.site.release.releaseId in store.manifests
      ensures exact ==> old(exact)
      ensures (diagnosis.Some? ==> !Inexact(diagnosis.value)) ==> exact == old(exact)
      ensures resolved ==>
                && !died && host.recoveries != [] && host.release.recoveryOperation.Some?
                && host.recoveries[|host.recoveries| - 1].status == OperationSucceeded && !orphaned
      ensures orphaned ==>
                && host.release.releaseId in store.manifests && store.manifests[host.release.releaseId] == host.release
                && store.pointers == host.pointers && SeenApps(apps, host.world) == apps
                && Serving(host.Snap()) == routed && host.world.maintenance == maintenance
      ensures Inv(site) && Drift(old(host.Snap()), site)
      ensures faults == 0 ==> (resolved <==> Recoverable(site) && Markable(site))
      ensures faults == 0 ==> (died <==> ownerActive && diagnosis == None)
      ensures host.pointers == old(store.pointers) || Selected(host.release, host.pointers)
      ensures host.release.releaseId in store.manifests
    {
      hide Recoverable, Markable;
      hide Valid, Inv, Changed, Inexact, Serving, Diagnosed, SeenApps, Settled, Shows, Drift, Reports, Executable;
      CanBeResumed();
      ghost var machine, before := Machine(apps, db, routed, maintenance, holder), host.Snap();
      resolved, site, diagnosis, died := Resume(faults);
      if orphaned { Unmoved(machine, before, host.Snap(), base); }
      if diagnosis.Some? { DiagnosedFacts(before, diagnosis.value); }
      if Settled(before) { SettledThroughWrites(before, host.Snap()); }
      ChangedIsFiled();
    }

    lemma ChangedIsFiled()
      requires Changed()
      ensures host != null && host.release.releaseId in store.manifests
    {
    }

    /** Exactness follows the deployment's own history. */
    ghost method Judge()
      requires host != null && host.Safe() && Anchored(host.created, host.inherited, host.serving)
      requires forall h <- apps :: ReleaseOf(h) == Some(host.created.releaseId) ==> Some(h) == host.world.challenger
      modifies this`exact
      ensures Changed() && exact == (old(exact) && host.story.clean)
    {
      hide Inv, AppsKept, BackupsKept, InheritedKept;
      exact := exact && host.story.clean;
    }

    method Resume(faults: nat) returns (resolved: bool, ghost site: Site, ghost diagnosis: Option<Diagnosis>, died: bool)
      requires Changed()
      modifies host, this`exact
      ensures Changed()
      ensures diagnosis.Some? ==> Diagnosed(old(host.Snap()), diagnosis.value)
      ensures exact ==> old(exact)
      ensures (diagnosis.Some? ==> !Inexact(diagnosis.value)) ==> exact == old(exact)
      ensures resolved ==>
                && !died && host.recoveries != [] && host.release.recoveryOperation.Some?
                && host.recoveries[|host.recoveries| - 1].status == OperationSucceeded
      ensures Settled(old(host.Snap())) ==> !resolved && diagnosis == None && Drift(old(host.Snap()), host.Snap())
      ensures Inv(site) && Drift(old(host.Snap()), site)
      ensures host.pointers == old(host.pointers) || Selected(host.release, host.pointers)
      ensures faults == 0 ==> (resolved <==> Recoverable(site) && Markable(site))
      ensures faults == 0 ==> (died <==> ownerActive && diagnosis == None)
    {
      hide Recoverable, Markable, Drift;
      hide Inv, ValidRelease, Inexact, Diagnosed, NothingHidden, Anchored, Inherits, PromisedWorld, Selected, Settled;
      var count := |host.recoveries|;
      var recovery := new Recovery(host, faults);
      var r;
      r, site, diagnosis := recovery.Recover();
      resolved := r.Done?;
      Judge();
      died := r.Crash? || (ownerActive && |host.recoveries| == count);
    }

    /**
      One confirmed manual restore of the release before the active one; its
      exceptions, not its crashes. It routes traffic to that release's application and
      selects it, or returns to the current one, or blocks every later command.
    */
    method RunRestore(id: nat, found: Option<FoundBackup>, file: Content, faults: nat) returns (ending: Option<RestoreEnding>)
      requires Valid()
      modifies this, store
      ensures Valid() && exact == old(exact) && host == old(host) && store.manifests == old(store.manifests)
      ensures ending.Some? <==> old(Startable()) && old(PreviewAccepts(store.manifests, store.pointers, id, found))
      ensures ending == None ==> unchanged(this) && unchanged(store)
      ensures ending == Some(RestoreCompleted) ==>
                && !maintenance && id in store.manifests && store.manifests[id].newApplication == Some(routed)
                && old(store.pointers).Some? && id != old(store.pointers).value.active
                && store.pointers == Some(Pointers(id, Some(old(store.pointers).value.active))) && Swapped()
      ensures ending == Some(RestoreFailedSafe) ==>
                !maintenance && routed == old(routed) && store.pointers == old(store.pointers)
      ensures ending == Some(RestoreNeedsRecovery) ==> !Startable()
      ensures store.pointers != old(store.pointers) ==> Swapped()
      ensures faults == 0 && ending.Some? ==>
                ending.value == if found.value.sha == file then RestoreCompleted else RestoreFailedSafe
    {
      hide Valid, Startable, Swapped;
      ending := None;
      if !Startable() { return; }
      StoreIsValid();
      var selection := Preview(store, id, found);
      if selection == None { return; }
      var ended := RestoreConfirmed(selection.value, id, found, file, faults);
      ending := Some(ended);
    }

    lemma StoreIsValid()
      requires Valid()
      ensures store.Valid()
    {
    }

    method RestoreConfirmed(selection: Selection, id: nat, found: Option<FoundBackup>, file: Content, faults: nat)
      returns (ended: RestoreEnding)
      requires Valid() && Startable() && PreviewAccepts(store.manifests, store.pointers, id, found)
      requires selection.active == store.manifests[store.pointers.value.active]
      requires selection.selected == store.manifests[id] && selection.backup.sha == found.value.sha
      modifies this`apps, this`db, this`maintenance, this`holder, this`routed, this`current, this`restoreUnresolved,
               store`pointers
      ensures Valid()
      ensures ended == RestoreCompleted ==>
                && !maintenance && id in store.manifests && store.manifests[id].newApplication == Some(routed)
                && id != old(store.pointers).value.active
                && store.pointers == Some(Pointers(id, Some(old(store.pointers).value.active))) && Swapped()
      ensures ended == RestoreFailedSafe ==>
                !maintenance && routed == old(routed) && store.pointers == old(store.pointers)
      ensures ended == RestoreNeedsRecovery ==> !Startable()
      ensures store.pointers != old(store.pointers) ==> Swapped()
      ensures faults == 0 ==> ended == if found.value.sha == file then RestoreCompleted else RestoreFailedSafe
    {
      hide Inv, ValidRelease, BackupsKept, Shows, AppsKept, Behind, HostSettled;
      StartableServesTheInherited();
      SelectedIsKept(id, found);
      var selected := selection.selected.newApplication.value;
      var before := Scene(db, apps[routed], apps[selected], NewTarget, false);
      var scene, onSelected, ending := RestoreSelected(id, before, Artifact(file, selection.backup.sha), faults);
      AdoptScene(selection.active.releaseId, selected, scene, onSelected, ending);
      ended := ending;
    }

    /** The previewed release's application is there, stopped, and the active release's backup holds its data. */
    lemma SelectedIsKept(id: nat, found: Option<FoundBackup>)
      requires store.Valid() && Kept() && OneServes() && InheritsServing()
      requires PreviewAccepts(store.manifests, store.pointers, id, found)
      ensures store.manifests[id].newApplication.Some?
      ensures var selected := store.manifests[id].newApplication.value;
              var active := store.manifests[store.pointers.value.active];
              && selected in apps && selected != routed && apps[selected] == Stopped && apps[routed] == Running
              && active.releaseId == store.pointers.value.active
              && (exact ==> active.releaseId in origin && origin[active.releaseId] == DataOf(ReleaseOf(selected)))
    {
    }

    method RestoreSelected(id: nat, before: Scene, backup: Artifact, faults: nat)
      returns (scene: Scene, ghost onSelected: bool, ending: RestoreEnding)
      requires before.current == Running && before.selected == Stopped && before.target == NewTarget && !before.maintenance
      requires store.Valid() && id in store.manifests && store.manifests[id].status == Active
      modifies store`pointers
      ensures store.Valid() && SceneIsSafe(scene, onSelected)
      ensures ending == RestoreCompleted ==>
                !scene.maintenance && scene.target == OldTarget && store.pointers == Reselected(old(store.pointers), id)
      ensures ending == RestoreFailedSafe ==>
                !scene.maintenance && scene.target == NewTarget && store.pointers == old(store.pointers)
      ensures store.pointers in {old(store.pointers), Reselected(old(store.pointers), id)}
      ensures faults == 0 ==> ending == if backup.file == backup.recorded then RestoreCompleted else RestoreFailedSafe
    {
      var restore := new ManualRestore(backup, before, faults);
      ending := restore.RunManualRestore(store, id);
      scene, onSelected := restore.scene, restore.past.onSelected;
    }

    /** Brings the installation up to date with how a restore left the two applications. */
    method AdoptScene(active: nat, selected: Handle, scene: Scene, ghost onSelected: bool, ending: RestoreEnding)
      requires store.Valid() && Kept() && routed in apps && selected in apps && selected != routed
      requires forall h <- apps :: h != routed && h != selected ==> apps[h] != Running
      requires SceneIsSafe(scene, onSelected)
      requires exact ==> holder == DataOf(ReleaseOf(routed)) && active in origin
                         && origin[active] == DataOf(ReleaseOf(selected))
      requires Behind() && HostSettled()
      requires ending != RestoreNeedsRecovery ==>
                 && !scene.maintenance && store.pointers.Some? && store.pointers.value.active in store.manifests
                 && store.manifests[store.pointers.value.active].newApplication
                    == Some(if scene.target == OldTarget then selected else routed)
      modifies this`apps, this`db, this`maintenance, this`holder, this`routed, this`current, this`restoreUnresolved
      ensures Valid() && maintenance == scene.maintenance
      ensures routed == (if scene.target == OldTarget then selected else old(routed))
      ensures restoreUnresolved == (ending == RestoreNeedsRecovery)
    {
      hide Inv, ValidRelease, BackupsKept, Shows, AppsKept, Behind, HostSettled;
      SceneServesOne(store.manifests, apps, routed, selected, scene, onSelected);
      hide SceneIsSafe;
      AssignScene(selected, scene, if onSelected && active in origin then origin[active] else holder, ending);
      assert Kept() && Behind() && HostSettled();
      assert !maintenance ==> OneServes();
    }

    method AssignScene(selected: Handle, scene: Scene, ghost whose: Holder, ending: RestoreEnding)
      modifies this`apps, this`db, this`maintenance, this`holder, this`routed, this`current, this`restoreUnresolved
      ensures apps == old(apps)[old(routed) := scene.current][selected := scene.selected]
      ensures db == scene.db && maintenance == scene.maintenance && holder == whose
      ensures routed == (if scene.target == OldTarget then selected else old(routed))
      ensures !current && restoreUnresolved == (ending == RestoreNeedsRecovery)
    {
      apps := apps[routed := scene.current][selected := scene.selected];
      db, maintenance, holder := scene.db, scene.maintenance, whose;
      routed := if scene.target == OldTarget then selected else routed;
      current, restoreUnresolved := false, ending == RestoreNeedsRecovery;
    }

    /** Time passes before a turn: running applications write. */
    method Elapse()
      requires Valid()
      modifies Repr()
      ensures Valid() && Repr() == old(Repr()) && host == old(host) && current == old(current)
      ensures host != null ==> Drift(old(host.Snap()), host.Snap())
      ensures exact == old(exact) && Wedged() == old(Wedged()) && Startable() == old(Startable())
      ensures SameRecords(old(store.manifests), old(store.pointers), old(apps), old(routed), old(maintenance))
    {
      hide Inv, Kept, OneServes, InheritsServing, Shows;
      if host != null { AgesNot(host.world, host.story); }
      if host != null && current {
        ElapseInView();
      } else if exists h <- apps :: apps[h] == Running {
        var written: Database :| true;
        db := written;
      }
    }

    method ElapseInView()
      requires Valid() && host != null && current
      modifies host`world, host`story, this`db
      ensures Valid() && Drift(old(host.Snap()), host.Snap())
    {
      hide Inv, Kept, OneServes, InheritsServing, Shows, Settled, ReleaseOf;
      ghost var machine, before := Machine(apps, db, routed, maintenance, holder), host.Snap();
      host.Elapse();
      db := host.world.db;
      ShownThroughWrites(machine, before, host.Snap(), base);
      if Settled(before) { SettledThroughWrites(before, host.Snap()); }
    }

    /**
      One turn, after whatever was written before it. Exactness is lost only in a
      recovery whose own diagnosis was inexact; a wedged installation keeps its
      records, its applications and its routing, and stays wedged.
    */
    method Take(turn: Turn) returns (ghost site: Option<Site>, ghost diagnosis: Option<Diagnosis>)
      requires Valid()
      modifies Repr()
      ensures Valid() && fresh(Repr() - old(Repr()))
      ensures diagnosis.Some? ==>
                && turn.Recover? && old(host) != null && Diagnosed(old(host.Snap()), diagnosis.value)
                && diagnosis.value.site.release.releaseId in store.manifests
      ensures turn.Deploy? && turn.faults == 0 && old(Startable()) ==> Startable() && NewestSelected()
      ensures turn.Recover? ==>
                && (site.Some? <==> old(host) != null && old(current))
                && (site.Some? ==> Inv(site.value) && Drift(old(host.Snap()), site.value))
                && (turn.faults == 0 && site.Some? && Recoverable(site.value) && Markable(site.value) ==> Startable())
      ensures exact ==> old(exact)
      ensures (diagnosis.Some? ==> !Inexact(diagnosis.value)) ==> exact == old(exact)
      ensures old(store.manifests.Keys) <= store.manifests.Keys
      ensures store.pointers != old(store.pointers) ==> if turn.Restore? then Swapped() else NewestSelected()
      ensures forall release <- old(store.manifests) :: old(SwappedOrPast(release)) ==> SwappedOrPast(release)
      ensures old(Wedged()) ==>
                Wedged() && SameRecords(old(store.manifests), old(store.pointers), old(apps), old(routed), old(maintenance))
    {
      hide Valid, Inexact, Aged, Recoverable, Markable, Inv;
      ghost var before := if host == null then None else Some(host.Snap());
      Elapse();
      ghost var elapsed := if host == null then None else Some(host.Snap());
      site, diagnosis := None, None;
      match turn
      case Deploy(version, clock, faults) => var _ := RunDeploy(version, clock, faults);
      case Recover(faults) =>
        var _, found, diagnosed := RunRecover(faults);
        site, diagnosis := found, diagnosed;
        if site.Some? {
          AgesTwice(before.value.world, before.value.story, elapsed.value.world, elapsed.value.story,
                    site.value.world, site.value.story);
        }
        if diagnosis.Some? {
          AgesTwice(before.value.world, before.value.story, elapsed.value.world, elapsed.value.story,
                    diagnosis.value.site.world, diagnosis.value.site.story);
        }
      case Restore(id, found, file, faults) => var _ := RunRestore(id, found, file, faults);
    }
  }

  /** A diagnosis of one of this installation's own releases. */
  ghost predicate OfInstallation(d: Diagnosis, installation: Installation)
    reads installation.store`manifests
  {
    Inv(d.site) && Reports(d.live, d.site) && Executable(PlanOf(d)) && d.site.release.releaseId in installation.store.manifests
  }

  lemma Promises(installation: Installation)
    requires installation.Valid()
    ensures !installation.maintenance ==> installation.OneServes()
    ensures installation.exact && !installation.maintenance ==> installation.holder == DataOf(ReleaseOf(installation.routed))
    ensures installation.Startable() ==> !installation.maintenance && installation.InheritsServing()
  {
    if !installation.maintenance { installation.OpenTrafficServesOne(); }
    if installation.Startable() { installation.StartableServesTheInherited(); }
  }

  /**
    Any life of an installation: deployments, recoveries and manual restores in any
    order, deployments and recoveries cut short anywhere; `log` holds what each
    recovery that took over had diagnosed. Whenever traffic is open, exactly one
    application runs, it is the one traffic reaches, and while every restart was exact
    the database holds its data; whenever a new command may start, traffic is open
    and that application is the one `create_release` inherits, or the original one
    while there is none to inherit. Exactness is lost only in a recovery that
    restarted without a restore while rows were hidden from its diagnosis. Once a
    restore has swapped the pointers no further restore is accepted, until a release
    at least as new as the replaced one is activated.
  */
  method AnyLife(installation: Installation, turns: seq<Turn>) returns (ghost log: seq<Option<Diagnosis>>)
    requires installation.Valid()
    modifies installation.Repr()
    ensures installation.Valid() && |log| == |turns|
    ensures !installation.maintenance ==> installation.OneServes()
    ensures installation.exact && !installation.maintenance ==> installation.holder == DataOf(ReleaseOf(installation.routed))
    ensures installation.Startable() ==> !installation.maintenance && installation.InheritsServing()
    ensures forall i :: 0 <= i < |log| && log[i].Some? ==> turns[i].Recover? && OfInstallation(log[i].value, installation)
    ensures log != [] && log[0].Some? ==>
              old(installation.host) != null && Diagnosed(old(installation.host.Snap()), log[0].value)
    ensures old(installation.exact) && (forall i :: 0 <= i < |log| && log[i].Some? ==> !Inexact(log[i].value)) ==>
              installation.exact
    ensures old(installation.Swapped()) ==>
              installation.SwappedOrPast(old(installation.store.pointers).value.previous.value)
    ensures installation.Swapped() ==> forall id: nat, found: Option<FoundBackup> ::
              !PreviewAccepts(installation.store.manifests, installation.store.pointers, id, found)
    ensures old(installation.Wedged()) ==>
              && !installation.Startable()
              && installation.SameRecords(old(installation.store.manifests), old(installation.store.pointers),
                                          old(installation.apps), old(installation.routed), old(installation.maintenance))
  {
    hide Installation.OneServes, Installation.InheritsServing, Installation.SwappedOrPast, Inexact, Diagnosed,
         PreviewAccepts;
    ghost var replaced := if installation.Swapped() then Some(installation.store.pointers.value.previous.value) else None;
    if installation.Swapped() { installation.SwappedIsKnown(); }
    log := LiveThrough(installation, turns, replaced);
    Promises(installation);
    if installation.Swapped() { installation.SwappedIsKnown(); }
  }

  /** The turns, one after the other. */
  method LiveThrough(installation: Installation, turns: seq<Turn>, ghost replaced: Option<nat>)
    returns (ghost log: seq<Option<Diagnosis>>)
    requires installation.Valid()
    requires replaced.Some? ==> replaced.value in installation.store.manifests && installation.SwappedOrPast(replaced.value)
    modifies installation.Repr()
    ensures installation.Valid() && |log| == |turns|
    ensures forall i :: 0 <= i < |log| && log[i].Some? ==> turns[i].Recover? && OfInstallation(log[i].value, installation)
    ensures log != [] && log[0].Some? ==>
              old(installation.host) != null && Diagnosed(old(installation.host.Snap()), log[0].value)
    ensures old(installation.exact) && (forall i :: 0 <= i < |log| && log[i].Some? ==> !Inexact(log[i].value)) ==>
              installation.exact
    ensures replaced.Some? ==> installation.SwappedOrPast(replaced.value)
    ensures old(installation.Wedged()) ==>
              && !installation.Startable()
              && installation.SameRecords(old(installation.store.manifests), old(installation.store.pointers),
                                          old(installation.apps), old(installation.routed), old(installation.maintenance))
  {
    hide Installation.Swapped, Installation.SwappedOrPast, Installation.Valid, Installation.OneServes,
         Installation.InheritsServing, Inexact, Diagnosed;
    log := [];
    for i := 0 to |turns|
      invariant installation.Valid() && fresh(installation.Repr() - old(installation.Repr()))
      invariant |log| == i
      invariant i == 0 ==> installation.host == old(installation.host)
                           && (installation.host != null ==> installation.host.Snap() == old(installation.host.Snap()))
      invariant forall j :: 0 <= j < i && log[j].Some? ==> turns[j].Recover? && OfInstallation(log[j].value, installation)
      invariant log != [] && log[0].Some? ==>
                  old(installation.host) != null && Diagnosed(old(installation.host.Snap()), log[0].value)
      invariant old(installation.exact) && (forall j :: 0 <= j < i && log[j].Some? ==> !Inexact(log[j].value)) ==>
                  installation.exact
      invariant replaced.Some? ==> replaced.value in installation.store.manifests && installation.SwappedOrPast(replaced.value)
      invariant old(installation.Wedged()) ==>
                  && installation.Wedged()
                  && installation.SameRecords(old(installation.store.manifests), old(installation.store.pointers),
                                              old(installation.apps), old(installation.routed), old(installation.maintenance))
    {
      ghost var before := if installation.host == null then None else Some(installation.host.Snap());
      ghost var _, diagnosis := installation.Take(turns[i]);
      if diagnosis.Some? { DiagnosedFacts(before.value, diagnosis.value); }
      assert log == (log + [diagnosis])[..i];
      log := log + [diagnosis];
    }
  }
}
