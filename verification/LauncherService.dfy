/** `LauncherStore` and `BootstrapService.update` as they run: fields rewritten one at a time. Every write
    is one action of the update machine, so whatever the machine's histories promise, the code keeps. */
module LauncherService {
  import opened Wrappers
  import opened Manifests
  import opened LauncherStores
  import opened LauncherUpdates
  import opened LauncherSafety
  import opened LauncherGuarantees
  import opened LauncherVerdicts

  /** One history goes on where the other stops. */
  ghost predicate Later(before: seq<Action>, after: seq<Action>)
  {
    |before| <= |after| && after[..|before|] == before
  }

  lemma LaterTransitive()
    ensures forall a: seq<Action> :: Later(a, a)
    ensures forall a, b, c {:trigger Later(a, b), Later(b, c)} :: Later(a, b) && Later(b, c) ==> Later(a, c)
  {
  }

  /** The persistent store. `trace` remembers what was on disk after every action: a crash leaves the
      disk in one of these states. */
  class LauncherStore {
    const cfg: Config
    var versions: map<string, Directory>
    var staging: map<string, Directory>
    var active: Option<Pointer>
    var lkg: Option<Pointer>
    var policy: Option<Envelope>
    var receipts: map<string, Receipt>

    ghost var sys: System
    ghost var actions: seq<Action>
    ghost var trace: seq<Disk>

    /** The files of the store, read together. */
    function OnDisk(): Disk
      reads this
    {
      Disk(versions, staging, active, lkg, policy, receipts)
    }

    ghost predicate Valid()
      reads this
    {
      sys.disk == OnDisk() && Traced()
    }

    /** The recorded actions, from an empty store, lead here by way of the recorded disks. */
    ghost predicate Traced()
      reads this
    {
      && sys == Reached(cfg, actions)
      && |trace| == |actions| + 1
      && (forall i :: 0 <= i <= |actions| ==> trace[i] == Reached(cfg, actions[..i]).disk)
    }

    /** No migration has been recorded. */
    ghost predicate Unmigrated()
      reads this
    {
      OnlyUpdates(actions)
    }

    constructor (cfg: Config)
      ensures Valid() && this.cfg == cfg && actions == [] && OnDisk() == EMPTY_DISK
    {
      this.cfg := cfg;
      versions, staging, active, lkg, policy, receipts := map[], map[], None, None, None, map[];
      sys, actions, trace := FRESH, [], [EMPTY_DISK];
    }

    /** Exactly this action happened. */
    twostate predicate Took(a: Action)
      reads this
    {
      && Valid() && sys == Do(cfg, old(sys), a) && actions == old(actions) + [a] && Later(old(actions), actions)
      && (old(Unmigrated()) && !a.MigrateBegin? && !a.MigrateStep? ==> Unmigrated())
    }

    ghost method Record(a: Action)
      requires Traced() && Do(cfg, sys, a).disk == OnDisk()
      modifies this`sys, this`actions, this`trace
      ensures Took(a)
    {
      hide Do;
      var before := actions;
      sys := Do(cfg, sys, a);
      actions := actions + [a];
      trace := trace + [OnDisk()];
      assert actions[..|actions| - 1] == before;
      forall i | 0 <= i <= |actions| ensures trace[i] == Reached(cfg, actions[..i]).disk {
        if i < |actions| { assert actions[..i] == before[..i]; } else { assert actions[..i] == actions; }
      }
    }

    /** One write: afterwards the disk is as the action leaves it. */
    method Write(disk: Disk, ghost a: Action)
      requires Valid() && Do(cfg, sys, a).disk == disk
      modifies this
      ensures Took(a) && OnDisk() == disk
    {
      hide Do;
      versions, staging, active, lkg, policy, receipts :=
        disk.versions, disk.staging, disk.active, disk.lkg, disk.policy, disk.receipts;
      Record(a);
    }

    /** An event that writes nothing. */
    ghost method Note(a: Action)
      requires Valid() && Do(cfg, sys, a).disk == OnDisk()
      modifies this`sys, this`actions, this`trace
      ensures Took(a) && OnDisk() == old(OnDisk())
    {
      hide Do;
      Record(a);
    }
  }

  datatype BootstrapResult = Finished(state: Outcome, activeVersion: string, targetVersion: string) | Raised

  /** The local variables of a run. */
  datatype Locals = Locals(
    txn: string,
    manifest: Manifest,
    launch: bool,
    previous: Option<Pointer>,
    receipt: Receipt,
    metadata: Metadata)

  lemma FinalIsInstalled(cfg: Config, actions: seq<Action>)
    requires var s := Reached(cfg, actions); s.run.Some? && Placed(s.run.value.phase)
    ensures var s := Reached(cfg, actions); Final(s) in s.disk.versions
  {
    ReachedInv(cfg, actions);
  }

  /** The sweeps that a run begins with. */
  function Sweeps(names: seq<string>): (r: seq<Action>)
    ensures |r| == |names|
  {
    seq(|names|, i requires 0 <= i < |names| => Sweep(names[i]))
  }

  /** What `update` switches the active pointer to. */
  function Target(cfg: Config, locals: Locals, now: string): Pointer
  {
    PointerTo(locals.metadata, locals.manifest.launcherVersion, cfg.digest(locals.manifest), now)
  }

  /** What follows the health check. */
  function Judged(locals: Locals, versions: map<string, Directory>, world: World): Phase
  {
    if TakenForHealthy(locals.manifest, locals.launch, versions, world) then Trusting
    else if locals.previous.Some? then RollingBack
    else Blocking
  }

  /** The directory of the pointer is there and validates. */
  predicate Restorable(cfg: Config, versions: map<string, Directory>, p: Pointer)
  {
    p.path in versions && Validate(cfg, versions[p.path]).Some?
  }

  class BootstrapService {
    const store: LauncherStore

    constructor (store: LauncherStore)
      ensures this.store == store
    {
      this.store := store;
    }

    /** The run stands at this phase, with these local values. */
    ghost predicate Stands(phase: Phase, locals: Locals)
      reads store
    {
      && store.Valid() && store.sys.run.Some? && store.sys.last.Some?
      && var run := store.sys.run.value;
      && run.phase == phase && run.txn == locals.txn && run.manifest == locals.manifest && run.launch == locals.launch
      && run.previous == locals.previous && run.receipt == locals.receipt && run.metadata == locals.metadata
    }

    /** The run is over, with this outcome. */
    ghost predicate Over(outcome: Outcome)
      reads store
    {
      store.Valid() && store.sys.run.None? && store.sys.last.Some? && store.sys.last.value.outcome == Some(outcome)
    }

    /** The same run goes on: its target and the pointers it found are as before. */
    twostate predicate SameAttempt()
      reads store
    {
      && store.sys.last.Some? && old(store.sys.last).Some?
      && var last, before := store.sys.last.value, old(store.sys.last).value;
      && last.txn == before.txn && last.manifest == before.manifest
      && last.oldActive == before.oldActive && last.oldLkg == before.oldLkg
    }

    /** The history went on, and took in no migration. */
    twostate predicate Continues()
      reads store
    {
      Later(old(store.actions), store.actions) && (old(store.Unmigrated()) ==> store.Unmigrated())
    }

    /** Writes the receipt that the phase calls for. */
    method Advance(phase: Phase, next: Phase, locals0: Locals, ghost a: Action) returns (locals: Locals)
      requires Stands(phase, locals0) && Marks(phase) != [] && !a.MigrateBegin? && !a.MigrateStep?
      requires Do(store.cfg, store.sys, a) == Mark(store.sys, next)
      modifies store
      ensures locals == locals0.(receipt := Marked(locals0.receipt, Marks(phase)))
      ensures Stands(next, locals) && Continues() && SameAttempt() && store.actions == old(store.actions) + [a]
      ensures store.OnDisk() == old(store.OnDisk()).(receipts := old(store.receipts)[locals.txn := locals.receipt])
    {
      hide Do, LauncherStore.Traced;
      locals := locals0.(receipt := Marked(locals0.receipt, Marks(phase)));
      store.Write(store.OnDisk().(receipts := store.receipts[locals.txn := locals.receipt]), a);
    }

    /** The same, once the metadata of the candidate are known. */
    method AcceptCandidate(locals0: Locals, metadata: Metadata) returns (locals: Locals)
      requires Stands(Inspecting, locals0)
      requires var marked := Mark(store.sys, Smoking);
               Do(store.cfg, store.sys, Inspect) == marked.(run := Some(marked.run.value.(metadata := metadata)))
      modifies store
      ensures locals == locals0.(receipt := Marked(locals0.receipt, [CANDIDATE_SMOKE_TESTING]), metadata := metadata)
      ensures Stands(Smoking, locals) && Continues() && SameAttempt()
      ensures store.staging == old(store.staging) && store.versions == old(store.versions)
    {
      hide Do, LauncherStore.Traced;
      locals := locals0.(receipt := Marked(locals0.receipt, [CANDIDATE_SMOKE_TESTING]), metadata := metadata);
      store.Write(store.OnDisk().(receipts := store.receipts[locals.txn := locals.receipt]), Inspect);
    }

    /** The exception handler, after a failed check or a raised error. */
    method Refuse(phase: Phase, locals: Locals, late: bool, ghost a: Action)
      requires Stands(phase, locals) && !a.MigrateBegin? && !a.MigrateStep?
      requires Do(store.cfg, store.sys, a) ==
               Fail(store.sys,
                    if late && Marks(phase) != [] then Marked(locals.receipt, Marks(phase)) else locals.receipt)
      modifies store
      ensures Over(Failed) && Continues() && SameAttempt()
      ensures store.active == old(store.active) && store.lkg == old(store.lkg) && store.versions == old(store.versions)
    {
      hide Do;
      var r := if late && Marks(phase) != [] then Marked(locals.receipt, Marks(phase)) else locals.receipt;
      store.Write(store.OnDisk().(receipts := store.receipts[locals.txn := r.(state := FAILED_RECOVERABLE)]), a);
    }

    /** An exception may strike here. */
    method MayRaise(phase: Phase, locals: Locals, world: World) returns (raised: bool)
      requires Stands(phase, locals) && !phase.Sweeping? && !phase.Opening?
      modifies store
      ensures Continues() && SameAttempt() && raised == world.fault(phase).Some?
      ensures if raised then Over(Failed) else unchanged(store)
      ensures store.active == old(store.active) && store.lkg == old(store.lkg) && store.versions == old(store.versions)
    {
      raised := world.fault(phase).Some?;
      if raised { Refuse(phase, locals, world.fault(phase).value, Raise(world.fault(phase).value)); }
    }

    /** Fetching and unpacking the package: it raises exactly when something strikes or the package is not the
        one of the manifest. */
    method FetchPackage(locals0: Locals, world: World) returns (raised: bool, locals: Locals)
      requires Stands(Downloading, locals0)
      modifies store
      ensures Continues() && SameAttempt() && store.versions == old(store.versions)
      ensures raised <==> || world.fault(Downloading).Some? || world.packageSize != locals0.manifest.packageSize
                          || world.packageSha != locals0.manifest.packageSha || world.fault(Extracting).Some?
      ensures raised ==> Over(Failed)
      ensures !raised ==>
                && Stands(Inspecting, locals) && locals == locals0.(receipt := locals.receipt)
                && locals.txn in store.staging && store.staging[locals.txn] == world.package
                && store.actions
                   == old(store.actions) + [Fetch(world.packageSize, world.packageSha), Extract(world.package)]
    {
      hide LauncherStore.Traced, LauncherStore.Unmigrated, Later, Do, BootstrapService.Stands, BootstrapService.Over;
      LaterTransitive();
      locals := locals0;
      raised := MayRaise(Downloading, locals, world);
      if raised { return; }
      raised, locals := CheckPackage(locals, world);
      if raised { return; }
      raised := MayRaise(Extracting, locals, world);
      if raised { return; }
      Unpack(locals, world.package);
    }

    method CheckPackage(locals0: Locals, world: World) returns (raised: bool, locals: Locals)
      requires Stands(Downloading, locals0)
      modifies store
      ensures Continues() && SameAttempt() && store.versions == old(store.versions)
      ensures raised <==> || world.packageSize != locals0.manifest.packageSize
                          || world.packageSha != locals0.manifest.packageSha
      ensures raised ==> Over(Failed)
      ensures !raised ==>
                && Stands(Extracting, locals) && locals == locals0.(receipt := locals.receipt)
                && store.actions == old(store.actions) + [Fetch(world.packageSize, world.packageSha)]
    {
      hide LauncherStore.Traced, LauncherStore.Unmigrated, Later, Marked, Fail, Mark;
      locals := locals0;
      ghost var fetched := Fetch(world.packageSize, world.packageSha);
      raised := world.packageSize != locals.manifest.packageSize || world.packageSha != locals.manifest.packageSha;
      if raised {
        Refuse(Downloading, locals, false, fetched);
      } else {
        locals := Advance(Downloading, Extracting, locals, fetched);
      }
    }

    method Unpack(locals: Locals, content: Directory)
      requires Stands(Extracting, locals)
      modifies store
      ensures Stands(Inspecting, locals) && Continues() && SameAttempt() && store.versions == old(store.versions)
      ensures store.actions == old(store.actions) + [Extract(content)]
      ensures locals.txn in store.staging && store.staging[locals.txn] == content
    {
      hide LauncherStore.Traced, LauncherStore.Unmigrated, Later;
      store.Write(store.OnDisk().(staging := store.staging[locals.txn := content]), Extract(content));
    }

    /** Checking the candidate against itself and the manifest. */
    method InspectCandidate(locals0: Locals, world: World) returns (raised: bool, locals: Locals)
      requires Stands(Inspecting, locals0) && locals0.txn in store.staging
      requires store.staging[locals0.txn] == world.package
      modifies store
      ensures Continues() && SameAttempt() && store.versions == old(store.versions)
      ensures raised <==> world.fault(Inspecting).Some? || Candidate(store.cfg, world.package, locals0.manifest).None?
      ensures raised ==> Over(Failed)
      ensures !raised ==>
                && Stands(Smoking, locals) && locals.txn in store.staging && store.staging == old(store.staging)
                && locals == locals0.(receipt := locals.receipt, metadata := locals.metadata)
                && Candidate(store.cfg, world.package, locals0.manifest) == Some(locals.metadata)
    {
      hide LauncherStore.Traced, LauncherStore.Unmigrated, Later, Candidate, Marked, Fail, Mark;
      LaterTransitive();
      locals := locals0;
      raised := MayRaise(Inspecting, locals, world);
      if raised { return; }
      var candidate := Candidate(store.cfg, world.package, locals.manifest);
      if candidate.None? {
        raised := true;
        Refuse(Inspecting, locals, false, Inspect);
      } else {
        locals := AcceptCandidate(locals, candidate.value);
      }
    }

    /** Running the candidate once: the directory is then as the run left it, whether it passed or not. */
    method SmokeTest(locals: Locals, world: World) returns (raised: bool)
      requires Stands(Smoking, locals) && locals.txn in store.staging && Harmless(store.cfg, world)
      modifies store
      ensures Continues() && SameAttempt() && store.versions == old(store.versions)
      ensures raised <==> || world.fault(Smoking).Some?
                          || !SmokePasses(store.cfg, locals.manifest, old(store.staging)[locals.txn], world)
      ensures raised ==> Over(Failed)
      ensures !raised ==>
                && Stands(Installing, locals)
                && store.staging == old(store.staging)[locals.txn := world.smoke(old(store.staging)[locals.txn]).2]
    {
      hide LauncherStore.Traced, LauncherStore.Unmigrated, Later, SameGuarded, Fail, Marked;
      LaterTransitive();
      raised := MayRaise(Smoking, locals, world);
      if raised { return; }
      var d := store.staging[locals.txn];
      var (status, version, left) := world.smoke(d);
      if !IsFile(d, SMOKE) || store.cfg.sha256(d[SMOKE].bytes) != locals.manifest.smokeReceiptSha {
        raised := true;
        Refuse(Smoking, locals, false, Smoke(status, version, left));
        return;
      }
      raised := !Passed(locals.manifest, status, version);
      LeaveBehind(locals, status, version, left);
      if raised { GiveUp(locals); }
    }

    method LeaveBehind(locals: Locals, status: string, version: string, left: Directory)
      requires Stands(Smoking, locals) && locals.txn in store.staging
      requires SameGuarded(store.cfg, store.staging[locals.txn], left) && IsFile(store.staging[locals.txn], SMOKE)
      requires store.cfg.sha256(store.staging[locals.txn][SMOKE].bytes) == locals.manifest.smokeReceiptSha
      modifies store
      ensures Continues() && SameAttempt() && store.staging == old(store.staging)[locals.txn := left]
      ensures store.versions == old(store.versions)
      ensures Stands(if Passed(locals.manifest, status, version) then Installing else Rejected, locals)
    {
      hide LauncherStore.Traced, LauncherStore.Unmigrated, Later, SameGuarded;
      store.Write(store.OnDisk().(staging := store.staging[locals.txn := left]), Smoke(status, version, left));
    }

    /** After a failed smoke test. */
    method GiveUp(locals: Locals)
      requires Stands(Rejected, locals)
      modifies store
      ensures Over(Failed) && Continues() && SameAttempt() && store.versions == old(store.versions)
    {
      Refuse(Rejected, locals, false, Raise(false));
    }

    /** An occupied version directory is accepted exactly when it validates to the candidate's metadata. */
    method AcceptExisting(locals: Locals, world: World) returns (raised: bool)
      requires Stands(Installing, locals) && locals.manifest.launcherVersion in store.versions
      modifies store
      ensures Continues() && SameAttempt() && store.versions == old(store.versions)
      ensures raised <==> Validate(store.cfg, store.versions[locals.manifest.launcherVersion]) != Some(locals.metadata)
      ensures if raised then Over(Failed) else Stands(Validating, locals)
    {
      hide LauncherStore.Traced, LauncherStore.Unmigrated, Later, Validate, Fail, Marked;
      LaterTransitive();
      raised := Validate(store.cfg, store.versions[locals.manifest.launcherVersion]) != Some(locals.metadata);
      if raised {
        Refuse(Installing, locals, false, LookUp(false));
      } else if world.stagingRemoved {
        store.Write(store.OnDisk().(staging := store.staging - {locals.txn}), LookUp(true));
      } else {
        store.Note(LookUp(false));
      }
    }

    /** Putting the candidate in its place. */
    method MoveIn(locals: Locals, world: World) returns (raised: bool)
      requires Stands(Installing, locals) && locals.txn in store.staging
      requires locals.manifest.launcherVersion !in store.versions
      modifies store
      ensures Continues() && SameAttempt() && raised == world.fault(Renaming).Some?
      ensures raised ==> Over(Failed)
      ensures !raised ==> Stands(Validating, locals)
      ensures !raised ==>
                store.versions == old(store.versions)[locals.manifest.launcherVersion := old(store.staging)[locals.txn]]
    {
      hide LauncherStore.Traced, LauncherStore.Unmigrated, Later, Validate, Fail, Marked;
      LaterTransitive();
      store.Note(LookUp(false));
      raised := MayRaise(Renaming, locals, world);
      if !raised { Rename(locals); }
    }

    method Rename(locals: Locals)
      requires Stands(Renaming, locals) && locals.txn in store.staging
      requires locals.manifest.launcherVersion !in store.versions
      modifies store
      ensures Stands(Validating, locals) && Continues() && SameAttempt()
      ensures store.versions == old(store.versions)[locals.manifest.launcherVersion := old(store.staging)[locals.txn]]
    {
      hide LauncherStore.Traced, LauncherStore.Unmigrated, Later;
      var versions := store.versions[locals.manifest.launcherVersion := store.staging[locals.txn]];
      store.Write(store.OnDisk().(versions := versions, staging := store.staging - {locals.txn}),
                  LauncherUpdates.Rename);
    }

    /** Installing the candidate, or finding it there: a version directory that is occupied is never replaced. */
    method Install(locals: Locals, world: World) returns (raised: bool)
      requires Stands(Installing, locals) && locals.txn in store.staging
      modifies store
      ensures Continues() && SameAttempt()
      ensures raised <==> || world.fault(Installing).Some?
                          || Refused(store.cfg, old(store.versions), locals.manifest, locals.metadata,
                                     world.fault(Renaming).Some?)
      ensures raised ==> Over(Failed)
      ensures !raised ==>
                && Stands(Validating, locals)
                && store.versions == PutIn(old(store.versions), locals.manifest.launcherVersion,
                                           old(store.staging)[locals.txn])
    {
      hide LauncherStore.Traced, LauncherStore.Unmigrated, Later, Validate, Fail, Marked, Do;
      LaterTransitive();
      raised := MayRaise(Installing, locals, world);
      if raised { return; }
      if locals.manifest.launcherVersion in store.versions {
        raised := AcceptExisting(locals, world);
      } else {
        raised := MoveIn(locals, world);
      }
    }

    /** The last look at the installed directory before it is activated. */
    method CheckInstalled(locals0: Locals, world: World) returns (raised: bool, locals: Locals)
      requires Stands(Validating, locals0) && locals0.manifest.launcherVersion in store.versions
      modifies store
      ensures Continues() && SameAttempt() && store.versions == old(store.versions)
      ensures raised <==> || world.fault(Validating).Some?
                          || Validate(store.cfg, store.versions[locals0.manifest.launcherVersion]).None?
      ensures raised ==> Over(Failed)
      ensures !raised ==> Stands(Activating, locals) && locals == locals0.(receipt := locals.receipt)
    {
      hide LauncherStore.Traced, LauncherStore.Unmigrated, Later, Validate, Marked, Fail, Mark;
      LaterTransitive();
      locals := locals0;
      raised := MayRaise(Validating, locals, world);
      if raised { return; }
      if Validate(store.cfg, store.versions[locals.manifest.launcherVersion]).None? {
        raised := true;
        Refuse(Validating, locals, false, Revalidate);
      } else {
        locals := Advance(Validating, Activating, locals, Revalidate);
      }
    }

    lemma FinalHere(phase: Phase, locals: Locals)
      requires Stands(phase, locals) && Placed(phase)
      ensures locals.manifest.launcherVersion in store.versions
    {
      FinalIsInstalled(store.cfg, store.actions);
    }

    /** The health check, which `launch=False` spares. */
    method TakeHealth(locals: Locals, world: World) returns (next: Phase, ghost taken: Action)
      requires Stands(TakingHealth, locals) && Harmless(store.cfg, world)
      requires locals.manifest.launcherVersion in store.versions
      modifies store
      ensures Continues() && SameAttempt() && Stands(next, locals)
      ensures next == Judged(locals, old(store.versions), world)
      ensures taken.Health? && store.actions == old(store.actions) + [taken]
      ensures store.active == old(store.active) && store.lkg == old(store.lkg)
    {
      hide LauncherStore.Traced, LauncherStore.Unmigrated, Later, SameGuarded, Validate, Inv;
      LaterTransitive();
      var final := locals.manifest.launcherVersion;
      if !locals.launch {
        taken := Health("PASS", final, map[]);
        store.Note(taken);
        return Trusting, taken;
      }
      var (status, version, left) := world.health(store.versions[final]);
      taken := Health(status, version, left);
      store.Write(store.OnDisk().(versions := store.versions[final := left]), taken);
      next := if Passed(locals.manifest, status, version) then Trusting
              else if locals.previous.Some? then RollingBack
              else Blocking;
    }

    /** Switching the active pointer. */
    method SwitchActive(locals: Locals, world: World)
      requires Stands(Activating, locals)
      modifies store
      ensures Continues() && SameAttempt() && Stands(Pending, locals)
      ensures store.actions == old(store.actions) + [WriteActive(world.now)]
      ensures store.OnDisk() == old(store.OnDisk()).(active := Some(Target(store.cfg, locals, world.now)))
    {
      hide LauncherStore.Traced, LauncherStore.Unmigrated, Later;
      store.Write(store.OnDisk().(active := Some(Target(store.cfg, locals, world.now))), WriteActive(world.now));
    }

    method MarkSwitched(locals0: Locals) returns (locals: Locals)
      requires Stands(Pending, locals0)
      modifies store
      ensures Continues() && SameAttempt() && Stands(TakingHealth, locals)
      ensures locals == locals0.(receipt := locals.receipt)
      ensures store.OnDisk() == old(store.OnDisk()).(receipts := store.receipts)
      ensures store.actions == old(store.actions) + [MarkPending]
    {
      hide LauncherStore.Traced, LauncherStore.Unmigrated, Later, Marked, Mark;
      locals := Advance(Pending, TakingHealth, locals0, MarkPending);
    }

    /** The pointer is switched before the receipt says so. */
    method SwitchOver(locals0: Locals, world: World) returns (raised: bool, locals: Locals)
      requires Stands(Activating, locals0)
      modifies store
      ensures Continues() && SameAttempt() && store.lkg == old(store.lkg) && store.versions == old(store.versions)
      ensures raised <==> world.fault(Activating).Some? || world.fault(Pending).Some?
      ensures raised ==> Over(Failed)
      ensures !raised ==>
                && Stands(TakingHealth, locals) && locals == locals0.(receipt := locals.receipt)
                && store.active == Some(Target(store.cfg, locals0, world.now))
                && store.actions == old(store.actions) + [WriteActive(world.now), MarkPending]
    {
      hide LauncherStore.Traced, LauncherStore.Unmigrated, Later, Marked, Fail, Mark, Target, Do;
      hide BootstrapService.Stands, BootstrapService.Over;
      LaterTransitive();
      locals := locals0;
      raised := MayRaise(Activating, locals, world);
      if raised { return; }
      SwitchActive(locals, world);
      raised := MayRaise(Pending, locals, world);
      if raised { return; }
      locals := MarkSwitched(locals);
    }

    /** Switching the active pointer and judging the health of what it names, in this order: the pointer, the
        receipt, the check. The last known good pointer is not touched. */
    method Activate(locals0: Locals, world: World) returns (next: Option<Phase>, locals: Locals, ghost taken: Action)
      requires Stands(Activating, locals0) && Harmless(store.cfg, world)
      modifies store
      ensures Continues() && SameAttempt() && store.lkg == old(store.lkg)
      ensures next.None? <==> || world.fault(Activating).Some? || world.fault(Pending).Some?
                              || world.fault(TakingHealth).Some?
      ensures next.None? ==> Over(Failed)
      ensures next.Some? ==>
                && Stands(next.value, locals) && locals == locals0.(receipt := locals.receipt)
                && store.active == Some(Target(store.cfg, locals0, world.now))
                && next.value == Judged(locals0, old(store.versions), world)
                && taken.Health? && store.actions == old(store.actions) + [WriteActive(world.now), MarkPending, taken]
    {
      hide LauncherStore.Traced, LauncherStore.Unmigrated, Later, SameGuarded, Do, Target, TakenForHealthy;
      LaterTransitive();
      taken := Crash;
      var raised;
      raised, locals := SwitchOver(locals0, world);
      if raised { return None, locals, taken; }
      raised := MayRaise(TakingHealth, locals, world);
      if raised { return None, locals, taken; }
      FinalHere(TakingHealth, locals);
      var judged;
      judged, taken := TakeHealth(locals, world);
      SameJudgement(locals0, locals, old(store.versions), world);
      next := Some(judged);
    }

    lemma SameJudgement(locals0: Locals, locals: Locals, versions: map<string, Directory>, world: World)
      requires locals == locals0.(receipt := locals.receipt)
      ensures Judged(locals, versions, world) == Judged(locals0, versions, world)
    {
    }

    /** Trusting the target: it becomes the last known good version, and only then the receipt says so. */
    method Trust(locals: Locals, world: World) returns (r: BootstrapResult)
      requires Stands(Trusting, locals)
      modifies store
      ensures Continues() && SameAttempt()
      ensures store.lkg == Some(Target(store.cfg, locals, world.now)) && store.active == old(store.active)
      ensures r == if world.fault(Confirming).Some? then Raised
                   else Finished(Confirmed, locals.manifest.launcherVersion, locals.manifest.launcherVersion)
      ensures r.Raised? ==> Over(Failed)
      ensures r.Finished? ==> Over(Confirmed) && store.actions == old(store.actions) + [WriteLkg(world.now), Confirm]
    {
      hide LauncherStore.Traced, LauncherStore.Unmigrated, Later, Marked, Target, Do;
      hide BootstrapService.Stands, BootstrapService.Over;
      LaterTransitive();
      var m := locals.manifest;
      WriteTrusted(locals, world);
      var raised := MayRaise(Confirming, locals, world);
      if raised { return Raised; }
      Finish(Confirming, locals, ACTIVE_CONFIRMED, Confirm, Confirmed);
      r := Finished(Confirmed, m.launcherVersion, m.launcherVersion);
    }

    method WriteTrusted(locals: Locals, world: World)
      requires Stands(Trusting, locals)
      modifies store
      ensures Continues() && SameAttempt() && Stands(Confirming, locals)
      ensures store.actions == old(store.actions) + [WriteLkg(world.now)]
      ensures store.OnDisk() == old(store.OnDisk()).(lkg := Some(Target(store.cfg, locals, world.now)))
    {
      hide LauncherStore.Traced, LauncherStore.Unmigrated, Later;
      store.Write(store.OnDisk().(lkg := Some(Target(store.cfg, locals, world.now))), WriteLkg(world.now));
    }

    /** The last receipt of a run that was confirmed or rolled back. */
    method Finish(phase: Phase, locals: Locals, ending: Stage, ghost a: Action, outcome: Outcome)
      requires Stands(phase, locals)
      requires || (phase == Confirming && ending == ACTIVE_CONFIRMED && a == Confirm && outcome == Confirmed)
               || (phase == Reverting && ending == ROLLED_BACK && a == MarkRolledBack && outcome == RolledBack)
      modifies store
      ensures Over(outcome) && Continues() && SameAttempt() && store.actions == old(store.actions) + [a]
      ensures store.active == old(store.active) && store.lkg == old(store.lkg)
    {
      hide LauncherStore.Traced, LauncherStore.Unmigrated, Later, Marked;
      store.Write(store.OnDisk().(receipts := store.receipts[locals.txn := Marked(locals.receipt, [ending])]), a);
    }

    /** Writing the previous pointer back, when its directory still validates. */
    method WriteBack(locals: Locals, world: World) returns (raised: bool)
      requires Stands(RollingBack, locals) && locals.previous.Some?
      modifies store
      ensures Continues() && SameAttempt() && store.versions == old(store.versions) && store.lkg == old(store.lkg)
      ensures raised <==> !Restorable(store.cfg, store.versions, locals.previous.value)
      ensures raised ==> Over(Failed)
      ensures !raised ==>
                && Stands(Reverting, locals) && store.actions == old(store.actions) + [RollBack(world.now)]
                && var p := locals.previous.value;
                   store.active == Some(PointerTo(Validate(store.cfg, store.versions[p.path]).value, p.path,
                                                  p.manifestDigest, world.now))
    {
      hide LauncherStore.Traced, LauncherStore.Unmigrated, Later, Validate, Marked, Fail, Mark;
      LaterTransitive();
      var previous := locals.previous.value;
      if previous.path !in store.versions || Validate(store.cfg, store.versions[previous.path]).None? {
        raised := true;
        Refuse(RollingBack, locals, false, RollBack(world.now));
      } else {
        raised := false;
        var restored := Validate(store.cfg, store.versions[previous.path]).value;
        var pointer := PointerTo(restored, previous.path, previous.manifestDigest, world.now);
        store.Write(store.OnDisk().(active := Some(pointer)), RollBack(world.now));
      }
    }

    /** Restoring the previous launcher: the pointer first, the receipt after it. */
    method Restore(locals: Locals, world: World) returns (r: BootstrapResult)
      requires Stands(RollingBack, locals) && locals.previous.Some?
      modifies store
      ensures Continues() && SameAttempt() && store.lkg == old(store.lkg)
      ensures r == if !Restorable(store.cfg, old(store.versions), locals.previous.value) || world.fault(Reverting).Some?
                   then Raised
                   else Finished(RolledBack, locals.previous.value.version, locals.manifest.launcherVersion)
      ensures r.Raised? ==> Over(Failed)
      ensures r.Finished? ==>
                && Over(RolledBack) && store.actions == old(store.actions) + [RollBack(world.now), MarkRolledBack]
                && var p := locals.previous.value;
                   store.active == Some(PointerTo(Validate(store.cfg, old(store.versions)[p.path]).value, p.path,
                                                  p.manifestDigest, world.now))
    {
      hide LauncherStore.Traced, LauncherStore.Unmigrated, Later, Validate, Marked, Do;
      hide BootstrapService.Stands, BootstrapService.Over;
      LaterTransitive();
      var raised := WriteBack(locals, world);
      if raised { return Raised; }
      raised := MayRaise(Reverting, locals, world);
      if raised { return Raised; }
      Finish(Reverting, locals, ROLLED_BACK, MarkRolledBack, RolledBack);
      r := Finished(RolledBack, locals.previous.value.version, locals.manifest.launcherVersion);
    }

    /** Nothing to go back to: the receipt says that an update is required. */
    method GiveNotice(locals: Locals)
      requires Stands(Blocking, locals)
      modifies store
      ensures Over(Blocked) && Continues() && SameAttempt()
    {
      hide LauncherStore.Traced, LauncherStore.Unmigrated, Later;
      var receipt := locals.receipt.(state := BLOCKED_REQUIRED_UPDATE);
      store.Write(store.OnDisk().(receipts := store.receipts[locals.txn := receipt]), Block);
    }

    /** The launcher to go back to still validates. */
    lemma PreviousIsThere(locals: Locals)
      requires Stands(RollingBack, locals) && locals.previous.Some?
      ensures Restorable(store.cfg, store.versions, locals.previous.value)
    {
      ReachedInv(store.cfg, store.actions);
    }

    /** What follows the health check. */
    method Settle(phase: Phase, locals: Locals, world: World) returns (r: BootstrapResult)
      requires Stands(phase, locals)
      requires || phase.Trusting? || (phase.RollingBack? && locals.previous.Some?)
               || (phase.Blocking? && locals.previous.None?)
      modifies store
      ensures Continues() && SameAttempt()
      ensures r.Raised? <==> || world.fault(phase).Some? || (phase.Trusting? && world.fault(Confirming).Some?)
                             || (phase.RollingBack? && world.fault(Reverting).Some?)
      ensures r.Raised? ==> Over(Failed)
      ensures r.Finished? ==>
                && Over(r.state) && r.targetVersion == locals.manifest.launcherVersion
                && r.state == (if phase.Trusting? then Confirmed
                               else if phase.RollingBack? then RolledBack else Blocked)
                && r.activeVersion == (if r.state.Confirmed? then r.targetVersion else OldVersion(locals.previous))
    {
      hide LauncherStore.Traced, LauncherStore.Unmigrated, Later, Do;
      LaterTransitive();
      var raised := MayRaise(phase, locals, world);
      if raised { return Raised; }
      if phase.Trusting? {
        r := Trust(locals, world);
      } else if phase.RollingBack? {
        PreviousIsThere(locals);
        r := Restore(locals, world);
      } else {
        GiveNotice(locals);
        r := Finished(Blocked, OldVersion(locals.previous), locals.manifest.launcherVersion);
      }
    }

    /** Sweeping old staging directories, one write after the other. */
    method SweepStaging(world: World)
      requires store.Valid() && store.sys.run.Some? && store.sys.last.Some? && store.sys.run.value.phase.Sweeping?
      modifies store
      ensures store.Valid() && store.sys.run == old(store.sys.run) && store.sys.last == old(store.sys.last)
      ensures Continues()
      ensures store.actions == old(store.actions) + Sweeps(world.swept)
      ensures store.OnDisk() == old(store.OnDisk()).(staging := store.staging)
    {
      hide LauncherStore.Traced, LauncherStore.Unmigrated, Later;
      LaterTransitive();
      var i := 0;
      while i < |world.swept|
        invariant 0 <= i <= |world.swept|
        invariant store.Valid() && store.sys.run == old(store.sys.run) && Continues()
        invariant store.sys.last == old(store.sys.last)
        invariant store.actions == old(store.actions) + Sweeps(world.swept)[..i]
        invariant store.OnDisk() == old(store.OnDisk()).(staging := store.staging)
      {
        store.Write(store.OnDisk().(staging := store.staging - {world.swept[i]}), Sweep(world.swept[i]));
        i := i + 1;
      }
    }

    /** The run was given up before there was a receipt: nobody is left to write one. */
    ghost predicate CutOff()
      reads store
    {
      store.Valid() && store.sys.run.None? && store.sys.last.Some? && store.sys.last.value.outcome.None?
    }

    /** An exception before the receipt is opened leaves the disk as a crash would. */
    ghost method GiveIn()
      requires store.Valid() && store.sys.last.Some? && store.sys.last.value.outcome.None?
      modifies store`sys, store`actions, store`trace
      ensures CutOff() && Continues() && SameAttempt() && store.OnDisk() == old(store.OnDisk())
    {
      hide LauncherStore.Traced, LauncherStore.Unmigrated, Later;
      store.Note(Crash);
    }

    /** Sweeping old staging directories, caching the policy and opening the receipt, in this order: a receipt is
        never on disk before the policy of its manifest. An exception before that leaves no receipt. */
    method Open(e: Envelope, txn: string, m: Manifest, launch: bool, world: World)
      returns (raised: bool, locals: Locals)
      requires store.Valid() && store.sys.run.Some? && store.sys.last.Some? && store.sys.last.value.outcome.None?
      requires var run := store.sys.run.value;
        run.phase.Sweeping? && run.txn == txn && run.envelope == e && run.manifest == m && run.launch == launch
        && run.metadata == NO_METADATA
      modifies store
      ensures Continues() && SameAttempt() && (raised <==> Aborted(world))
      ensures raised ==>
        && CutOff() && store.OnDisk() == old(store.OnDisk()).(staging := store.staging, policy := store.policy)
        && store.policy == if world.fault(Sweeping).Some? then old(store.policy) else Some(e)
      ensures !raised ==>
        && Stands(Checking, locals) && locals.txn == txn && locals.manifest == m && locals.launch == launch
        && locals.previous == ValidPointer(store.cfg, old(store.versions), old(store.active))
        && store.OnDisk() == old(store.OnDisk()).(staging := store.staging, policy := Some(e),
                                                  receipts := old(store.receipts)[txn := locals.receipt])
        && store.actions == old(store.actions) + Sweeps(world.swept) + [CachePolicy, LauncherUpdates.Open]
    {
      hide LauncherStore.Traced, LauncherStore.Unmigrated, Later, Validate, ValidPointer;
      LaterTransitive();
      locals := Locals(txn, m, launch, None, Receipt("", "", "", CHECKING, []), NO_METADATA);
      raised := Aborted(world);
      SweepStaging(world);
      if world.fault(Sweeping).Some? {
        GiveIn();
        return;
      }
      store.Write(store.OnDisk().(policy := Some(e)), CachePolicy);
      if world.fault(Opening).Some? {
        GiveIn();
        return;
      }
      var previous := ValidPointer(store.cfg, store.versions, store.active);
      var receipt := Receipt(OldVersion(previous), m.launcherVersion, store.cfg.digest(m), CHECKING, [CHECKING]);
      locals := locals.(previous := previous, receipt := receipt);
      store.Write(store.OnDisk().(receipts := store.receipts[txn := receipt]), LauncherUpdates.Open);
      assert store.actions == old(store.actions) + Sweeps(world.swept) + [CachePolicy, LauncherUpdates.Open];
    }

    /** `update`, from the signed envelope to the result. The new run starts when the last one is over or
        dead. Every state it leaves on disk is one of the update machine's (`store.trace`), and the result
        names the outcome that the receipt on disk records: the one that could be told before. */
    method Update(e: Envelope, txn: string, launch: bool, world: World) returns (r: BootstrapResult)
      requires store.Valid() && Harmless(store.cfg, world)
      requires txn !in store.receipts && txn !in store.staging
      modifies store
      ensures store.Valid() && Continues()
      ensures store.cfg.verify(e).Err? ==> r == Raised && store.OnDisk() == old(store.OnDisk())
      ensures store.cfg.verify(e).Ok? ==>
                && store.sys.last.Some? && store.sys.last.value.txn == txn
                && store.sys.last.value.manifest == store.cfg.verify(e).value
                && store.sys.last.value.oldActive == old(store.active) && store.sys.last.value.oldLkg == old(store.lkg)
      ensures store.cfg.verify(e).Ok? && Aborted(world) ==>
                r == Raised && CutOff() && store.active == old(store.active) && store.lkg == old(store.lkg)
                && store.versions == old(store.versions) && store.receipts == old(store.receipts)
      ensures store.cfg.verify(e).Ok? && !Aborted(world) ==>
                var m := store.cfg.verify(e).value;
                var end := EndOf(store.cfg, old(store.OnDisk()), m, launch, world);
                && Over(end) && (r == Raised <==> end == Failed)
                && (r.Finished? ==> r.state == end && r.targetVersion == m.launcherVersion)
      ensures r.Finished? && r.state.Confirmed? ==> r.activeVersion == r.targetVersion
    {
      hide LauncherStore.Traced, LauncherStore.Unmigrated, Later, Validate, SameGuarded, ValidPointer, OldVersion,
           Decide, EndOf, BootstrapService.Stands;
      LaterTransitive();
      var verified := store.cfg.verify(e);
      if verified.Err? { return Raised; }
      var m := verified.value;
      if store.sys.run.Some? { store.Note(Crash); }
      store.Note(Begin(e, txn, launch));
      var raised, locals := Open(e, txn, m, launch, world);
      if raised { return Raised; }
      EndReads(old(store.OnDisk()), store.OnDisk(), m, launch, world);
      r := Carry(locals, world);
    }

    lemma EndReads(disk: Disk, later: Disk, m: Manifest, launch: bool, world: World)
      requires later.versions == disk.versions && later.active == disk.active
      ensures EndOf(store.cfg, later, m, launch, world) == EndOf(store.cfg, disk, m, launch, world)
    {
      hide Decide, ValidPointer, Delivered, Placeable, AfterHealth, Candidate, PutIn;
      DecideReads(store.cfg, disk, later, m, ValidPointer(store.cfg, disk.versions, disk.active));
    }

    /** The version checks: whether the run goes on to download. */
    method Judge(locals0: Locals, world: World) returns (over: Option<BootstrapResult>, locals: Locals)
      requires Stands(Checking, locals0)
      modifies store
      ensures Continues() && SameAttempt() && store.versions == old(store.versions)
      ensures over == Some(Raised) ==> Over(Failed)
      ensures over.None? ==> Stands(Downloading, locals) && locals == locals0.(receipt := locals.receipt)
      ensures var decision := Decide(store.cfg, old(store.OnDisk()), locals0.manifest, locals0.previous);
              var current := Finished(Current, OldVersion(locals0.previous), locals0.manifest.launcherVersion);
        && (over.None? <==> world.fault(Checking).None? && decision.Proceed?)
        && (over == Some(current) <==> world.fault(Checking).None? && decision.AlreadyCurrent?)
        && (over == Some(current) ==> Over(Current) && store.OnDisk() == old(store.OnDisk()))
        && (over.Some? ==> over.value == Raised || over.value == current)
    {
      hide LauncherStore.Traced, LauncherStore.Unmigrated, Later, Decide, Marked, Fail, Mark;
      LaterTransitive();
      locals := locals0;
      var raised := MayRaise(Checking, locals, world);
      if raised { return Some(Raised), locals; }
      match Decide(store.cfg, store.OnDisk(), locals.manifest, locals.previous) {
        case Refuse =>
          Refuse(Checking, locals, false, Check);
          return Some(Raised), locals;
        case AlreadyCurrent =>
          store.Note(Check);
          return Some(Finished(Current, OldVersion(locals.previous), locals.manifest.launcherVersion)), locals;
        case Proceed =>
      }
      locals := Advance(Checking, Downloading, locals, Check);
      over := None;
    }

    /** The rest of a run whose receipt is open. */
    method Carry(locals0: Locals, world: World) returns (r: BootstrapResult)
      requires Stands(Checking, locals0) && Harmless(store.cfg, world)
      requires locals0.previous == ValidPointer(store.cfg, store.versions, store.active)
      modifies store
      ensures Continues() && SameAttempt()
      ensures var end := EndOf(store.cfg, old(store.OnDisk()), locals0.manifest, locals0.launch, world);
        && Over(end) && (r == Raised <==> end == Failed)
        && (r.Finished? ==> r.state == end && r.targetVersion == locals0.manifest.launcherVersion)
      ensures r.Finished? && r.state.Confirmed? ==> r.activeVersion == r.targetVersion
    {
      hide LauncherStore.Traced, LauncherStore.Unmigrated, Later, Validate, SameGuarded, Decide, Do, Target, Candidate,
           SmokePasses, TakenForHealthy, OldVersion, ValidPointer, Refused, BootstrapService.Stands,
           BootstrapService.Over;
      LaterTransitive();
      var over, locals := Judge(locals0, world);
      if over.Some? { return over.value; }
      var raised;
      raised, locals := Obtain(locals, world);
      if raised { return Raised; }
      raised, locals := PutInPlace(locals, world);
      if raised { return Raised; }
      var next: Option<Phase>;
      ghost var taken;
      next, locals, taken := Activate(locals, world);
      if next.None? { return Raised; }
      r := Settle(next.value, locals, world);
    }

    /** Fetching the package, inspecting the candidate and testing it. */
    method Obtain(locals0: Locals, world: World) returns (raised: bool, locals: Locals)
      requires Stands(Downloading, locals0) && Harmless(store.cfg, world)
      modifies store
      ensures Continues() && SameAttempt() && store.versions == old(store.versions)
      ensures raised <==> !Delivered(store.cfg, locals0.manifest, world)
      ensures raised ==> Over(Failed)
      ensures !raised ==>
        && Stands(Installing, locals) && locals.txn in store.staging
        && store.staging[locals.txn] == world.smoke(world.package).2
        && locals == locals0.(receipt := locals.receipt, metadata := locals.metadata)
        && Candidate(store.cfg, world.package, locals0.manifest) == Some(locals.metadata)
    {
      hide LauncherStore.Traced, LauncherStore.Unmigrated, Later, SameGuarded, Do, Candidate, SmokePasses,
           BootstrapService.Stands, BootstrapService.Over;
      LaterTransitive();
      raised, locals := FetchPackage(locals0, world);
      if raised { return; }
      raised, locals := InspectCandidate(locals, world);
      if raised { return; }
      raised := SmokeTest(locals, world);
    }

    /** Installing the candidate and looking at what is installed. */
    method PutInPlace(locals0: Locals, world: World) returns (raised: bool, locals: Locals)
      requires Stands(Installing, locals0) && locals0.txn in store.staging
      modifies store
      ensures Continues() && SameAttempt()
      ensures raised <==> !Placeable(store.cfg, old(store.versions), locals0.manifest, locals0.metadata, world)
      ensures raised ==> Over(Failed)
      ensures !raised ==>
        && Stands(Activating, locals) && locals == locals0.(receipt := locals.receipt)
        && store.versions == PutIn(old(store.versions), locals0.manifest.launcherVersion,
                                   old(store.staging)[locals0.txn])
    {
      hide LauncherStore.Traced, LauncherStore.Unmigrated, Later, Validate, Refused, PutIn, BootstrapService.Over;
      LaterTransitive();
      locals := locals0;
      raised := Install(locals, world);
      if raised { return; }
      InstalledHere(locals);
      raised, locals := CheckInstalled(locals, world);
    }

    lemma InstalledHere(locals: Locals)
      requires Stands(Validating, locals)
      ensures var final := locals.manifest.launcherVersion;
        final in store.versions && Validate(store.cfg, store.versions[final]).Some?
    {
      ReachedInv(store.cfg, store.actions);
    }
  }
}
