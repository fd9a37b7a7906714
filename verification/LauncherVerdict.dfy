/** How a run of `update` ends, told before it begins from what is on disk and what the run will meet; and that a run
    that was cut off can be made good by another one. */
module LauncherVerdicts {
  import opened Wrappers
  import opened Manifests
  import opened LauncherStores
  import opened LauncherUpdates
  import opened LauncherSafety
  import opened LauncherGuarantees

  /** What a run meets outside the store. `fault` says at which phases an exception strikes, and whether
      after the receipt was updated in memory; the runners return what they leave of a directory. */
  datatype World = World(
    swept: seq<string>,
    fault: Phase -> Option<bool>,
    packageSize: int,
    packageSha: string,
    package: Directory,
    smoke: Directory -> (string, string, Directory),
    stagingRemoved: bool,
    health: Directory -> (string, string, Directory),
    now: string)

  /** The runners touch no file that validation reads. */
  ghost predicate Harmless(cfg: Config, world: World)
  {
    forall d :: SameGuarded(cfg, d, world.smoke(d).2) && SameGuarded(cfg, d, world.health(d).2)
  }

  /** No exception strikes. */
  ghost predicate Calm(world: World)
  {
    forall phase :: world.fault(phase).None?
  }

  /** The candidate cannot take its place: the version directory holds something else, or moving in fails. */
  predicate Refused(cfg: Config, versions: map<string, Directory>, m: Manifest, candidate: Metadata, struck: bool)
  {
    var final := m.launcherVersion;
    if final in versions then Validate(cfg, versions[final]) != Some(candidate) else struck
  }

  function PutIn(versions: map<string, Directory>, version: string, d: Directory): map<string, Directory>
  {
    if version in versions then versions else versions[version := d]
  }

  /** The version is healthy, or spared the check. */
  predicate TakenForHealthy(m: Manifest, launch: bool, versions: map<string, Directory>, world: World)
  {
    !launch
    || (m.launcherVersion in versions
        && Passed(m, world.health(versions[m.launcherVersion]).0, world.health(versions[m.launcherVersion]).1))
  }

  /** The smoke receipt is the packaged one, and the candidate ran well. */
  predicate SmokePasses(cfg: Config, m: Manifest, d: Directory, world: World)
  {
    var (status, version, _) := world.smoke(d);
    IsFile(d, SMOKE) && cfg.sha256(d[SMOKE].bytes) == m.smokeReceiptSha && Passed(m, status, version)
  }

  /** The package is fetched, is the one of the manifest, agrees with it and passes its smoke test. */
  predicate Delivered(cfg: Config, m: Manifest, world: World)
  {
    && world.fault(Downloading).None? && world.packageSize == m.packageSize && world.packageSha == m.packageSha
    && world.fault(Extracting).None? && world.fault(Inspecting).None? && Candidate(cfg, world.package, m).Some?
    && world.fault(Smoking).None? && SmokePasses(cfg, m, world.package, world)
  }

  /** The candidate is put in place, or found there. */
  predicate Placeable(cfg: Config, versions: map<string, Directory>, m: Manifest, candidate: Metadata, world: World)
  {
    && world.fault(Installing).None? && !Refused(cfg, versions, m, candidate, world.fault(Renaming).Some?)
    && world.fault(Validating).None?
  }

  /** How the run ends once the health check is taken. */
  function AfterHealth(m: Manifest, launch: bool, previous: Option<Pointer>, versions: map<string, Directory>,
                       world: World): Outcome
  {
    if TakenForHealthy(m, launch, versions, world) then
      if world.fault(Trusting).Some? || world.fault(Confirming).Some? then Failed else Confirmed
    else if previous.Some? then
      if world.fault(RollingBack).Some? || world.fault(Reverting).Some? then Failed else RolledBack
    else if world.fault(Blocking).Some? then Failed else Blocked
  }

  /** How a run with an open receipt ends. */
  function EndOf(cfg: Config, disk: Disk, m: Manifest, launch: bool, world: World): Outcome
  {
    var previous := ValidPointer(cfg, disk.versions, disk.active);
    var decision := Decide(cfg, disk, m, previous);
    if world.fault(Checking).Some? || decision.Refuse? then Failed
    else if decision.AlreadyCurrent? then Current
    else if !Delivered(cfg, m, world) then Failed
    else if !Placeable(cfg, disk.versions, m, Candidate(cfg, world.package, m).value, world) then Failed
    else if world.fault(Activating).Some? || world.fault(Pending).Some? || world.fault(TakingHealth).Some? then Failed
    else AfterHealth(m, launch, previous, PutIn(disk.versions, m.launcherVersion, world.smoke(world.package).2), world)
  }

  /** An exception strikes before there is a receipt. */
  predicate Aborted(world: World)
  {
    world.fault(Sweeping).Some? || world.fault(Opening).Some?
  }

  /** The version checks read the versions and the active pointer only. */
  lemma DecideReads(cfg: Config, disk: Disk, later: Disk, m: Manifest, previous: Option<Pointer>)
    requires later.versions == disk.versions && later.active == disk.active
    ensures Decide(cfg, later, m, previous) == Decide(cfg, disk, m, previous)
  {
  }

  /* ---- Recovery ---- */

  /** The target is not installed, or is the very build of the package. */
  predicate Vacant(cfg: Config, versions: map<string, Directory>, m: Manifest, world: World)
  {
    m.launcherVersion in versions ==> Validate(cfg, versions[m.launcherVersion]) == Candidate(cfg, world.package, m)
  }

  /** A run that got past the version checks and is cut off anywhere is made good by one that nothing disturbs, with the
      same manifest and a package that passes: it ends as current when the active pointer was left on the target, and
      as confirmed when it was not. */
  lemma Recovers(cfg: Config, actions: seq<Action>, launch: bool, world: World)
    requires OnlyUpdates(actions)
    requires Reached(cfg, actions).run.Some? && Rank(Reached(cfg, actions).run.value.phase) >= 2
    requires var s := Reached(cfg, actions);
             var m := s.run.value.manifest;
      && Calm(world) && Delivered(cfg, m, world) && Vacant(cfg, s.disk.versions, m, world)
      && TakenForHealthy(m, launch, PutIn(s.disk.versions, m.launcherVersion, world.smoke(world.package).2), world)
    ensures var s := Reached(cfg, actions);
      EndOf(cfg, s.disk, s.run.value.manifest, launch, world) ==
      if Switched(s.run.value.phase) && !s.run.value.phase.Reverting? then Current else Confirmed
  {
    hide Reached, Exec, SmokePasses, TakenForHealthy, Validate, ValidPointer, Decide, Candidate, PutIn;
    DecidesAgain(cfg, actions);
  }

  /** What the version checks say when the manifest of the run is tried again. */
  lemma DecidesAgain(cfg: Config, actions: seq<Action>)
    requires OnlyUpdates(actions)
    requires Reached(cfg, actions).run.Some? && Rank(Reached(cfg, actions).run.value.phase) >= 2
    ensures var s := Reached(cfg, actions);
      Decide(cfg, s.disk, s.run.value.manifest, ValidPointer(cfg, s.disk.versions, s.disk.active)) ==
      if Switched(s.run.value.phase) && !s.run.value.phase.Reverting? then AlreadyCurrent else Proceed
  {
    hide Reached, Exec, GoodReceipt, Shows, Bounds, OnlyUpdates, RunInv, MigrationInv, Validate, OutcomeFacts,
         Sound, PointerValid;
    ReachedInv(cfg, actions);
    var s := Reached(cfg, actions);
    if s.disk.active.Some? { SoundIsValid(cfg, s.disk.versions, s.disk.active.value); }
  }

  /** After a confirmed run, another one of the same manifest ends as current, if nothing strikes before it looks. */
  lemma ConfirmedStaysCurrent(cfg: Config, actions: seq<Action>, launch: bool, world: World)
    requires OnlyUpdates(actions) && world.fault(Checking).None?
    requires Reached(cfg, actions).last.Some? && Reached(cfg, actions).last.value.outcome == Some(Confirmed)
    ensures var s := Reached(cfg, actions);
      EndOf(cfg, s.disk, s.last.value.manifest, launch, world) == Current
  {
    hide Reached, Exec, GoodReceipt, Shows, Bounds, OnlyUpdates, RunInv, MigrationInv, PhaseInv, Validate, Delivered,
         Placeable, AfterHealth, Sound, PointerValid;
    ReachedInv(cfg, actions);
    var disk := Reached(cfg, actions).disk;
    SoundIsValid(cfg, disk.versions, disk.active.value);
  }
}
