/** The launcher update as a machine of atomic steps (`BootstrapService.update`, `offline_launch` and
    `migrate_shortcut`). One action is one write to the disk, or one event that writes nothing; the
    process may die between any two. */
module LauncherUpdates {
  import opened Wrappers
  import opened Manifests
  import opened LauncherStores

  /** Where a run of `update` stands, named after what it does next. */
  datatype Phase =
    | Sweeping | Opening | Checking | Downloading | Extracting | Inspecting | Smoking | Rejected | Installing
    | Renaming | Validating | Activating | Pending | TakingHealth | Trusting | Confirming | RollingBack
    | Reverting | Blocking

  datatype Run = Run(
    txn: string,
    envelope: Envelope,
    manifest: Manifest,
    launch: bool,
    phase: Phase,
    previous: Option<Pointer>,
    receipt: Receipt,
    metadata: Metadata)

  datatype Outcome = Current | Confirmed | RolledBack | Blocked | Failed

  /** The latest run, remembered after it has finished or died: whether it has written its receipt and
      has switched the active pointer, the pointers it found, and how it ended (`None` while it runs,
      and for ever if it was cut off). */
  datatype Attempt = Attempt(
    txn: string,
    manifest: Manifest,
    recorded: bool,
    switched: bool,
    oldActive: Option<Pointer>,
    oldLkg: Option<Pointer>,
    outcome: Option<Outcome>)

  /** Which versions passed the smoke test, passed the health check, or were spared it (`launch=False`). */
  datatype History = History(smoked: set<string>, healthy: set<string>, spared: set<string>, migrated: bool)

  datatype Migration =
    | Copying(version: string, exe: string)
    | SwitchingActive(version: string, metadata: Metadata)
    | SwitchingLkg(version: string, metadata: Metadata)

  datatype System = System(
    disk: Disk,
    run: Option<Run>,
    last: Option<Attempt>,
    history: History,
    migration: Option<Migration>)

  const NO_METADATA := Metadata("", "", "", "", "", "", "")

  const FRESH := System(EMPTY_DISK, None, None, History({}, {}, {}, false), None)

  datatype Action =
    | Begin(envelope: Envelope, txn: string, launch: bool)
    | Sweep(name: string)
    | CachePolicy
    | Open
    | Check
    | Fetch(size: int, sha: string)
    | Extract(content: Directory)
    | Inspect
    | Smoke(status: string, version: string, left: Directory)
    | LookUp(swept: bool)
    | Rename
    | Revalidate
    | WriteActive(now: string)
    | MarkPending
    | Health(status: string, version: string, left: Directory)
    | WriteLkg(now: string)
    | Confirm
    | RollBack(now: string)
    | MarkRolledBack
    | Block
    | Raise(late: bool)
    | Crash
    | MigrateBegin(version: string, exe: string)
    | MigrateStep(now: string)
    | MigrateCrash

  /* ---- Receipts ---- */

  function Marked(r: Receipt, marks: seq<Stage>): Receipt
    requires marks != []
  {
    r.(state := marks[|marks| - 1], transitions := r.transitions + marks)
  }

  /** What the receipt update of a phase appends; an exception may strike before or after it. */
  function Marks(phase: Phase): seq<Stage>
  {
    match phase
    case Checking => [DOWNLOADING]
    case Downloading => [PACKAGE_VERIFIED]
    case Inspecting => [CANDIDATE_SMOKE_TESTING]
    case Validating => [CANDIDATE_READY, ACTIVATING]
    case Pending => [ACTIVE_PENDING_HEALTH]
    case Confirming => [ACTIVE_CONFIRMED]
    case Reverting => [ROLLED_BACK]
    case _ => []
  }

  /* ---- The shared shape of steps ---- */

  predicate At(s: System, phase: Phase)
  {
    s.run.Some? && s.run.value.phase == phase && s.last.Some?
  }

  function Stored(s: System, r: Receipt): Disk
    requires s.run.Some?
  {
    s.disk.(receipts := s.disk.receipts[s.run.value.txn := r])
  }

  function Ended(s: System, disk: Disk, outcome: Outcome): System
    requires s.last.Some?
  {
    s.(disk := disk, run := None, last := Some(s.last.value.(outcome := Some(outcome))))
  }

  /** The handler of `update`: whatever is raised ends in a FAILED_RECOVERABLE receipt. */
  function Fail(s: System, r: Receipt): System
    requires s.run.Some? && s.last.Some?
  {
    Ended(s, Stored(s, r.(state := FAILED_RECOVERABLE)), Failed)
  }

  function FailNow(s: System): System
    requires s.run.Some? && s.last.Some?
  {
    Fail(s, s.run.value.receipt)
  }

  function To(s: System, phase: Phase): System
    requires s.run.Some?
  {
    s.(run := Some(s.run.value.(phase := phase)))
  }

  /** Writes the receipt that the phase calls for and moves on. */
  function Mark(s: System, next: Phase): System
    requires s.run.Some? && Marks(s.run.value.phase) != []
  {
    var r := Marked(s.run.value.receipt, Marks(s.run.value.phase));
    s.(disk := Stored(s, r), run := Some(s.run.value.(receipt := r, phase := next)))
  }

  /* ---- One step at a time ---- */

  function DoBegin(cfg: Config, s: System, e: Envelope, txn: string, launch: bool): System
  {
    var verified := cfg.verify(e);
    if s.run.Some? || verified.Err? || txn in s.disk.receipts || txn in s.disk.staging then s
    else s.(
      run := Some(Run(txn, e, verified.value, launch, Sweeping, None,
                      Receipt("", "", "", CHECKING, []), NO_METADATA)),
      last := Some(Attempt(txn, verified.value, false, false, s.disk.active, s.disk.lkg, None)))
  }

  function DoSweep(s: System, name: string): System
  {
    if !At(s, Sweeping) then s else s.(disk := s.disk.(staging := s.disk.staging - {name}))
  }

  function DoCachePolicy(s: System): System
  {
    if !At(s, Sweeping) then s
    else To(s.(disk := s.disk.(policy := Some(s.run.value.envelope))), Opening)
  }

  function OldVersion(previous: Option<Pointer>): string
  {
    if previous.Some? then previous.value.version else ""
  }

  function DoOpen(cfg: Config, s: System): System
  {
    if !At(s, Opening) then s
    else
      var run := s.run.value;
      var previous := ValidPointer(cfg, s.disk.versions, s.disk.active);
      var r := Receipt(OldVersion(previous), run.manifest.launcherVersion, cfg.digest(run.manifest),
                       CHECKING, [CHECKING]);
      s.(disk := Stored(s, r),
         run := Some(run.(phase := Checking, previous := previous, receipt := r)),
         last := Some(s.last.value.(recorded := true)))
  }

  datatype Decision = Proceed | AlreadyCurrent | Refuse

  /** The version checks between CHECKING and DOWNLOADING. */
  function Decide(cfg: Config, disk: Disk, m: Manifest, previous: Option<Pointer>): Decision
  {
    var target := cfg.parseVersion(m.launcherVersion);
    var minimum := cfg.parseVersion(m.minimumVersion);
    var text := OldVersion(previous);
    var current := if text != "" then cfg.parseVersion(text) else None;
    if target.None? || minimum.None? || (text != "" && current.None?) then Refuse
    else if m.launcherVersion in m.revoked then Refuse
    else if current.Some? && target.value.Below(current.value) then Refuse
    else if current.Some? && current.value == target.value then
      var existing := ValidPointer(cfg, disk.versions, disk.active);
      if existing.Some? && existing.value.manifestDigest == cfg.digest(m) then AlreadyCurrent else Refuse
    else if current.Some? && current.value.Below(minimum.value) && !m.mandatory then Refuse
    else Proceed
  }

  function DoCheck(cfg: Config, s: System): System
  {
    if !At(s, Checking) then s
    else match Decide(cfg, s.disk, s.run.value.manifest, s.run.value.previous)
      case Proceed => Mark(s, Downloading)
      case AlreadyCurrent => Ended(s, s.disk, Current)
      case Refuse => FailNow(s)
  }

  function DoFetch(s: System, size: int, sha: string): System
  {
    if !At(s, Downloading) then s
    else if size != s.run.value.manifest.packageSize || sha != s.run.value.manifest.packageSha then FailNow(s)
    else Mark(s, Extracting)
  }

  function DoExtract(s: System, content: Directory): System
  {
    if !At(s, Extracting) then s
    else To(s.(disk := s.disk.(staging := s.disk.staging[s.run.value.txn := content])), Inspecting)
  }

  /** A launcher executable below the top directory. */
  predicate Nested(path: string)
  {
    |path| > |EXE| && path[|path| - |EXE|..] == EXE && path[|path| - |EXE| - 1] == '/'
  }

  predicate MatchesManifest(md: Metadata, m: Manifest)
  {
    md.componentVersion == m.launcherVersion && md.productVersion == m.productVersion
    && md.releaseId == m.releaseId && md.buildId == m.buildId
    && md.sourceCommit == m.sourceCommit && md.sourceTree == m.sourceTree
  }

  /** The candidate root must be the staging directory itself: `validate_installed` wants it directly
      below the versions directory. */
  function Candidate(cfg: Config, d: Directory, m: Manifest): Option<Metadata>
  {
    if EXE !in d || exists path :: path in d && Nested(path) then None
    else
      var md := Validate(cfg, d);
      if md.None? || !MatchesManifest(md.value, m) then None
      else if cfg.sha256(d[METADATA].bytes) != m.metadataSha
        || cfg.sha256(d[PACKAGE].bytes) != m.packageManifestSha then None
      else md
  }

  function DoInspect(cfg: Config, s: System): System
  {
    if !At(s, Inspecting) || s.run.value.txn !in s.disk.staging then s
    else
      var md := Candidate(cfg, s.disk.staging[s.run.value.txn], s.run.value.manifest);
      if md.None? then FailNow(s)
      else
        var marked := Mark(s, Smoking);
        marked.(run := Some(marked.run.value.(metadata := md.value)))
  }

  predicate Passed(m: Manifest, status: string, version: string)
  {
    status == "PASS" && version == m.launcherVersion
  }

  /** The packaged smoke receipt is checked, then the candidate runs; it leaves `left` behind. After a
      failed test the run can only raise. */
  ghost function DoSmoke(cfg: Config, s: System, status: string, version: string, left: Directory): System
  {
    if !At(s, Smoking) || s.run.value.txn !in s.disk.staging then s
    else
      var run := s.run.value;
      var d := s.disk.staging[run.txn];
      if !IsFile(d, SMOKE) || cfg.sha256(d[SMOKE].bytes) != run.manifest.smokeReceiptSha then FailNow(s)
      else if !SameGuarded(cfg, d, left) then s
      else
        var ran := s.(disk := s.disk.(staging := s.disk.staging[run.txn := left]));
        if !Passed(run.manifest, status, version) then To(ran, Rejected)
        else To(ran.(history := s.history.(smoked := s.history.smoked + {run.manifest.launcherVersion})), Installing)
  }

  function Final(s: System): string
    requires s.run.Some?
  {
    s.run.value.manifest.launcherVersion
  }

  /** An occupied version directory is accepted on its metadata alone. */
  function DoLookUp(cfg: Config, s: System, swept: bool): System
  {
    if !At(s, Installing) then s
    else if Final(s) !in s.disk.versions then To(s, Renaming)
    else if Validate(cfg, s.disk.versions[Final(s)]) != Some(s.run.value.metadata) then FailNow(s)
    else
      var staging := if swept then s.disk.staging - {s.run.value.txn} else s.disk.staging;
      To(s.(disk := s.disk.(staging := staging)), Validating)
  }

  /** Renaming onto an existing directory raises, as it does on Windows. */
  function DoRename(s: System): System
  {
    if !At(s, Renaming) || s.run.value.txn !in s.disk.staging then s
    else if Final(s) in s.disk.versions then FailNow(s)
    else
      var d := s.disk.staging[s.run.value.txn];
      To(s.(disk := s.disk.(versions := s.disk.versions[Final(s) := d],
                            staging := s.disk.staging - {s.run.value.txn})), Validating)
  }

  function DoRevalidate(cfg: Config, s: System): System
  {
    if !At(s, Validating) then s
    else if Final(s) !in s.disk.versions || Validate(cfg, s.disk.versions[Final(s)]).None? then FailNow(s)
    else Mark(s, Activating)
  }

  function TargetPointer(cfg: Config, run: Run, now: string): Pointer
  {
    PointerTo(run.metadata, run.manifest.launcherVersion, cfg.digest(run.manifest), now)
  }

  function DoWriteActive(cfg: Config, s: System, now: string): System
  {
    if !At(s, Activating) then s
    else To(s.(disk := s.disk.(active := Some(TargetPointer(cfg, s.run.value, now))),
              last := Some(s.last.value.(switched := true))), Pending)
  }

  function DoMarkPending(s: System): System
  {
    if !At(s, Pending) then s else Mark(s, TakingHealth)
  }

  /** With `launch=False` nothing runs and the check counts as passed. */
  ghost function DoHealth(cfg: Config, s: System, status: string, version: string, left: Directory): System
  {
    if !At(s, TakingHealth) || Final(s) !in s.disk.versions then s
    else if !s.run.value.launch then
      To(s.(history := s.history.(spared := s.history.spared + {Final(s)})), Trusting)
    else if !SameGuarded(cfg, s.disk.versions[Final(s)], left) then s
    else
      var ran := s.(disk := s.disk.(versions := s.disk.versions[Final(s) := left]));
      if Passed(s.run.value.manifest, status, version) then
        To(ran.(history := s.history.(healthy := s.history.healthy + {Final(s)})), Trusting)
      else if s.run.value.previous.Some? then To(ran, RollingBack)
      else To(ran, Blocking)
  }

  function DoWriteLkg(cfg: Config, s: System, now: string): System
  {
    if !At(s, Trusting) then s
    else To(s.(disk := s.disk.(lkg := Some(TargetPointer(cfg, s.run.value, now)))), Confirming)
  }

  function DoConfirm(s: System): System
  {
    if !At(s, Confirming) then s else Ended(s, Stored(s, Marked(s.run.value.receipt, [ACTIVE_CONFIRMED])), Confirmed)
  }

  function DoRollBack(cfg: Config, s: System, now: string): System
  {
    if !At(s, RollingBack) || s.run.value.previous.None? then s
    else
      var previous := s.run.value.previous.value;
      if previous.path !in s.disk.versions || Validate(cfg, s.disk.versions[previous.path]).None? then FailNow(s)
      else
        var md := Validate(cfg, s.disk.versions[previous.path]).value;
        To(s.(disk := s.disk.(active := Some(PointerTo(md, previous.path, previous.manifestDigest, now)))), Reverting)
  }

  function DoMarkRolledBack(s: System): System
  {
    if !At(s, Reverting) then s else Ended(s, Stored(s, Marked(s.run.value.receipt, [ROLLED_BACK])), RolledBack)
  }

  function DoBlock(s: System): System
  {
    if !At(s, Blocking) then s
    else Ended(s, Stored(s, s.run.value.receipt.(state := BLOCKED_REQUIRED_UPDATE)), Blocked)
  }

  /** An exception once the receipt is open, before or after the receipt was updated in memory. */
  function DoRaise(s: System, late: bool): System
  {
    if s.run.None? || s.last.None? || s.run.value.phase.Sweeping? || s.run.value.phase.Opening? then s
    else
      var r := s.run.value.receipt;
      var marks := Marks(s.run.value.phase);
      Fail(s, if late && marks != [] then Marked(r, marks) else r)
  }

  /* ---- migrate_shortcut ---- */

  function DoMigrateBegin(cfg: Config, s: System, version: string, exe: string): System
  {
    if s.migration.Some? then s
    else if version !in s.disk.versions then
      s.(disk := s.disk.(versions := s.disk.versions[version := map[]]), migration := Some(Copying(version, exe)))
    else if Validate(cfg, s.disk.versions[version]).None? then s
    else s.(migration := Some(SwitchingActive(version, Validate(cfg, s.disk.versions[version]).value)))
  }

  function DoMigrateStep(s: System, now: string): System
  {
    match s.migration
    case None => s
    case Some(Copying(v, exe)) =>
      if v !in s.disk.versions then s
      else s.(disk := s.disk.(versions := s.disk.versions[v := s.disk.versions[v][EXE := File(exe)]]),
              migration := None)
    case Some(SwitchingActive(v, md)) =>
      s.(disk := s.disk.(active := Some(PointerTo(md, v, "legacy-migration", now))),
         history := s.history.(migrated := true),
         migration := Some(SwitchingLkg(v, md)))
    case Some(SwitchingLkg(v, md)) =>
      s.(disk := s.disk.(lkg := Some(PointerTo(md, v, "legacy-migration", now))), migration := None)
  }

  ghost function Do(cfg: Config, s: System, a: Action): System
  {
    match a
    case Begin(e, txn, launch) => DoBegin(cfg, s, e, txn, launch)
    case Sweep(name) => DoSweep(s, name)
    case CachePolicy => DoCachePolicy(s)
    case Open => DoOpen(cfg, s)
    case Check => DoCheck(cfg, s)
    case Fetch(size, sha) => DoFetch(s, size, sha)
    case Extract(content) => DoExtract(s, content)
    case Inspect => DoInspect(cfg, s)
    case Smoke(status, version, left) => DoSmoke(cfg, s, status, version, left)
    case LookUp(swept) => DoLookUp(cfg, s, swept)
    case Rename => DoRename(s)
    case Revalidate => DoRevalidate(cfg, s)
    case WriteActive(now) => DoWriteActive(cfg, s, now)
    case MarkPending => DoMarkPending(s)
    case Health(status, version, left) => DoHealth(cfg, s, status, version, left)
    case WriteLkg(now) => DoWriteLkg(cfg, s, now)
    case Confirm => DoConfirm(s)
    case RollBack(now) => DoRollBack(cfg, s, now)
    case MarkRolledBack => DoMarkRolledBack(s)
    case Block => DoBlock(s)
    case Raise(late) => DoRaise(s, late)
    case Crash => s.(run := None)
    case MigrateBegin(version, exe) => DoMigrateBegin(cfg, s, version, exe)
    case MigrateStep(now) => DoMigrateStep(s, now)
    case MigrateCrash => s.(migration := None)
  }

  /** The system after a list of actions; an action that is not due does nothing. */
  ghost function Exec(cfg: Config, s: System, actions: seq<Action>): System
  {
    if actions == [] then s else Do(cfg, Exec(cfg, s, actions[..|actions| - 1]), actions[|actions| - 1])
  }

  /* ---- offline_launch ---- */

  datatype OfflineResult =
    | NoLauncher
    | NoPolicy(version: string)
    | UpdateRequired(version: string)
    | Fallback(version: string)
    | RaisesValueError

  /** A version string that does not parse raises a ValueError, which escapes `offline_launch`. */
  function OfflineLaunch(cfg: Config, disk: Disk): OfflineResult
  {
    var first := ValidPointer(cfg, disk.versions, disk.active);
    var active := if first.Some? then first else ValidPointer(cfg, disk.versions, disk.lkg);
    if active.None? then NoLauncher
    else
      var version := active.value.version;
      var policy := if disk.policy.None? then Err(BootstrapError)
                    else cfg.verify(disk.policy.value);
      if policy == Err(BootstrapError) then NoPolicy(version)
      else if policy.Err? then RaisesValueError
      else if version in policy.value.revoked then UpdateRequired(version)
      else
        var parsed := cfg.parseVersion(version);
        var minimum := cfg.parseVersion(policy.value.minimumVersion);
        if parsed.None? || minimum.None? then RaisesValueError
        else if parsed.value.Below(minimum.value) then UpdateRequired(version)
        else Fallback(version)
  }
}
