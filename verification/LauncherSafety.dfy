/** What holds in every state of every history of runs, each cut off anywhere. */
module LauncherSafety {
  import opened Wrappers
  import opened Manifests
  import opened LauncherStores
  import opened LauncherUpdates

  /* ---- Pointers and directories; these facts survive interleaved migrations ---- */

  /** The pointer is exactly what `write_pointer` makes of the valid directory it names. */
  ghost predicate Sound(cfg: Config, versions: map<string, Directory>, p: Pointer)
  {
    p.path in versions && Validate(cfg, versions[p.path]).Some? &&
    p == PointerTo(Validate(cfg, versions[p.path]).value, p.path, p.manifestDigest, p.activatedAt)
  }

  ghost predicate SoundSlot(cfg: Config, versions: map<string, Directory>, slot: Option<Pointer>)
  {
    slot.Some? ==> Sound(cfg, versions, slot.value)
  }

  ghost predicate Installed(cfg: Config, versions: map<string, Directory>, name: string, md: Metadata)
  {
    name in versions && Validate(cfg, versions[name]) == Some(md)
  }

  ghost predicate MigrationInv(cfg: Config, versions: map<string, Directory>, migration: Option<Migration>,
                               migrated: bool)
  {
    match migration
    case None => true
    case Some(Copying(v, _)) => v in versions && Validate(cfg, versions[v]).None?
    case Some(SwitchingActive(v, md)) => Installed(cfg, versions, v, md)
    case Some(SwitchingLkg(v, md)) => Installed(cfg, versions, v, md) && migrated
  }

  predicate Staged(phase: Phase)
  {
    phase.Smoking? || phase.Rejected? || phase.Installing? || phase.Renaming?
  }

  predicate Placed(phase: Phase)
  {
    phase.Validating? || phase.Activating? || phase.Pending? || phase.TakingHealth? || phase.Trusting?
    || phase.Confirming? || phase.RollingBack? || phase.Reverting? || phase.Blocking?
  }

  predicate Unopened(phase: Phase)
  {
    phase.Sweeping? || phase.Opening?
  }

  ghost predicate RunInv(cfg: Config, versions: map<string, Directory>, staging: map<string, Directory>, run: Run)
  {
    && SoundSlot(cfg, versions, run.previous)
    && (run.phase.Inspecting? ==> run.txn in staging)
    && (Staged(run.phase) || Placed(run.phase) ==> MatchesManifest(run.metadata, run.manifest))
    && (Staged(run.phase) ==> Installed(cfg, staging, run.txn, run.metadata))
    && (Placed(run.phase) ==> Installed(cfg, versions, run.manifest.launcherVersion, run.metadata))
    && (run.phase.RollingBack? ==> run.previous.Some?)
  }

  ghost predicate StoreInv(cfg: Config, s: System)
  {
    && SoundSlot(cfg, s.disk.versions, s.disk.active)
    && SoundSlot(cfg, s.disk.versions, s.disk.lkg)
    && MigrationInv(cfg, s.disk.versions, s.migration, s.history.migrated)
    && (s.run.Some? ==> RunInv(cfg, s.disk.versions, s.disk.staging, s.run.value))
  }

  /* ---- Receipts and the cached policy ---- */

  function Chain(): seq<Stage>
  {
    [CHECKING, DOWNLOADING, PACKAGE_VERIFIED, CANDIDATE_SMOKE_TESTING, CANDIDATE_READY, ACTIVATING,
     ACTIVE_PENDING_HEALTH]
  }

  /** How much of the chain the receipt of a run in this phase shows. */
  function Rank(phase: Phase): nat
  {
    match phase
    case Sweeping | Opening => 0
    case Checking => 1
    case Downloading => 2
    case Extracting | Inspecting => 3
    case Smoking | Rejected | Installing | Renaming | Validating => 4
    case Activating | Pending => 6
    case TakingHealth | Trusting | Confirming | RollingBack | Reverting | Blocking => 7
  }

  /** The last entry of that part. */
  function LastEntry(phase: Phase): Stage
    requires Rank(phase) > 0
  {
    match phase
    case Checking => CHECKING
    case Downloading => DOWNLOADING
    case Extracting | Inspecting => PACKAGE_VERIFIED
    case Smoking | Rejected | Installing | Renaming | Validating => CANDIDATE_SMOKE_TESTING
    case Activating | Pending => ACTIVATING
    case TakingHealth | Trusting | Confirming | RollingBack | Reverting | Blocking => ACTIVE_PENDING_HEALTH
  }

  /** A prefix of the one chain, plus at most one of the two endings. */
  ghost predicate ChainPrefix(ts: seq<Stage>)
  {
    ts != [] && (ts <= Chain() || ts == Chain() + [ACTIVE_CONFIRMED] || ts == Chain() + [ROLLED_BACK])
  }

  ghost predicate GoodReceipt(r: Receipt)
  {
    && ChainPrefix(r.transitions)
    && (|| r.state == r.transitions[|r.transitions| - 1]
        || r.state == FAILED_RECOVERABLE
        || (r.state == BLOCKED_REQUIRED_UPDATE && r.transitions == Chain()))
  }

  ghost predicate Shows(r: Receipt, phase: Phase)
  {
    Rank(phase) > 0 && r.transitions == Chain()[..Rank(phase)] && r.state == LastEntry(phase)
  }

  /** A receipt that shows a phase is good, and stays good when marked, failed or blocked. */
  lemma ShownReceipt(r: Receipt, phase: Phase)
    requires Shows(r, phase)
    ensures GoodReceipt(r) && GoodReceipt(r.(state := FAILED_RECOVERABLE))
    ensures r.state == LastEntry(phase)
    ensures r.transitions != [] && LastOf(r.transitions) == LastEntry(phase)
    ensures phase.Blocking? ==> GoodReceipt(r.(state := BLOCKED_REQUIRED_UPDATE))
    ensures Marks(phase) != [] ==>
              var marked := Marked(r, Marks(phase));
              && GoodReceipt(marked) && GoodReceipt(marked.(state := FAILED_RECOVERABLE))
              && marked.transitions != []
              && LastOf(marked.transitions) == LastOf(Marks(phase))
    ensures forall next: Phase :: Marks(phase) != [] && Rank(next) == Rank(phase) + |Marks(phase)| ==>
              Shows(Marked(r, Marks(phase)), next)
    ensures forall next: Phase :: Rank(next) == Rank(phase) ==> Shows(r, next)
  {
    var marked := r.transitions + Marks(phase);
    if Marks(phase) != [] && Rank(phase) < 7 {
      assert marked == Chain()[..Rank(phase) + |Marks(phase)|];
    }
  }

  function StateOf(outcome: Outcome): Stage
  {
    match outcome
    case Current => CHECKING
    case Confirmed => ACTIVE_CONFIRMED
    case RolledBack => ROLLED_BACK
    case Blocked => BLOCKED_REQUIRED_UPDATE
    case Failed => FAILED_RECOVERABLE
  }

  ghost predicate ReceiptInv(cfg: Config, s: System)
  {
    && (forall t :: t in s.disk.receipts ==> GoodReceipt(s.disk.receipts[t]))
    && (s.disk.policy.Some? ==> cfg.verify(s.disk.policy.value).Ok?)
    && (s.run.Some? ==>
          var run := s.run.value;
          && s.last.Some? && s.last.value.txn == run.txn && s.last.value.manifest == run.manifest
          && s.last.value.outcome == None
          && cfg.verify(run.envelope) == Ok(run.manifest)
          && (s.last.value.recorded <==> !Unopened(run.phase))
          && (run.phase.Opening? ==> s.disk.policy == Some(run.envelope))
          && (!Unopened(run.phase) ==>
                && run.txn in s.disk.receipts && s.disk.receipts[run.txn] == run.receipt
                && Shows(run.receipt, run.phase)))
    && (s.last.Some? ==>
          var last := s.last.value;
          && (last.recorded ==>
                && last.txn in s.disk.receipts && s.disk.policy.Some?
                && cfg.verify(s.disk.policy.value) == Ok(last.manifest))
          && (last.outcome.Some? ==>
                last.recorded && s.disk.receipts[last.txn].state == StateOf(last.outcome.value)))
  }

  /* ---- Order and trust; these facts need a history without migrations ---- */

  ghost predicate NotAbove(cfg: Config, low: string, high: string)
  {
    && cfg.parseVersion(low).Some? && cfg.parseVersion(high).Some?
    && !cfg.parseVersion(high).value.Below(cfg.parseVersion(low).value)
  }

  ghost predicate SlotsOrdered(cfg: Config, active: Option<Pointer>, lkg: Option<Pointer>)
  {
    && (active.Some? ==> cfg.parseVersion(active.value.version).Some?)
    && (lkg.Some? ==> active.Some? && NotAbove(cfg, lkg.value.version, active.value.version))
  }

  /** The last known good version passed its smoke test, and its health check or was spared one. */
  ghost predicate Tested(history: History, version: string)
  {
    version in history.smoked && (version in history.healthy || version in history.spared)
  }

  /** A pointer to the target of the manifest. */
  ghost predicate Names(cfg: Config, slot: Option<Pointer>, m: Manifest)
  {
    slot.Some? && var p := slot.value;
    && p.version == m.launcherVersion && p.path == m.launcherVersion && p.manifestDigest == cfg.digest(m)
    && p.releaseId == m.releaseId && p.buildId == m.buildId
    && p.sourceCommit == m.sourceCommit && p.sourceTree == m.sourceTree
  }

  /** Equal in every field but the time of activation. */
  ghost predicate SameButTime(a: Option<Pointer>, b: Option<Pointer>)
  {
    a.Some? && b.Some? && a.value.(activatedAt := "") == b.value.(activatedAt := "")
  }

  /** What the version checks establish. */
  ghost predicate Acceptable(cfg: Config, m: Manifest, current: Option<Pointer>)
  {
    && cfg.parseVersion(m.launcherVersion).Some? && cfg.parseVersion(m.minimumVersion).Some?
    && m.launcherVersion !in m.revoked
    && (current.Some? ==>
          && cfg.parseVersion(current.value.version).Some?
          && cfg.parseVersion(current.value.version).value.Below(cfg.parseVersion(m.launcherVersion).value)
          && (m.mandatory
              || !cfg.parseVersion(current.value.version).value.Below(cfg.parseVersion(m.minimumVersion).value)))
  }

  predicate Switched(phase: Phase)
  {
    Placed(phase) && !phase.Validating? && !phase.Activating?
  }

  ghost predicate PhaseInv(cfg: Config, active: Option<Pointer>, lkg: Option<Pointer>, history: History, run: Run,
                           last: Attempt)
  {
    && (last.switched <==> Switched(run.phase))
    && (!Unopened(run.phase) ==> run.previous == last.oldActive)
    && (Rank(run.phase) >= 2 ==> Acceptable(cfg, run.manifest, last.oldActive))
    && (run.phase.Installing? || run.phase.Renaming? || Placed(run.phase) ==>
          run.manifest.launcherVersion in history.smoked)
    && (run.phase.Trusting? || run.phase.Confirming? ==> Tested(history, run.manifest.launcherVersion))
    && (Switched(run.phase) && !run.phase.Reverting? ==> Names(cfg, active, run.manifest))
    && (Switched(run.phase) && !run.phase.Confirming? ==> lkg == last.oldLkg)
    && (run.phase.Confirming? ==> Names(cfg, lkg, run.manifest))
    && (run.phase.Reverting? ==> SameButTime(active, last.oldActive))
    && (run.phase.RollingBack? ==> last.oldActive.Some?)
    && (run.phase.Blocking? ==> last.oldActive.None?)
  }

  /** Where the pointers can be, given the last entry of the receipt on disk. */
  ghost predicate Bounds(cfg: Config, active: Option<Pointer>, lkg: Option<Pointer>, oldActive: Option<Pointer>,
                         oldLkg: Option<Pointer>, m: Manifest, entry: Stage)
  {
    var activeOld := active == oldActive;
    var activeNew := Names(cfg, active, m);
    var activeBack := SameButTime(active, oldActive);
    var lkgOld := lkg == oldLkg;
    var lkgNew := Names(cfg, lkg, m);
    match entry
    case ACTIVATING => lkgOld && (activeOld || activeNew)
    case ACTIVE_PENDING_HEALTH => (lkgOld && (activeNew || activeBack)) || (lkgNew && activeNew)
    case ACTIVE_CONFIRMED => activeNew && lkgNew
    case ROLLED_BACK => activeBack && lkgOld
    case _ => activeOld && lkgOld
  }

  /** What each ending says about the pointers. */
  ghost predicate OutcomeFacts(cfg: Config, active: Option<Pointer>, lkg: Option<Pointer>, last: Attempt,
                               outcome: Outcome)
  {
    match outcome
    case Current =>
      active == last.oldActive && lkg == last.oldLkg && last.oldActive.Some?
      && cfg.parseVersion(last.oldActive.value.version) == cfg.parseVersion(last.manifest.launcherVersion)
      && last.oldActive.value.manifestDigest == cfg.digest(last.manifest)
    case Confirmed =>
      && Names(cfg, active, last.manifest) && Names(cfg, lkg, last.manifest)
      && Acceptable(cfg, last.manifest, last.oldActive)
    case RolledBack =>
      SameButTime(active, last.oldActive) && lkg == last.oldLkg && Acceptable(cfg, last.manifest, last.oldActive)
    case Blocked => last.oldActive.None? && Names(cfg, active, last.manifest) && lkg == last.oldLkg
    case Failed => true
  }

  /** Until a run switches the active pointer, both pointers are as it found them. */
  ghost predicate PointersUntouched(active: Option<Pointer>, lkg: Option<Pointer>, last: Attempt)
  {
    !last.switched ==> active == last.oldActive && lkg == last.oldLkg
  }

  ghost predicate AttemptInv(cfg: Config, disk: Disk, last: Attempt)
  {
    && SlotsOrdered(cfg, last.oldActive, last.oldLkg)
    && PointersUntouched(disk.active, disk.lkg, last)
    && (!last.recorded ==> !last.switched)
    && (last.outcome.Some? ==> OutcomeFacts(cfg, disk.active, disk.lkg, last, last.outcome.value))
    && (last.recorded && last.txn in disk.receipts && disk.receipts[last.txn].transitions != [] ==>
          Bounds(cfg, disk.active, disk.lkg, last.oldActive, last.oldLkg, last.manifest,
                 LastOf(disk.receipts[last.txn].transitions)))
  }

  function LastOf(ts: seq<Stage>): Stage
    requires ts != []
  {
    ts[|ts| - 1]
  }

  ghost predicate OrderInv(cfg: Config, s: System)
  {
    !s.history.migrated ==>
      && SlotsOrdered(cfg, s.disk.active, s.disk.lkg)
      && (s.disk.lkg.Some? ==> Tested(s.history, s.disk.lkg.value.version))
      && (s.last.Some? ==> AttemptInv(cfg, s.disk, s.last.value))
      && (s.run.Some? && s.last.Some? ==>
            PhaseInv(cfg, s.disk.active, s.disk.lkg, s.history, s.run.value, s.last.value))
  }

  ghost predicate Inv(cfg: Config, s: System)
  {
    StoreInv(cfg, s) && ReceiptInv(cfg, s) && OrderInv(cfg, s)
  }

  /* ---- Installed directories are immutable ---- */

  /** Valid directories stay, with every guarded file as it was. */
  ghost predicate Kept(cfg: Config, before: map<string, Directory>, after: map<string, Directory>)
  {
    forall v :: v in before && Validate(cfg, before[v]).Some? ==> v in after && SameGuarded(cfg, before[v], after[v])
  }

  lemma KeptValidates(cfg: Config, before: map<string, Directory>, after: map<string, Directory>, v: string)
    requires Kept(cfg, before, after)
    requires v in before && Validate(cfg, before[v]).Some?
    ensures v in after && Validate(cfg, after[v]) == Validate(cfg, before[v])
  {
    GuardedFilesDecide(cfg, before[v], after[v]);
  }

  lemma KeptSound(cfg: Config, before: map<string, Directory>, after: map<string, Directory>, slot: Option<Pointer>)
    requires Kept(cfg, before, after) && SoundSlot(cfg, before, slot)
    ensures SoundSlot(cfg, after, slot)
  {
    if slot.Some? { KeptValidates(cfg, before, after, slot.value.path); }
  }

  lemma KeptSame(cfg: Config, versions: map<string, Directory>)
    ensures Kept(cfg, versions, versions)
  {
  }

  /** Writing one directory keeps the others, and keeps that one when it was absent, was not valid,
      or loses no guarded file. */
  lemma KeptWrite(cfg: Config, before: map<string, Directory>, name: string, d: Directory)
    requires name in before ==> Validate(cfg, before[name]).None? || SameGuarded(cfg, before[name], d)
    ensures Kept(cfg, before, before[name := d])
  {
  }

  /** What the store keeps of its own accord when directories are kept. */
  lemma KeptStore(cfg: Config, s: System, after: map<string, Directory>)
    requires StoreInv(cfg, s) && Kept(cfg, s.disk.versions, after)
    ensures SoundSlot(cfg, after, s.disk.active) && SoundSlot(cfg, after, s.disk.lkg)
    ensures s.run.Some? ==> SoundSlot(cfg, after, s.run.value.previous)
    ensures s.run.Some? && Placed(s.run.value.phase) ==> Installed(cfg, after, Final(s), s.run.value.metadata)
    ensures s.migration.Some? && !s.migration.value.Copying? ==>
              Installed(cfg, after, s.migration.value.version, s.migration.value.metadata)
  {
    KeptSound(cfg, s.disk.versions, after, s.disk.active);
    KeptSound(cfg, s.disk.versions, after, s.disk.lkg);
    if s.run.Some? {
      KeptSound(cfg, s.disk.versions, after, s.run.value.previous);
      if Placed(s.run.value.phase) { KeptValidates(cfg, s.disk.versions, after, Final(s)); }
    }
    if s.migration.Some? && !s.migration.value.Copying? {
      KeptValidates(cfg, s.disk.versions, after, s.migration.value.version);
    }
  }

  lemma EmptyDirectory(cfg: Config)
    ensures Validate(cfg, map[]).None?
  {
  }

  lemma FirstReceipt(r: Receipt)
    requires r.transitions == [CHECKING] && r.state == CHECKING
    ensures Shows(r, Checking) && GoodReceipt(r)
  {
  }

  /** What the version checks decide, for a sound previous pointer. */
  lemma Decision(cfg: Config, disk: Disk, m: Manifest, previous: Option<Pointer>)
    requires SoundSlot(cfg, disk.versions, previous)
    ensures Decide(cfg, disk, m, previous).Proceed? ==> Acceptable(cfg, m, previous)
    ensures Decide(cfg, disk, m, previous).AlreadyCurrent? ==>
              && previous.Some? && disk.active.Some?
              && cfg.parseVersion(previous.value.version) == cfg.parseVersion(m.launcherVersion)
              && disk.active.value.manifestDigest == cfg.digest(m)
  {
  }

  /* ---- Each step keeps the invariant, and keeps what is installed ---- */

  /** While a run goes on, its phase bounds the pointers as its receipt says, and as its next mark would say. */
  lemma PhaseBounds(cfg: Config, s: System)
    requires s.run.Some? && s.last.Some? && !Unopened(s.run.value.phase)
    requires s.last.value.manifest == s.run.value.manifest
    requires PhaseInv(cfg, s.disk.active, s.disk.lkg, s.history, s.run.value, s.last.value)
    requires PointersUntouched(s.disk.active, s.disk.lkg, s.last.value)
    ensures Bounds(cfg, s.disk.active, s.disk.lkg, s.last.value.oldActive, s.last.value.oldLkg, s.last.value.manifest,
                   LastEntry(s.run.value.phase))
    ensures var marks := Marks(s.run.value.phase);
            marks != [] ==> Bounds(cfg, s.disk.active, s.disk.lkg, s.last.value.oldActive, s.last.value.oldLkg,
                                   s.last.value.manifest, LastOf(marks))
  {
    hide Names, SameButTime, Acceptable, Tested;
  }

  /** A failed check or an exception, early or late, leaves everything but the receipt as it is. */
  lemma FailKeeps(cfg: Config, s: System, late: bool)
    requires Inv(cfg, s) && s.run.Some? && s.last.Some? && !Unopened(s.run.value.phase)
    ensures var r, marks := s.run.value.receipt, Marks(s.run.value.phase);
            Inv(cfg, Fail(s, if late && marks != [] then Marked(r, marks) else r))
  {
    hide SoundSlot, GoodReceipt, Shows, RunInv, PhaseInv, Bounds, SlotsOrdered, Tested, MigrationInv, Marks,
         LastEntry;
    ShownReceipt(s.run.value.receipt, s.run.value.phase);
    if !s.history.migrated { PhaseBounds(cfg, s); }
  }

  /** Writing the receipt of a phase keeps the invariant if the next phase may follow. */
  lemma MarkKeeps(cfg: Config, s: System, s': System, next: Phase)
    requires Inv(cfg, s) && s.run.Some? && s.last.Some? && !Unopened(s.run.value.phase)
    requires Marks(s.run.value.phase) != [] && !Unopened(next)
    requires Rank(next) == Rank(s.run.value.phase) + |Marks(s.run.value.phase)|
    requires s'.run.Some?
    requires s' == Mark(s, next).(run := Some(Mark(s, next).run.value.(metadata := s'.run.value.metadata)))
    requires RunInv(cfg, s'.disk.versions, s'.disk.staging, s'.run.value)
    requires !s.history.migrated ==>
               PhaseInv(cfg, s'.disk.active, s'.disk.lkg, s'.history, s'.run.value, s'.last.value)
    ensures Inv(cfg, s')
  {
    hide SoundSlot, GoodReceipt, Shows, RunInv, PhaseInv, Bounds, SlotsOrdered, Tested, Marks, LastEntry,
         MigrationInv;
    ShownReceipt(s.run.value.receipt, s.run.value.phase);
    assert Shows(Marked(s.run.value.receipt, Marks(s.run.value.phase)), next);
    ShownReceipt(s'.run.value.receipt, next);
    if !s.history.migrated { PhaseBounds(cfg, s'); }
  }

  /** Moving on without touching receipts or policy keeps the invariant if the next phase may follow and
      the pointers are in order. */
  lemma MoveKeeps(cfg: Config, s: System, s': System)
    requires Inv(cfg, s) && s.run.Some? && s.last.Some? && s'.run.Some? && s'.last.Some?
    requires s' == s.(disk := s'.disk, history := s'.history,
                      run := Some(s.run.value.(phase := s'.run.value.phase)),
                      last := Some(s.last.value.(switched := s'.last.value.switched)))
    requires s'.disk.receipts == s.disk.receipts && s'.disk.policy == s.disk.policy
    requires !Unopened(s.run.value.phase) && Rank(s'.run.value.phase) == Rank(s.run.value.phase)
    requires s.history.smoked <= s'.history.smoked && s.history.healthy <= s'.history.healthy
    requires s.history.spared <= s'.history.spared && s.history.migrated == s'.history.migrated
    requires SoundSlot(cfg, s'.disk.versions, s'.disk.active) && SoundSlot(cfg, s'.disk.versions, s'.disk.lkg)
    requires MigrationInv(cfg, s'.disk.versions, s'.migration, s'.history.migrated)
    requires RunInv(cfg, s'.disk.versions, s'.disk.staging, s'.run.value)
    requires !s'.history.migrated ==>
               && PhaseInv(cfg, s'.disk.active, s'.disk.lkg, s'.history, s'.run.value, s'.last.value)
               && PointersUntouched(s'.disk.active, s'.disk.lkg, s'.last.value)
               && SlotsOrdered(cfg, s'.disk.active, s'.disk.lkg)
               && (s'.disk.lkg != s.disk.lkg ==> s'.disk.lkg.Some? && Tested(s'.history, s'.disk.lkg.value.version))
    ensures Inv(cfg, s')
  {
    hide SoundSlot, GoodReceipt, Shows, RunInv, PhaseInv, Bounds, SlotsOrdered, LastEntry, MigrationInv;
    ShownReceipt(s.run.value.receipt, s.run.value.phase);
    assert Shows(s.run.value.receipt, s'.run.value.phase);
    ShownReceipt(s'.run.value.receipt, s'.run.value.phase);
    if !s.history.migrated { PhaseBounds(cfg, s'); }
  }

  lemma NoPointerIsSound(cfg: Config, versions: map<string, Directory>)
    ensures SoundSlot(cfg, versions, None)
  {
  }

  lemma BeginKeeps(cfg: Config, s: System, e: Envelope, txn: string, launch: bool)
    requires Inv(cfg, s)
    ensures Inv(cfg, DoBegin(cfg, s, e, txn, launch))
    ensures DoBegin(cfg, s, e, txn, launch).disk.versions == s.disk.versions
  {
    hide SoundSlot, GoodReceipt, Shows, Bounds, SlotsOrdered, Tested, MigrationInv, OutcomeFacts;
    NoPointerIsSound(cfg, s.disk.versions);
  }

  lemma SweepKeeps(cfg: Config, s: System, name: string)
    requires Inv(cfg, s)
    ensures Inv(cfg, DoSweep(s, name))
    ensures DoSweep(s, name).disk.versions == s.disk.versions
  {
    hide SoundSlot, GoodReceipt, Shows, Bounds, SlotsOrdered, Tested, MigrationInv, OutcomeFacts;
  }

  lemma CachePolicyKeeps(cfg: Config, s: System)
    requires Inv(cfg, s)
    ensures Inv(cfg, DoCachePolicy(s))
    ensures DoCachePolicy(s).disk.versions == s.disk.versions
  {
    hide SoundSlot, GoodReceipt, Shows, Bounds, SlotsOrdered, Tested, MigrationInv, OutcomeFacts;
  }

  lemma OpenKeeps(cfg: Config, s: System)
    requires Inv(cfg, s)
    ensures Inv(cfg, DoOpen(cfg, s))
    ensures DoOpen(cfg, s).disk.versions == s.disk.versions
  {
    hide Validate, GoodReceipt, Shows, SlotsOrdered, Tested, MigrationInv, OutcomeFacts, Names, SameButTime;
    if At(s, Opening) {
      FirstReceipt(DoOpen(cfg, s).run.value.receipt);
    }
  }

  lemma ProceedKeeps(cfg: Config, s: System)
    requires Inv(cfg, s) && At(s, Checking)
    requires Decide(cfg, s.disk, s.run.value.manifest, s.run.value.previous).Proceed?
    ensures Inv(cfg, Mark(s, Downloading))
  {
    hide Decide, SoundSlot, Names, SameButTime, Acceptable, SlotsOrdered, Marked, Shows, GoodReceipt, Bounds;
    Decision(cfg, s.disk, s.run.value.manifest, s.run.value.previous);
    MarkKeeps(cfg, s, Mark(s, Downloading), Downloading);
  }

  lemma CheckKeeps(cfg: Config, s: System)
    requires Inv(cfg, s)
    ensures Inv(cfg, DoCheck(cfg, s))
    ensures DoCheck(cfg, s).disk.versions == s.disk.versions
  {
    hide Inv, Decide;
    if At(s, Checking) {
      match Decide(cfg, s.disk, s.run.value.manifest, s.run.value.previous) {
        case Proceed => ProceedKeeps(cfg, s);
        case AlreadyCurrent => CurrentKeeps(cfg, s);
        case Refuse => FailKeeps(cfg, s, false);
      }
    }
  }

  lemma CurrentKeeps(cfg: Config, s: System)
    requires Inv(cfg, s) && At(s, Checking)
    requires Decide(cfg, s.disk, s.run.value.manifest, s.run.value.previous).AlreadyCurrent?
    ensures Inv(cfg, Ended(s, s.disk, Current))
  {
    hide Decide, SoundSlot, GoodReceipt, Shows, SlotsOrdered, Tested, MigrationInv, Names, SameButTime, Bounds;
    Decision(cfg, s.disk, s.run.value.manifest, s.run.value.previous);
    ShownReceipt(s.run.value.receipt, Checking);
  }

  lemma FetchKeeps(cfg: Config, s: System, size: int, sha: string)
    requires Inv(cfg, s)
    ensures Inv(cfg, DoFetch(s, size, sha))
    ensures DoFetch(s, size, sha).disk.versions == s.disk.versions
  {
    hide Inv, RunInv, PhaseInv;
    if At(s, Downloading) {
      MarkReady(cfg, s, Extracting);
      FailKeeps(cfg, s, false);
      MarkKeeps(cfg, s, Mark(s, Extracting), Extracting);
    }
  }

  /** Three marks that need nothing but what the phase already has. */
  lemma MarkReady(cfg: Config, s: System, next: Phase)
    requires Inv(cfg, s) && s.run.Some? && s.last.Some?
    requires Marks(s.run.value.phase) != []
    requires || (s.run.value.phase.Downloading? && next.Extracting?)
             || (s.run.value.phase.Validating? && next.Activating?)
             || (s.run.value.phase.Pending? && next.TakingHealth?)
    ensures var s' := Mark(s, next);
      && RunInv(cfg, s'.disk.versions, s'.disk.staging, s'.run.value)
      && (!s.history.migrated ==>
            PhaseInv(cfg, s'.disk.active, s'.disk.lkg, s'.history, s'.run.value, s'.last.value))
  {
    hide SoundSlot, Installed, Names, SameButTime, Acceptable, MatchesManifest, Marked, GoodReceipt, Shows, Bounds,
         MigrationInv, SlotsOrdered, OutcomeFacts;
  }

  lemma ExtractKeeps(cfg: Config, s: System, content: Directory)
    requires Inv(cfg, s)
    ensures Inv(cfg, DoExtract(s, content))
    ensures DoExtract(s, content).disk.versions == s.disk.versions
  {
    hide SoundSlot, Installed, Names, SameButTime, Acceptable, MatchesManifest, GoodReceipt, Shows, Bounds,
         SlotsOrdered, OutcomeFacts, Validate;
    if At(s, Extracting) {
      MoveKeeps(cfg, s, DoExtract(s, content));
    }
  }

  lemma CandidateFacts(cfg: Config, d: Directory, m: Manifest)
    ensures var md := Candidate(cfg, d, m);
            md.Some? ==> Validate(cfg, d) == md && MatchesManifest(md.value, m)
  {
    hide Validate;
  }

  lemma CandidateAccepted(cfg: Config, s: System, md: Metadata)
    requires Inv(cfg, s) && At(s, Inspecting)
    requires Candidate(cfg, s.disk.staging[s.run.value.txn], s.run.value.manifest) == Some(md)
    ensures var marked := Mark(s, Smoking);
            Inv(cfg, marked.(run := Some(marked.run.value.(metadata := md))))
  {
    hide SoundSlot, Validate, Candidate, Names, SameButTime, Acceptable, MatchesManifest, GoodReceipt, Shows, Bounds,
         SlotsOrdered, OutcomeFacts, AttemptInv, Marked, MigrationInv;
    CandidateFacts(cfg, s.disk.staging[s.run.value.txn], s.run.value.manifest);
    var marked := Mark(s, Smoking);
    MarkKeeps(cfg, s, marked.(run := Some(marked.run.value.(metadata := md))), Smoking);
  }

  lemma InspectKeeps(cfg: Config, s: System)
    requires Inv(cfg, s)
    ensures Inv(cfg, DoInspect(cfg, s))
    ensures DoInspect(cfg, s).disk.versions == s.disk.versions
  {
    hide Inv, Candidate;
    if At(s, Inspecting) && s.run.value.txn in s.disk.staging {
      FailKeeps(cfg, s, false);
      var md := Candidate(cfg, s.disk.staging[s.run.value.txn], s.run.value.manifest);
      if md.Some? { CandidateAccepted(cfg, s, md.value); }
    }
  }

  lemma SmokeMoves(cfg: Config, s: System, next: Phase, history: History, left: Directory)
    requires Inv(cfg, s) && At(s, Smoking) && SameGuarded(cfg, s.disk.staging[s.run.value.txn], left)
    requires history == s.history.(smoked := history.smoked) && s.history.smoked <= history.smoked
    requires next == Rejected || (next == Installing && Final(s) in history.smoked)
    ensures var staging := s.disk.staging[s.run.value.txn := left];
            Inv(cfg, To(s.(disk := s.disk.(staging := staging), history := history), next))
  {
    hide SoundSlot, Validate, SameGuarded, Names, SameButTime, Acceptable, MatchesManifest, GoodReceipt, Shows,
         Bounds, SlotsOrdered, OutcomeFacts;
    GuardedFilesDecide(cfg, s.disk.staging[s.run.value.txn], left);
    var staging := s.disk.staging[s.run.value.txn := left];
    MoveKeeps(cfg, s, To(s.(disk := s.disk.(staging := staging), history := history), next));
  }

  lemma SmokeKeeps(cfg: Config, s: System, status: string, version: string, left: Directory)
    requires Inv(cfg, s)
    ensures Inv(cfg, DoSmoke(cfg, s, status, version, left))
    ensures DoSmoke(cfg, s, status, version, left).disk.versions == s.disk.versions
  {
    hide Inv, SameGuarded;
    if At(s, Smoking) && s.run.value.txn in s.disk.staging {
      FailKeeps(cfg, s, false);
      if SameGuarded(cfg, s.disk.staging[s.run.value.txn], left) {
        SmokeMoves(cfg, s, Rejected, s.history, left);
        SmokeMoves(cfg, s, Installing, s.history.(smoked := s.history.smoked + {Final(s)}), left);
      }
    }
  }

  lemma LookUpMoves(cfg: Config, s: System, next: Phase, staging: map<string, Directory>)
    requires Inv(cfg, s) && At(s, Installing)
    requires || (next == Renaming && staging == s.disk.staging)
             || (next == Validating && Installed(cfg, s.disk.versions, Final(s), s.run.value.metadata))
    ensures Inv(cfg, To(s.(disk := s.disk.(staging := staging)), next))
  {
    hide SoundSlot, Installed, Names, SameButTime, Acceptable, MatchesManifest, GoodReceipt, Shows, Bounds,
         SlotsOrdered, OutcomeFacts, MigrationInv;
    MoveKeeps(cfg, s, To(s.(disk := s.disk.(staging := staging)), next));
  }

  lemma LookUpKeeps(cfg: Config, s: System, swept: bool)
    requires Inv(cfg, s)
    ensures Inv(cfg, DoLookUp(cfg, s, swept))
    ensures DoLookUp(cfg, s, swept).disk.versions == s.disk.versions
  {
    hide Inv, Validate;
    if At(s, Installing) {
      FailKeeps(cfg, s, false);
      if Final(s) !in s.disk.versions {
        LookUpMoves(cfg, s, Renaming, s.disk.staging);
      } else if Validate(cfg, s.disk.versions[Final(s)]) == Some(s.run.value.metadata) {
        LookUpMoves(cfg, s, Validating, if swept then s.disk.staging - {s.run.value.txn} else s.disk.staging);
      }
    }
  }

  lemma RenameMoves(cfg: Config, s: System)
    requires Inv(cfg, s) && At(s, Renaming) && Final(s) !in s.disk.versions
    ensures Inv(cfg, DoRename(s))
    ensures Kept(cfg, s.disk.versions, DoRename(s).disk.versions)
  {
    hide SoundSlot, Kept, Validate, Names, SameButTime, Acceptable, MatchesManifest, GoodReceipt, Shows, Bounds,
         SlotsOrdered, OutcomeFacts;
    var versions := s.disk.versions[Final(s) := s.disk.staging[s.run.value.txn]];
    KeptWrite(cfg, s.disk.versions, Final(s), s.disk.staging[s.run.value.txn]);
    KeptStore(cfg, s, versions);
    var staging := s.disk.staging - {s.run.value.txn};
    MoveKeeps(cfg, s, To(s.(disk := s.disk.(versions := versions, staging := staging)), Validating));
  }

  lemma RenameKeeps(cfg: Config, s: System)
    requires Inv(cfg, s)
    ensures Inv(cfg, DoRename(s))
    ensures Kept(cfg, s.disk.versions, DoRename(s).disk.versions)
  {
    hide Inv, Kept;
    KeptSame(cfg, s.disk.versions);
    if At(s, Renaming) && s.run.value.txn in s.disk.staging {
      FailKeeps(cfg, s, false);
      if Final(s) !in s.disk.versions { RenameMoves(cfg, s); }
    }
  }

  lemma RevalidateKeeps(cfg: Config, s: System)
    requires Inv(cfg, s)
    ensures Inv(cfg, DoRevalidate(cfg, s))
    ensures DoRevalidate(cfg, s).disk.versions == s.disk.versions
  {
    hide Inv, RunInv, PhaseInv, Validate;
    if At(s, Validating) {
      MarkReady(cfg, s, Activating);
      FailKeeps(cfg, s, false);
      MarkKeeps(cfg, s, Mark(s, Activating), Activating);
    }
  }

  /** The target is in order with the pointers it follows. */
  lemma TargetOrder(cfg: Config, m: Manifest, current: Option<Pointer>, lkg: Option<Pointer>, target: Option<Pointer>)
    requires Acceptable(cfg, m, current) && SlotsOrdered(cfg, current, lkg) && Names(cfg, target, m)
    ensures SlotsOrdered(cfg, target, lkg) && SlotsOrdered(cfg, target, target)
  {
  }

  lemma TargetTwice(cfg: Config, m: Manifest, active: Option<Pointer>, lkg: Option<Pointer>, target: Option<Pointer>)
    requires Names(cfg, active, m) && Names(cfg, target, m) && SlotsOrdered(cfg, active, lkg)
    ensures SlotsOrdered(cfg, active, target)
  {
  }

  lemma TargetSound(cfg: Config, s: System, now: string)
    requires s.run.Some? && RunInv(cfg, s.disk.versions, s.disk.staging, s.run.value) && Placed(s.run.value.phase)
    ensures SoundSlot(cfg, s.disk.versions, Some(TargetPointer(cfg, s.run.value, now)))
    ensures Names(cfg, Some(TargetPointer(cfg, s.run.value, now)), s.run.value.manifest)
    ensures TargetPointer(cfg, s.run.value, now).version == s.run.value.manifest.launcherVersion
  {
    hide Validate;
  }

  lemma WriteActiveKeeps(cfg: Config, s: System, now: string)
    requires Inv(cfg, s)
    ensures Inv(cfg, DoWriteActive(cfg, s, now))
    ensures DoWriteActive(cfg, s, now).disk.versions == s.disk.versions
  {
    hide SoundSlot, Validate, Names, SameButTime, Acceptable, MatchesManifest, GoodReceipt, Shows, Bounds,
         SlotsOrdered, OutcomeFacts, TargetPointer;
    if At(s, Activating) {
      var target := Some(TargetPointer(cfg, s.run.value, now));
      TargetSound(cfg, s, now);
      if !s.history.migrated {
        TargetOrder(cfg, s.run.value.manifest, s.last.value.oldActive, s.last.value.oldLkg, target);
      }
      MoveKeeps(cfg, s, DoWriteActive(cfg, s, now));
    }
  }

  lemma MarkPendingKeeps(cfg: Config, s: System)
    requires Inv(cfg, s)
    ensures Inv(cfg, DoMarkPending(s))
    ensures DoMarkPending(s).disk.versions == s.disk.versions
  {
    hide Inv, RunInv, PhaseInv;
    if At(s, Pending) {
      MarkReady(cfg, s, TakingHealth);
      MarkKeeps(cfg, s, Mark(s, TakingHealth), TakingHealth);
    }
  }

  /** The health check leaves every installed directory valid; the pointers have not moved. */
  lemma HealthMoves(cfg: Config, s: System, next: Phase, history: History, left: Directory)
    requires Inv(cfg, s) && At(s, TakingHealth) && SameGuarded(cfg, s.disk.versions[Final(s)], left)
    requires history == s.history.(healthy := history.healthy, spared := history.spared)
    requires s.history.healthy <= history.healthy && s.history.spared <= history.spared
    requires || (next == Trusting && (Final(s) in history.healthy || Final(s) in history.spared))
             || (next == RollingBack && s.run.value.previous.Some?)
             || (next == Blocking && s.run.value.previous.None?)
    ensures var versions := s.disk.versions[Final(s) := left];
      && Inv(cfg, To(s.(disk := s.disk.(versions := versions), history := history), next))
      && Kept(cfg, s.disk.versions, versions)
  {
    hide SoundSlot, Kept, Validate, SameGuarded, Names, SameButTime, Acceptable, MatchesManifest, GoodReceipt, Shows,
         Bounds, SlotsOrdered, OutcomeFacts;
    var versions := s.disk.versions[Final(s) := left];
    KeptWrite(cfg, s.disk.versions, Final(s), left);
    KeptStore(cfg, s, versions);
    var s' := To(s.(disk := s.disk.(versions := versions), history := history), next);
    MoveKeeps(cfg, s, s');
  }

  lemma HealthKeeps(cfg: Config, s: System, status: string, version: string, left: Directory)
    requires Inv(cfg, s)
    ensures Inv(cfg, DoHealth(cfg, s, status, version, left))
    ensures Kept(cfg, s.disk.versions, DoHealth(cfg, s, status, version, left).disk.versions)
  {
    hide Inv, Kept;
    KeptSame(cfg, s.disk.versions);
    if At(s, TakingHealth) && Final(s) in s.disk.versions {
      var d := s.disk.versions[Final(s)];
      var healthy := s.history.(healthy := s.history.healthy + {Final(s)});
      if !s.run.value.launch {
        assert s.disk.versions[Final(s) := d] == s.disk.versions;
        HealthMoves(cfg, s, Trusting, s.history.(spared := s.history.spared + {Final(s)}), d);
      } else if SameGuarded(cfg, d, left) {
        if Passed(s.run.value.manifest, status, version) { HealthMoves(cfg, s, Trusting, healthy, left); }
        else if s.run.value.previous.Some? { HealthMoves(cfg, s, RollingBack, s.history, left); }
        else { HealthMoves(cfg, s, Blocking, s.history, left); }
      }
    }
  }

  lemma WriteLkgKeeps(cfg: Config, s: System, now: string)
    requires Inv(cfg, s)
    ensures Inv(cfg, DoWriteLkg(cfg, s, now))
    ensures DoWriteLkg(cfg, s, now).disk.versions == s.disk.versions
  {
    hide SoundSlot, Validate, Names, SameButTime, Acceptable, MatchesManifest, GoodReceipt, Shows, Bounds,
         SlotsOrdered, OutcomeFacts, TargetPointer;
    if At(s, Trusting) {
      TargetSound(cfg, s, now);
      var target := Some(TargetPointer(cfg, s.run.value, now));
      if !s.history.migrated {
        TargetOrder(cfg, s.run.value.manifest, s.last.value.oldActive, s.last.value.oldLkg, target);
        TargetTwice(cfg, s.run.value.manifest, s.disk.active, s.disk.lkg, target);
      }
      MoveKeeps(cfg, s, DoWriteLkg(cfg, s, now));
    }
  }

  /** A finished run: the receipt takes its ending and the outcome says where the pointers are. */
  lemma EndKeeps(cfg: Config, s: System, r: Receipt, outcome: Outcome)
    requires Inv(cfg, s) && s.run.Some? && s.last.Some? && !Unopened(s.run.value.phase)
    requires GoodReceipt(r) && r.state == StateOf(outcome) && r.transitions != []
    requires !s.history.migrated ==>
               && Bounds(cfg, s.disk.active, s.disk.lkg, s.last.value.oldActive, s.last.value.oldLkg,
                         s.last.value.manifest, LastOf(r.transitions))
               && OutcomeFacts(cfg, s.disk.active, s.disk.lkg, s.last.value, outcome)
    ensures Inv(cfg, Ended(s, Stored(s, r), outcome))
  {
    hide SoundSlot, GoodReceipt, Shows, Names, SameButTime, Acceptable, PhaseInv, RunInv, MigrationInv, SlotsOrdered,
         Tested;
  }

  lemma ConfirmKeeps(cfg: Config, s: System)
    requires Inv(cfg, s)
    ensures Inv(cfg, DoConfirm(s))
    ensures DoConfirm(s).disk.versions == s.disk.versions
  {
    hide SoundSlot, GoodReceipt, Shows, Names, SameButTime, Acceptable, RunInv, MigrationInv, SlotsOrdered, Bounds;
    if At(s, Confirming) {
      ShownReceipt(s.run.value.receipt, Confirming);
      if !s.history.migrated { PhaseBounds(cfg, s); }
      EndKeeps(cfg, s, Marked(s.run.value.receipt, [ACTIVE_CONFIRMED]), Confirmed);
    }
  }

  lemma RestoredOrder(cfg: Config, active: Option<Pointer>, restored: Option<Pointer>, lkg: Option<Pointer>)
    requires SameButTime(active, restored)
    ensures SlotsOrdered(cfg, active, lkg) <==> SlotsOrdered(cfg, restored, lkg)
  {
    assert active.value.version == active.value.(activatedAt := "").version;
  }

  /** Rolling back restores the previous pointer in every field but the time. */
  lemma RestoredPointer(cfg: Config, s: System, now: string)
    requires At(s, RollingBack) && s.run.value.previous.Some?
    requires SoundSlot(cfg, s.disk.versions, s.run.value.previous)
    ensures var active := DoRollBack(cfg, s, now).disk.active;
      && SameButTime(active, s.run.value.previous) && SoundSlot(cfg, s.disk.versions, active)
      && DoRollBack(cfg, s, now) == To(s.(disk := s.disk.(active := active)), Reverting)
  {
    hide Validate;
  }

  lemma RollBackMoves(cfg: Config, s: System, active: Option<Pointer>)
    requires Inv(cfg, s) && At(s, RollingBack)
    requires SameButTime(active, s.run.value.previous) && SoundSlot(cfg, s.disk.versions, active)
    ensures Inv(cfg, To(s.(disk := s.disk.(active := active)), Reverting))
  {
    hide SoundSlot, Installed, Names, SameButTime, Acceptable, MatchesManifest, GoodReceipt, Shows, Bounds,
         SlotsOrdered, OutcomeFacts, MigrationInv;
    RestoredOrder(cfg, active, s.run.value.previous, s.disk.lkg);
    MoveKeeps(cfg, s, To(s.(disk := s.disk.(active := active)), Reverting));
  }

  lemma RollBackKeeps(cfg: Config, s: System, now: string)
    requires Inv(cfg, s)
    ensures Inv(cfg, DoRollBack(cfg, s, now))
    ensures DoRollBack(cfg, s, now).disk.versions == s.disk.versions
  {
    if At(s, RollingBack) && s.run.value.previous.Some? {
      RestoredPointer(cfg, s, now);
      hide SoundSlot, SameButTime, DoRollBack, RunInv, ReceiptInv, OrderInv;
      RollBackMoves(cfg, s, DoRollBack(cfg, s, now).disk.active);
    }
  }

  lemma MarkRolledBackKeeps(cfg: Config, s: System)
    requires Inv(cfg, s)
    ensures Inv(cfg, DoMarkRolledBack(s))
    ensures DoMarkRolledBack(s).disk.versions == s.disk.versions
  {
    hide SoundSlot, GoodReceipt, Shows, Names, SameButTime, Acceptable, RunInv, MigrationInv, SlotsOrdered, Bounds;
    if At(s, Reverting) {
      ShownReceipt(s.run.value.receipt, Reverting);
      if !s.history.migrated { PhaseBounds(cfg, s); }
      EndKeeps(cfg, s, Marked(s.run.value.receipt, [ROLLED_BACK]), RolledBack);
    }
  }

  lemma BlockKeeps(cfg: Config, s: System)
    requires Inv(cfg, s)
    ensures Inv(cfg, DoBlock(s))
    ensures DoBlock(s).disk.versions == s.disk.versions
  {
    hide SoundSlot, GoodReceipt, Shows, Names, SameButTime, Acceptable, RunInv, MigrationInv, SlotsOrdered, Bounds;
    if At(s, Blocking) {
      ShownReceipt(s.run.value.receipt, Blocking);
      if !s.history.migrated { PhaseBounds(cfg, s); }
      EndKeeps(cfg, s, s.run.value.receipt.(state := BLOCKED_REQUIRED_UPDATE), Blocked);
    }
  }

  lemma RaiseKeeps(cfg: Config, s: System, late: bool)
    requires Inv(cfg, s)
    ensures Inv(cfg, DoRaise(s, late))
    ensures DoRaise(s, late).disk.versions == s.disk.versions
  {
    hide Inv;
    if s.run.Some? && s.last.Some? && !Unopened(s.run.value.phase) { FailKeeps(cfg, s, late); }
  }

  lemma MigrateBeginKeeps(cfg: Config, s: System, version: string, exe: string)
    requires Inv(cfg, s)
    ensures Inv(cfg, DoMigrateBegin(cfg, s, version, exe))
    ensures Kept(cfg, s.disk.versions, DoMigrateBegin(cfg, s, version, exe).disk.versions)
  {
    hide SoundSlot, Kept, Validate, Names, SameButTime, Acceptable, MatchesManifest, GoodReceipt, Shows, Bounds,
         SlotsOrdered, OutcomeFacts, PhaseInv;
    KeptSame(cfg, s.disk.versions);
    if version !in s.disk.versions {
      KeptWrite(cfg, s.disk.versions, version, map[]);
      KeptStore(cfg, s, s.disk.versions[version := map[]]);
      EmptyDirectory(cfg);
    }
  }

  lemma SwitchKeeps(cfg: Config, s: System, now: string)
    requires Inv(cfg, s) && s.migration.Some? && !s.migration.value.Copying?
    ensures Inv(cfg, DoMigrateStep(s, now))
  {
    hide Validate, RunInv, GoodReceipt, Shows, AttemptInv, PhaseInv, SlotsOrdered, Bounds, Names, Acceptable, Tested;
    var v, md := s.migration.value.version, s.migration.value.metadata;
    assert Sound(cfg, s.disk.versions, PointerTo(md, v, "legacy-migration", now));
  }

  lemma MigrateStepKeeps(cfg: Config, s: System, now: string)
    requires Inv(cfg, s)
    ensures Inv(cfg, DoMigrateStep(s, now))
    ensures Kept(cfg, s.disk.versions, DoMigrateStep(s, now).disk.versions)
  {
    hide SoundSlot, Kept, Validate, Names, SameButTime, Acceptable, MatchesManifest, GoodReceipt, Shows, Bounds,
         SlotsOrdered, OutcomeFacts, PhaseInv;
    KeptSame(cfg, s.disk.versions);
    if s.migration.Some? && s.migration.value.Copying? {
      var v := s.migration.value.version;
      var d := s.disk.versions[v][EXE := File(s.migration.value.exe)];
      KeptWrite(cfg, s.disk.versions, v, d);
      KeptStore(cfg, s, s.disk.versions[v := d]);
    } else if s.migration.Some? {
      SwitchKeeps(cfg, s, now);
    }
  }

  lemma CrashKeeps(cfg: Config, s: System)
    requires Inv(cfg, s)
    ensures Inv(cfg, s.(run := None))
  {
    hide Validate, GoodReceipt, Bounds;
  }

  lemma MigrateCrashKeeps(cfg: Config, s: System)
    requires Inv(cfg, s)
    ensures Inv(cfg, s.(migration := None))
  {
    hide Validate, GoodReceipt, Bounds;
  }

  lemma StepKeeps(cfg: Config, s: System, a: Action)
    requires Inv(cfg, s)
    ensures Inv(cfg, Do(cfg, s, a))
    ensures Kept(cfg, s.disk.versions, Do(cfg, s, a).disk.versions)
  {
    hide Inv, Kept;
    KeptSame(cfg, s.disk.versions);
    match a
    case Begin(e, txn, launch) => BeginKeeps(cfg, s, e, txn, launch);
    case Sweep(name) => SweepKeeps(cfg, s, name);
    case CachePolicy => CachePolicyKeeps(cfg, s);
    case Open => OpenKeeps(cfg, s);
    case Check => CheckKeeps(cfg, s);
    case Fetch(size, sha) => FetchKeeps(cfg, s, size, sha);
    case Extract(content) => ExtractKeeps(cfg, s, content);
    case Inspect => InspectKeeps(cfg, s);
    case Smoke(status, version, left) => SmokeKeeps(cfg, s, status, version, left);
    case LookUp(swept) => LookUpKeeps(cfg, s, swept);
    case Rename => RenameKeeps(cfg, s);
    case Revalidate => RevalidateKeeps(cfg, s);
    case WriteActive(now) => WriteActiveKeeps(cfg, s, now);
    case MarkPending => MarkPendingKeeps(cfg, s);
    case Health(status, version, left) => HealthKeeps(cfg, s, status, version, left);
    case WriteLkg(now) => WriteLkgKeeps(cfg, s, now);
    case Confirm => ConfirmKeeps(cfg, s);
    case RollBack(now) => RollBackKeeps(cfg, s, now);
    case MarkRolledBack => MarkRolledBackKeeps(cfg, s);
    case Block => BlockKeeps(cfg, s);
    case Raise(late) => RaiseKeeps(cfg, s, late);
    case Crash => CrashKeeps(cfg, s);
    case MigrateBegin(version, exe) => MigrateBeginKeeps(cfg, s, version, exe);
    case MigrateStep(now) => MigrateStepKeeps(cfg, s, now);
    case MigrateCrash => MigrateCrashKeeps(cfg, s);
  }

  lemma {:induction false} ExecKeeps(cfg: Config, s: System, actions: seq<Action>)
    requires Inv(cfg, s)
    ensures Inv(cfg, Exec(cfg, s, actions))
    ensures Kept(cfg, s.disk.versions, Exec(cfg, s, actions).disk.versions)
  {
    hide Inv, Do;
    if actions == [] {
      KeptSame(cfg, s.disk.versions);
    } else {
      var front := actions[..|actions| - 1];
      ExecKeeps(cfg, s, front);
      StepKeeps(cfg, Exec(cfg, s, front), actions[|actions| - 1]);
    }
  }

  /** Nothing reaches the stores but runs of `update`, cut off anywhere. */
  ghost predicate OnlyUpdates(actions: seq<Action>)
  {
    forall i :: 0 <= i < |actions| ==> !actions[i].MigrateBegin? && !actions[i].MigrateStep?
  }

  lemma {:induction false} UnmigratedExec(cfg: Config, actions: seq<Action>)
    requires OnlyUpdates(actions)
    ensures !Exec(cfg, FRESH, actions).history.migrated
  {
    hide Verify, Validate, SameGuarded, Decide, Candidate;
    if actions != [] { UnmigratedExec(cfg, actions[..|actions| - 1]); }
  }

  lemma {:induction false} ExecSplit(cfg: Config, s: System, first: seq<Action>, rest: seq<Action>)
    ensures Exec(cfg, s, first + rest) == Exec(cfg, Exec(cfg, s, first), rest)
  {
    hide Do;
    if rest == [] {
      assert first + rest == first;
    } else {
      var all := first + rest;
      ExecSplit(cfg, s, first, rest[..|rest| - 1]);
      assert all[..|all| - 1] == first + rest[..|rest| - 1];
    }
  }
}
