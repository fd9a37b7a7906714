/** The promises of the launcher update, for every history of runs from an empty store. */
module LauncherGuarantees {
  import opened Wrappers
  import opened Manifests
  import opened LauncherStores
  import opened LauncherUpdates
  import opened LauncherSafety

  /** The state after a history of actions, from an empty store. */
  ghost function Reached(cfg: Config, actions: seq<Action>): System
  {
    Exec(cfg, FRESH, actions)
  }

  lemma ReachedInv(cfg: Config, actions: seq<Action>)
    ensures Inv(cfg, Reached(cfg, actions))
    ensures OnlyUpdates(actions) ==> !Reached(cfg, actions).history.migrated
  {
    ExecKeeps(cfg, FRESH, actions);
    if OnlyUpdates(actions) { UnmigratedExec(cfg, actions); }
  }

  /** Whatever runs and migrations were cut off where, every pointer on disk passes `valid_pointer`. */
  lemma PointersStayValid(cfg: Config, actions: seq<Action>)
    ensures var disk := Reached(cfg, actions).disk;
      && ValidPointer(cfg, disk.versions, disk.active) == disk.active
      && ValidPointer(cfg, disk.versions, disk.lkg) == disk.lkg
  {
    ReachedInv(cfg, actions);
  }

  /** A version directory that validates once validates for ever after, with the bytes of every file
      that validation reads unchanged, whatever else happens. */
  lemma InstalledFilesNeverChange(cfg: Config, actions: seq<Action>, more: seq<Action>, version: string)
    requires version in Reached(cfg, actions).disk.versions
    requires Validate(cfg, Reached(cfg, actions).disk.versions[version]).Some?
    ensures var before := Reached(cfg, actions).disk.versions;
            var after := Reached(cfg, actions + more).disk.versions;
      && version in after
      && SameGuarded(cfg, before[version], after[version])
      && Validate(cfg, after[version]) == Validate(cfg, before[version])
  {
    hide Inv;
    ReachedInv(cfg, actions);
    ExecSplit(cfg, FRESH, actions, more);
    ExecKeeps(cfg, Reached(cfg, actions), more);
    KeptValidates(cfg, Reached(cfg, actions).disk.versions, Reached(cfg, actions + more).disk.versions, version);
  }

  /** Without migrations, the last known good version passed its smoke test and its health check (or was
      spared one), and is not above the active version. */
  lemma LastKnownGoodIsTested(cfg: Config, actions: seq<Action>)
    requires OnlyUpdates(actions)
    ensures var s := Reached(cfg, actions);
      s.disk.lkg.Some? ==>
        && Tested(s.history, s.disk.lkg.value.version)
        && s.disk.active.Some? && NotAbove(cfg, s.disk.lkg.value.version, s.disk.active.value.version)
  {
    ReachedInv(cfg, actions);
  }

  /** Both versions parse and the first is strictly above the second. */
  ghost predicate Newer(cfg: Config, high: string, low: string)
  {
    && cfg.parseVersion(low).Some? && cfg.parseVersion(high).Some?
    && cfg.parseVersion(low).value.Below(cfg.parseVersion(high).value)
  }

  /** The active pointer that a run found has the version that the manifest calls for, and its digest. */
  ghost predicate FoundCurrent(cfg: Config, last: Attempt)
  {
    && last.oldActive.Some?
    && cfg.parseVersion(last.oldActive.value.version) == cfg.parseVersion(last.manifest.launcherVersion)
    && last.oldActive.value.manifestDigest == cfg.digest(last.manifest)
  }

  /** How a run ended says what it did to the pointers. */
  lemma OutcomeTellsPointers(cfg: Config, actions: seq<Action>)
    requires OnlyUpdates(actions)
    requires Reached(cfg, actions).last.Some?
    ensures var s := Reached(cfg, actions);
            var last := s.last.value;
      && (last.outcome == Some(Current) ==>
            FoundCurrent(cfg, last) && s.disk.active == last.oldActive && s.disk.lkg == last.oldLkg)
      && (last.outcome == Some(Confirmed) ==>
            && Names(cfg, s.disk.active, last.manifest) && Names(cfg, s.disk.lkg, last.manifest)
            && (last.oldActive.Some? ==> Newer(cfg, last.manifest.launcherVersion, last.oldActive.value.version)))
      && (last.outcome == Some(RolledBack) ==>
            SameButTime(s.disk.active, last.oldActive) && s.disk.lkg == last.oldLkg)
      && (last.outcome == Some(Blocked) ==>
            last.oldActive.None? && Names(cfg, s.disk.active, last.manifest) && s.disk.lkg == last.oldLkg)
      && (!last.switched ==> s.disk.active == last.oldActive && s.disk.lkg == last.oldLkg)
  {
    hide Reached, Exec, StoreInv, GoodReceipt, Shows, Names, SameButTime, PhaseInv, Bounds, OnlyUpdates;
    ReachedInv(cfg, actions);
  }

  /** A run that ends without failing ends as current exactly when the active pointer that it found, which always
      passes `valid_pointer`, has the target's version and the manifest's digest. What was ever run or checked
      has no part in it. */
  lemma EndsAsCurrentWhen(cfg: Config, actions: seq<Action>)
    requires OnlyUpdates(actions)
    requires Reached(cfg, actions).last.Some?
    requires var outcome := Reached(cfg, actions).last.value.outcome; outcome.Some? && outcome != Some(Failed)
    ensures var s := Reached(cfg, actions);
            var last := s.last.value;
      && (last.outcome == Some(Current) <==> FoundCurrent(cfg, last))
      && (last.outcome == Some(Current) ==>
            s.disk.active == last.oldActive && PointerValid(cfg, s.disk.versions, last.oldActive.value))
  {
    hide Reached, Exec, GoodReceipt, Shows, Names, SameButTime, PhaseInv, Bounds, OnlyUpdates, RunInv, MigrationInv,
         Validate;
    ReachedInv(cfg, actions);
  }

  /** A run that ends as current stands for a version that was tested when the last known good pointer names that
      version. */
  lemma CurrentAndTrusted(cfg: Config, actions: seq<Action>)
    requires OnlyUpdates(actions)
    requires Reached(cfg, actions).last.Some? && Reached(cfg, actions).last.value.outcome == Some(Current)
    ensures var s := Reached(cfg, actions);
      && s.disk.active.Some?
      && (s.disk.lkg.Some? && s.disk.lkg.value.version == s.disk.active.value.version ==>
            Tested(s.history, s.disk.active.value.version))
  {
    hide Reached, Exec, OnlyUpdates;
    OutcomeTellsPointers(cfg, actions);
    LastKnownGoodIsTested(cfg, actions);
  }

  /** Every receipt on disk shows a prefix of the one chain and at most one ending. */
  lemma ReceiptsFollowTheChain(cfg: Config, actions: seq<Action>, txn: string)
    requires txn in Reached(cfg, actions).disk.receipts
    ensures GoodReceipt(Reached(cfg, actions).disk.receipts[txn])
  {
    ReachedInv(cfg, actions);
  }

  /** The last entry of the latest receipt bounds where the pointers are, even after a crash. */
  lemma ReceiptBoundsPointers(cfg: Config, actions: seq<Action>)
    requires OnlyUpdates(actions)
    requires Reached(cfg, actions).last.Some? && Reached(cfg, actions).last.value.recorded
    ensures var s := Reached(cfg, actions);
            var last := s.last.value;
      && last.txn in s.disk.receipts
      && var ts := s.disk.receipts[last.txn].transitions;
      && ts != [] && Bounds(cfg, s.disk.active, s.disk.lkg, last.oldActive, last.oldLkg, last.manifest, LastOf(ts))
  {
    ReachedInv(cfg, actions);
  }

  /** What `_active_transaction` counts as done. */
  predicate CountsAsDone(state: Stage)
  {
    state.ACTIVE_CONFIRMED? || state.ROLLED_BACK? || state.FAILED_RECOVERABLE? || state.BLOCKED_REQUIRED_UPDATE?
  }

  /** A run that finished leaves a receipt that counts as done, unless it ended as current: then its receipt stays at
      CHECKING and `status` reports it as pending. That is so exactly when it did not fail and found the target
      active under the same manifest. */
  lemma FinishedRunsAreDone(cfg: Config, actions: seq<Action>)
    requires OnlyUpdates(actions)
    requires Reached(cfg, actions).last.Some? && Reached(cfg, actions).last.value.outcome.Some?
    ensures var s := Reached(cfg, actions);
            var last := s.last.value;
      && last.txn in s.disk.receipts
      && (CountsAsDone(s.disk.receipts[last.txn].state) <==> last.outcome == Some(Failed) || !FoundCurrent(cfg, last))
      && (!CountsAsDone(s.disk.receipts[last.txn].state) ==> s.disk.receipts[last.txn].state == CHECKING)
  {
    hide Reached, Exec, GoodReceipt, Shows, StoreInv, OrderInv, OnlyUpdates, FoundCurrent;
    ReachedInv(cfg, actions);
    if Reached(cfg, actions).last.value.outcome != Some(Failed) { EndsAsCurrentWhen(cfg, actions); }
  }

  /** A version can be taken for current without ever passing a health check: if a run dies between
      writing the active pointer and the check, a second run of the same manifest ends as current and
      adds nothing to what has been tested. */
  lemma InterruptedActivationIsTakenForCurrent(cfg: Config, actions: seq<Action>, txn: string, launch: bool)
    requires OnlyUpdates(actions)
    requires var s := Reached(cfg, actions);
      && s.run.Some? && (s.run.value.phase.Pending? || s.run.value.phase.TakingHealth?)
      && txn !in s.disk.receipts && txn !in s.disk.staging
    ensures var s := Reached(cfg, actions);
            var s' := Exec(cfg, s, [Crash, Begin(s.run.value.envelope, txn, launch), CachePolicy, Open, Check]);
      && s'.last.Some? && s'.last.value.outcome == Some(Current)
      && s'.history == s.history
      && s'.disk.active == s.disk.active && s'.disk.lkg == s.disk.lkg
  {
    var s := Reached(cfg, actions);
    var e := s.run.value.envelope;
    ActivatedFacts(cfg, actions);
    RerunSteps(cfg, s, e, txn, launch);
    hide Inv, Exec, Do, Validate, DoBegin, DoCachePolicy, DoOpen, DoCheck, PointerValid;
    RerunIsCurrent(cfg, s.(run := None), e, s.run.value.manifest, txn, launch);
  }

  lemma RerunSteps(cfg: Config, s: System, e: Envelope, txn: string, launch: bool)
    ensures Exec(cfg, s, [Crash, Begin(e, txn, launch), CachePolicy, Open, Check]) ==
            DoCheck(cfg, DoOpen(cfg, DoCachePolicy(DoBegin(cfg, s.(run := None), e, txn, launch))))
  {
    hide DoBegin, DoCachePolicy, DoOpen, DoCheck;
    Exec5(cfg, s, Crash, Begin(e, txn, launch), CachePolicy, Open, Check);
    assert Do(cfg, s, Crash) == s.(run := None);
  }

  lemma SoundIsValid(cfg: Config, versions: map<string, Directory>, p: Pointer)
    requires Sound(cfg, versions, p)
    ensures PointerValid(cfg, versions, p) && p.version != ""
  {
  }

  lemma ActivatedFacts(cfg: Config, actions: seq<Action>)
    requires OnlyUpdates(actions)
    requires Reached(cfg, actions).run.Some?
    requires Reached(cfg, actions).run.value.phase.Pending? || Reached(cfg, actions).run.value.phase.TakingHealth?
    ensures var s := Reached(cfg, actions);
            var m := s.run.value.manifest;
      && cfg.verify(s.run.value.envelope) == Ok(m)
      && s.disk.active.Some? && PointerValid(cfg, s.disk.versions, s.disk.active.value)
      && Names(cfg, s.disk.active, m) && m.launcherVersion !in m.revoked && m.launcherVersion != ""
      && cfg.parseVersion(m.launcherVersion).Some? && cfg.parseVersion(m.minimumVersion).Some?
  {
    hide Reached, Exec, GoodReceipt, Shows, Bounds, SameButTime, OnlyUpdates, RunInv, MigrationInv, Validate;
    ReachedInv(cfg, actions);
    var disk := Reached(cfg, actions).disk;
    SoundIsValid(cfg, disk.versions, disk.active.value);
  }

  /** A run that nothing cuts off, on a manifest that parses and revokes nothing of its own, ends as current when the
      active pointer is valid, has the target's version and the manifest's digest; then it changes no pointer and
      tests nothing. */
  lemma RerunIsCurrent(cfg: Config, s: System, e: Envelope, m: Manifest, txn: string, launch: bool)
    requires s.run.None? && cfg.verify(e) == Ok(m) && txn !in s.disk.receipts && txn !in s.disk.staging
    requires s.disk.active.Some? && PointerValid(cfg, s.disk.versions, s.disk.active.value)
    requires s.disk.active.value.version != "" && s.disk.active.value.manifestDigest == cfg.digest(m)
    requires cfg.parseVersion(s.disk.active.value.version) == cfg.parseVersion(m.launcherVersion)
    requires m.launcherVersion !in m.revoked
    requires cfg.parseVersion(m.launcherVersion).Some? && cfg.parseVersion(m.minimumVersion).Some?
    ensures var s' := DoCheck(cfg, DoOpen(cfg, DoCachePolicy(DoBegin(cfg, s, e, txn, launch))));
      && s'.last.Some? && s'.last.value.outcome == Some(Current)
      && s'.history == s.history && s'.disk.active == s.disk.active && s'.disk.lkg == s.disk.lkg
  {
    hide PointerValid;
    var ready := DoOpen(cfg, DoCachePolicy(DoBegin(cfg, s, e, txn, launch)));
    assert ready.run.value.previous == s.disk.active;
    var target := cfg.parseVersion(m.launcherVersion).value;
    assert !target.Below(target);
    assert Decide(cfg, ready.disk, m, s.disk.active) == AlreadyCurrent;
  }

  lemma Exec5(cfg: Config, s: System, a: Action, b: Action, c: Action, d: Action, e: Action)
    ensures Exec(cfg, s, [a, b, c, d, e]) == Do(cfg, Do(cfg, Do(cfg, Do(cfg, Do(cfg, s, a), b), c), d), e)
  {
    hide Do;
    assert [a, b, c, d, e][..4] == [a, b, c, d] && [a, b, c, d][..3] == [a, b, c];
    assert [a, b, c][..2] == [a, b] && [a, b][..1] == [a] && [a][..0] == [];
    assert Exec(cfg, s, [a]) == Do(cfg, Exec(cfg, s, []), a);
    assert Exec(cfg, s, [a, b]) == Do(cfg, Exec(cfg, s, [a]), b);
    assert Exec(cfg, s, [a, b, c]) == Do(cfg, Exec(cfg, s, [a, b]), c);
    assert Exec(cfg, s, [a, b, c, d]) == Do(cfg, Exec(cfg, s, [a, b, c]), d);
  }

  /* ---- Offline launch ---- */

  /** The launcher that is there to fall back to: the active one, or else the last known good one. */
  function Fallen(disk: Disk): Option<Pointer>
  {
    if disk.active.Some? then disk.active else disk.lkg
  }

  /** After any history, migrations included: once a policy is cached it always verifies, so offline launch never asks
      for policy repair. It returns the launcher that is there, which is installed and valid, exactly when the policy
      does not revoke it, both versions parse and it is not below the minimum; an error escapes exactly when it is not
      revoked and one of the two does not parse. */
  lemma OfflineLaunchFollowsPolicy(cfg: Config, actions: seq<Action>)
    requires Reached(cfg, actions).disk.policy.Some?
    ensures var disk := Reached(cfg, actions).disk;
            var result, slot := OfflineLaunch(cfg, disk), Fallen(disk);
      && cfg.verify(disk.policy.value).Ok?
      && !result.NoPolicy?
      && (result.NoLauncher? <==> slot.None?)
      && (slot.Some? ==>
            var version := slot.value.version;
            var policy := cfg.verify(disk.policy.value).value;
            var parsed, minimum := cfg.parseVersion(version), cfg.parseVersion(policy.minimumVersion);
            && PointerValid(cfg, disk.versions, slot.value)
            && (result == Fallback(version) <==>
                  version !in policy.revoked && parsed.Some? && minimum.Some? && !parsed.value.Below(minimum.value))
            && (result == RaisesValueError <==> version !in policy.revoked && (parsed.None? || minimum.None?)))
  {
    hide Reached, Exec, GoodReceipt, Shows, Bounds, SameButTime, RunInv, MigrationInv, PhaseInv, AttemptInv, OrderInv,
         Validate;
    ReachedInv(cfg, actions);
  }

  /** Without migrations the active pointer is the one that counts, and its version parses: the error comes from the
      minimum of the policy. */
  lemma UpdatesParse(cfg: Config, actions: seq<Action>)
    requires OnlyUpdates(actions)
    ensures var disk := Reached(cfg, actions).disk;
      && Fallen(disk) == disk.active
      && (disk.active.Some? ==> cfg.parseVersion(disk.active.value.version).Some?)
  {
    hide Reached, Exec, StoreInv, ReceiptInv, PhaseInv, AttemptInv;
    ReachedInv(cfg, actions);
  }

  /** After a confirmed run, offline launch returns the target exactly when the target is not below its own
      manifest's minimum, which `update` never checks; otherwise it demands another update. */
  lemma ConfirmedThenOffline(cfg: Config, actions: seq<Action>)
    requires OnlyUpdates(actions)
    requires Reached(cfg, actions).last.Some? && Reached(cfg, actions).last.value.outcome == Some(Confirmed)
    ensures var s := Reached(cfg, actions);
            var m := s.last.value.manifest;
            var result := OfflineLaunch(cfg, s.disk);
      && (result == Fallback(m.launcherVersion) || result == UpdateRequired(m.launcherVersion))
      && (result == Fallback(m.launcherVersion) <==> NotAbove(cfg, m.minimumVersion, m.launcherVersion))
  {
    hide Reached, Exec, GoodReceipt, Shows, PhaseInv, Bounds, SameButTime, OnlyUpdates, RunInv, MigrationInv, Validate;
    ReachedInv(cfg, actions);
  }
}
