/** What a package has passed before it is installed, and what is behind an installed version, told from the files
    themselves. */
module LauncherInspections {
  import opened Wrappers
  import opened Manifests
  import opened LauncherStores
  import opened LauncherUpdates
  import opened LauncherSafety
  import opened LauncherGuarantees

  /* ---- Directories ---- */

  /** The three files of a launcher are there, the metadata is complete, and every file that the package manifest lists
      is there with the size and the hash that it gives. */
  ghost predicate Intact(cfg: Config, d: Directory)
  {
    && EXE in d && d[EXE].File? && METADATA in d && d[METADATA].File? && PACKAGE in d && d[PACKAGE].File?
    && var md, items := cfg.readMetadata(d[METADATA].bytes), cfg.readFiles(d[PACKAGE].bytes);
    && md.componentVersion != "" && md.productVersion != "" && md.releaseId != "" && md.buildId != ""
    && md.sourceCommit != "" && md.sourceTree != ""
    && items != []
    && forall item :: item in items ==>
         && item.path in d && d[item.path].File?
         && |d[item.path].bytes| == item.size && cfg.sha256(d[item.path].bytes) == item.sha
  }

  /** A directory validates exactly when it is intact, to what its metadata file says. */
  lemma ValidatesWhen(cfg: Config, d: Directory)
    ensures Validate(cfg, d) == if Intact(cfg, d) then Some(cfg.readMetadata(d[METADATA].bytes)) else None
  {
    if IsFile(d, EXE) && IsFile(d, METADATA) && IsFile(d, PACKAGE) {
      var items := cfg.readFiles(d[PACKAGE].bytes);
      if forall item :: item in items ==> ItemIntact(cfg, d, item) {
        assert forall i :: 0 <= i < |items| ==> items[i] in items;
      } else {
        var item :| item in items && !ItemIntact(cfg, d, item);
        var i :| 0 <= i < |items| && items[i] == item;
      }
    }
  }

  /** Whatever happened before, a pointer leads to an intact directory, and says of it what its metadata file says. */
  lemma PointersLeadToIntact(cfg: Config, actions: seq<Action>, p: Pointer)
    requires Reached(cfg, actions).disk.active == Some(p) || Reached(cfg, actions).disk.lkg == Some(p)
    ensures var versions := Reached(cfg, actions).disk.versions;
      && p.path in versions && Intact(cfg, versions[p.path])
      && var md := cfg.readMetadata(versions[p.path][METADATA].bytes);
      && p.version == md.componentVersion && p.releaseId == md.releaseId && p.buildId == md.buildId
      && p.sourceCommit == md.sourceCommit && p.sourceTree == md.sourceTree
  {
    hide Reached, Exec, ReceiptInv, OrderInv, RunInv, MigrationInv, Validate;
    ReachedInv(cfg, actions);
    ValidatesWhen(cfg, Reached(cfg, actions).disk.versions[p.path]);
  }

  /* ---- Inspecting a package ---- */

  /** The metadata file and the package manifest are the ones that were signed, and the metadata say what the manifest
      says. */
  ghost predicate Attested(cfg: Config, d: Directory, m: Manifest)
  {
    && METADATA in d && d[METADATA].File? && PACKAGE in d && d[PACKAGE].File?
    && cfg.sha256(d[METADATA].bytes) == m.metadataSha && cfg.sha256(d[PACKAGE].bytes) == m.packageManifestSha
    && var md := cfg.readMetadata(d[METADATA].bytes);
    && md.componentVersion == m.launcherVersion && md.productVersion == m.productVersion
    && md.releaseId == m.releaseId && md.buildId == m.buildId
    && md.sourceCommit == m.sourceCommit && md.sourceTree == m.sourceTree
  }

  /** The launcher stands at the top, and no other one below it. */
  ghost predicate OneLauncher(d: Directory)
  {
    EXE in d && forall folder: string :: folder + "/" + EXE !in d
  }

  lemma NestedIsBelow(d: Directory)
    ensures (exists path :: path in d && Nested(path)) <==> exists folder: string :: folder + "/" + EXE in d
  {
    if path :| path in d && Nested(path) {
      var folder := path[..|path| - |EXE| - 1];
      assert path == folder + "/" + EXE;
    }
    if folder: string :| folder + "/" + EXE in d {
      var path := folder + "/" + EXE;
      assert path[|path| - |EXE|..] == EXE && path[|path| - |EXE| - 1] == '/';
      assert Nested(path);
    }
  }

  /** A package gets past the inspection exactly when it holds one launcher, at the top, is intact, and is the signed
      one; the run goes on with its metadata. */
  lemma InspectionPassesWhen(cfg: Config, s: System)
    requires At(s, Inspecting) && s.run.value.txn in s.disk.staging
    ensures var d, m, s' := s.disk.staging[s.run.value.txn], s.run.value.manifest, DoInspect(cfg, s);
      && (At(s', Smoking) <==> OneLauncher(d) && Intact(cfg, d) && Attested(cfg, d, m))
      && (At(s', Smoking) ==>
            s'.run.value.metadata == cfg.readMetadata(d[METADATA].bytes) && s'.disk.staging == s.disk.staging)
      && (!At(s', Smoking) ==> s'.run.None? && s'.last.value.outcome == Some(Failed))
  {
    hide Validate, Nested;
    var d := s.disk.staging[s.run.value.txn];
    ValidatesWhen(cfg, d);
    NestedIsBelow(d);
  }

  /** Until it is installed, the package of a run that got past the inspection stays the signed one. */
  ghost predicate PackageAttested(cfg: Config, s: System)
  {
    s.run.Some? && Staged(s.run.value.phase) ==>
      && s.run.value.txn in s.disk.staging
      && Intact(cfg, s.disk.staging[s.run.value.txn])
      && Attested(cfg, s.disk.staging[s.run.value.txn], s.run.value.manifest)
  }

  lemma SameFilesAttested(cfg: Config, d: Directory, left: Directory, m: Manifest)
    requires Intact(cfg, d) && Attested(cfg, d, m) && SameGuarded(cfg, d, left)
    ensures Intact(cfg, left) && Attested(cfg, left, m)
  {
    hide Validate, SameGuarded;
    ValidatesWhen(cfg, d);
    ValidatesWhen(cfg, left);
    GuardedFilesDecide(cfg, d, left);
    SameFiles(cfg, d, left);
  }

  lemma SameFiles(cfg: Config, d: Directory, left: Directory)
    requires SameGuarded(cfg, d, left) && METADATA in d && PACKAGE in d
    ensures METADATA in left && left[METADATA] == d[METADATA] && PACKAGE in left && left[PACKAGE] == d[PACKAGE]
  {
    assert Guarded(cfg, d, METADATA) && Guarded(cfg, d, PACKAGE);
  }

  /** A run that is past the inspection was so before, with the same package. */
  ghost predicate NoFurther(s: System, s': System)
  {
    s'.run.Some? && Staged(s'.run.value.phase) ==>
      && s.run.Some? && Staged(s.run.value.phase) && s'.run.value.txn == s.run.value.txn
      && s'.run.value.manifest == s.run.value.manifest
      && (s.run.value.txn in s.disk.staging ==>
            s.run.value.txn in s'.disk.staging
            && s'.disk.staging[s.run.value.txn] == s.disk.staging[s.run.value.txn])
  }

  predicate IsEarly(a: Action)
  {
    a.Begin? || a.Sweep? || a.CachePolicy? || a.Open? || a.Check? || a.Fetch? || a.Extract? || a.LookUp? || a.Rename?
    || a.Revalidate?
  }

  lemma EarlyActions(cfg: Config, s: System, a: Action)
    requires IsEarly(a)
    ensures NoFurther(s, Do(cfg, s, a))
  {
    hide Validate, ValidPointer, Decide, SameGuarded, DoSmoke, DoHealth, DoInspect;
  }

  lemma LaterActions(cfg: Config, s: System, a: Action)
    requires !IsEarly(a) && !a.Inspect? && !a.Smoke?
    ensures NoFurther(s, Do(cfg, s, a))
  {
    hide Validate, ValidPointer, Decide, SameGuarded, TargetPointer, Passed, Candidate, DoSmoke, DoInspect;
  }

  lemma AttestedStep(cfg: Config, s: System, a: Action)
    requires PackageAttested(cfg, s)
    ensures PackageAttested(cfg, Do(cfg, s, a))
  {
    hide Intact, Attested, DoInspect, Validate, SameGuarded, OneLauncher;
    if a.Inspect? {
      if At(s, Inspecting) && s.run.value.txn in s.disk.staging { InspectionPassesWhen(cfg, s); }
      InspectedKeeps(cfg, s);
    } else if a.Smoke? {
      if At(s, Smoking) && s.run.value.txn in s.disk.staging
         && SameGuarded(cfg, s.disk.staging[s.run.value.txn], a.left)
      {
        SameFilesAttested(cfg, s.disk.staging[s.run.value.txn], a.left, s.run.value.manifest);
      }
    } else {
      hide Do;
      if IsEarly(a) { EarlyActions(cfg, s, a); } else { LaterActions(cfg, s, a); }
    }
  }

  lemma InspectedKeeps(cfg: Config, s: System)
    ensures var s' := DoInspect(cfg, s);
      && (!(At(s, Inspecting) && s.run.Some? && s.run.value.txn in s.disk.staging) ==> s' == s)
      && (s'.run.Some? && s.run.Some? ==>
            s'.run.value.txn == s.run.value.txn && s'.run.value.manifest == s.run.value.manifest)
      && (s'.run.Some? ==> s.run.Some?)
  {
    hide Candidate;
  }

  /** In every reachable state, the package of a run that is past the inspection and not yet installed has the hashes
      that were signed, and its metadata are those of the manifest. */
  lemma {:induction false} PackageIsAttested(cfg: Config, actions: seq<Action>)
    ensures PackageAttested(cfg, Reached(cfg, actions))
  {
    hide Do, PackageAttested;
    if actions == [] {
      assert PackageAttested(cfg, FRESH) by { NoRun(cfg); }
    } else {
      var n := |actions| - 1;
      PackageIsAttested(cfg, actions[..n]);
      AttestedStep(cfg, Reached(cfg, actions[..n]), actions[n]);
    }
  }

  lemma NoRun(cfg: Config)
    ensures PackageAttested(cfg, FRESH)
  {
  }

  /* ---- The version checks ---- */

  /** Versions are ordered by their parts, the first one first; of two different ones, one is below the other. */
  lemma VersionsAreOrdered(a: Version, b: Version, c: Version)
    ensures !a.Below(a) && (a.Below(b) && b.Below(c) ==> a.Below(c)) && (a == b || a.Below(b) || b.Below(a))
    ensures a.major < b.major ==> a.Below(b)
    ensures a.major == b.major && a.minor < b.minor ==> a.Below(b)
    ensures a.major == b.major && a.minor == b.minor && a.patch < b.patch ==> a.Below(b)
  {
  }

  /** The active launcher, if there is one with a version, may be replaced by the target. */
  ghost predicate Replaceable(cfg: Config, active: Option<Pointer>, m: Manifest, target: Version, minimum: Version)
  {
    active.Some? && active.value.version != "" ==>
      var parsed := cfg.parseVersion(active.value.version);
      && parsed.Some? && parsed.value.Below(target) && (parsed.value.Below(minimum) ==> m.mandatory)
  }

  /** A run goes on exactly when both versions of the manifest parse, it does not revoke its own target, and the active
      launcher is below the target and not below the minimum, unless the update is mandatory; it ends as current exactly
      when the active launcher is the target under the same manifest. */
  lemma ChecksPassWhen(cfg: Config, disk: Disk, m: Manifest)
    ensures var active := ValidPointer(cfg, disk.versions, disk.active);
            var target, minimum := cfg.parseVersion(m.launcherVersion), cfg.parseVersion(m.minimumVersion);
      && (Decide(cfg, disk, m, active) == Proceed <==>
            && target.Some? && minimum.Some? && m.launcherVersion !in m.revoked
            && Replaceable(cfg, active, m, target.value, minimum.value))
      && (Decide(cfg, disk, m, active) == AlreadyCurrent <==>
            && target.Some? && minimum.Some? && m.launcherVersion !in m.revoked
            && active.Some? && active.value.version != "" && cfg.parseVersion(active.value.version) == target
            && active.value.manifestDigest == cfg.digest(m))
  {
    hide PointerValid;
    var target := cfg.parseVersion(m.launcherVersion);
    if target.Some? { VersionsAreOrdered(target.value, target.value, target.value); }
    var active := ValidPointer(cfg, disk.versions, disk.active);
    if target.Some? && active.Some? && cfg.parseVersion(active.value.version).Some? {
      var found := cfg.parseVersion(active.value.version).value;
      VersionsAreOrdered(found, target.value, found);
    }
  }
}
