/** What the launcher keeps on disk, and when a directory or a pointer is trusted
    (`LauncherStore` in bootstrap/core.py). */
module LauncherStores {
  import opened Wrappers
  import opened Manifests

  datatype Version = Version(major: nat, minor: nat, patch: nat)
  {
    predicate Below(other: Version)
    {
      || major < other.major
      || (major == other.major && minor < other.minor)
      || (major == other.major && minor == other.minor && patch < other.patch)
    }
  }

  /** A file, or a symbolic link where a file is expected. */
  datatype Entry = File(bytes: string) | Link

  /** The contents of a version directory, by relative path. */
  type Directory = map<string, Entry>

  datatype Metadata = Metadata(
    componentVersion: string,
    productVersion: string,
    releaseId: string,
    buildId: string,
    sourceCommit: string,
    sourceTree: string,
    otherFields: string)

  datatype Item = Item(path: string, size: int, sha: string)

  /** What the store is built on: the manifest checks under the client's keys, SHA-256, version syntax
      and the JSON readers. An unreadable file reads as empty metadata or an empty list. */
  datatype Config = Config(
    verify: Envelope -> Result<Manifest, Failure>,
    digest: Manifest -> string,
    sha256: string -> string,
    parseVersion: string -> Option<Version>,
    readMetadata: string -> Metadata,
    readFiles: string -> seq<Item>)

  const EXE := "EOAT Atlas Launcher.exe"
  const METADATA := "launcher_release_metadata.json"
  const PACKAGE := "launcher_package_manifest.json"
  const SMOKE := "launcher_smoke_receipt.json"

  predicate IsFile(d: Directory, path: string)
  {
    path in d && d[path].File?
  }

  predicate CompleteMetadata(m: Metadata)
  {
    m.componentVersion != "" && m.productVersion != "" && m.releaseId != "" && m.buildId != ""
    && m.sourceCommit != "" && m.sourceTree != ""
  }

  predicate ItemIntact(cfg: Config, d: Directory, item: Item)
  {
    IsFile(d, item.path) && item.size == |d[item.path].bytes| && item.sha == cfg.sha256(d[item.path].bytes)
  }

  /** `validate_installed` on the contents of a directory that exists. */
  function Validate(cfg: Config, d: Directory): (r: Option<Metadata>)
  {
    if !IsFile(d, EXE) || !IsFile(d, METADATA) || !IsFile(d, PACKAGE) then None
    else
      var metadata := cfg.readMetadata(d[METADATA].bytes);
      var files := cfg.readFiles(d[PACKAGE].bytes);
      if !CompleteMetadata(metadata) || files == [] then None
      else if exists i :: 0 <= i < |files| && !ItemIntact(cfg, d, files[i]) then None
      else Some(metadata)
  }

  /** The files that validation reads. */
  ghost predicate Guarded(cfg: Config, d: Directory, path: string)
  {
    || path == EXE || path == METADATA || path == PACKAGE
    || (IsFile(d, PACKAGE)
          && exists i :: 0 <= i < |cfg.readFiles(d[PACKAGE].bytes)| && cfg.readFiles(d[PACKAGE].bytes)[i].path == path)
  }

  /** Every guarded file of `d` is in `d'` with the same bytes. */
  ghost predicate SameGuarded(cfg: Config, d: Directory, d': Directory)
  {
    forall path :: Guarded(cfg, d, path) && path in d ==> path in d' && d'[path] == d[path]
  }

  lemma GuardedFilesDecide(cfg: Config, d: Directory, d': Directory)
    requires Validate(cfg, d).Some? && SameGuarded(cfg, d, d')
    ensures Validate(cfg, d') == Validate(cfg, d)
    ensures forall path :: Guarded(cfg, d, path) <==> Guarded(cfg, d', path)
  {
    assert Guarded(cfg, d, EXE) && Guarded(cfg, d, METADATA) && Guarded(cfg, d, PACKAGE);
    var files := cfg.readFiles(d[PACKAGE].bytes);
    forall i | 0 <= i < |files| ensures ItemIntact(cfg, d', files[i]) {
      assert ItemIntact(cfg, d, files[i]);
      assert Guarded(cfg, d, files[i].path);
    }
  }

  datatype Pointer = Pointer(
    version: string,
    releaseId: string,
    buildId: string,
    sourceCommit: string,
    sourceTree: string,
    path: string,
    manifestDigest: string,
    activatedAt: string)

  /** What `write_pointer` stores. */
  function PointerTo(m: Metadata, path: string, digest: string, now: string): Pointer
  {
    Pointer(m.componentVersion, m.releaseId, m.buildId, m.sourceCommit, m.sourceTree, path, digest, now)
  }

  predicate Agrees(pointerField: string, metadataField: string)
  {
    pointerField == "" || pointerField == metadataField
  }

  /** `valid_pointer`: its directory is installed and validates, and agrees with what it records. */
  predicate PointerValid(cfg: Config, versions: map<string, Directory>, p: Pointer)
  {
    p.path in versions && Validate(cfg, versions[p.path]).Some? &&
    var m := Validate(cfg, versions[p.path]).value;
    && Agrees(p.version, m.componentVersion) && Agrees(p.releaseId, m.releaseId) && Agrees(p.buildId, m.buildId)
    && Agrees(p.sourceCommit, m.sourceCommit) && Agrees(p.sourceTree, m.sourceTree)
  }

  function ValidPointer(cfg: Config, versions: map<string, Directory>, slot: Option<Pointer>): Option<Pointer>
  {
    if slot.Some? && PointerValid(cfg, versions, slot.value) then slot else None
  }

  datatype Stage =
    | CHECKING | DOWNLOADING | PACKAGE_VERIFIED | CANDIDATE_SMOKE_TESTING | CANDIDATE_READY | ACTIVATING
    | ACTIVE_PENDING_HEALTH | ACTIVE_CONFIRMED | ROLLED_BACK | FAILED_RECOVERABLE | BLOCKED_REQUIRED_UPDATE

  datatype Receipt = Receipt(
    oldVersion: string,
    targetVersion: string,
    manifestDigest: string,
    state: Stage,
    transitions: seq<Stage>)

  /** Everything the launcher persists. */
  datatype Disk = Disk(
    versions: map<string, Directory>,
    staging: map<string, Directory>,
    active: Option<Pointer>,
    lkg: Option<Pointer>,
    policy: Option<Envelope>,
    receipts: map<string, Receipt>)

  const EMPTY_DISK := Disk(map[], map[], None, None, None, map[])
}
