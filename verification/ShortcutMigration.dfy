/** Moving a user's shortcut from the launcher itself to the bootstrap (bootstrap/migration.py): the second
    actor that writes the pointers of the store. */
module ShortcutMigration {
  import opened Wrappers
  import opened LauncherStores
  import opened LauncherUpdates
  import opened LauncherService

  /** The shortcut record, by the file it starts. */
  datatype Shortcut = Shortcut(target: string)

  /** What is found on the machine: the bootstrap, and the launcher the shortcut leads to, if it is a file with
      the launcher's name, by its hash. */
  datatype Machine = Machine(bootstrap: string, bootstrapIsFile: bool, launcher: Option<string>)

  datatype Status = Migrated | Current | Blocked | FailedRecoverable

  class Migrator {
    const store: LauncherStore
    var shortcut: Shortcut
    var backup: Option<Shortcut>
    var migratedTo: Option<string>

    constructor (store: LauncherStore, shortcut: Shortcut)
      ensures this.store == store && this.shortcut == shortcut && backup == None && migratedTo == None
    {
      this.store, this.shortcut, this.backup, this.migratedTo := store, shortcut, None, None;
    }

    /** Neither the pointers nor the shortcut changed. */
    twostate predicate LeftAlone()
      reads this, store
    {
      && store.active == old(store.active) && store.lkg == old(store.lkg)
      && shortcut == old(shortcut) && backup == old(backup) && migratedTo == old(migratedTo)
    }

    /** `migrate_shortcut`. Both pointers end on the version, or neither pointer changed; the shortcut leads to
        the bootstrap only once they did, and the first shortcut ever replaced is kept. */
    method MigrateShortcut(machine: Machine, version: string, firstNow: string, secondNow: string)
      returns (status: Status)
      requires store.Valid()
      modifies this, store
      ensures store.Valid() && Later(old(store.actions), store.actions)
      ensures store.staging == old(store.staging) && store.policy == old(store.policy)
      ensures store.receipts == old(store.receipts)
      ensures status == Migrated <==>
        && machine.bootstrapIsFile && old(shortcut).target != machine.bootstrap && machine.launcher.Some?
        && version in old(store.versions) && Validate(store.cfg, old(store.versions)[version]).Some?
      ensures status == Migrated ==>
        var metadata := Validate(store.cfg, old(store.versions)[version]).value;
        && store.versions == old(store.versions)
        && store.active == Some(PointerTo(metadata, version, "legacy-migration", firstNow))
        && store.lkg == Some(PointerTo(metadata, version, "legacy-migration", secondNow))
        && shortcut.target == machine.bootstrap && migratedTo == Some(version)
        && backup == if old(backup).Some? then old(backup) else Some(old(shortcut))
      ensures status != Migrated ==> LeftAlone()
      ensures status == Status.Current <==> machine.bootstrapIsFile && old(shortcut).target == machine.bootstrap
      ensures store.versions == old(store.versions) ||
        (status == Status.Blocked && version !in old(store.versions) && machine.launcher.Some?
          && store.versions == old(store.versions)[version := map[EXE := File(machine.launcher.value)]])
    {
      hide LauncherStore.Traced, Validate, PointerTo, Do;
      LaterTransitive();
      if !machine.bootstrapIsFile {
        return Status.Blocked;
      }
      if shortcut.target == machine.bootstrap {
        return Status.Current;
      }
      if machine.launcher.None? {
        return Status.Blocked;
      }
      if version !in store.versions {
        CopyLauncher(version, machine.launcher.value);
        return Status.Blocked;
      }
      var checked := Validate(store.cfg, store.versions[version]);
      if checked.None? {
        return Status.FailedRecoverable;
      }
      SwitchPointers(version, machine.launcher.value, checked.value, firstNow, secondNow);
      if backup.None? {
        backup := Some(shortcut);
      }
      shortcut := Shortcut(machine.bootstrap);
      migratedTo := Some(version);
      status := Migrated;
    }

    /** A launcher that was never installed is copied to a version of its own, without the metadata that would
        make it valid. */
    method CopyLauncher(version: string, exe: string)
      requires store.Valid() && version !in store.versions
      modifies store
      ensures store.Valid() && Later(old(store.actions), store.actions)
      ensures store.OnDisk() == old(store.OnDisk()).(versions := old(store.versions)[version := map[EXE := File(exe)]])
    {
      hide LauncherStore.Traced, LauncherStore.Unmigrated, Validate;
      LaterTransitive();
      store.Note(MigrateCrash);
      store.Write(store.OnDisk().(versions := store.versions[version := map[]]), MigrateBegin(version, exe));
      store.Write(store.OnDisk().(versions := store.versions[version := map[EXE := File(exe)]]), MigrateStep(""));
    }

    /** Both pointers are written, one after the other. */
    method SwitchPointers(version: string, exe: string, metadata: Metadata, firstNow: string, secondNow: string)
      requires store.Valid() && version in store.versions
      requires Validate(store.cfg, store.versions[version]) == Some(metadata)
      modifies store
      ensures store.Valid() && Later(old(store.actions), store.actions)
      ensures store.OnDisk() == old(store.OnDisk()).(
        active := Some(PointerTo(metadata, version, "legacy-migration", firstNow)),
        lkg := Some(PointerTo(metadata, version, "legacy-migration", secondNow)))
    {
      hide LauncherStore.Traced, LauncherStore.Unmigrated, Validate, PointerTo;
      LaterTransitive();
      store.Note(MigrateCrash);
      store.Note(MigrateBegin(version, exe));
      var first := PointerTo(metadata, version, "legacy-migration", firstNow);
      store.Write(store.OnDisk().(active := Some(first)), MigrateStep(firstNow));
      var second := PointerTo(metadata, version, "legacy-migration", secondNow);
      store.Write(store.OnDisk().(lkg := Some(second)), MigrateStep(secondNow));
    }
  }
}
