/** Three histories of the launcher update, action by action: what it does not promise does happen. */
module LauncherExamples {
  import opened Wrappers
  import opened Manifests
  import opened LauncherStores
  import opened LauncherUpdates
  import opened LauncherSafety
  import opened LauncherGuarantees

  function Txn(): string { "first" }
  function Again(): string { "second" }
  function Hash(): string { "hash of the package" }

  /** Different contents have different hashes. */
  function ShaOf(bytes: string): string { "hash of " + bytes }
  function Now(): string { "now" }

  /** Version 1, whose own manifest asks for version 2 at least. */
  function Target(): Manifest
  {
    Manifest("product", "1", "2", "package", 0, Hash(), ShaOf("metadata"), ShaOf("files"), ShaOf("smoke"), "commit",
             "tree", "release", "build", "test", true, [], SCHEMA_VERSION, "")
  }

  /** A later manifest of the same version, with a minimum that is no version. */
  function Unreadable(): Manifest
  {
    Target().(minimumVersion := "soon")
  }

  function TargetMetadata(): Metadata
  {
    Metadata("1", "product", "release", "build", "commit", "tree", "")
  }

  function Content(): Directory
  {
    map[EXE := File("launcher"), METADATA := File("metadata"), PACKAGE := File("files"), SMOKE := File("smoke")]
  }

  function Signed(): Envelope
  {
    Envelope(JInt(1), None, Absent, None)
  }

  function Later(): Envelope
  {
    Envelope(JInt(2), None, Absent, None)
  }

  function Verified(e: Envelope): Result<Manifest, Failure>
  {
    Ok(if e == Later() then Unreadable() else Target())
  }

  function ParseVersion(v: string): Option<Version>
  {
    if v == "1" then Some(Version(1, 0, 0)) else if v == "2" then Some(Version(2, 0, 0)) else None
  }

  /** A client to whom every envelope is one of the two signed manifests, and every file has its own hash. */
  function Sample(): Config
  {
    Config(Verified, _ => "digest", ShaOf, ParseVersion,
           bytes => if bytes == "metadata" then TargetMetadata() else NO_METADATA,
           bytes => if bytes == "files" then [Item(EXE, 8, ShaOf("launcher"))] else [])
  }

  /** A run of `update` that nothing disturbs. */
  function Script(): (r: seq<Action>)
    ensures |r| == 16
  {
    [Begin(Signed(), Txn(), true), CachePolicy, Open, Check, Fetch(0, Hash()), Extract(Content()), Inspect,
     Smoke("PASS", "1", Content()), LookUp(false), Rename, Revalidate, WriteActive(Now()), MarkPending,
     Health("PASS", "1", Content()), WriteLkg(Now()), Confirm]
  }

  function PhaseAt(k: nat): Phase
    requires 0 < k < 16
  {
    [Sweeping, Opening, Checking, Downloading, Extracting, Inspecting, Smoking, Installing, Renaming, Validating,
     Activating, Pending, TakingHealth, Trusting, Confirming][k - 1]
  }

  /** Where the run stands after `k` actions. */
  ghost predicate Standing(k: nat, s: System)
    requires 0 < k < 16
  {
    && s.run.Some? && s.last.Some? && s.migration.None?
    && var run := s.run.value;
    && s.last.value.manifest == Target()
    && run.txn == Txn() && run.envelope == Signed() && run.manifest == Target() && run.launch && run.previous.None?
    && run.phase == PhaseAt(k) && (k > 6 ==> run.metadata == TargetMetadata())
    && (5 < k < 10 ==> Txn() in s.disk.staging && s.disk.staging[Txn()] == Content())
    && s.disk.versions == (if k < 10 then map[] else map[Target().launcherVersion := Content()])
    && s.disk.staging.Keys <= {Txn()} && s.disk.receipts.Keys <= {Txn()}
    && (k < 12 ==> s.disk.active.None?) && (k < 15 ==> s.disk.lkg.None?)
    && (k < 14 ==> s.history.healthy == {} == s.history.spared)
  }

  /* ---- The pieces ---- */

  lemma NestedEnds(path: string)
    requires Nested(path)
    ensures |path| > |EXE| && path[|path| - 1] == 'e'
  {
    assert path[|path| - |EXE|..][|EXE| - 1] == path[|path| - 1];
    assert EXE[|EXE| - 1] == 'e';
  }

  lemma NoneNested()
    ensures forall path :: path in Content() ==> !Nested(path)
  {
    hide Nested;
    assert METADATA[|METADATA| - 1] == PACKAGE[|PACKAGE| - 1] == SMOKE[|SMOKE| - 1] == 'n';
    if path :| path in Content() && Nested(path) {
      NestedEnds(path);
      assert false;
    }
  }

  lemma ContentIsThere()
    ensures var d := Content();
      && EXE in d && d[EXE] == File("launcher") && METADATA in d && d[METADATA] == File("metadata")
      && PACKAGE in d && d[PACKAGE] == File("files") && SMOKE in d && d[SMOKE] == File("smoke")
  {
  }

  lemma ContentIsValid()
    ensures Validate(Sample(), Content()) == Some(TargetMetadata())
    ensures Candidate(Sample(), Content(), Target()) == Some(TargetMetadata())
    ensures IsFile(Content(), SMOKE) && SameGuarded(Sample(), Content(), Content())
  {
    hide Content, Nested, ShaOf;
    NoneNested();
    ContentIsThere();
  }

  lemma NothingIsInTheWay(disk: Disk)
    ensures Decide(Sample(), disk, Target(), None).Proceed?
  {
  }

  /* ---- One action after the other ---- */

  lemma Starts()
    ensures Standing(1, Do(Sample(), FRESH, Script()[0]))
  {
  }

  lemma Opens(k: nat, s: System)
    requires 0 < k < 3 && Standing(k, s)
    ensures Standing(k + 1, Do(Sample(), s, Script()[k]))
  {
    hide Content, Script, Standing, Sample, DoCachePolicy, DoOpen;
    ScriptOpens();
    if k == 1 { Caches(s); } else { OpensReceipt(s); }
  }

  lemma Caches(s: System)
    requires Standing(1, s)
    ensures Standing(2, DoCachePolicy(s))
  {
    hide Content, Target, TargetMetadata;
  }

  lemma OpensReceipt(s: System)
    requires Standing(2, s)
    ensures Standing(3, DoOpen(Sample(), s))
  {
    hide Content, Validate, Target, TargetMetadata;
  }

  lemma Fetches(k: nat, s: System)
    requires 3 <= k < 6 && Standing(k, s)
    ensures Standing(k + 1, Do(Sample(), s, Script()[k]))
  {
    hide Content, Script, Standing, Sample, DoCheck, DoFetch, DoExtract;
    ScriptOpens();
    if k == 3 { Checks(s); }
    else if k == 4 { Downloads(s); }
    else { Unpacks(s); }
  }

  lemma Checks(s: System)
    requires Standing(3, s)
    ensures Standing(4, DoCheck(Sample(), s))
  {
    hide Content, Decide, Sample, Target, TargetMetadata;
    NothingIsInTheWay(s.disk);
  }

  lemma Downloads(s: System)
    requires Standing(4, s)
    ensures Standing(5, DoFetch(s, 0, Hash()))
  {
    hide Content, TargetMetadata, Hash, ShaOf;
  }

  lemma Unpacks(s: System)
    requires Standing(5, s)
    ensures Standing(6, DoExtract(s, Content()))
  {
    hide Content, Target, TargetMetadata;
  }

  lemma ScriptOpens()
    ensures Script()[1] == CachePolicy && Script()[2] == Open && Script()[3] == Check
    ensures Script()[4] == Fetch(0, Hash()) && Script()[5] == Extract(Content())
  {
    hide Content;
  }

  lemma Installs(k: nat, s: System)
    requires 6 <= k < 10 && Standing(k, s)
    ensures Standing(k + 1, Do(Sample(), s, Script()[k]))
  {
    hide Content, Script, Standing, Sample, DoInspect, DoSmoke, DoLookUp, DoRename;
    ScriptInstalls();
    if k == 6 { Inspects(s); }
    else if k == 7 { Smokes(s); }
    else { MovesIn(k, s); }
  }

  lemma Inspects(s: System)
    requires Standing(6, s)
    ensures Standing(7, DoInspect(Sample(), s))
  {
    hide Content, Candidate, Validate, TargetMetadata;
    ContentIsValid();
  }

  lemma Smokes(s: System)
    requires Standing(7, s)
    ensures Standing(8, DoSmoke(Sample(), s, "PASS", "1", Content()))
  {
    hide Content, Validate, SameGuarded, TargetMetadata;
    ContentIsThere();
    ContentIsValid();
  }

  lemma MovesIn(k: nat, s: System)
    requires 8 <= k < 10 && Standing(k, s)
    ensures Standing(k + 1, if k == 8 then DoLookUp(Sample(), s, false) else DoRename(s))
  {
    hide Content, Validate, TargetMetadata;
  }

  lemma ScriptInstalls()
    ensures Script()[6] == Inspect && Script()[7] == Smoke("PASS", "1", Content())
    ensures Script()[8] == LookUp(false) && Script()[9] == Rename
    ensures PhaseAt(6) == Inspecting && PhaseAt(7) == Smoking && PhaseAt(8) == Installing && PhaseAt(9) == Renaming
    ensures PhaseAt(10) == Validating
  {
    hide Content;
  }

  lemma Revalidates(s: System)
    requires Standing(10, s)
    ensures Standing(11, DoRevalidate(Sample(), s))
  {
    hide Content, Validate, TargetMetadata, ShaOf, Hash;
    ContentIsValid();
  }

  lemma Switches(s: System)
    requires Standing(11, s)
    ensures Standing(12, DoWriteActive(Sample(), s, Now()))
  {
    hide Content, TargetMetadata, TargetPointer;
  }

  lemma MarksPending(s: System)
    requires Standing(12, s)
    ensures Standing(13, DoMarkPending(s))
  {
    hide Content, TargetMetadata;
  }

  lemma TakesHealth(s: System)
    requires Standing(13, s)
    ensures Standing(14, DoHealth(Sample(), s, "PASS", "1", Content()))
  {
    hide Content, Validate, SameGuarded, TargetMetadata;
    ContentIsValid();
  }

  lemma WritesLkg(s: System)
    requires Standing(14, s)
    ensures Standing(15, DoWriteLkg(Sample(), s, Now()))
  {
    hide Content, TargetMetadata, TargetPointer;
  }

  lemma Activates(k: nat, s: System)
    requires 10 <= k < 15 && Standing(k, s)
    ensures Standing(k + 1, Do(Sample(), s, Script()[k]))
  {
    hide Content, Script, Standing, Sample, DoRevalidate, DoWriteActive, DoMarkPending, DoHealth, DoWriteLkg;
    ScriptActivates();
    if k == 10 { Revalidates(s); }
    else if k == 11 { Switches(s); }
    else if k == 12 { MarksPending(s); }
    else if k == 13 { TakesHealth(s); }
    else { WritesLkg(s); }
  }

  lemma ScriptActivates()
    ensures Script()[10] == Revalidate && Script()[11] == WriteActive(Now()) && Script()[12] == MarkPending
    ensures Script()[13] == Health("PASS", "1", Content()) && Script()[14] == WriteLkg(Now())
  {
    hide Content;
  }

  lemma {:induction false} Stands(k: nat)
    requires 0 < k < 16
    ensures Standing(k, Reached(Sample(), Script()[..k]))
  {
    hide Standing, Do, Script, Sample;
    var s := Reached(Sample(), Script()[..k - 1]);
    OneMore(Sample(), Script(), k - 1);
    if k == 1 {
      assert s == FRESH;
      Starts();
    } else {
      Stands(k - 1);
      if k <= 3 { Opens(k - 1, s); }
      else if k <= 6 { Fetches(k - 1, s); }
      else if k <= 10 { Installs(k - 1, s); }
      else { Activates(k - 1, s); }
    }
  }

  lemma OneMore(cfg: Config, actions: seq<Action>, k: nat)
    requires k < |actions|
    ensures Reached(cfg, actions[..k + 1]) == Do(cfg, Reached(cfg, actions[..k]), actions[k])
  {
    hide Do;
    assert actions[..k + 1][..k] == actions[..k];
  }

  lemma OnlyRuns()
    ensures OnlyUpdates(Script())
  {
  }

  /* ---- What can happen ---- */

  /** The run is cut off once the active pointer is switched, and another one is begun. */
  function Interrupted(): seq<Action>
  {
    Script()[..12] + [Crash, Begin(Signed(), Again(), true), CachePolicy, Open, Check]
  }

  /** It ends as current, with a version active that no health check was ever made of, nor spared. */
  lemma UntestedEndsAsCurrent()
    ensures var s := Reached(Sample(), Interrupted());
      && OnlyUpdates(Interrupted()) && s.last.Some? && s.last.value.outcome == Some(Current)
      && s.disk.active.Some? && s.disk.active.value.version == Target().launcherVersion
      && s.history.healthy == {} == s.history.spared && s.disk.lkg.None?
  {
    hide Script, Sample, Do, Exec, Decide, Validate;
    var cut := Script()[..12];
    OnlyRuns();
    assert OnlyUpdates(cut) && OnlyUpdates(Interrupted());
    Stands(12);
    assert Txn() != Again();
    ActivatedFacts(Sample(), cut);
    InterruptedActivationIsTakenForCurrent(Sample(), cut, Again(), true);
    ExecSplit(Sample(), FRESH, cut, [Crash, Begin(Signed(), Again(), true), CachePolicy, Open, Check]);
  }

  /** A run is confirmed, and offline launch demands another update all the same: the target is below the minimum
      of its own manifest. */
  lemma ConfirmedBelowItsMinimum()
    ensures var s := Reached(Sample(), Script());
      && OnlyUpdates(Script()) && s.last.Some? && s.last.value.outcome == Some(Confirmed)
      && OfflineLaunch(Sample(), s.disk) == UpdateRequired(Target().launcherVersion)
  {
    hide Script, Do, Exec, Decide, Validate, OfflineLaunch, Standing;
    OnlyRuns();
    Stands(15);
    Confirms();
    var two, one := Target().minimumVersion, Target().launcherVersion;
    assert Sample().parseVersion(two).value == Version(2, 0, 0) && Sample().parseVersion(one).value == Version(1, 0, 0);
    ConfirmedThenOffline(Sample(), Script());
  }

  lemma Confirms()
    requires Standing(15, Reached(Sample(), Script()[..15]))
    ensures var s := Reached(Sample(), Script());
      && s.last.Some? && s.last.value.outcome == Some(Confirmed) && s.last.value.manifest == Target()
      && s.run.None? && Again() !in s.disk.receipts && Again() !in s.disk.staging
  {
    hide Sample, Target, Signed, Content, TargetMetadata;
    OneMore(Sample(), Script(), 15);
    assert Script()[..16] == Script();
  }

  /** After the confirmed run another one is begun, with the manifest whose minimum is no version. */
  function Refused(): seq<Action>
  {
    Script() + [Begin(Later(), Again(), true), CachePolicy, Open, Check]
  }

  /** That run fails and moves nothing; but its manifest is the cached policy, and from then on offline launch lets an
      error escape, with a confirmed launcher in place. */
  lemma RefusedThenRaises()
    ensures var s := Reached(Sample(), Refused());
      && OnlyUpdates(Refused()) && s.last.Some? && s.last.value.outcome == Some(Failed)
      && s.disk.active.Some? && s.disk.active.value.version == Target().launcherVersion
      && OfflineLaunch(Sample(), s.disk) == RaisesValueError
  {
    hide Script, Do, Exec, Validate, OfflineLaunch, Standing, DoBegin, DoCachePolicy, DoOpen, DoCheck;
    OnlyRuns();
    Stands(15);
    Confirms();
    OutcomeTellsPointers(Sample(), Script());
    RefusedEnds(Reached(Sample(), Script()));
    ExecSplit(Sample(), FRESH, Script(), [Begin(Later(), Again(), true), CachePolicy, Open, Check]);
    OfflineLaunchFollowsPolicy(Sample(), Refused());
  }

  lemma RefusedEnds(s: System)
    requires s.run.None? && Again() !in s.disk.receipts && Again() !in s.disk.staging
    ensures var s' := Exec(Sample(), s, [Begin(Later(), Again(), true), CachePolicy, Open, Check]);
      && s'.last.Some? && s'.last.value.outcome == Some(Failed)
      && s'.disk.active == s.disk.active && s'.disk.lkg == s.disk.lkg && s'.disk.policy == Some(Later())
  {
    hide DoBegin, DoCachePolicy, DoOpen, DoCheck, Sample, Unreadable;
    Exec4(Sample(), s, Begin(Later(), Again(), true), CachePolicy, Open, Check);
    var begun := DoBegin(Sample(), s, Later(), Again(), true);
    RefusedBegins(s);
    RefusedOpens(DoCachePolicy(begun));
    RefusedChecks(DoOpen(Sample(), DoCachePolicy(begun)));
  }

  /** The run stands at this phase, with the second manifest and the pointers of `s`. */
  ghost predicate Trying(phase: Phase, before: System, s: System)
  {
    && s.run.Some? && s.last.Some? && s.run.value.phase == phase && s.run.value.manifest == Unreadable()
    && s.disk.active == before.disk.active && s.disk.lkg == before.disk.lkg && s.disk.policy == Some(Later())
  }

  lemma RefusedBegins(s: System)
    requires s.run.None? && Again() !in s.disk.receipts && Again() !in s.disk.staging
    ensures Trying(Opening, s, DoCachePolicy(DoBegin(Sample(), s, Later(), Again(), true)))
  {
    hide Unreadable;
  }

  lemma RefusedOpens(s: System)
    requires At(s, Opening) && s.run.value.manifest == Unreadable()
    ensures var s' := DoOpen(Sample(), s);
      && At(s', Checking) && s'.run.value.manifest == Unreadable()
      && s'.disk.active == s.disk.active && s'.disk.lkg == s.disk.lkg && s'.disk.policy == s.disk.policy
  {
    hide ValidPointer, Sample, Unreadable;
  }

  lemma RefusedChecks(s: System)
    requires At(s, Checking) && s.run.value.manifest == Unreadable()
    ensures var s' := DoCheck(Sample(), s);
      && s'.last.Some? && s'.last.value.outcome == Some(Failed)
      && s'.disk.active == s.disk.active && s'.disk.lkg == s.disk.lkg && s'.disk.policy == s.disk.policy
  {
    hide Decide, Sample, Unreadable;
    NothingToCompare();
  }

  /** A minimum that does not parse is refused. */
  lemma NothingToCompare()
    ensures forall disk, previous :: Decide(Sample(), disk, Unreadable(), previous) == Refuse
  {
    hide Validate, ValidPointer;
  }

  lemma Exec4(cfg: Config, s: System, a: Action, b: Action, c: Action, d: Action)
    ensures Exec(cfg, s, [a, b, c, d]) == Do(cfg, Do(cfg, Do(cfg, Do(cfg, s, a), b), c), d)
  {
    hide Do;
    assert [a, b, c, d][..3] == [a, b, c] && [a, b, c][..2] == [a, b] && [a, b][..1] == [a] && [a][..0] == [];
    assert Exec(cfg, s, [a]) == Do(cfg, Exec(cfg, s, []), a);
    assert Exec(cfg, s, [a, b]) == Do(cfg, Exec(cfg, s, [a]), b);
    assert Exec(cfg, s, [a, b, c]) == Do(cfg, Exec(cfg, s, [a, b]), c);
  }
}
