# EOAT Atlas: a verified model of its core

EOAT Atlas keeps track of end-of-arm tooling: which press runs which tool with which assembly, what has been
audited, and which launcher version a workstation runs. This project models three parts of it in Dafny and proves
what they keep, over every input, every sheet and every history of interrupted runs.

**The launcher update** (`bootstrap/core.py`, `bootstrap/migration.py`).
`Manifest.dfy` prints, parses, signs and verifies update manifests. `LauncherStore.dfy` says what is on disk and when
a directory or a pointer is trusted. `LauncherUpdate.dfy` is the update as a step machine: every write to disk is one
action, a crash may come between any two, and the shortcut migration is a second actor. `LauncherSafety.dfy` proves
the invariant of every reachable state, `LauncherGuarantees.dfy` what follows from it for the user, and
`LauncherExample.dfy` follows three histories through to what is not promised. `LauncherVerdict.dfy` tells before a run
how it will end, and that a run that was cut off can be made good. `LauncherInspection.dfy` tells from the bytes of its
files which directory validates and which package gets past the inspection, and follows that through every history.
`LauncherService.dfy` and `ShortcutMigration.dfy` are the update and the migration as classes whose fields are
rewritten one at a time; each write is proved to be one action of the machine, so all its promises hold of them, and
`trace` is the list of disks a crash can leave behind.

**The inventory sheet and the compatibility engine** (`core/audit_entries.py`, `core/audit_field_rules.py`,
`core/audit_compatibility.py`, `core/audit_progress.py`, `core/workbook_io.py`).
`Columns.dfy`, `Layout.dfy`, `Legacy.dfy`, `GripperCells.dfy` and `Inventory.dfy` say what reordering, merging and
inserting columns and repairing gripper cells do to a table; `Worksheet.dfy` does it in place, cell by cell, and is
proved equal to that. `Vocabulary.dfy` says how the rules read a text, as a record of questions with a few laws, and
that the application's own texts obey them. Over any such vocabulary `FieldRules.dfy`, `Normalize.dfy` and
`Settling.dfy` clear and default an entry and tell when doing it again changes nothing. `FieldOutcome.dfy` tells in
plain texts what becomes of each cell, and `SheetLaws.dfy` in plain headers what becomes of the sheet.
`Upsert.dfy` saves an entry. `Tokens.dfy` normalises machine and tool names, `Relationships.dfy` summarises rows by
their keys, `Coverage.dfy` is the progress report, `AuditIds.dfy` and `Creation.dfy` derive compatibility rows and tie
that to the report, `OffMachine.dfy` applies an off-machine audit, and `Sync.dfy` copies an audit onto its linked rows.
`TokenLaws.dfy`, `CreationEffect.dfy`, `OffMachineEffect.dfy` and `SyncEffect.dfy` tell the outcome of these from the
names, cells and columns alone.
`AtlasLoader.dfy` and `AtlasBundle.dfy` build the Atlas records, the indexes and the bundle, `Atlas.dfy` and
`AtlasSetup.dfy` offer and validate setups, and `AtlasKeys.dfy` proves that the lookup keys are what these rely on.
`AtlasNames.dfy` says when the records of a loaded bundle are told apart and what becomes of tools that share a name,
and `AtlasExamples.dfy` loads two small sheets on which something is not offered. `AtlasLaws.dfy` tells from texts and
rows what a key looks at, which rows belong together, what is offered and how a setup validates.

**The audit field link** (`core/audit_field_links.py`).
`Text.dfy` has Python's string operations, `Percent.dfy` UTF-8 and percent-encoding (sections 2.1 and 2.3 of RFC
3986), `FieldLink.dfy` the link itself; `PercentLaws.dfy` and `FieldLinkLaws.dfy` say what decoding and parsing make of
any bytes and any text, and how a link is printed.

## What the code does that its documentation does not say

- A run that finds the target already active leaves its receipt at CHECKING, so `status` reports it as pending for ever
  (`LauncherGuarantees.FinishedRunsAreDone` says exactly when). A run that died between the switch and the health
  check is taken for current by the next one, without a health check
  (`LauncherGuarantees.InterruptedActivationIsTakenForCurrent`, and `LauncherExamples.UntestedEndsAsCurrent` for a
  history that comes to it; `LauncherGuarantees.EndsAsCurrentWhen` says exactly when a run ends so).
- `update` never compares the target with the minimum of its own manifest; after such a run `offline_launch` demands
  another update (`LauncherGuarantees.ConfirmedThenOffline` says exactly when, and
  `LauncherExamples.ConfirmedBelowItsMinimum` gives a history). A cached policy whose minimum does not parse lets a
  `ValueError` escape `offline_launch` (`LauncherGuarantees.OfflineLaunchFollowsPolicy` says exactly when, and
  `LauncherExamples.RefusedThenRaises` gives a history).
- Normalising an entry is not idempotent: a blank air circuit architecture is defaulted after the external circuits
  were let through (`Settling.SettlesWhen` says exactly when, and `Settling.UnsettledChanges` gives an entry).
- Saving an audit without its entry type over a compatible row leaves it compatible and yet with the auditor that was
  required (`Upserts.LateEntryTypeFails`; `Upserts.LateEntryType` says exactly when date or auditor come out so).
- "press 07" becomes "07" and only then "7" (`Tokens.PressKeepsZeros`; `Tokens.TokenSettles` says exactly when once is
  not enough).
- The selection lists miss nothing while EOATs are told apart by their keys (`AtlasSetup.SelectionIsComplete`), but can
  leave out an EOAT that validates when two EOATs share a key (`AtlasExamples.SelectionIsNotComplete`;
  `AtlasSetup.SelectionMisses` says exactly when).
- A tool cell that names two tools gives both records the whole cell for a name, and two blank cells do
  (`AtlasNames.SharedCellClashes`; `AtlasNames.ToolsAreUnique` says exactly when tools are told apart). Then a machine
  or an EOAT can be told of a tool that is not told of it (`AtlasExamples.SharedCell` gives a sheet;
  `AtlasNames.NotToldBack` says exactly when).

## Model

| member | source | states |
|---|---|---|
| Manifests.DigestIgnoresRevokedOrder | bootstrap/core.py:99-105 | payload and digest do not depend on the order of the revoked list |
| Manifests.PrintThenParse | bootstrap/core.py:99-150 | parsing a printed manifest gives it back, revoked list sorted, exactly when it is well formed |
| Manifests.ParsedIsWellFormed | bootstrap/core.py:107-150 | whatever the parser accepts has its required fields, a channel, the supported schema and no empty revoked entry |
| Manifests.ParseThenPrintIsStable | bootstrap/core.py:99-150 | parsing then printing is a normalisation, stable when repeated |
| Manifests.AcceptedIsVouched | bootstrap/core.py:163-187 | what verifies carries the digest of the manifest it is parsed to, and a signature of that manifest under a trusted key that is not revoked |
| Manifests.AcceptedWasIssued | bootstrap/core.py:163-187 | nothing verifies but a well-formed manifest that the holders of the trusted keys issued, every field as issued and the revoked list in some order |
| Manifests.SignThenVerify | bootstrap/core.py:153-187 | a manifest signed with a trusted, unrevoked key verifies to itself, revoked list sorted, exactly when it is well formed |
| Manifests.AcceptsWhen | bootstrap/core.py:107-150 | a document is accepted exactly when all thirteen required keys are given, its schema is version one, and its size and revoked list can be read; it is refused as such exactly when a key is missing or the schema is another |
| Manifests.VerifiesWhen | bootstrap/core.py:163-187 | an envelope verifies exactly when its manifest is accepted, its digest is that of the parsed manifest, and it carries an Ed25519 signature of the canonical bytes under a trusted key that is not revoked |
| LauncherStores.GuardedFilesDecide | bootstrap/core.py:228-269 | validation rests on the guarded files alone: keep their bytes and a directory that validates goes on validating, with the same metadata |
| LauncherInspections.ValidatesWhen | bootstrap/core.py:228-269 | a directory validates exactly when executable, metadata and package manifest are files, the six fields of the metadata are filled, and every listed file, one at least, has its size and hash |
| LauncherInspections.PointersLeadToIntact | bootstrap/core.py:218-287 | in every reachable state both pointers lead to such a directory and say of it what its metadata file says, field by field |
| LauncherInspections.InspectionPassesWhen | bootstrap/core.py:448-471 | a package goes on to the smoke test exactly when it holds one launcher, at the top, validates, its metadata file and its package manifest have the hashes signed for each, and six fields of its metadata are the manifest's; otherwise the run fails |
| LauncherInspections.PackageIsAttested | bootstrap/core.py:448-488 | in every reachable state with a run between inspection and installation, the staged metadata file hashes to `metadata_sha256`, the staged package manifest to `package_manifest_sha256`, and the six fields agree |
| LauncherInspections.VersionsAreOrdered | bootstrap/core.py:418-430 | versions are totally ordered, part by part |
| LauncherInspections.ChecksPassWhen | bootstrap/core.py:417-431 | a run goes on exactly when both versions parse, the target is not revoked, and the active launcher, if any, is below the target and not below the minimum unless the update is mandatory; it ends as current exactly when the active launcher is the target under the same digest |
| LauncherSafety.StepKeeps | bootstrap/core.py:393-556 | every single step of a run, a crash or a migration keeps the invariant of the store and every valid version directory |
| LauncherSafety.ExecKeeps | bootstrap/core.py:393-556 | so does every list of steps, however many runs it holds and wherever they are cut off |
| LauncherGuarantees.PointersStayValid | bootstrap/core.py:218-226 | from an empty store, after any cut-off runs and migrations, each pointer on disk is empty or passes `valid_pointer` |
| LauncherGuarantees.InstalledFilesNeverChange | bootstrap/core.py:478-489 | a version directory that validates once keeps the bytes of all its listed files and goes on validating, whatever runs later |
| LauncherGuarantees.LastKnownGoodIsTested | bootstrap/core.py:502-530 | the last known good version passed smoke and health (or was spared the latter) and is not above the active version |
| LauncherGuarantees.OutcomeTellsPointers | bootstrap/core.py:417-556 | current: the pointer found has the target's version and digest and nothing moved; confirmed: both pointers name the target, strictly newer than the active version found; rolled back: active as before but for its time, last known good untouched; blocked: only without a pointer to go back to; before the first switch nothing moved |
| LauncherGuarantees.EndsAsCurrentWhen | bootstrap/core.py:417-431 | a run that ends without failing ends as current exactly when the active pointer it found, valid as it always is, has the target's version and the manifest's digest |
| LauncherGuarantees.CurrentAndTrusted | bootstrap/core.py:425-428 | a run that ends as current stands for a tested version when the last known good pointer names that version |
| LauncherGuarantees.ReceiptsFollowTheChain | bootstrap/core.py:405-416 | every receipt on disk shows a prefix of the one chain and at most one ending |
| LauncherGuarantees.ReceiptBoundsPointers | bootstrap/core.py:432-538 | the last entry of the receipt bounds where both pointers can be, even after a crash |
| LauncherGuarantees.FinishedRunsAreDone | bootstrap/core.py:380-391 | a finished run counts as done exactly when it failed or did not find the target active under the same manifest; otherwise its receipt stays at CHECKING |
| LauncherGuarantees.InterruptedActivationIsTakenForCurrent | bootstrap/core.py:425-428 | a run that dies after the switch is followed by one that ends as current and tests nothing |
| LauncherGuarantees.RerunIsCurrent | bootstrap/core.py:417-428 | an undisturbed run ends as current and moves nothing when the active pointer is valid and has the target's parsed version and the manifest's digest |
| LauncherExamples.UntestedEndsAsCurrent | bootstrap/core.py:417-507 | a concrete history, action by action: cut off after the switch, begun again, it ends as current with an active version that was never checked |
| LauncherExamples.ConfirmedBelowItsMinimum | bootstrap/core.py:417-584 | a concrete history that is confirmed with a target below its own minimum, so that offline launch demands an update |
| LauncherExamples.RefusedThenRaises | bootstrap/core.py:399-584 | a concrete history: a confirmed run, then one of a manifest whose minimum is no version; that run fails and moves nothing, and from then on offline launch lets an error escape |
| LauncherGuarantees.OfflineLaunchFollowsPolicy | bootstrap/core.py:558-584 | after any history, migrations included: a cached policy always verifies; the launcher that is there (the active one, or else the last known good one) is installed and valid and is returned exactly when it is not revoked, both versions parse and it is not below the minimum; an error escapes exactly when it is not revoked and one of them does not parse |
| LauncherGuarantees.UpdatesParse | bootstrap/core.py:558-584 | without migrations the launcher that counts is the active one, and its version parses |
| LauncherGuarantees.ConfirmedThenOffline | bootstrap/core.py:530-584 | after a confirmed run offline launch returns that very version exactly when it is not below its manifest's minimum |
| LauncherVerdicts.Recovers | bootstrap/core.py:393-556 | a run that got past the version checks and is cut off anywhere is made good by an undisturbed one of the same manifest with a package that passes, if the version directory is free or holds that very build: current when the active pointer was left on the target, confirmed otherwise |
| LauncherVerdicts.ConfirmedStaysCurrent | bootstrap/core.py:417-428 | after a confirmed run another one of the same manifest ends as current |
| LauncherService.BootstrapService.Update | bootstrap/core.py:393-556 | `update` on the fields of the store: an unverified envelope changes nothing; otherwise every write is one action of the machine, and the recorded outcome, confirmed or any other, is exactly the one told beforehand from disk, manifest and surroundings; an error before the first receipt raises and leaves pointers, versions and receipts as a crash would |
| LauncherService.BootstrapService.Open | bootstrap/core.py:399-416 | the sweeps, then the cached policy, then the receipt, as the recorded actions and nothing else; active pointer, last known good and versions untouched; an error before that leaves no receipt |
| LauncherService.BootstrapService.FetchPackage | bootstrap/core.py:432-447 | it raises exactly when an error strikes or size or hash differ from the manifest; otherwise the package is unpacked into the staging directory of the run, after its receipt |
| LauncherService.BootstrapService.InspectCandidate | bootstrap/core.py:448-471 | it raises exactly when an error strikes or the candidate does not validate and agree with the manifest; otherwise the run goes on with its metadata |
| LauncherService.BootstrapService.SmokeTest | bootstrap/core.py:472-477 | it raises exactly when an error strikes, the packaged smoke receipt is not the one of the manifest, or the run of the candidate does not pass |
| LauncherService.BootstrapService.Install | bootstrap/core.py:478-488 | a free version directory takes the candidate; an occupied one is never replaced, and accepted exactly when it validates to the candidate's metadata |
| LauncherService.BootstrapService.Activate | bootstrap/core.py:494-507 | the switch, the pending receipt and the health check, in that order; what follows is told from the check and the previous pointer; the last known good pointer is not touched |
| LauncherService.BootstrapService.Restore | bootstrap/core.py:508-524 | the previous pointer is written before the receipt says so; it raises exactly when the directory to go back to no longer validates or an error strikes |
| LauncherService.BootstrapService.Trust | bootstrap/core.py:530-544 | the last known good pointer is written, and only then the receipt confirms; an error in between leaves the pointer written |
| ShortcutMigration.Migrator.MigrateShortcut | bootstrap/migration.py:21-70 | both pointers end on the version, or neither pointer and no shortcut changed; it migrates exactly when bootstrap and launcher are there, the shortcut is not moved yet and the version validates; the first shortcut replaced is kept |
| Percent.DecodeEncode | core/audit_field_links.py:72-92 | decoding UTF-8 undoes encoding, for every text |
| Percent.UnquoteQuote | core/audit_field_links.py:72-92 | unquoting undoes quoting, for every text |
| PercentLaws.WellFormedFirst | core/audit_field_links.py:92 | bytes that begin with the encoding of a character are decoded to it |
| PercentLaws.MalformedFirst | core/audit_field_links.py:92 | where no character begins, one replacement character stands for the longest run of bytes that begins one, or for one byte |
| PercentLaws.UnquotedBytes | core/audit_field_links.py:92 | a percent sign and two hexadecimal digits of either case are one byte, any other character stands for itself |
| PercentLaws.UnquoteTold | core/audit_field_links.py:92 | a run of ASCII is unquoted and decoded by itself, and any other character stays where it is |
| PercentLaws.PlainAre | core/audit_field_links.py:72 | letters, digits and four marks are not quoted |
| FieldLinks.Parse | core/audit_field_links.py:75-106 | the parser's loop over the parts of a text |
| FieldLinks.ParseSerialize | core/audit_field_links.py:50-106 | parsing a printed link gives its trimmed fields with label, key and page filled in, whatever text they hold |
| FieldLinks.RoundTrips | core/audit_field_links.py:50-106 | printing then parsing returns the link itself exactly when its fields are trimmed and key, label and page are non-empty, and nothing exactly when key and label are blank; a second round never changes anything |
| FieldLinkLaws.PrintedTold | core/audit_field_links.py:62-72 | a link is printed as its filled fields under their eight names, in order, with semicolons between them |
| FieldLinkLaws.LastPartCounts | core/audit_field_links.py:84-92 | of any text, a key is read exactly when some part gives it, and the last such part counts |
| FieldLinkLaws.PageTold | core/audit_field_links.py:50-106 | a link without a page comes back with the page of the audit |
| Columns.MovePermutes | core/audit_entries.py:1609-1640 | moving a column permutes the columns |
| Columns.MoveKeepsColumns | core/audit_entries.py:1609-1640 | and keeps every value of every row under its header |
| Columns.MovedFollows | core/audit_entries.py:1410-1429 | a column moved behind another stands right behind it |
| Columns.MoveParts | core/audit_entries.py:1410-1429 | and no other pair of neighbours is parted, unless it started where the column went |
| Layout.MoveBehindEffect | core/audit_entries.py:1410-1429 | one move: columns kept, the pair together, nothing done if it was, other pairs left together |
| Layout.OrderFromEffect | core/audit_entries.py:1445-1453 | ordering the tooling columns puts the ones that are there in a row in their order, parts no pair outside, and leaves a row in order alone |
| Layout.ArrangeEffect | core/audit_entries.py:1410-1453 | from any order: every (row, header) value kept, press, tool and assembly adjacent, tooling contiguous from the EOAT type; a second run moves nothing |
| Legacy.Migrate | core/audit_entries.py:1376-1407 | the loop ends and leaves no legacy column |
| Legacy.MergedCell | core/audit_entries.py:1376-1407 | a merged cell is the first filled one among its own and the legacy cells left to right |
| Legacy.MigrateEffect | core/audit_entries.py:1376-1407 | all other columns keep content and order, and each target cell is the first filled one |
| Inventory.LaidEffect | core/audit_entries.py:791-820 | completing the headers keeps every column, adds blank ones for what was missing and nothing else, and ends in order; a sheet with these headers is laid out already |
| GripperCells.RepairEffect | core/audit_entries.py:983-1016 | only the gripper columns change, and of them exactly the rows that are reviewed |
| GripperCells.RepairFills | core/audit_entries.py:1000-1015 | a repaired gripper cell is never blank; a blank one becomes N/A, and a filled count or type stays |
| GripperCells.RepairTwice | core/audit_entries.py:983-1016 | a second repair changes nothing, if part numbers and the mark are not names of presets |
| Inventory.EnsuredEffect | core/audit_entries.py:791-825 | the whole schema repair: columns other than the grippers' are those of the merged sheet or blank, gripper cells of reviewed rows are repaired, the headers are the required ones in order, and a second repair changes nothing |
| SheetLaws.MergedTold | core/audit_entries.py:1376-1407 | the legacy columns end up as the tool and the number of parts picked, and no other column is lost |
| SheetLaws.PlaceTold | core/audit_entries.py:796-816 | where the missing tool, EOAT ID and wiring columns go, by name |
| SheetLaws.ToolingTold | core/audit_entries.py:1432-1442 | a missing tooling column goes behind the nearest one in front of it that is there, or else before the nearest behind it, or else to the end |
| SheetLaws.KeyColumnsEnd | core/audit_entries.py:791-820 | from any order of columns the tool ends up behind the press and the EOAT ID behind the tool, and the two legacy headers are gone |
| SheetLaws.ToolingEnds | core/audit_entries.py:1445-1453 | and the twenty tooling columns of the schema end up in a row, in the order listed by name |
| SheetLaws.ReviewedWhen | core/audit_entries.py:992-998 | a row counts exactly when something is said in it, and it is more than a time stamp in the last cell |
| SheetLaws.RepairedTold | core/audit_entries.py:1000-1015 | a gripper model that names a preset becomes its part number, a blank cell is marked, everything else stays |
| Worksheets.Worksheet.MoveColumn | core/audit_entries.py:1609-1640 | the snapshot, delete, insert and write loops come to one move |
| Worksheets.Worksheet.MoveColumnBehind | core/audit_entries.py:1410-1429 | the two guarded moves |
| Worksheets.Worksheet.OrderToolingColumns | core/audit_entries.py:1445-1453 | the ordering loop over the tooling headers |
| Worksheets.Worksheet.MigrateLegacyHeader | core/audit_entries.py:1376-1407 | the legacy loop, filling and deleting in place |
| Worksheets.Worksheet.FillBlanks | core/audit_entries.py:1382-1386 | blank cells of the target take the legacy cell of their row |
| Worksheets.Worksheet.InsertHeader | core/audit_entries.py:828-830 | a blank column under the header |
| Worksheets.Worksheet.RepairGrippers | core/audit_entries.py:983-1016 | the loop over rows and gripper fields |
| Worksheets.Worksheet.EnsureHeaders | core/audit_entries.py:791-825 | the whole schema repair in place, gripper cells included, and the headers it reports as added |
| Vocabulary.SpokenIsLawful | core/audit_field_rules.py:193-247 | the texts that the application writes and reads obey the laws that the rules rest on: a blank says nothing, N/A says as little, every default says something |
| Outcomes.KindTold | core/audit_field_rules.py:230-245 | the kind of an EOAT type, from its text: unset for a blank or N/A, vacuum for that very word, hybrid when it says so, gripper when it says mechanical or gripper and not hybrid, unknown when it begins so or needs review and says none of these |
| FieldRules.ControlsApply | core/audit_field_rules.py:271-297 | a controlling field always applies |
| FieldRules.SameRules | core/audit_field_rules.py:271-297 | six controlling fields settle what the rules say |
| FieldRules.ControlsDecide | core/audit_field_rules.py:271-297 | they settle which fields apply; without an electrical column the field's own value counts as well |
| FieldRules.MarkedStays | core/audit_field_rules.py:271-297 | marking a field not applicable does not make it apply |
| Normalization.Clear | core/audit_entries.py:581-586 | the clearing loop, which changes what it reads, does what clearing all at once would: header order does not matter, controlling fields are untouched |
| Normalization.SetDefaults | core/audit_entries.py:588-592 | the default loop is the fold that `Normalization.Defaulted` speaks of |
| Normalization.Defaulted | core/audit_entries.py:588-592 | whatever the order of the headers, each blank field that applies ends with its default, but that an external circuit may be marked by an architecture that was defaulted before it |
| Normalization.DefaultRules | core/audit_entries.py:588-592 | defaults change nothing the rules look at, but for hiding the external circuits |
| Normalization.FillBlanks | core/audit_entries.py:610-615 | what is still blank is marked, or left empty in the four columns that may be |
| Normalization.Normalize | core/audit_entries.py:580-615 | all stages in a row give each field a value told from the entry as it came, whatever the order of the headers; the `Outcomes` rows below tell these values in the words of the application |
| Outcomes.GripperCells | core/audit_field_rules.py:281-282 | after all stages a filled gripper cell is kept exactly when the EOAT type says hybrid, mechanical or gripper, or is a named type other than vacuum that is not left open; otherwise it says N/A |
| Outcomes.CupCells | core/audit_field_rules.py:279-280 | a filled cup cell is kept for every type but a pure gripper |
| Outcomes.CupMaterials | core/audit_entries.py:593-600 | and so is a filled cup material |
| Outcomes.RobotCells | core/audit_field_rules.py:275-276 | filled robot circuits are kept unless the architecture is external only |
| Outcomes.ExternalCells | core/audit_field_rules.py:277-278 | filled external circuits are kept unless it is robot only |
| Outcomes.AuditCells | core/audit_field_rules.py:272-273 | date and auditor are kept unless the row is a compatible one |
| Outcomes.SensorCells | core/audit_field_rules.py:283-289 | part detection and vacuum confirmation are kept unless there are no sensors, the latter not for a pure gripper |
| Outcomes.SensorTypes | core/audit_entries.py:712-732 | a filled sensor type is kept unless there are no sensors, and gives way to the usual one when parts are detected and it is left open |
| Outcomes.SensorBrands | core/audit_entries.py:712-732 | and so is a filled sensor brand |
| Outcomes.ElectricalCells | core/audit_field_rules.py:290-296 | electrical details are kept unless the wiring is denied, the disconnect also not without quick disconnects; on a sheet without the wiring column they are kept when they mean something |
| Outcomes.PneumaticCells | core/audit_field_rules.py:295-296 | the pneumatic disconnect is kept unless there are no quick disconnects |
| Outcomes.OtherCells | core/audit_field_rules.py:271-297 | every other filled cell is kept, but for the two that are worked out |
| Outcomes.CylinderTypes | core/audit_field_rules.py:304-314 | the cylinder type with and without cylinders |
| Outcomes.Changeovers | core/audit_entries.py:602-609 | an open changeover difficulty is low for ATI and medium for a dovetail |
| Outcomes.PresetCells | core/audit_entries.py:588-615 | the blank cells that take a text, or stay empty, whatever the rest of the entry says |
| Outcomes.SensedCells | core/audit_entries.py:588-592 | the blank cells that take a text where their field applies |
| Outcomes.BlankCups | core/audit_entries.py:594-600 | a blank cup material becomes silicone for vacuum, hybrid and open types |
| Outcomes.BlankSensors | core/audit_entries.py:726-732 | blank sensor details take the usual text where parts are detected |
| Outcomes.MarkedCells | core/audit_entries.py:610-615 | every other blank cell is marked |
| Normalization.GripperClears | core/audit_entries.py:594-600 | a gripper's cup material is marked before the silicone reset could see it |
| Settling.RulesAfter | core/audit_entries.py:580-615 | a pass changes nothing the rules look at, but that a blank architecture hides the external circuits |
| Settling.FieldSettles | core/audit_entries.py:580-615 | a second pass keeps each field, the external circuits when the architecture was given |
| Settling.SettlesWhen | core/audit_entries.py:580-615 | in any lawful vocabulary, normalising again changes nothing exactly when an architecture was given or no external circuit was; a third pass never changes anything |
| Settling.SettlesInPractice | core/audit_entries.py:580-615 | the same in the words of the application |
| Settling.UnsettledChanges | core/audit_entries.py:580-615 | an entry with an external vacuum circuit and no architecture changes when it is normalised again |
| Upserts.MergeKeeps | core/audit_entries.py:1817-1838 | when what decides on it was supplied or stands to its left, a field comes out marked if the saved row rules it out, and an omitted one keeps its filled cell |
| Upserts.LateEntryType | core/audit_entries.py:1817-1838 | with the entry type omitted and to the right, date and auditor come out wrong exactly when the row was compatible, the data said otherwise and there was something to keep |
| Upserts.LateEntryTypeFails | core/audit_entries.py:1673-1838 | an audit with every required field filled in and its entry type left out, saved over a compatible row in the order of columns of the schema: the row stays compatible and gets the auditor |
| Upserts.SavedChangesOneRow | core/audit_entries.py:1790-1848 | a save changes at most one row, none when the ID is there and updating is off; the row had the ID or was empty; Audit IDs stay unique |
| Upserts.Sheet.FindRow | core/workbook_io.py:57-65 | the first row with the value |
| Upserts.Sheet.NextEmptyRow | core/workbook_io.py:68-73 | the first empty row, or the one after the last |
| Upserts.Sheet.WriteRow | core/workbook_io.py:76-97 | the cells under the headers that the data have, and no other |
| Upserts.Sheet.Merge | core/audit_entries.py:1822-1838 | the merge loop, reading the data it changes |
| Upserts.Sheet.Save | core/audit_entries.py:1790-1848 | the upsert in place |
| Tokens.TokenSettles | core/audit_compatibility.py:332-346 | a machine name is stable after two normalisations, and after one unless a prefixed number has leading zeros |
| Tokens.PressKeepsZeros | core/audit_compatibility.py:332-346 | "press 07" is normalised to "07" and then to "7" |
| Tokens.KeysAreCanonical | core/audit_compatibility.py:349-374 | the key of a machine read from a list is canonical |
| Tokens.CollectedDistinct | core/audit_compatibility.py:349-370 | the machines of a list are distinct and each comes from one of its parts |
| Tokens.MachinesOfOne | core/audit_compatibility.py:349-370 | a canonical name stands for itself alone |
| TokenLaws.TokenTold | core/audit_compatibility.py:332-346 | a whole number loses its leading zeros and a zero fraction, a number behind a word for a machine stands for itself, any other name stays |
| TokenLaws.PrefixedWhen | core/audit_compatibility.py:343-345 | there are four such words, in any case |
| TokenLaws.NumberWhen | core/audit_compatibility.py:343-345 | between the word and the number there are spaces, a dash or a hash if any, and spaces |
| TokenLaws.WholeWhen | core/audit_compatibility.py:340-342 | a whole number is digits, with a point and zeros behind it if any |
| TokenLaws.ToolTold | core/audit_compatibility.py:289-296 | six words and blanks name no tool, a number loses a zero fraction, any other name stays |
| TokenLaws.MachinesTold | core/audit_compatibility.py:356-364 | the machines of a list are the normalised names between its commas, each once |
| TokenLaws.JoinSplit | core/audit_compatibility.py:357 | the parts of a text have no separator and put together give the text |
| Relationships.UnderAre | core/audit_compatibility.py:1322-1333 | a row is listed under a key exactly when it is one of the row's own |
| Relationships.KeysInAre | core/audit_compatibility.py:1322-1333 | a row has the keys of its part number on the machines of its press column, and none without a part number |
| Relationships.FirstTextTold | core/audit_compatibility.py:382-395 | of several columns the first that holds a text counts |
| Relationships.Summarize | core/audit_compatibility.py:1322-1333 | the dictionary holds exactly the keys with rows, and under each its rows |
| Relationships.RequiredSound | core/audit_compatibility.py:1255-1281 | loaded relationships have distinct keys, canonical machines and parts that mean something |
| Relationships.RequiredTold | core/audit_compatibility.py:1242-1288 | a key is required exactly when a capacity row names it, and its relationship has machine, part and description of the first row that does |
| AuditIds.IdsDiffer | core/audit_compatibility.py:1403-1411 | IDs with different numbers differ |
| AuditIds.PaddedLength | core/audit_compatibility.py:1405-1408 | up to 999 a number has three digits, beyond that no zeros in front |
| AuditIds.Highest | core/audit_compatibility.py:1393-1402 | the highest number read off the IDs of the day |
| AuditIds.FirstFree | core/audit_compatibility.py:1405-1410 | the search for a free ID ends, at the first one |
| AuditIds.GenerateAuditIds | core/audit_compatibility.py:1393-1411 | as many IDs as asked for, none taken, no two alike |
| Coverage.Cover | core/audit_progress.py:325-340 | the four key sets of the report, computed by way of the dictionary, are those of the rows |
| Coverage.CoverageAddsUp | core/audit_progress.py:337-340 | covered and remaining add up to required |
| Coverage.MoreRowsCoverMore | core/audit_progress.py:325-340 | one more inventory row, anywhere, uncovers nothing |
| Coverage.CoverMachines | core/audit_progress.py:491-519 | one line for each machine, counting its keys |
| Coverage.MachinesAddUp | core/audit_progress.py:491-522 | required, audited, compatible, covered and remaining of the lines add up to those of the whole report |
| Coverage.LineTells | core/audit_progress.py:491-522 | the line of a machine tells how many of its required keys there are, have an audited row, have a compatible row, have either, and have none |
| Coverage.MachinesPartition | core/audit_progress.py:405-413 | full, partial and uncovered machines are all machines, each counted once |
| Coverage.ReportMissing | core/audit_progress.py:522-542 | the available opportunities are the missing keys whose part has an audited source |
| Coverage.ReportOpportunities | core/audit_progress.py:545-570 | each such key is listed once, under its part |
| Coverage.OpportunitiesAddUp | core/audit_progress.py:416-418 | the machines listed over all opportunities are as many as the opportunities said to be available |
| Creation.CreateWhen | core/audit_compatibility.py:560-591 | an entry is created exactly when no row has the key |
| CreationEffects.ActionTold | core/audit_compatibility.py:560-591 | each of the five actions by its exact condition on the rows with the key: none; contradicting one another or the description wanted; else one of them audited; else all giving this source; else one giving another |
| CreationEffects.RequestTold | core/audit_compatibility.py:511-558 | each refusal of a request by its exact condition, and what it asks for otherwise: the required relationships of the part of the first row with the ID, on the machines chosen |
| Creation.ActionsAddUp | core/audit_compatibility.py:707-715 | every chosen candidate is counted under one action |
| Creation.DerivedKey | core/audit_compatibility.py:750-769 | a derived row has the key of its relationship, no other, and counts as compatible |
| Creation.RowsAreMade | core/audit_compatibility.py:748-768 | each row that is added is a compatible one on its machine, has its new ID, and gives the source asked for; the rows before it stay |
| CreationEffects.DerivedDescription | core/audit_compatibility.py:755-757 | its description is that of its relationship, or else the source's |
| CreationEffects.DerivedMarks | core/audit_compatibility.py:750-769 | its EOAT type is the source's, and a cell that would be blank is marked |
| CreationEffects.NewIdsAreNew | core/audit_compatibility.py:743-748 | its ID is that of no row that was there, and of no other new one |
| Creation.CreatingCovers | core/audit_compatibility.py:748-770 | creating k rows raises the compatible keys by k and lowers the missing ones by k, the audited ones stay |
| Creation.CreatingAgain | core/audit_compatibility.py:677-807 | the same request afterwards creates nothing |
| CreationEffects.LinkedHereAfter | core/audit_compatibility.py:560-591 | a relationship just created is linked to this source when one asks again |
| CreationEffects.AskedAgain | core/audit_compatibility.py:560-591 | for loaded relationships: asking again, all those created are linked to this source, and every other candidate calls for what it called for before |
| Creation.Tally | core/audit_compatibility.py:707-715 | created, audited, compatible and conflicting candidates add up to those chosen |
| Creation.Inventory.CreateEntries | core/audit_compatibility.py:677-807 | a failed request changes nothing; otherwise one row is added for each relationship to be created, a compatible one on its machine that gives the source asked for, under fresh, distinct IDs, and the counts add up |
| OffMachine.PlaceholderNamesNone | core/audit_compatibility.py:62-86 | a machine cell that counts as missing names no machine |
| OffMachine.FilledStaysEquivalent | core/audit_compatibility.py:1606-1641 | filling in a row takes no match away from it |
| OffMachine.NewRowEquivalent | core/audit_compatibility.py:1662-1689 | a new row stands for its match |
| OffMachine.PassAddsUp | core/audit_compatibility.py:1134-1150 | the duplicates, counted as the loop meets them, and the created rows add up to the matches gone through |
| OffMachine.PassSorts | core/audit_compatibility.py:1134-1150 | each match ends up with an equivalent row or is to be created, and one that had such a row all along is not created |
| OffMachine.MatchesAddUp | core/audit_compatibility.py:1096-1161 | created rows, counted duplicates and the saved row, if it was brought to a machine, add up to the matches |
| OffMachine.AppliedCovers | core/audit_compatibility.py:1096-1161 | afterwards every machine found has a row with the tool and the EOAT of the audit |
| OffMachine.AddingAgain | core/audit_compatibility.py:1096-1161 | adding only, a second time, creates nothing |
| OffMachine.OffMachineSheet.FindEquivalent | core/audit_compatibility.py:1564-1589 | exactly the equivalent rows, each once |
| OffMachine.OffMachineSheet.FillDuplicates | core/audit_compatibility.py:1592-1641 | in each duplicate of a match a cell that says something stays, a placeholder takes what the match has, context and verification that are open are set by the kind of the row; every other row stays |
| OffMachine.OffMachineSheet.ApplyChoice | core/audit_compatibility.py:1084-1166 | the choice in place, with its counters raised as the loop goes and fresh IDs; no row that was there before loses anything it says |
| OffMachine.AppliedKeepsFilled | core/audit_compatibility.py:1592-1641 | whatever is chosen, no filled cell, context or verification of a row that was there before changes, nor its ID, tool, EOAT or kind |
| OffMachineEffects.MissingWhen | core/audit_compatibility.py:62-86 | the twenty-three words that count as missing |
| OffMachineEffects.EquivalentWhen | core/audit_compatibility.py:1564-1589 | which rows stand for a machine and a tool |
| OffMachineEffects.ChoiceSettles | core/audit_compatibility.py:1112-1152 | after all matches were gone through, a placeholder of any row but the saved one holds the value of a match that the row fits, if one has a value; every other cell is what it was; a row that fits a match is annotated by its kind, and one that fits none is untouched |
| OffMachineEffects.SavedRow | core/audit_compatibility.py:1112-1133 | the saved row is brought to the first machine exactly when that was asked for and no other row stands for it, and is untouched otherwise |
| OffMachineEffects.AddedRows | core/audit_compatibility.py:1662-1689 | each added row is a compatible one with its new ID, the values of its match where there are any and the source's elsewhere, no blank cell, and no machine in the other columns |
| OffMachineEffects.NewIdsAreNew | core/audit_compatibility.py:1157 | and their IDs are those of no row that was there |
| OffMachineEffects.ChangesWhen | core/audit_compatibility.py:1606-1641 | when bringing a row to a machine counts as a change |
| Sync.LinksAreProtected | core/audit_compatibility.py:243-269 | ID, entry type and link are never copied |
| Sync.SyncedEffect | core/audit_compatibility.py:609-674 | unprotected fields of linked rows equal the source, nothing else changes, links stay, a second sync does nothing |
| SyncEffects.ComesOver | core/audit_compatibility.py:243-269 | a column comes over exactly when it is none of the sixteen protected ones, by name, and its own name is not blank and does not speak of the row itself |
| SyncEffects.SyncedColumn | core/audit_compatibility.py:609-674 | under the columns of its machine, its links and its place a linked row keeps its own cell; under every other it has the source's |
| SyncEffects.SyncKeepsMachines | core/audit_compatibility.py:243-250 | every row keeps its machines, whichever of the four columns they stand in |
| SyncEffects.ToolColumnsComeOver | core/audit_compatibility.py:1363-1369 | the EOAT type and the six columns of part numbers come over |
| SyncEffects.WrittenRow | core/audit_compatibility.py:609-674 | read as the relationships read it, a linked row keeps ID, machines, kind and source, and takes part numbers and EOAT type of its source |
| SyncEffects.SyncKeepsCoverage | core/audit_compatibility.py:609-674 | when linked rows share the part number of their source, a sync changes no relationship of any row and neither kind of coverage |
| SyncEffects.CreatedAreSynced | core/audit_compatibility.py:609-807 | the rows created for a source are rows that the sync from that source writes to, and keep their ID and machine when it does |
| SyncEffects.SyncsWhen | core/audit_compatibility.py:629-642 | a sync takes place exactly when the three columns are there and the first row with the ID is not a compatible one |
| Sync.Sheet.FindAuditRow | core/audit_compatibility.py:1372-1379 | the first row with the ID |
| Sync.Sheet.SyncFromSource | core/audit_compatibility.py:609-674 | the sync in place: the rows it leaves, how many it updates and skips, and when it reports the source as missing |
| Sync.Sheet.CopyFields | core/audit_compatibility.py:660-663 | the loop over the fields of one row |
| AtlasLoader.GroupRows | core/atlas_data_loader.py:345-348 | each group holds exactly its rows, and each group comes up once |
| AtlasLaws.GroupsTold | core/atlas_data_loader.py:726-733 | rows belong together when their EOAT IDs are equal, without those when their Audit IDs are, and a row without either stands alone |
| AtlasLaws.NamesTold | core/atlas_data_loader.py:736-743 | what the record of a row is called |
| AtlasLaws.PrimaryIsFirst | core/atlas_data_loader.py:746-747 | of the rows of a record the first of the fullest is its primary row |
| AtlasLoader.EachRowOnce | core/atlas_data_loader.py:345-416 | each inventory row lands in exactly one EOAT record |
| AtlasLoader.BuildEoats | core/atlas_data_loader.py:338-416 | an EOAT's tools are its rows'; its machines are its rows' and the capacity machines of all its tools |
| AtlasLoader.BuildTools | core/atlas_data_loader.py:491-547 | a tool is called by the whole tool cell of its first row, or the part of its first capacity row; its machines are its capacity machines and those of every EOAT that carries it; its EOATs are the ones that carry it |
| AtlasLoader.EoatReaches | core/atlas_data_loader.py:379-382 | the machines of an EOAT, told from rows and capacity alone |
| AtlasLoader.ToolReaches | core/atlas_data_loader.py:338-547 | the machines of a tool, told from rows and capacity alone, across both builders |
| AtlasLoader.BuildIndex | core/atlas_data_loader.py:550-591 | looking a key up in an index that lists several names gives what a scan of the records gives |
| AtlasBundles.BuildMachines | core/atlas_data_loader.py:419-488 | a record for each machine that a row, capacity or the robot list names, with the tools of its rows and capacity and the EOATs that list it |
| AtlasLaws.MachinesTold | core/atlas_data_loader.py:419-434 | the machines that get a record, from rows, capacity and robot list |
| AtlasBundles.BuildIndexes | core/atlas_data_loader.py:550-591 | all six indexes: three say what a scan says, three hold the last record with each key |
| AtlasBundles.BuiltIsGood | core/atlas_data_loader.py:550-591 | with lawful keys, the indexes of a bundle so built are true, and it is as the offers assume exactly when its keys are unique |
| AtlasBundles.Load | core/atlas_data_loader.py:254-257 | records and indexes, one builder after the other, make the bundle of the rows |
| AtlasLaws.EntriesTold | core/atlas_data_loader.py:338-547 | each record of the bundle lists exactly what was found for it, each name once |
| AtlasBundles.LoadedIsClosed | core/atlas_data_loader.py:419-591 | every EOAT that a record or an index of a loaded bundle names has a record |
| AtlasNames.MachinesAreUnique | core/atlas_data_loader.py:430-445 | the machines of a loaded bundle are told apart exactly when the names in its sources are |
| AtlasNames.ToolsAreUnique | core/atlas_data_loader.py:512-516 | the tools of a loaded bundle are told apart exactly when what they are called, a cell or a part, has different keys for different tools |
| AtlasNames.CellsTellTools | core/atlas_data_loader.py:512-516 | a tool is called by its own key exactly when the cell of its first row has it; on a sheet whose cells name one tool each, tools are told apart |
| AtlasNames.SharedCellClashes | core/atlas_data_loader.py:491-547 | two tools whose first rows have one and the same cell, filled or blank, are called alike, and tools are not told apart |
| AtlasNames.EoatsAreUnique | core/atlas_data_loader.py:698-716 | the EOATs of a loaded bundle are told apart exactly when what their groups are called has different keys, in whatever order the records are |
| AtlasNames.IdsTellEoats | core/atlas_data_loader.py:698-716 | on a sheet whose rows all have an EOAT ID, that is so exactly when different IDs have different keys |
| AtlasNames.LoadedIsGood | core/atlas_data_loader.py:254-257 | told from the sources: when a loaded bundle is as the offers assume |
| AtlasNames.NotToldBack | core/atlas_setup_packets.py:209-283 | of a tool that shares its name, exactly those machines are told only from their side that no record lists but ones between the first and the last with that name, and exactly those EOATs that only records behind the first list |
| AtlasExamples.SharedCell | core/atlas_data_loader.py:491-547 | two tools in one cell, loaded: they are called alike, and an EOAT that carries only the second is told to fit their name but is not among those told of it |
| Atlas.ShownKeys | core/atlas_setup_packets.py:864-876 | a display list has exactly the keys of its values, each shown under a text with that key |
| Atlas.Show | core/atlas_setup_packets.py:864-876 | the loop that fills it |
| Atlas.ToolsForMachineAre | core/atlas_setup_packets.py:209-219 | the tools offered for a machine are those related to it |
| Atlas.MachinesForToolAre | core/atlas_setup_packets.py:235-245 | the machines offered for a tool are related to it, and with unique tools they are all of them |
| Atlas.EoatsForToolAre | core/atlas_setup_packets.py:248-258 | the EOATs offered for a tool are related to it, and with unique tools they are all of them |
| Atlas.ToolsForEoatAre | core/atlas_setup_packets.py:261-270 | the tools offered for an EOAT are those related to it |
| Atlas.EoatsForMachineAre | core/atlas_setup_packets.py:222-232 | the EOATs offered for a machine are those related to it |
| Atlas.MachinesForEoatAre | core/atlas_setup_packets.py:273-283 | the machines offered for an EOAT are those related to it |
| Atlas.CompatibilityIsSymmetric | core/atlas_setup_packets.py:209-283 | machines and EOATs are offered both ways, and what is offered for a tool is offered the other way; with unique tools everything is offered both ways |
| AtlasSetup.Intersection | core/atlas_setup_packets.py:825-833 | the narrowing loop keeps what stands in every group, up to case |
| AtlasSetup.AllowedByTwo | core/atlas_setup_packets.py:825-833 | a key gets through two groups exactly when both have it under one text, up to case |
| AtlasSetup.ConfirmedWhen | core/atlas_setup_packets.py:349-420 | without override a setup is confirmed exactly when its records exist and all three links are listed |
| AtlasSetup.StatusTellsLinks | core/atlas_setup_packets.py:656-673 | the other outcomes tell how many links are confirmed and whether something speaks against one |
| AtlasSetup.OfferedWhen | core/atlas_setup_packets.py:328-346 | which EOATs are offered for a machine and a tool |
| AtlasLaws.ToolsOffered | core/atlas_setup_packets.py:286-304 | which tools are offered: all of them when nothing is picked or unconfirmed links are let through, otherwise those that everything picked lists, under one text up to case |
| AtlasLaws.MachinesOffered | core/atlas_setup_packets.py:307-325 | the same for machines |
| AtlasLaws.EoatsOffered | core/atlas_setup_packets.py:328-346 | the same for EOATs |
| AtlasLaws.LinksTold | core/atlas_setup_packets.py:349-420 | each status by its exact condition on the three links: which of them have data, and which are listed |
| AtlasSetup.SelectionIsSound | core/atlas_setup_packets.py:286-420 | whatever is picked from the lists validates as confirmed |
| AtlasSetup.SelectionFromToolIsSound | core/atlas_setup_packets.py:307-420 | so does a machine picked for a tool, whose name others may share, and for one of its EOATs |
| AtlasSetup.SelectionMisses | core/atlas_setup_packets.py:328-346 | an EOAT that validates is offered exactly when both lists show it under one text, up to case |
| AtlasSetup.SelectionIsComplete | core/atlas_setup_packets.py:286-420 | when EOATs are told apart by their keys, and every EOAT that is named has a record, whatever validates is offered |
| AtlasBundles.LoadedSelection | core/atlas_setup_packets.py:286-420 | in a loaded bundle with lawful keys whose EOATs are told apart, tool and EOAT are offered exactly when the setup validates as confirmed, whatever names tools share |
| AtlasKeys.KeysAreLawful | core/atlas_utils.py:25-51 | the lookup keys of tools, machines and EOATs depend neither on case nor on display |
| AtlasLaws.KeyCharsTold | core/atlas_utils.py:38-39 | a key keeps the letters and digits of a text, one by one and in order, and nothing else |
| AtlasLaws.AssemblyIdTold | core/eoat_ids.py:117-132 | an assembly ID in any case is written with its prefix in capitals, any other text stays |
| AtlasKeys.EoatIsPlain | core/eoat_ids.py:117-132 | normalising an EOAT ID changes nothing that its key looks at |
| AtlasExamples.SelectionIsNotComplete | core/atlas_setup_packets.py:825-833 | two rows whose EOAT IDs share a key, loaded: a setup with the first is confirmed, and it is not offered |
| AtlasExamples.ExamplesArise | core/atlas_utils.py:25-51 | in the keys of the application "A" and "A-" are such IDs, and "S; T" such a cell |

## Assumptions

- SHA-256 is an uninterpreted function and Ed25519 (section 5.1 of RFC 8032) an ideal scheme; base64 is part of the
  signature check. `Version.parse` is a partial function into a total order. The JSON conversions of Python are
  functions with the laws stated as `Manifests.Lawful`.
- The smoke and health runners may do anything but touch a file that validation reads (`LauncherService.Harmless`).
  That holds for every package that does not list the two receipt files the runners write.
- Launcher versions are plain directory names that do not start with `.staging-`, and renaming onto an existing
  directory raises, as it does on Windows.
- Nothing checks under a trusted key but what its holders signed, and manifests with different payloads have different
  canonical bytes (`Manifests.OnlyIssued`): what an unforgeable signature is relied on for.
- Gripper presets are a function from a text to a text; that a second repair changes nothing rests on part numbers not
  being names of presets (`GripperCells.Settled`).
- How the loader sorts records and names is a parameter that keeps what there is, as often as it is there
  (`AtlasBundles.Keeps`).
- Worksheet cells are text, with an empty cell and the empty text taken for one. A sheet is as wide as its header row.
- Upper and lower case are those of ASCII letters, and digits are the ASCII digits.
- No machine of press capacity is named like one of the placeholder words ("bench", "unknown" and so on).
- The Atlas modules speak of any lawful keys; `AtlasKeys` proves that those of the application are.

## Left out

- Zip extraction, downloads, subprocesses, the temporary work directory and the diagnostics in receipts: I/O.
- LauncherService.BootstrapService.Update: an I/O error inside one atomic write is an exception before or after that write, not a half-written file.
- ShortcutMigration.Migrator.MigrateShortcut: an I/O error between two of its writes is a crash of the machine, not a FAILED_RECOVERABLE result.
- Tokens.TokenSettles: numbers of more than 15 digits, which the code rounds through a float, are kept exact here.
- Tokens.CollectedDistinct: machine lists are in reading order, not sorted by number; only display and the pairing of new IDs with machines depend on it.
- Relationships.RequiredSound: the capacity workbook is read as rows of part, description and machines; header aliases and sorting are not modelled.
- Percent.UnquoteQuote: texts are sequences of Unicode scalar values, so Python's lone surrogates, which `quote` rejects, do not occur.
- FieldLinks.Parse: links given as a mapping or as a ready link are not modelled, only text.
- Worksheets.Worksheet.EnsureHeaders: styles, ranges and validations of the sheet are not modelled.
- Normalization.Normalize: the steps before the clearing loop (generated IDs, dates, context inference, gripper presets, uninstalled audits) are not modelled; they fill fields that the later stages treat like any other.
- Upserts.Sheet.Save: starts from the normalised data; validation, backups, schema repair, the follow-up sync and styling are not part of it.
- Creation.Inventory.CreateEntries: new rows are put behind the rows that hold something; filling a gap in the middle of the sheet is not modelled, nor are the columns that no relationship is read from.
- OffMachine.OffMachineSheet.ApplyChoice: the count of existing rows that were updated, the "leave" choice and the lookup of machine data are not modelled.
- Sync.Sheet.SyncFromSource: starts from a sheet that `Worksheets.Worksheet.EnsureHeaders` has repaired, gripper cells included.
- AtlasLoader.BuildEoats: photos, documentation scores, warnings and the descriptive fields of the records are not modelled.
- AtlasLoader.BuildTools: the parts and the other descriptive fields of a tool are not modelled.
- AtlasBundles.BuildMachines: the robot, the parts, the current EOAT and the warnings of a machine are not modelled, nor is leaving out unaudited tools.
- Coverage.CoverMachines: the rounded percentage of a line is not modelled.
- Atlas.Show: display lists are dictionaries by key; sorting them by key is left out.
- Search, recommendations, exports, reports, the Audit by Press sheet and the command line: formatting or constant weights.
