/** Saving an audit: the row with its Audit ID is changed, or a new one is written (core/audit_entries.py,
    core/workbook_io.py). */
module Upserts {
  import opened Wrappers
  import opened Columns
  import opened Text
  import opened Vocabulary
  import opened FieldRules

  type Row = seq<string>

  /* ---- Merging with the row that is there ---- */

  /** One column of the merge: a field that was not supplied and applies keeps what the row has; a field that
      does not apply is marked. Whether it applies is judged on the data as they are by then. */
  function MergeColumn(w: Words, f: Field, cell: string, supplied: set<Field>, data: Entry): (d: Entry)
    ensures d.Keys == data.Keys
  {
    if f in data && f !in supplied && Applies(w, data, f) && !w.blank(cell) then data[f := cell]
    else if f in data && !Applies(w, data, f) then data[f := w.na]
    else data
  }

  /** The data after the first `k` columns. */
  function MergeTo(w: Words, headers: seq<Field>, row: Row, supplied: set<Field>, data: Entry, k: nat): (d: Entry)
    requires k <= |headers| == |row|
    ensures d.Keys == data.Keys
  {
    if k == 0 then data
    else MergeColumn(w, headers[k - 1], row[k - 1], supplied, MergeTo(w, headers, row, supplied, data, k - 1))
  }

  function Merged(w: Words, headers: seq<Field>, row: Row, supplied: set<Field>, data: Entry): (d: Entry)
    requires |headers| == |row|
    ensures d.Keys == data.Keys
  {
    MergeTo(w, headers, row, supplied, data, |headers|)
  }

  /** A column is only touched at its turn. */
  lemma {:induction false} Untouched(w: Words, headers: seq<Field>, row: Row, supplied: set<Field>, data: Entry,
                                     f: Field, j: nat, k: nat)
    requires j <= k <= |headers| == |row| && f !in headers[j..k]
    ensures Get(MergeTo(w, headers, row, supplied, data, k), f) == Get(MergeTo(w, headers, row, supplied, data, j), f)
  {
    hide Applies, MergeColumn, Get;
    if j < k {
      assert headers[j..k - 1] == headers[j..k][..k - 1 - j];
      assert headers[k - 1] == headers[j..k][k - 1 - j];
      Untouched(w, headers, row, supplied, data, f, j, k - 1);
      MergeColumnAt(w, headers[k - 1], row[k - 1], supplied, MergeTo(w, headers, row, supplied, data, k - 1), f);
    }
  }

  /** A controlling field that was supplied is never touched. */
  lemma {:induction false} SuppliedControl(w: Words, headers: seq<Field>, row: Row, supplied: set<Field>, data: Entry,
                                           c: Field, k: nat)
    requires k <= |headers| == |row| && Controls(c) && c in supplied
    ensures Get(MergeTo(w, headers, row, supplied, data, k), c) == Get(data, c)
  {
    hide Applies, Controls, MergeColumn;
    if k > 0 {
      SuppliedControl(w, headers, row, supplied, data, c, k - 1);
      var before := MergeTo(w, headers, row, supplied, data, k - 1);
      ControlsApply(w, before, c);
      MergeColumnAt(w, headers[k - 1], row[k - 1], supplied, before, c);
    }
  }

  /** One round of the merging loop. */
  lemma MergeNext(w: Words, headers: seq<Field>, row: Row, supplied: set<Field>, data: Entry, k: nat)
    requires k < |headers| == |row|
    ensures var m, f, cell := MergeTo(w, headers, row, supplied, data, k), headers[k], row[k];
      MergeTo(w, headers, row, supplied, data, k + 1) ==
        if f in m && f !in supplied && Applies(w, m, f) && !w.blank(cell) then m[f := cell]
        else if f in m && !Applies(w, m, f) then m[f := w.na]
        else m
  {
    hide Applies;
  }

  /** What one column of the merge does to a field. */
  lemma MergeColumnAt(w: Words, h: Field, cell: string, supplied: set<Field>, data: Entry, f: Field)
    ensures Get(MergeColumn(w, h, cell, supplied, data), f) ==
      if h != f || f !in data then Get(data, f)
      else if Applies(w, data, f) then Outcome(w, f, cell, supplied, data) else w.na
  {
    hide Applies;
  }

  /** Which controlling field decides on which other. */
  predicate Governs(c: Field, f: Field)
  {
    match f
    case AuditDate | Auditor => c.EntryType?
    case RobotVacuum | RobotPressure | RobotInterchangeable => c.Architecture?
    case ExternalVacuum | ExternalPressure | ExternalInterchangeable => c.Architecture?
    case CupCount | CupMaterial | CupDiameter | VacuumGenerator => c.EoatType?
    case GripperCount | GripperType | GripperModel => c.EoatType?
    case SensorType | SensorBrand | PartPresent => c.SensorsPresent?
    case VacuumConfirmation => c.SensorsPresent? || c.EoatType?
    case CableManagement => c.ElectricalPresent?
    case ElectricalDisconnect => c.ElectricalPresent? || c.QuickPresent?
    case PneumaticDisconnect => c.QuickPresent?
    case _ => false
  }

  /** What governs a field is in both entries the same. */
  predicate Alike(e: Entry, g: Entry, f: Field)
  {
    && ElectricalPresent in e && ElectricalPresent in g
    && (Governs(EntryType, f) ==> Get(g, EntryType) == Get(e, EntryType))
    && (Governs(Architecture, f) ==> Get(g, Architecture) == Get(e, Architecture))
    && (Governs(EoatType, f) ==> Get(g, EoatType) == Get(e, EoatType))
    && (Governs(SensorsPresent, f) ==> Get(g, SensorsPresent) == Get(e, SensorsPresent))
    && (Governs(ElectricalPresent, f) ==> Get(g, ElectricalPresent) == Get(e, ElectricalPresent))
    && (Governs(QuickPresent, f) ==> Get(g, QuickPresent) == Get(e, QuickPresent))
  }

  /** With an electrical column, the governing fields alone decide whether a field applies. */
  lemma GovernedAlike(w: Words, e: Entry, g: Entry, f: Field)
    requires Alike(e, g, f)
    ensures Applies(w, g, f) == Applies(w, e, f)
  {
    hide Get, Governs, Allowed;
    RulesAlike(w, RulesOf(w, e), RulesOf(w, g), f, Get(e, f), Get(g, f));
  }

  /** Two sets of rules, each with an electrical column, that say the same of what governs a field. */
  predicate AgreeFor(r: Rules, q: Rules, f: Field)
  {
    && !r.wiring.NoColumn? && !q.wiring.NoColumn?
    && (Governs(EntryType, f) ==> q.compatible == r.compatible)
    && (Governs(Architecture, f) ==> q.hidesRobot == r.hidesRobot && q.hidesExternal == r.hidesExternal)
    && (Governs(EoatType, f) ==> q.kind == r.kind)
    && (Governs(SensorsPresent, f) ==> q.noSensors == r.noSensors)
    && (Governs(ElectricalPresent, f) ==> q.wiring == r.wiring)
    && (Governs(QuickPresent, f) ==> q.noQuick == r.noQuick)
  }

  lemma RulesAlike(w: Words, r: Rules, q: Rules, f: Field, own: string, other: string)
    requires AgreeFor(r, q, f)
    ensures Allowed(w, q, f, other) == Allowed(w, r, f, own)
  {
    hide Wired;
    if f.CableManagement? || f.ElectricalDisconnect? {
      WiredAlike(w, r, q, own, other);
    } else {
      UnwiredAlike(w, r, q, f, own, other);
    }
  }

  lemma UnwiredAlike(w: Words, r: Rules, q: Rules, f: Field, own: string, other: string)
    requires AgreeFor(r, q, f) && !f.CableManagement? && !f.ElectricalDisconnect?
    ensures Allowed(w, q, f, other) == Allowed(w, r, f, own)
  {
    hide Wired;
  }

  lemma WiredAlike(w: Words, r: Rules, q: Rules, own: string, other: string)
    requires !r.wiring.NoColumn? && !q.wiring.NoColumn? && q.wiring.NoWiring? == r.wiring.NoWiring?
    ensures Wired(w, q, other) == Wired(w, r, own)
  {
  }

  /** Each field that decides on the k-th column was supplied, or stands to its left, or is not in the sheet. */
  predicate Decided(headers: seq<Field>, supplied: set<Field>, k: nat)
    requires k < |headers|
  {
    forall c :: c in headers[k..] && Governs(c, headers[k]) ==> c in supplied
  }

  /** What a field that applies is left with. */
  function Outcome(w: Words, f: Field, cell: string, supplied: set<Field>, data: Entry): string
  {
    if f !in supplied && !w.blank(cell) then cell else Get(data, f)
  }

  /** The field at its turn, and at the end. */
  lemma AtItsTurn(w: Words, headers: seq<Field>, row: Row, supplied: set<Field>, data: Entry, k: nat)
    requires k < |headers| == |row| && Distinct(headers) && headers[k] in data
    ensures var before, f := MergeTo(w, headers, row, supplied, data, k), headers[k];
      && Get(before, f) == Get(data, f)
      && Get(Merged(w, headers, row, supplied, data), f)
         == if Applies(w, before, f) then Outcome(w, f, row[k], supplied, data) else w.na
  {
    hide Applies, Distinct, MergeColumn, Get;
    var f := headers[k];
    OnlyOnce(headers, k);
    Untouched(w, headers, row, supplied, data, f, 0, k);
    Untouched(w, headers, row, supplied, data, f, k + 1, |headers|);
    MergeColumnAt(w, f, row[k], supplied, MergeTo(w, headers, row, supplied, data, k), f);
    NothingMerged(w, headers, row, supplied, data);
  }

  lemma OnlyOnce(headers: seq<Field>, k: nat)
    requires k < |headers| && Distinct(headers)
    ensures headers[k] !in headers[k + 1..|headers|] && headers[k] !in headers[0..k]
  {
  }

  lemma ControlAtTurn(w: Words, headers: seq<Field>, row: Row, supplied: set<Field>, data: Entry, k: nat, c: Field)
    requires k < |headers| == |row| && Controls(c) && Decided(headers, supplied, k)
    ensures var before, d := MergeTo(w, headers, row, supplied, data, k), Merged(w, headers, row, supplied, data);
      Governs(c, headers[k]) ==> Get(d, c) == Get(before, c)
  {
    hide Controls, MergeTo, Governs, Get;
    if Governs(c, headers[k]) {
      if c in supplied {
        SuppliedControl(w, headers, row, supplied, data, c, k);
        SuppliedControl(w, headers, row, supplied, data, c, |headers|);
      } else {
        assert headers[k..|headers|] == headers[k..];
        Untouched(w, headers, row, supplied, data, c, k, |headers|);
      }
    }
  }

  /** When the fields that decide on it were supplied or stand to its left, a field comes out as it should by
      the row that is written: marked if it does not apply, and otherwise keeping what was there if it was not
      supplied. */
  lemma MergeKeeps(w: Words, headers: seq<Field>, row: Row, supplied: set<Field>, data: Entry, k: nat)
    requires k < |headers| == |row| && Distinct(headers)
    requires headers[k] in data && ElectricalPresent in data && Decided(headers, supplied, k)
    ensures var d := Merged(w, headers, row, supplied, data);
      Get(d, headers[k]) == if Applies(w, d, headers[k]) then Outcome(w, headers[k], row[k], supplied, data) else w.na
  {
    hide Applies, MergeTo, Merged, Outcome, Get, Distinct, Governs;
    var before, d := MergeTo(w, headers, row, supplied, data, k), Merged(w, headers, row, supplied, data);
    AtItsTurn(w, headers, row, supplied, data, k);
    ControlAtTurn(w, headers, row, supplied, data, k, EntryType);
    ControlAtTurn(w, headers, row, supplied, data, k, Architecture);
    ControlAtTurn(w, headers, row, supplied, data, k, EoatType);
    ControlAtTurn(w, headers, row, supplied, data, k, SensorsPresent);
    ControlAtTurn(w, headers, row, supplied, data, k, ElectricalPresent);
    ControlAtTurn(w, headers, row, supplied, data, k, QuickPresent);
    GovernedAlike(w, before, d, headers[k]);
  }

  /** An omitted entry type that stands to the right of the date or the auditor comes too late for them: they
      are left unmarked on a compatible row exactly when the row was compatible, the data said otherwise, and
      there was something to leave. */
  lemma LateEntryType(w: Words, headers: seq<Field>, row: Row, supplied: set<Field>, data: Entry, k: nat, m: nat)
    requires Lawful(w) && k < m < |headers| == |row| && Distinct(headers)
    requires (headers[k].AuditDate? || headers[k].Auditor?) && headers[m] == EntryType
    requires headers[k] in data && EntryType in data && EntryType !in supplied
    ensures var d := Merged(w, headers, row, supplied, data);
      Applies(w, d, headers[k]) || Get(d, headers[k]) == w.na <==>
      !(w.isCompatible(row[m]) && !w.isCompatible(data[EntryType])
        && Outcome(w, headers[k], row[k], supplied, data) != w.na)
    ensures var v := Get(Merged(w, headers, row, supplied, data), headers[k]);
      v == Outcome(w, headers[k], row[k], supplied, data) || v == w.na
  {
    hide MergeTo, Merged, RulesOf, Distinct, Governs;
    var before, d := MergeTo(w, headers, row, supplied, data, k), Merged(w, headers, row, supplied, data);
    AtItsTurn(w, headers, row, supplied, data, k);
    AtItsTurn(w, headers, row, supplied, data, m);
    DateApplies(w, before, headers[k]);
    DateApplies(w, d, headers[k]);
    EarlierOnce(headers, k, m);
    Untouched(w, headers, row, supplied, data, EntryType, 0, k);
    assert MergeTo(w, headers, row, supplied, data, 0) == data by { NothingMerged(w, headers, row, supplied, data); }
  }

  lemma EarlierOnce(headers: seq<Field>, k: nat, m: nat)
    requires k < m < |headers| && Distinct(headers)
    ensures headers[m] !in headers[0..k]
  {
  }

  lemma NothingMerged(w: Words, headers: seq<Field>, row: Row, supplied: set<Field>, data: Entry)
    requires |headers| == |row|
    ensures MergeTo(w, headers, row, supplied, data, 0) == data
  {
  }

  lemma DateApplies(w: Words, e: Entry, f: Field)
    requires f.AuditDate? || f.Auditor?
    ensures Applies(w, e, f) == !w.isCompatible(Get(e, EntryType))
  {
  }

  const PLANT := Other("Plant/Area")
  const PRESS := Other("Press/Machine #")
  const ROBOT := Other("Robot Type")
  const STATUS := Other("Status")

  /** The fields that must be filled in for an entry that is not a compatible one to be saved at all. */
  function Required(): set<Field>
  {
    {AuditDate, Auditor, PLANT, PRESS, ROBOT, EoatType, STATUS}
  }

  /** A sheet with the columns that matter, in the order of the schema. */
  function SmallSheet(): seq<Field>
  {
    [AuditId, AuditDate, Auditor, PLANT, PRESS, ROBOT, EoatType, ElectricalPresent, STATUS, EntryType]
  }

  function CompatibleRow(): Row
  {
    ["AUD-20260105-001", "N/A", "N/A", "P4", "7", "Yushin", "Vacuum", "Yes", "Complete", "Compatible"]
  }

  /** An audit of the same ID, as normalised: its entry type was left out, so that it counts as audited. */
  function NewAudit(): Entry
  {
    map[AuditId := "AUD-20260105-001", AuditDate := "2026-01-05", Auditor := "Kim", PLANT := "P4", PRESS := "7",
        ROBOT := "Yushin", EoatType := "Vacuum", ElectricalPresent := "Yes", STATUS := "Complete",
        EntryType := "Audited"]
  }

  lemma SmallSheetDistinct()
    ensures Distinct(SmallSheet())
  {
    assert PLANT.name[1] == 'l' && PRESS.name[1] == 'r' && ROBOT.name[1] == 'o' && STATUS.name[1] == 't';
  }

  /** A compatible row that is saved again with everything required of an audit, but without its entry type, ends
      up compatible and yet with an auditor. */
  lemma LateEntryTypeFails()
    ensures var w, supplied := Spoken(), Required() + {AuditId, ElectricalPresent};
            var d := Merged(w, SmallSheet(), CompatibleRow(), supplied, NewAudit());
      && (forall f :: f in Required() ==> f in SmallSheet() && f in NewAudit() && !Blank(NewAudit()[f]))
      && EntryType !in supplied && IsCompatible(Get(d, EntryType))
      && !Applies(w, d, Auditor) && Get(d, Auditor) == "Kim"
  {
    hide MergeTo, Merged, Applies, Lawful, Spoken, SmallSheet, NewAudit, CompatibleRow, Distinct, Blank, IsCompatible,
         Outcome, Get;
    var w, supplied := Spoken(), Required() + {AuditId, ElectricalPresent};
    SpokenIsLawful();
    EntryTypes();
    SmallSheetDistinct();
    SmallSheetParts();
    RequiredThere();
    RequiredFilled();
    EndsCompatible(w, supplied);
    Supplied(w, CompatibleRow()[2], supplied, NewAudit());
    LateEntryType(w, SmallSheet(), CompatibleRow(), supplied, NewAudit(), 2, 9);
  }

  lemma EndsCompatible(w: Words, supplied: set<Field>)
    requires EntryType !in supplied && !w.blank("Compatible")
    ensures |SmallSheet()| == |CompatibleRow()|
    ensures Get(Merged(w, SmallSheet(), CompatibleRow(), supplied, NewAudit()), EntryType) == "Compatible"
  {
    hide MergeTo, Merged, Applies, SmallSheet, NewAudit, CompatibleRow, Distinct;
    SmallSheetDistinct();
    SmallSheetParts();
    var before := MergeTo(w, SmallSheet(), CompatibleRow(), supplied, NewAudit(), 9);
    AtItsTurn(w, SmallSheet(), CompatibleRow(), supplied, NewAudit(), 9);
    ControlsApply(w, before, EntryType);
  }

  lemma SmallSheetParts()
    ensures |SmallSheet()| == |CompatibleRow()| == 10
    ensures SmallSheet()[2] == Auditor && SmallSheet()[9] == EntryType && CompatibleRow()[9] == "Compatible"
    ensures Auditor in NewAudit() && NewAudit()[Auditor] == "Kim"
    ensures EntryType in NewAudit() && NewAudit()[EntryType] == "Audited"
  {
  }

  lemma RequiredThere()
    ensures forall f :: f in Required() ==> f in SmallSheet()
  {
    hide NewAudit;
    var hs := SmallSheet();
    assert hs[1] in hs && hs[2] in hs && hs[3] in hs && hs[4] in hs && hs[5] in hs && hs[6] in hs && hs[8] in hs;
  }

  lemma RequiredFilled()
    ensures forall f :: f in Required() ==> f in NewAudit() && !Blank(NewAudit()[f])
  {
    hide Blank, Strip, Lower, Key;
    SaysSomething("2026-01-05");
    SaysSomething("Kim");
    SaysSomething("P4");
    SaysSomething("7");
    SaysSomething("Yushin");
    SaysSomething("Vacuum");
    SaysSomething("Complete");
  }

  lemma Supplied(w: Words, cell: string, supplied: set<Field>, data: Entry)
    requires Auditor in supplied && Auditor in data
    ensures Outcome(w, Auditor, cell, supplied, data) == data[Auditor]
  {
  }

  lemma EntryTypes()
    ensures IsCompatible("Compatible")
    ensures var w := Spoken();
      w.isCompatible("Compatible") && !w.isCompatible("Audited") && !w.blank("Compatible") && w.na == "N/A" != "Kim"
  {
    hide Key, Strip, Lower;
    KeyOf("Compatible");
    KeyOf("Audited");
    assert Lower("Compatible") == "compatible";
  }

  /* ---- Rows ---- */

  predicate Shaped(headers: seq<Field>, rows: seq<Row>)
  {
    forall i :: 0 <= i < |rows| ==> |rows[i]| == |headers|
  }

  /** The first row with a value in a column, or the number of rows. */
  function RowOf(rows: seq<Row>, column: nat, value: string, i: nat): (r: nat)
    requires i <= |rows| && forall k :: 0 <= k < |rows| ==> column < |rows[k]|
    ensures i <= r <= |rows| && (r < |rows| ==> rows[r][column] == value)
    ensures forall k :: i <= k < r ==> rows[k][column] != value
    decreases |rows| - i
  {
    if i == |rows| || rows[i][column] == value then i else RowOf(rows, column, value, i + 1)
  }

  predicate EmptyRow(row: Row)
  {
    forall c :: 0 <= c < |row| ==> row[c] == ""
  }

  /** The first row without a value, or the row after the last. */
  function NextEmpty(rows: seq<Row>, i: nat): (r: nat)
    requires i <= |rows|
    ensures i <= r <= |rows| && (r < |rows| ==> EmptyRow(rows[r]))
    ensures forall k :: i <= k < r ==> !EmptyRow(rows[k])
    decreases |rows| - i
  {
    if i == |rows| || EmptyRow(rows[i]) then i else NextEmpty(rows, i + 1)
  }

  /** `write_row_by_headers`: the cells under the headers that the data have. */
  function Written(headers: seq<Field>, row: Row, data: Entry): (r: Row)
    requires |row| == |headers|
    ensures |r| == |headers|
  {
    seq(|headers|, c requires 0 <= c < |headers| => if headers[c] in data then data[headers[c]] else row[c])
  }

  /** No two rows have the same Audit ID, unless it is empty. */
  ghost predicate UniqueIds(headers: seq<Field>, rows: seq<Row>)
    requires Shaped(headers, rows) && AuditId in headers
  {
    var id := Index(headers, AuditId);
    forall i, j :: 0 <= i < j < |rows| && rows[i][id] == rows[j][id] ==> rows[i][id] == ""
  }

  /** What a save leaves: the rows, and whether it went through. */
  function Saved(w: Words, headers: seq<Field>, rows: seq<Row>, data: Entry, supplied: set<Field>, allowUpdate: bool)
    : (r: (seq<Row>, bool))
    requires Shaped(headers, rows) && AuditId in headers && AuditId in data
    ensures Shaped(headers, r.0)
  {
    var at := RowOf(rows, Index(headers, AuditId), data[AuditId], 0);
    if at < |rows| then
      if !allowUpdate then (rows, false)
      else
        (rows[at := Written(headers, rows[at], Merged(w, headers, rows[at], supplied, data))], true)
    else
      var empty := NextEmpty(rows, 0);
      if empty < |rows| then (rows[empty := Written(headers, rows[empty], data)], true)
      else (rows + [Written(headers, seq(|headers|, _ => ""), data)], true)
  }

  /** The Audit ID comes through the merge. */
  lemma IdStays(w: Words, headers: seq<Field>, row: Row, supplied: set<Field>, data: Entry)
    requires |row| == |headers| && Distinct(headers) && AuditId in headers && AuditId in data
    requires row[Index(headers, AuditId)] == data[AuditId]
    ensures Merged(w, headers, row, supplied, data)[AuditId] == data[AuditId]
  {
    hide MergeTo, Merged, Distinct, Index, RulesOf;
    AtItsTurn(w, headers, row, supplied, data, Index(headers, AuditId));
  }

  /** A save changes at most one row, and no row when the Audit ID is there and updating is off. The row it
      changes had the Audit ID, or had nothing; and Audit IDs stay unique. */
  lemma SavedChangesOneRow(w: Words, headers: seq<Field>, rows: seq<Row>, data: Entry, supplied: set<Field>,
                           allowUpdate: bool)
    requires Shaped(headers, rows) && Distinct(headers) && AuditId in headers && AuditId in data && data[AuditId] != ""
    ensures var r := Saved(w, headers, rows, data, supplied, allowUpdate);
            var id := Index(headers, AuditId);
            var taken := exists i :: 0 <= i < |rows| && rows[i][id] == data[AuditId];
      && (r.1 <==> allowUpdate || !taken)
      && (!r.1 ==> r.0 == rows)
      && (r.1 ==> exists at: nat :: ChangedAt(headers, rows, r.0, at) && r.0[at][id] == data[AuditId]
                    && (at < |rows| ==> if taken then rows[at][id] == data[AuditId] else EmptyRow(rows[at])))
      && (UniqueIds(headers, rows) ==> UniqueIds(headers, r.0))
  {
    hide Merged, Distinct, Index, EmptyRow;
    var r := Saved(w, headers, rows, data, supplied, allowUpdate);
    var id := Index(headers, AuditId);
    var at := RowOf(rows, id, data[AuditId], 0);
    if at < |rows| {
      if allowUpdate {
        IdStays(w, headers, rows[at], supplied, data);
        assert ChangedAt(headers, rows, r.0, at) && r.0[at][id] == data[AuditId];
      }
    } else {
      var empty := NextEmpty(rows, 0);
      assert ChangedAt(headers, rows, r.0, empty) && r.0[empty][id] == data[AuditId];
    }
  }

  /** Only the row at `at` differs, or is new. */
  ghost predicate ChangedAt(headers: seq<Field>, before: seq<Row>, after: seq<Row>, at: nat)
  {
    && at < |after| && Shaped(headers, after)
    && (if at < |before| then |after| == |before| else at == |before| && |after| == |before| + 1)
    && forall i :: 0 <= i < |before| && i != at ==> after[i] == before[i]
  }

  lemma OpenedShape(headers: seq<Field>, rows: seq<Row>)
    requires Shaped(headers, rows)
    ensures Shaped(headers, rows + [seq(|headers|, _ => "")])
  {
  }

  lemma SetShape(headers: seq<Field>, rows: seq<Row>, at: nat, row: Row)
    requires Shaped(headers, rows) && at < |rows| && |row| == |headers|
    ensures Shaped(headers, rows[at := row])
  {
  }

  lemma WrittenEnds(headers: seq<Field>, rows: seq<Row>, data: Entry, at: nat)
    requires Shaped(headers, rows) && at < |rows|
    ensures |rows[at]| == |headers|
    ensures var w := Written(headers, rows[at], data);
      rows[at := w[..0] + rows[at][0..]] == rows && w[..|headers|] + rows[at][|headers|..] == w
  {
    var w := Written(headers, rows[at], data);
    assert w[..0] + rows[at][0..] == rows[at];
    assert w[..|headers|] + rows[at][|headers|..] == w;
  }

  lemma WrittenStep(headers: seq<Field>, row: Row, data: Entry, column: nat)
    requires column < |headers| == |row|
    ensures var part := Written(headers, row, data)[..column] + row[column..];
      Written(headers, row, data)[..column + 1] + row[column + 1..]
      == if headers[column] in data then part[column := data[headers[column]]] else part
  {
  }

  /* ---- The sheet ---- */

  /** The inventory sheet, as saving sees it: the headers and the rows below them. */
  class Sheet {
    var headers: seq<Field>
    var rows: seq<Row>

    ghost predicate Valid()
      reads this
    {
      Shaped(headers, rows)
    }

    /** `find_row_by_value`. */
    method FindRow(column: nat, value: string) returns (at: nat)
      requires Valid() && column < |headers|
      ensures at == RowOf(rows, column, value, 0)
    {
      at := 0;
      while at < |rows|
        invariant at <= |rows| && RowOf(rows, column, value, at) == RowOf(rows, column, value, 0)
      {
        if rows[at][column] == value {
          return;
        }
        at := at + 1;
      }
    }

    /** `next_empty_row`. */
    method NextEmptyRow() returns (at: nat)
      requires Valid()
      ensures at == NextEmpty(rows, 0)
    {
      at := 0;
      while at < |rows|
        invariant at <= |rows| && NextEmpty(rows, at) == NextEmpty(rows, 0)
      {
        var blank := true;
        for c := 0 to |headers|
          invariant blank <==> forall k :: 0 <= k < c ==> rows[at][k] == ""
        {
          if rows[at][c] != "" { blank := false; }
        }
        if blank {
          return;
        }
        at := at + 1;
      }
    }

    /** The merge with the row that is there, column by column. */
    method Merge(w: Words, at: nat, data: Entry, supplied: set<Field>) returns (merged: Entry)
      requires Valid() && at < |rows| 
      ensures merged == Merged(w, headers, rows[at], supplied, data)
    {
      hide Applies, MergeColumn, MergeTo;
      var row := rows[at];
      merged := data;
      NothingMerged(w, headers, row, supplied, data);
      for column := 0 to |headers|
        invariant |row| == |headers| && merged == MergeTo(w, headers, row, supplied, data, column)
      {
        var f, cell := headers[column], row[column];
        MergeNext(w, headers, row, supplied, data, column);
        if f in merged && f !in supplied && Applies(w, merged, f) && !w.blank(cell) {
          merged := merged[f := cell];
        } else if f in merged && !Applies(w, merged, f) {
          merged := merged[f := w.na];
        }
      }
    }

    /** `write_row_by_headers`, which opens the row after the last. */
    method WriteRow(at: nat, data: Entry)
      requires Valid() && at <= |rows|
      modifies `rows
      ensures Valid()
      ensures rows == if at < |old(rows)| then old(rows)[at := Written(headers, old(rows)[at], data)]
                      else old(rows) + [Written(headers, seq(|headers|, _ => ""), data)]
    {
      hide Shaped;
      if at == |rows| {
        OpenedShape(headers, rows);
        rows := rows + [seq(|headers|, _ => "")];
      }
      ghost var start := rows;
      WrittenEnds(headers, start, data, at);
      for column := 0 to |headers|
        invariant Valid() && at < |rows| && |start[at]| == |headers|
        invariant rows == start[at := Written(headers, start[at], data)[..column] + start[at][column..]]
      {
        WrittenStep(headers, start[at], data, column);
        if headers[column] in data {
          SetShape(headers, rows, at, rows[at][column := data[headers[column]]]);
          rows := rows[at := rows[at][column := data[headers[column]]]];
        }
      }
    }

    /** The upsert of `save_audit_entry`, from the normalised data on. */
    method Save(w: Words, data: Entry, supplied: set<Field>, allowUpdate: bool) returns (ok: bool)
      requires Valid() && AuditId in headers && AuditId in data
      modifies `rows
      ensures Valid()
      ensures (rows, ok) == Saved(w, headers, old(rows), data, supplied, allowUpdate)
    {
      hide Merged, Written;
      var existing := FindRow(Index(headers, AuditId), data[AuditId]);
      var at, written := existing, data;
      if existing < |rows| {
        if !allowUpdate {
          return false;
        }
        written := Merge(w, existing, data, supplied);
      } else {
        at := NextEmptyRow();
      }
      WriteRow(at, written);
      ok := true;
    }
  }

  /** The fields that an audited entry has to fill. */
  lemma RequiredAre()
    ensures Required() == {AuditDate, Auditor, Other("Plant/Area"), Other("Press/Machine #"), Other("Robot Type"),
                           EoatType, Other("Status")}
  {
  }
}
