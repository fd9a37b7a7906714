/** What a sync keeps and what it brings over, column by column, and that it moves no relationship
    (core/audit_compatibility.py). */
module SyncEffects {
  import opened Text
  import opened Wrappers
  import opened Columns
  import opened Tokens
  import opened Relationships
  import opened Coverage
  import opened Sync
  import Creation

  /* ---- The columns ---- */

  ghost predicate MachineColumn(h: string)
  {
    h == "Press/Machine #" || h == "Machine No." || h == "Machine Number" || h == "Press"
  }

  /** The columns that tell which row it is and what it was derived from. */
  ghost predicate LinkColumn(h: string)
  {
    h == "Audit ID" || h == "Entry Type" || h == "Source Audit ID" || h == "Compatibility Source"
  }

  /** The columns about the audit itself and the place it was made at. */
  ghost predicate PlaceColumn(h: string)
  {
    || h == "Audit Date" || h == "Auditor" || h == "Plant/Area" || h == "Robot Type" || h == "Robot Model/Controller"
    || h == "Audit Context" || h == "Physical Audit Verified" || h == "Compatibility Confidence"
  }

  /** A column that is about the row rather than the tooling, by its name. */
  ghost predicate LocalName(h: string)
  {
    var name := Lower(Strip(h));
    || name == "" || Contains(name, "created") || Contains(name, "timestamp") || Contains(name, "row id")
    || Contains(name, "internal") || Contains(name, "override")
  }

  lemma ProtectedAre(h: string)
    ensures h in Protected() <==> MachineColumn(h) || LinkColumn(h) || PlaceColumn(h)
  {
  }

  lemma LocalNames(h: string)
    ensures LocalName(h) <==>
      Lower(Strip(h)) == "" || exists i :: 0 <= i < |ProtectedParts()| && Contains(Lower(Strip(h)), ProtectedParts()[i])
  {
    hide Contains, Strip, Lower;
    var parts := ProtectedParts();
    assert parts[0] == "created" && parts[1] == "timestamp" && parts[2] == "row id" && parts[3] == "internal";
    assert parts[4] == "override" && |parts| == 5;
  }

  /** A column comes over exactly when it is none of these. */
  lemma ComesOver(h: string)
    ensures CanSync(h) <==> !MachineColumn(h) && !LinkColumn(h) && !PlaceColumn(h) && !LocalName(h)
  {
    hide Contains, Strip, Lower, Protected, ProtectedParts, MachineColumn, LinkColumn, PlaceColumn, LocalName;
    ProtectedAre(h);
    LocalNames(h);
  }

  /** After a sync a linked row has its own cell under the columns about its machine, its links and its place,
      and the source's cell under every other. */
  lemma SyncedColumn(headers: seq<string>, rows: seq<Cells>, auditId: string, i: nat, h: string)
    requires Rectangular(headers, rows) && Syncs(headers, rows, auditId) && i < |rows|
    requires i != SourceRow(headers, rows, auditId, 0) && LinkedTo(headers, rows[i], auditId)
    ensures Cell(headers, Synced(headers, rows, auditId)[i], h) ==
      if MachineColumn(h) || LinkColumn(h) || PlaceColumn(h) || LocalName(h) then Cell(headers, rows[i], h)
      else Cell(headers, rows[SourceRow(headers, rows, auditId, 0)], h)
  {
    hide CanSync, SourceRow, LinkedTo, Syncs, Synced, Index, MachineColumn, LinkColumn, PlaceColumn, LocalName;
    ComesOver(h);
    SyncedAt(headers, rows, auditId, i);
    SourceThere(headers, rows, auditId);
    CellCopied(headers, rows[SourceRow(headers, rows, auditId, 0)], rows[i], h);
  }

  lemma CellCopied(headers: seq<string>, source: Cells, row: Cells, h: string)
    requires |source| == |headers| == |row|
    ensures Cell(headers, Copied(headers, source, row), h) ==
      if CanSync(h) then Cell(headers, source, h) else Cell(headers, row, h)
  {
    hide CanSync, Index;
    if h in headers { CopiedAt(headers, source, row, Index(headers, h)); }
  }

  /** The rows that are not linked are left alone. */
  lemma SyncedOther(headers: seq<string>, rows: seq<Cells>, auditId: string, i: nat)
    requires Rectangular(headers, rows) && i < |rows|
    requires Syncs(headers, rows, auditId) ==>
      i == SourceRow(headers, rows, auditId, 0) || !LinkedTo(headers, rows[i], auditId)
    ensures Synced(headers, rows, auditId)[i] == rows[i]
  {
    hide SourceRow, LinkedTo, Copied;
  }

  /** Every row, linked or not, keeps its cell under these columns. */
  lemma SyncKeeps(headers: seq<string>, rows: seq<Cells>, auditId: string, i: nat, h: string)
    requires Rectangular(headers, rows) && i < |rows|
    requires MachineColumn(h) || LinkColumn(h) || PlaceColumn(h) || LocalName(h)
    ensures Cell(headers, Synced(headers, rows, auditId)[i], h) == Cell(headers, rows[i], h)
  {
    hide SourceRow, LinkedTo, Syncs, Synced, Cell, MachineColumn, LinkColumn, PlaceColumn, LocalName;
    if Syncs(headers, rows, auditId) && i != SourceRow(headers, rows, auditId, 0)
       && LinkedTo(headers, rows[i], auditId)
    {
      SyncedColumn(headers, rows, auditId, i, h);
    } else {
      SyncedOther(headers, rows, auditId, i);
    }
  }

  /* ---- The columns of the tool ---- */

  lemma LetterIn(s: string, part: string, k: nat)
    requires Contains(s, part) && k < |part|
    ensures part[k] in s
  {
    var i :| 0 <= i <= |s| && HoldsAt(s, part, i);
    assert s[i..i + |part|][k] == s[i + k];
  }

  /** A name without an i names no column about the row, unless it says created. */
  lemma WithoutI(h: string)
    requires h != "" && !IsSpace(h[0]) && !IsSpace(h[|h| - 1]) && 'i' !in h && 'I' !in h
    ensures LocalName(h) <==> Contains(Lower(h), "created")
  {
    hide Strip, Lower, Contains;
    StripFixed(h);
    var name := Lower(h);
    assert 'i' !in name;
    if Contains(name, "timestamp") { LetterIn(name, "timestamp", 1); }
    if Contains(name, "row id") { LetterIn(name, "row id", 4); }
    if Contains(name, "internal") { LetterIn(name, "internal", 0); }
    if Contains(name, "override") { LetterIn(name, "override", 5); }
  }

  /** Nor does a name without an i and a c. */
  lemma WithoutC(h: string)
    requires h != "" && !IsSpace(h[0]) && !IsSpace(h[|h| - 1])
    requires 'i' !in h && 'I' !in h && 'c' !in h && 'C' !in h
    ensures !LocalName(h)
  {
    hide Strip, Lower, Contains, LocalName;
    WithoutI(h);
    assert 'c' !in Lower(h);
    if Contains(Lower(h), "created") { LetterIn(Lower(h), "created", 0); }
  }

  lemma SelectedPart()
    ensures !LocalName("Selected Part Number")
  {
    hide LocalName, Contains, Lower;
    WithoutI("Selected Part Number");
    SelectedIsNotCreated();
  }

  lemma SelectedIsNotCreated()
    ensures !Contains(Lower("Selected Part Number"), "created")
  {
    hide Contains, Lower;
    assert "Selected Part Number" == "Sele" + "ct" + "ed Part Number";
    BeforeT("Sele", "ed Part Number");
  }

  /** A text whose only c stands before a t does not say created. */
  lemma BeforeT(front: string, back: string)
    requires 'c' !in front && 'C' !in front && 'c' !in back && 'C' !in back
    ensures !Contains(Lower(front + "ct" + back), "created")
  {
    var name := Lower(front + "ct" + back);
    forall k | 0 <= k < |name| && k != |front| ensures name[k] != 'c' {
      if k > |front| + 1 { assert name[k] == LowerChar(back[k - |front| - 2]); }
    }
    forall i | 0 <= i <= |name| ensures !HoldsAt(name, "created", i) {
      if i + 7 <= |name| {
        assert name[i..i + 7][0] == name[i] && name[i..i + 7][1] == name[i + 1];
      }
    }
  }

  /** The columns a part number may stand in come over, and so does the EOAT type. */
  lemma ToolColumnsComeOver(h: string)
    requires h in PartColumns() || h == "EOAT Type"
    ensures !MachineColumn(h) && !LinkColumn(h) && !PlaceColumn(h) && !LocalName(h)
  {
    hide LocalName, MachineColumn, LinkColumn, PlaceColumn;
    NotProtected(h);
    if h == "Selected Part Number" { SelectedPart(); } else { PlainNames(h); }
  }

  lemma NotProtected(h: string)
    requires h in PartColumns() || h == "EOAT Type"
    ensures !MachineColumn(h) && !LinkColumn(h) && !PlaceColumn(h)
  {
  }

  lemma PlainNames(h: string)
    requires (h in PartColumns() && h != "Selected Part Number") || h == "EOAT Type"
    ensures !LocalName(h)
  {
    hide LocalName;
    if h == "NGW Part Number" {
      WithoutC("NGW Part Number");
    } else if h == "Part Number" {
      WithoutC("Part Number");
    } else if h == "EOAT Type" {
      WithoutC("EOAT Type");
    } else {
      ShortNames(h);
    }
  }

  lemma ShortNames(h: string)
    requires h == "Tool #" || h == "Part #" || h == "Mold #"
    ensures !LocalName(h)
  {
    hide LocalName;
    WithoutC(h);
  }

  ghost function PartColumns(): seq<string>
  {
    ["NGW Part Number", "Selected Part Number", "Tool #", "Part Number", "Part #", "Mold #"]
  }

  ghost function DescriptionColumns(): seq<string>
  {
    ["NGW Part Description", "Selected Part Description", "Part Name/Description", "Part Family"]
  }

  /* ---- The relationships of the sheet ---- */

  /** The cells of a row under these columns, with nothing under a column that is missing. */
  ghost function CellsOf(headers: seq<string>, row: Cells, columns: seq<string>): seq<string>
    requires |row| == |headers|
  {
    seq(|columns|, k requires 0 <= k < |columns| => Cell(headers, row, columns[k]))
  }

  /** What the relationships are read from. */
  ghost function RowOf(headers: seq<string>, row: Cells): Row
    requires |row| == |headers|
  {
    Row(Cell(headers, row, "Audit ID"), Cell(headers, row, "Press/Machine #"), CellsOf(headers, row, PartColumns()),
        CellsOf(headers, row, DescriptionColumns()), Cell(headers, row, "Entry Type"),
        Cell(headers, row, "Source Audit ID"), Cell(headers, row, "EOAT Type"))
  }

  ghost function RowsOf(headers: seq<string>, rows: seq<Cells>): seq<Row>
    requires Rectangular(headers, rows)
  {
    seq(|rows|, i requires 0 <= i < |rows| => RowOf(headers, rows[i]))
  }

  /** The row is one that the sync writes to. */
  ghost predicate Written(headers: seq<string>, rows: seq<Cells>, auditId: string, i: nat)
    requires Rectangular(headers, rows) && i < |rows|
  {
    Syncs(headers, rows, auditId) && i != SourceRow(headers, rows, auditId, 0) && LinkedTo(headers, rows[i], auditId)
  }

  /** A row that is written to takes the source's part numbers and EOAT type, and keeps its ID, its machines, its
      kind and its source. */
  lemma WrittenRow(headers: seq<string>, rows: seq<Cells>, auditId: string, i: nat)
    requires Rectangular(headers, rows) && i < |rows| && Written(headers, rows, auditId, i)
    ensures var before, after := RowOf(headers, rows[i]), RowOf(headers, Synced(headers, rows, auditId)[i]);
      var source := RowOf(headers, rows[SourceRow(headers, rows, auditId, 0)]);
      && after.auditId == before.auditId && after.press == before.press
      && after.entryType == before.entryType && after.sourceId == before.sourceId
      && after.parts == source.parts && after.eoatType == source.eoatType
  {
    hide SourceRow, LinkedTo, Syncs, Synced, Cell, LocalName, PartColumns, DescriptionColumns;
    LinkColumnsStay(headers, rows, auditId, i);
    SyncKeepsMachines(headers, rows, auditId, i, "Press/Machine #");
    ToolCell(headers, rows, auditId, i, "EOAT Type");
    WrittenParts(headers, rows, auditId, i);
  }

  lemma WrittenParts(headers: seq<string>, rows: seq<Cells>, auditId: string, i: nat)
    requires Rectangular(headers, rows) && i < |rows| && Written(headers, rows, auditId, i)
    ensures CellsOf(headers, Synced(headers, rows, auditId)[i], PartColumns())
         == CellsOf(headers, rows[SourceRow(headers, rows, auditId, 0)], PartColumns())
  {
    hide SourceRow, LinkedTo, Syncs, Synced, Cell, PartColumns;
    SourceThere(headers, rows, auditId);
    forall h | h in PartColumns()
      ensures Cell(headers, Synced(headers, rows, auditId)[i], h)
           == Cell(headers, rows[SourceRow(headers, rows, auditId, 0)], h)
    {
      ToolCell(headers, rows, auditId, i, h);
    }
  }

  lemma ToolCell(headers: seq<string>, rows: seq<Cells>, auditId: string, i: nat, h: string)
    requires Rectangular(headers, rows) && i < |rows| && Written(headers, rows, auditId, i)
    requires h in PartColumns() || h == "EOAT Type"
    ensures Cell(headers, Synced(headers, rows, auditId)[i], h)
         == Cell(headers, rows[SourceRow(headers, rows, auditId, 0)], h)
  {
    hide SourceRow, LinkedTo, Syncs, Synced, Cell, MachineColumn, LinkColumn, PlaceColumn, LocalName, PartColumns;
    ToolColumnsComeOver(h);
    SyncedColumn(headers, rows, auditId, i, h);
  }

  lemma LinkColumnsStay(headers: seq<string>, rows: seq<Cells>, auditId: string, i: nat)
    requires Rectangular(headers, rows) && i < |rows|
    ensures var after := Synced(headers, rows, auditId)[i];
      && Cell(headers, after, "Audit ID") == Cell(headers, rows[i], "Audit ID")
      && Cell(headers, after, "Entry Type") == Cell(headers, rows[i], "Entry Type")
      && Cell(headers, after, "Source Audit ID") == Cell(headers, rows[i], "Source Audit ID")
  {
    hide SourceRow, LinkedTo, Syncs, Synced, Cell, LocalName;
    SyncKeeps(headers, rows, auditId, i, "Audit ID");
    SyncKeeps(headers, rows, auditId, i, "Entry Type");
    SyncKeeps(headers, rows, auditId, i, "Source Audit ID");
  }

  /** Every row, linked or not, keeps its machines, under whichever column they stand. */
  lemma SyncKeepsMachines(headers: seq<string>, rows: seq<Cells>, auditId: string, i: nat, h: string)
    requires Rectangular(headers, rows) && i < |rows|
    ensures h == "Press/Machine #" || h == "Machine No." || h == "Machine Number" || h == "Press" ==>
      Cell(headers, Synced(headers, rows, auditId)[i], h) == Cell(headers, rows[i], h)
  {
    hide SourceRow, LinkedTo, Syncs, Synced, Cell, LocalName, LinkColumn, PlaceColumn;
    if MachineColumn(h) { SyncKeeps(headers, rows, auditId, i, h); }
  }

  /** The linked rows have the part number of their source. */
  ghost predicate SharesParts(headers: seq<string>, rows: seq<Cells>, auditId: string)
    requires Rectangular(headers, rows)
  {
    forall i :: 0 <= i < |rows| && Written(headers, rows, auditId, i) ==>
      FirstText(RowOf(headers, rows[i]).parts)
      == FirstText(RowOf(headers, rows[SourceRow(headers, rows, auditId, 0)]).parts)
  }

  /** Then a sync keeps every row's relationships and kind. */
  lemma SyncKeepsKeys(headers: seq<string>, rows: seq<Cells>, auditId: string, i: nat)
    requires Rectangular(headers, rows) && SharesParts(headers, rows, auditId) && i < |rows|
    ensures var before, after := RowOf(headers, rows[i]), RowOf(headers, Synced(headers, rows, auditId)[i]);
      KeysIn(after) == KeysIn(before) && KindOf(after) == KindOf(before)
  {
    hide SourceRow, LinkedTo, Syncs, Synced, RowOf, Machines, FirstText, TextValue;
    if Written(headers, rows, auditId, i) {
      WrittenRow(headers, rows, auditId, i);
    } else {
      SyncedOther(headers, rows, auditId, i);
    }
  }

  /** So the relationships of the sheet and its coverage are the same before and after. */
  lemma SyncKeepsCoverage(headers: seq<string>, rows: seq<Cells>, auditId: string, required: seq<Relationship>)
    requires Rectangular(headers, rows) && SharesParts(headers, rows, auditId)
    ensures var before, after := RowsOf(headers, rows), RowsOf(headers, Synced(headers, rows, auditId));
      && (forall key, kind: Relationships.Kind :: Linked(after, key, kind) <==> Linked(before, key, kind))
      && Keys(required, after, Audited) == Keys(required, before, Audited)
      && Keys(required, after, Compatible) == Keys(required, before, Compatible)
      && Uncovered(required, after) == Uncovered(required, before)
  {
    hide Synced, RowOf, KeysIn, Relationships.KindOf, SharesParts;
    var before, after := RowsOf(headers, rows), RowsOf(headers, Synced(headers, rows, auditId));
    forall i | 0 <= i < |rows| ensures KeysIn(after[i]) == KeysIn(before[i])
      ensures Relationships.KindOf(after[i]) == Relationships.KindOf(before[i])
    {
      SyncKeepsKeys(headers, rows, auditId, i);
    }
    SameLinks(before, after);
    SameLinks(after, before);
  }

  lemma SameLinks(before: seq<Row>, after: seq<Row>)
    requires |before| == |after|
    requires forall i :: 0 <= i < |before| ==>
      KeysIn(after[i]) == KeysIn(before[i]) && Relationships.KindOf(after[i]) == Relationships.KindOf(before[i])
    ensures forall key, kind: Relationships.Kind :: Linked(before, key, kind) ==> Linked(after, key, kind)
  {
    hide KeysIn, Relationships.KindOf;
    forall key, kind: Relationships.Kind | Linked(before, key, kind) ensures Linked(after, key, kind) {
      var r :| r in before && LinkedBy(r, key, kind);
      var i :| 0 <= i < |before| && before[i] == r;
      assert after[i] in after;
    }
  }

  /* ---- The rows that were created ---- */

  /** A row that was written for a relationship is one that the sync from its source writes to: it then shows the
      source's EOAT type and part numbers, and still its own ID and machine. */
  lemma CreatedAreSynced(headers: seq<string>, rows: seq<Cells>, i: nat, r: Relationship, id: string, sourceId: string)
    requires Rectangular(headers, rows) && Syncs(headers, rows, sourceId) && i < |rows|
    requires Creation.Made(RowOf(headers, rows[i]), r, id, sourceId) && TextValue(sourceId) == sourceId
    ensures Written(headers, rows, sourceId, i)
    ensures var after := RowOf(headers, Synced(headers, rows, sourceId)[i]);
      var source := RowOf(headers, rows[SourceRow(headers, rows, sourceId, 0)]);
      && after.auditId == id && after.press == r.machine && after.sourceId == sourceId
      && after.eoatType == source.eoatType && after.parts == source.parts
  {
    hide Cell, Synced, TextValue, Lower, CellsOf, SourceRow;
    WrittenRow(headers, rows, sourceId, i);
  }

  /** A cell stands under its header; a column that is missing reads as nothing. */
  lemma CellTold(headers: seq<string>, row: Cells, h: string)
    requires |row| == |headers| && Distinct(headers)
    ensures h !in headers ==> Cell(headers, row, h) == ""
    ensures forall c :: 0 <= c < |headers| && headers[c] == h ==> Cell(headers, row, h) == row[c]
  {
    hide Distinct;
    forall c | 0 <= c < |headers| && headers[c] == h ensures Cell(headers, row, h) == row[c] {
      IndexOf(headers, c);
    }
  }

  /** A row is linked to a source when it is a compatible one and gives the source's ID. */
  lemma LinkedWhen(headers: seq<string>, row: Cells, auditId: string)
    requires |row| == |headers|
    ensures LinkedTo(headers, row, auditId) <==>
      && TextValue(Cell(headers, row, "Source Audit ID")) == auditId
      && Lower(TextValue(Cell(headers, row, "Entry Type"))) == "compatible"
  {
    hide Cell, TextValue, Lower;
  }

  /** A sync takes place when the columns are there and the first row with the ID is not a compatible one. */
  lemma SyncsWhen(headers: seq<string>, rows: seq<Cells>, auditId: string)
    requires Rectangular(headers, rows)
    ensures Syncs(headers, rows, auditId) <==>
      && "Audit ID" in headers && "Entry Type" in headers && "Source Audit ID" in headers
      && exists at :: 0 <= at < |rows| && FirstWithId(headers, rows, auditId, at)
           && Lower(TextValue(Cell(headers, rows[at], "Entry Type"))) != "compatible"
  {
    hide Cell, TextValue, Lower, SourceRow;
    var at := SourceRow(headers, rows, auditId, 0);
    if at < |rows| { assert FirstWithId(headers, rows, auditId, at); }
    forall i | 0 <= i < |rows| && FirstWithId(headers, rows, auditId, i) ensures i == at {}
  }

  ghost predicate FirstWithId(headers: seq<string>, rows: seq<Cells>, auditId: string, at: nat)
    requires Rectangular(headers, rows) && at < |rows|
  {
    && TextValue(Cell(headers, rows[at], "Audit ID")) == auditId
    && forall k :: 0 <= k < at ==> TextValue(Cell(headers, rows[k], "Audit ID")) != auditId
  }
}
