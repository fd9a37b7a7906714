/** Copying an audited row onto the compatible rows that were derived from it (core/audit_compatibility.py). */
module Sync {
  import opened Wrappers
  import opened Text
  import opened Columns
  import opened Tokens

  type Cells = seq<string>

  function AuditIdHeader(): string { "Audit ID" }
  function EntryTypeHeader(): string { "Entry Type" }
  function SourceIdHeader(): string { "Source Audit ID" }

  /** `PROTECTED_COMPATIBILITY_SYNC_FIELDS`. */
  function Protected(): seq<string>
  {
    [AuditIdHeader(), EntryTypeHeader(), SourceIdHeader(),
     "Audit Date", "Auditor", "Plant/Area", "Press/Machine #", "Machine No.", "Machine Number", "Press",
     "Robot Type", "Robot Model/Controller", "Audit Context", "Compatibility Source",
     "Physical Audit Verified", "Compatibility Confidence"]
  }

  /** `PROTECTED_COMPATIBILITY_SYNC_NAME_PARTS`. */
  function ProtectedParts(): seq<string>
  {
    ["created", "timestamp", "row id", "internal", "override"]
  }

  /** `_can_sync_compatibility_field`. */
  predicate CanSync(header: string)
  {
    var name := Lower(Strip(header));
    && name != "" && header !in Protected()
    && forall i :: 0 <= i < |ProtectedParts()| ==> !Contains(name, ProtectedParts()[i])
  }

  lemma LinksAreProtected()
    ensures !CanSync(AuditIdHeader()) && !CanSync(EntryTypeHeader()) && !CanSync(SourceIdHeader())
  {
    hide ProtectedParts, Contains, Strip, Lower, AuditIdHeader, EntryTypeHeader, SourceIdHeader;
    assert Protected()[0] == AuditIdHeader() && Protected()[1] == EntryTypeHeader();
    assert Protected()[2] == SourceIdHeader();
  }

  predicate Rectangular(headers: seq<string>, rows: seq<Cells>)
  {
    forall i :: 0 <= i < |rows| ==> |rows[i]| == |headers|
  }

  /** The cell of a row under a header, or nothing if the sheet has no such column. */
  function Cell(headers: seq<string>, row: Cells, header: string): string
    requires |row| == |headers|
  {
    if header in headers then row[Index(headers, header)] else ""
  }

  predicate IsCompatible(headers: seq<string>, row: Cells)
    requires |row| == |headers|
  {
    Lower(TextValue(Cell(headers, row, EntryTypeHeader()))) == "compatible"
  }

  predicate HasId(headers: seq<string>, row: Cells, auditId: string)
    requires |row| == |headers|
  {
    TextValue(Cell(headers, row, AuditIdHeader())) == auditId
  }

  /** The row gives this source. */
  predicate Names(headers: seq<string>, row: Cells, auditId: string)
    requires |row| == |headers|
  {
    TextValue(Cell(headers, row, SourceIdHeader())) == auditId
  }

  /** The row is a compatible one with this source. */
  predicate LinkedTo(headers: seq<string>, row: Cells, auditId: string)
    requires |row| == |headers|
  {
    Names(headers, row, auditId) && IsCompatible(headers, row)
  }

  /** The first row with the Audit ID from the `i`-th on, or the number of rows. */
  function SourceRow(headers: seq<string>, rows: seq<Cells>, auditId: string, i: nat): (r: nat)
    requires Rectangular(headers, rows) && i <= |rows|
    ensures i <= r <= |rows| && (r < |rows| ==> HasId(headers, rows[r], auditId))
    ensures forall k :: i <= k < r ==> !HasId(headers, rows[k], auditId)
    decreases |rows| - i
  {
    hide HasId;
    if i == |rows| || HasId(headers, rows[i], auditId) then i else SourceRow(headers, rows, auditId, i + 1)
  }

  /** What a linked row is to become: the source, but for the protected columns. */
  function Copied(headers: seq<string>, source: Cells, row: Cells): (r: Cells)
    requires |source| == |headers| == |row|
    ensures |r| == |headers|
  {
    seq(|headers|, c requires 0 <= c < |headers| => if CanSync(headers[c]) then source[c] else row[c])
  }

  /** Whether there is an audited source, and columns to find the linked rows by. */
  predicate Syncs(headers: seq<string>, rows: seq<Cells>, auditId: string)
    requires Rectangular(headers, rows)
  {
    var at := SourceRow(headers, rows, auditId, 0);
    && AuditIdHeader() in headers && EntryTypeHeader() in headers && SourceIdHeader() in headers
    && at < |rows| && !IsCompatible(headers, rows[at])
  }

  /** The rows after the sync. */
  function Synced(headers: seq<string>, rows: seq<Cells>, auditId: string): (r: seq<Cells>)
    requires Rectangular(headers, rows)
    ensures |r| == |rows| && Rectangular(headers, r)
  {
    if !Syncs(headers, rows, auditId) then rows
    else
      var at := SourceRow(headers, rows, auditId, 0);
      seq(|rows|, i requires 0 <= i < |rows| =>
        if i != at && LinkedTo(headers, rows[i], auditId) then Copied(headers, rows[at], rows[i]) else rows[i])
  }

  lemma CopiedCell(headers: seq<string>, source: Cells, row: Cells, header: string)
    requires |source| == |headers| == |row| && !CanSync(header)
    ensures Cell(headers, Copied(headers, source, row), header) == Cell(headers, row, header)
  {
    hide CanSync, Index;
  }

  lemma CopiedAt(headers: seq<string>, source: Cells, row: Cells, c: nat)
    requires |source| == |headers| == |row| && c < |headers|
    ensures Copied(headers, source, row)[c] == if CanSync(headers[c]) then source[c] else row[c]
  {
    hide CanSync;
  }

  lemma CopiedAgain(headers: seq<string>, source: Cells, row: Cells)
    requires |source| == |headers| == |row|
    ensures Copied(headers, source, Copied(headers, source, row)) == Copied(headers, source, row)
  {
    hide CanSync;
  }

  lemma SourceThere(headers: seq<string>, rows: seq<Cells>, auditId: string)
    requires Rectangular(headers, rows) && Syncs(headers, rows, auditId)
    ensures SourceRow(headers, rows, auditId, 0) < |rows|
  {
    hide SourceRow, IsCompatible, HasId;
  }

  lemma SyncedAt(headers: seq<string>, rows: seq<Cells>, auditId: string, i: nat)
    requires Rectangular(headers, rows) && Syncs(headers, rows, auditId) && i < |rows|
    ensures var at := SourceRow(headers, rows, auditId, 0);
      Synced(headers, rows, auditId)[i] ==
        if i != at && LinkedTo(headers, rows[i], auditId) then Copied(headers, rows[at], rows[i]) else rows[i]
  {
    hide LinkedTo, Copied, SourceRow, HasId, IsCompatible;
  }

  /** A sync makes every unprotected field of every linked row equal to the source, changes no protected field
      and no other row, keeps the linked rows linked and the others unlinked, and does nothing when repeated. */
  lemma SyncedEffect(headers: seq<string>, rows: seq<Cells>, auditId: string)
    requires Rectangular(headers, rows) && Syncs(headers, rows, auditId)
    ensures var at, after := SourceRow(headers, rows, auditId, 0), Synced(headers, rows, auditId);
      && (forall i, c :: 0 <= i < |rows| && i != at && LinkedTo(headers, rows[i], auditId) && 0 <= c < |headers| ==>
            after[i][c] == if CanSync(headers[c]) then rows[at][c] else rows[i][c])
      && (forall i :: 0 <= i < |rows| && (i == at || !LinkedTo(headers, rows[i], auditId)) ==> after[i] == rows[i])
      && (forall i :: 0 <= i < |rows| ==> LinkedTo(headers, after[i], auditId) == LinkedTo(headers, rows[i], auditId))
      && SourceRow(headers, after, auditId, 0) == at
      && Synced(headers, after, auditId) == after
  {
    hide CanSync, SourceRow, Cell, TextValue, Lower, AuditIdHeader, EntryTypeHeader, SourceIdHeader, Copied;
    LinksAreProtected();
    var at, after := SourceRow(headers, rows, auditId, 0), Synced(headers, rows, auditId);
    forall i | 0 <= i < |rows|
      ensures HasId(headers, after[i], auditId) == HasId(headers, rows[i], auditId)
      ensures LinkedTo(headers, after[i], auditId) == LinkedTo(headers, rows[i], auditId)
    {
      CopiedCell(headers, rows[at], rows[i], AuditIdHeader());
      CopiedCell(headers, rows[at], rows[i], EntryTypeHeader());
      CopiedCell(headers, rows[at], rows[i], SourceIdHeader());
    }
    var again := Synced(headers, after, auditId);
    forall i | 0 <= i < |rows| ensures again[i] == after[i] { CopiedAgain(headers, rows[at], rows[i]); }
    forall i, c | 0 <= i < |rows| && i != at && LinkedTo(headers, rows[i], auditId) && 0 <= c < |headers|
      ensures after[i][c] == if CanSync(headers[c]) then rows[at][c] else rows[i][c]
    {
      CopiedAt(headers, rows[at], rows[i], c);
    }
  }

  datatype SyncResult = SyncResult(updated: nat, skipped: nat, missingSource: bool)

  /** How many of the first rows, other than the source, give the source and are compatible, or are not. */
  function Count(headers: seq<string>, rows: seq<Cells>, auditId: string, at: nat, compatible: bool, n: nat): nat
    requires Rectangular(headers, rows) && n <= |rows|
  {
    if n == 0 then 0
    else
      Count(headers, rows, auditId, at, compatible, n - 1)
      + if n - 1 != at && Counts(headers, rows[n - 1], auditId, compatible) then 1 else 0
  }

  predicate Counts(headers: seq<string>, row: Cells, auditId: string, compatible: bool)
    requires |row| == |headers|
  {
    if compatible then LinkedTo(headers, row, auditId)
    else Names(headers, row, auditId) && !LinkedTo(headers, row, auditId)
  }

  /** What is reported. */
  function Reported(headers: seq<string>, rows: seq<Cells>, auditId: string): SyncResult
    requires Rectangular(headers, rows)
  {
    var at := SourceRow(headers, rows, auditId, 0);
    if AuditIdHeader() !in headers || at == |rows| then SyncResult(0, 0, true)
    else if IsCompatible(headers, rows[at]) then SyncResult(0, 1, false)
    else if !Syncs(headers, rows, auditId) then SyncResult(0, 0, false)
    else
      var n := |rows|;
      SyncResult(Count(headers, rows, auditId, at, true, n), Count(headers, rows, auditId, at, false, n), false)
  }

  /** The inventory sheet, by its headers and the rows below them. */
  class Sheet {
    const headers: seq<string>
    var rows: seq<Cells>

    ghost predicate Valid()
      reads this
    {
      Rectangular(headers, rows)
    }

    /** `_find_audit_row_number`. */
    method FindAuditRow(auditId: string) returns (at: nat)
      requires Valid()
      ensures AuditIdHeader() in headers ==> at == SourceRow(headers, rows, auditId, 0)
      ensures AuditIdHeader() !in headers ==> at == |rows|
    {
      hide HasId, AuditIdHeader;
      if AuditIdHeader() !in headers {
        return |rows|;
      }
      at := 0;
      while at < |rows|
        invariant at <= |rows| && SourceRow(headers, rows, auditId, at) == SourceRow(headers, rows, auditId, 0)
      {
        if HasId(headers, rows[at], auditId) {
          return;
        }
        at := at + 1;
      }
    }

    /** `sync_compatible_rows_from_source`, on a sheet that has been repaired. */
    method SyncFromSource(auditId: string) returns (result: SyncResult)
      requires Valid() && Distinct(headers)
      modifies `rows
      ensures Valid() && rows == Synced(headers, old(rows), auditId)
      ensures result == Reported(headers, old(rows), auditId)
    {
      hide Names, IsCompatible, CanSync, HasId, SourceRow, Cell, AuditIdHeader, EntryTypeHeader, SourceIdHeader,
           Distinct;
      result := SyncResult(0, 0, false);
      var at := FindAuditRow(auditId);
      if at == |rows| {
        return result.(missingSource := true);
      }
      if IsCompatible(headers, rows[at]) {
        return result.(skipped := 1);
      }
      if SourceIdHeader() !in headers || EntryTypeHeader() !in headers {
        return;
      }
      var updated, skipped := SyncLinked(at, auditId);
      result := SyncResult(updated, skipped, false);
    }

    /** The loops over the rows that give the source. */
    method SyncLinked(at: nat, auditId: string) returns (updated: nat, skipped: nat)
      requires Valid() && Syncs(headers, rows, auditId) && at == SourceRow(headers, rows, auditId, 0)
      modifies `rows
      ensures Valid() && rows == Synced(headers, old(rows), auditId)
      ensures updated == Count(headers, old(rows), auditId, at, true, |old(rows)|)
      ensures skipped == Count(headers, old(rows), auditId, at, false, |old(rows)|)
    {
      hide HasId, Names, LinkedTo, IsCompatible, SourceRow, Synced, Copied, Syncs;
      updated, skipped := 0, 0;
      SourceThere(headers, rows, auditId);
      var source := rows[at];
      ghost var start := rows;
      ghost var after := Synced(headers, start, auditId);
      for i := 0 to |rows|
        invariant Valid() && |rows| == |start| == |after|
        invariant forall k :: 0 <= k < i ==> rows[k] == after[k]
        invariant forall k :: i <= k < |rows| ==> rows[k] == start[k]
        invariant updated == Count(headers, start, auditId, at, true, i)
        invariant skipped == Count(headers, start, auditId, at, false, i)
      {
        SyncedAt(headers, start, auditId, i);
        if i != at && LinkedTo(headers, rows[i], auditId) {
          CopyFields(i, source);
          updated := updated + 1;
        } else if i != at && Names(headers, rows[i], auditId) {
          skipped := skipped + 1;
        }
      }
    }

    /** The loop over the fields of one linked row. */
    method CopyFields(at: nat, source: Cells)
      requires Valid() && at < |rows| && |source| == |headers|
      modifies `rows
      ensures Valid() && rows == old(rows)[at := Copied(headers, source, old(rows)[at])]
    {
      hide CanSync, Copied, Rectangular;
      CopyEnds(headers, rows, source, at);
      for c := 0 to |headers|
        invariant Valid() && at < |rows| && |old(rows)[at]| == |headers|
        invariant rows == old(rows)[at := Copied(headers, source, old(rows)[at])[..c] + old(rows)[at][c..]]
      {
        CopyStep(headers, source, old(rows)[at], c);
        if CanSync(headers[c]) {
          SetRow(headers, rows, at, rows[at][c := source[c]]);
          rows := rows[at := rows[at][c := source[c]]];
        }
      }
    }
  }

  lemma SetRow(headers: seq<string>, rows: seq<Cells>, at: nat, row: Cells)
    requires Rectangular(headers, rows) && at < |rows| && |row| == |headers|
    ensures Rectangular(headers, rows[at := row])
  {
  }

  lemma CopyEnds(headers: seq<string>, rows: seq<Cells>, source: Cells, at: nat)
    requires Rectangular(headers, rows) && at < |rows| && |source| == |headers|
    ensures |rows[at]| == |headers|
    ensures var w := Copied(headers, source, rows[at]);
      rows[at := w[..0] + rows[at][0..]] == rows && w[..|headers|] + rows[at][|headers|..] == w
  {
    hide CanSync;
    var w := Copied(headers, source, rows[at]);
    assert w[..0] + rows[at][0..] == rows[at];
    assert w[..|headers|] + rows[at][|headers|..] == w;
  }

  lemma CopyStep(headers: seq<string>, source: Cells, row: Cells, c: nat)
    requires c < |headers| == |row| == |source|
    ensures var w := Copied(headers, source, row);
      w[..c + 1] + row[c + 1..] ==
        if CanSync(headers[c]) then (w[..c] + row[c..])[c := source[c]] else w[..c] + row[c..]
  {
    hide CanSync;
  }
}
