/** The inventory worksheet, changed in place (core/audit_entries.py, core/workbook_io.py). */
module Worksheets {
  import opened Columns
  import opened Layout
  import opened Inventory
  import opened GripperCells
  import Legacy

  /** The columns of a grid of rows. */
  ghost function ColumnsOf(grid: seq<seq<string>>, width: nat): (t: Table)
    requires Rectangular(grid, width)
    ensures |t| == width
  {
    seq(width, c requires 0 <= c < width => ColumnOf(grid, width, c))
  }

  ghost function ColumnOf(grid: seq<seq<string>>, width: nat, c: nat): Column
    requires Rectangular(grid, width) && c < width
  {
    seq(|grid|, r requires 0 <= r < |grid| => grid[r][c])
  }

  ghost predicate Rectangular(grid: seq<seq<string>>, width: nat)
  {
    grid != [] && forall r :: 0 <= r < |grid| ==> |grid[r]| == width
  }

  lemma MoveInSteps(t: Table, source: nat, target: nat, blank: Column)
    requires source < |t| && target <= |t|
    ensures var at := if source < target then target - 1 else target;
      InsertAt(Legacy.Without(t, source), at, blank)[at := t[source]] == Move(t, source, target)
  {
  }

  lemma Opened(t: Table, at: nat, rows: nat)
    requires at <= |t|
    ensures var u := InsertAt(t, at, BlankColumn("", rows)); at < |u| && u[at] == BlankColumn("", rows)
  {
  }

  /** One round of ordering the tooling columns. */
  lemma OrderNext(t: Table, present: seq<string>, k: nat)
    requires EOAT_TYPE in Headers(t) && (forall h :: h in present ==> h in Headers(t)) && k < |present|
    ensures var target := Index(Headers(t), EOAT_TYPE) + k;
      if target > |t| then OrderFrom(t, present, k) == t
      else
        var moved := MoveTo(t, present[k], target);
        && EOAT_TYPE in Headers(moved) && (forall h :: h in present ==> h in Headers(moved))
        && OrderFrom(moved, present, k + 1) == OrderFrom(t, present, k)
  {
    hide MoveTo, Index, Headers;
    var target := Index(Headers(t), EOAT_TYPE) + k;
    if target <= |t| { MoveToHeaders(t, present[k], target); }
  }

  lemma OrderDone(t: Table, present: seq<string>)
    requires EOAT_TYPE in Headers(t) && forall h :: h in present ==> h in Headers(t)
    ensures OrderFrom(t, present, |present|) == t
  {
  }

  /** Repairing the rows of a grid repairs its columns. */
  lemma RepairedGrid(presets: string -> string, before: seq<seq<string>>, after: seq<seq<string>>, width: nat)
    requires Rectangular(before, width) && Rectangular(after, width) && |after| == |before| && after[0] == before[0]
    requires forall r :: 0 < r < |before| ==> after[r] == RepairedRow(presets, before[0], before[r])
    ensures ColumnsOf(after, width) == Repair(presets, ColumnsOf(before, width))
  {
    hide RepairedRow;
    var t := ColumnsOf(before, width);
    assert Headers(t) == before[0];
    forall r | 0 < r < |before| ensures RowOf(t, r) == before[r] {}
    forall c | 0 <= c < width ensures ColumnsOf(after, width)[c] == Repair(presets, t)[c] {}
  }

  class Worksheet {
    /** The cells, row by row; the first row holds the headers. */
    var grid: seq<seq<string>>
    var width: nat

    ghost predicate Valid()
      reads this
    {
      Rectangular(grid, width)
    }

    /** The sheet as its columns. */
    ghost function View(): (t: Table)
      reads this
      requires Valid()
      ensures |t| == width
    {
      ColumnsOf(grid, width)
    }

    /** `worksheet_headers`. */
    method HeaderRow() returns (hs: seq<string>)
      requires Valid()
      ensures hs == Headers(View())
    {
      hs := grid[0];
    }

    method SetCell(row: nat, column: nat, value: string)
      requires Valid() && row < |grid| && column < width
      modifies `grid
      ensures Valid() && |grid| == old(|grid|)
      ensures View() == old(View())[column := old(View())[column][row := value]]
    {
      ghost var t := View();
      grid := grid[row := grid[row][column := value]];
      assert forall c :: 0 <= c < width ==> View()[c] == t[column := t[column][row := value]][c];
    }

    /** `delete_cols`, counted from zero. */
    method DeleteColumn(at: nat)
      requires Valid() && at < width
      modifies this
      ensures Valid() && |grid| == old(|grid|)
      ensures View() == Legacy.Without(old(View()), at)
    {
      var rows := grid;
      grid := seq(|rows|, r requires 0 <= r < |rows| && at < |rows[r]| => rows[r][..at] + rows[r][at + 1..]);
      width := width - 1;
      assert forall c :: 0 <= c < width ==> View()[c] == Legacy.Without(old(View()), at)[c];
    }

    /** `insert_cols`, counted from zero. */
    method InsertColumn(at: nat)
      requires Valid() && at <= width
      modifies this
      ensures Valid() && |grid| == old(|grid|)
      ensures View() == InsertAt(old(View()), at, BlankColumn("", |grid| - 1))
    {
      var rows := grid;
      grid := seq(|rows|, r requires 0 <= r < |rows| && at <= |rows[r]| => rows[r][..at] + [""] + rows[r][at..]);
      width := width + 1;
      assert forall c :: 0 <= c < width ==> View()[c] == InsertAt(old(View()), at, BlankColumn("", |grid| - 1))[c];
    }

    /** `_move_column`: keeps the column aside, deletes it, opens a blank one and fills it in. */
    method MoveColumn(source: nat, target: nat)
      requires Valid() && source < width && target <= width
      modifies this
      ensures Valid() && |grid| == old(|grid|)
      ensures View() == Move(old(View()), source, target)
    {
      hide Move, InsertAt;
      var cells: seq<string> := [];
      for row := 0 to |grid|
        invariant grid == old(grid) && width == old(width)
        invariant cells == View()[source][..row]
      {
        cells := cells + [grid[row][source]];
      }
      assert cells == old(View())[source];
      DeleteColumn(source);
      var at := if source < target then target - 1 else target;
      InsertColumn(at);
      ghost var blank := View();
      Opened(Legacy.Without(old(View()), source), at, |grid| - 1);
      assert cells[..0] + blank[at][0..] == blank[at];
      for row := 0 to |grid|
        invariant Valid() && |grid| == |cells| && at < |blank| == width
        invariant |blank[at]| == |cells|
        invariant View() == blank[at := cells[..row] + blank[at][row..]]
      {
        SetCell(row, at, cells[row]);
        assert cells[..row + 1] + blank[at][row + 1..]
            == (cells[..row] + blank[at][row..])[row := cells[row]];
      }
      assert cells[..|grid|] + blank[at][|grid|..] == cells;
      MoveInSteps(old(View()), source, target, blank[at]);
    }

    /** `_move_tool_after_press` and `_move_eoat_assembly_after_tool`. */
    method MoveColumnBehind(a: string, x: string)
      requires Valid()
      modifies this
      ensures Valid() && |grid| == old(|grid|)
      ensures View() == MoveBehind(old(View()), a, x)
    {
      hide Move;
      var headers := HeaderRow();
      if a !in headers || x !in headers {
        return;
      }
      var source, target := Index(headers, x), Index(headers, a) + 1;
      if source == target {
        return;
      }
      MoveColumn(source, target);
    }

    /** `_order_tooling_columns`. */
    method OrderToolingColumns()
      requires Valid()
      modifies this
      ensures Valid() && |grid| == old(|grid|)
      ensures View() == OrderTooling(old(View()))
    {
      hide Move, ToolingOrder, Index, Headers, ColumnsOf, ColumnOf, Rectangular, MoveTo, OrderFrom;
      var headers := HeaderRow();
      if EOAT_TYPE !in headers {
        return;
      }
      var present := Present(ToolingOrder(), headers);
      var offset := 0;
      ghost var goal := OrderFrom(View(), present, 0);
      while offset < |present|
        invariant Valid() && |grid| == old(|grid|) && offset <= |present|
        invariant EOAT_TYPE in Headers(View()) && forall h :: h in present ==> h in Headers(View())
        invariant OrderFrom(View(), present, offset) == goal
      {
        headers := HeaderRow();
        var target := Index(headers, EOAT_TYPE) + offset;
        OrderNext(View(), present, offset);
        if target > |headers| {
          return;
        }
        MoveHeader(present[offset], target);
        offset := offset + 1;
      }
      OrderDone(View(), present);
    }

    /** The column under a header is moved, unless it is there already. */
    method MoveHeader(header: string, target: nat)
      requires Valid() && header in Headers(View()) && target <= width
      modifies this
      ensures Valid() && |grid| == old(|grid|)
      ensures View() == MoveTo(old(View()), header, target)
    {
      hide Move, Index, ColumnsOf, Rectangular;
      var headers := HeaderRow();
      var source := Index(headers, header);
      if source != target {
        MoveColumn(source, target);
      }
    }

    /** `_migrate_legacy_tool_header` and `_migrate_legacy_vacuum_cups_header`. */
    method MigrateLegacyHeader(legacy: string, target: string)
      requires Valid() && legacy != target
      modifies this
      ensures Valid() && |grid| == old(|grid|)
      ensures View() == Legacy.Migrate(old(View()), legacy, target)
    {
      hide Index, Legacy.Count;
      var headers := HeaderRow();
      while legacy in headers
        invariant Valid() && |grid| == old(|grid|) && headers == Headers(View())
        invariant Legacy.Migrate(View(), legacy, target) == Legacy.Migrate(old(View()), legacy, target)
        decreases Legacy.Count(View(), legacy)
      {
        ghost var before := View();
        var i := Index(headers, legacy);
        if target in headers {
          var j := Index(headers, target);
          FillBlanks(j, i);
          DeleteColumn(i);
        } else {
          SetCell(0, i, target);
        }
        assert View() == Legacy.MigrateOnce(before, legacy, target);
        headers := HeaderRow();
      }
    }

    /** The inner loop of a legacy merge. */
    method FillBlanks(target: nat, legacy: nat)
      requires Valid() && target < width && legacy < width && target != legacy
      modifies `grid
      ensures Valid() && |grid| == old(|grid|)
      ensures View() == old(View())[target := Legacy.Filled(old(View())[target], old(View())[legacy])]
    {
      ghost var t := View();
      ghost var filled := Legacy.Filled(t[target], t[legacy]);
      assert filled[..1] + t[target][1..] == t[target];
      for row := 1 to |grid|
        invariant Valid() && |grid| == old(|grid|)
        invariant View() == t[target := filled[..row] + t[target][row..]]
      {
        assert grid[row][target] == View()[target][row] == t[target][row];
        assert grid[row][legacy] == View()[legacy][row] == t[legacy][row];
        ghost var c: Column := filled[..row] + t[target][row..];
        assert filled[..row + 1] + t[target][row + 1..] == c[row := filled[row]];
        if grid[row][target] == "" && grid[row][legacy] != "" {
          SetCell(row, target, grid[row][legacy]);
        } else {
          assert filled[row] == c[row] && c[row := filled[row]] == c;
        }
      }
      assert filled[..|grid|] + t[target][|grid|..] == filled;
    }

    /** `_insert_inventory_header`. */
    method InsertHeader(at: nat, header: string)
      requires Valid() && at <= width
      modifies this
      ensures Valid() && |grid| == old(|grid|)
      ensures View() == InsertAt(old(View()), at, BlankColumn(header, |grid| - 1))
    {
      InsertColumn(at);
      SetCell(0, at, header);
      assert BlankColumn("", |grid| - 1)[0 := header] == BlankColumn(header, |grid| - 1);
    }

    /** The gripper cells of one row that is reviewed. */
    method RepairRow(presets: string -> string, headers: seq<string>, row: nat)
      requires Valid() && row < |grid| && |headers| == width
      modifies `grid
      ensures Valid() && grid == old(grid)[row := PartlyRepaired(presets, headers, old(grid)[row], 3)]
    {
      hide Repaired, Index;
      ghost var start := grid;
      for k := 0 to 3
        invariant Valid() && |grid| == |start| && |start[row]| == width
        invariant grid[row] == PartlyRepaired(presets, headers, start[row], k)
        invariant forall r :: 0 <= r < |grid| && r != row ==> grid[r] == start[r]
      {
        var field := Fields()[k];
        if field in headers {
          var at := Index(headers, field);
          var value := Repaired(presets, field, grid[row][at]);
          assert grid[row][at := grid[row][at]] == grid[row];
          if value != grid[row][at] {
            grid := grid[row := grid[row][at := value]];
          }
        }
      }
    }

    /** `_migrate_inventory_gripper_values`. */
    method RepairGrippers(presets: string -> string)
      requires Valid()
      modifies `grid
      ensures Valid() && |grid| == old(|grid|)
      ensures View() == Repair(presets, old(View()))
    {
      hide Reviewed, PartlyRepaired, Repair;
      var headers := HeaderRow();
      assert headers == grid[0] by { assert forall c :: 0 <= c < width ==> View()[c][0] == grid[0][c]; }
      ghost var start := grid;
      for row := 1 to |grid|
        invariant Valid() && |grid| == |start|
        invariant forall r :: row <= r < |grid| || r == 0 ==> grid[r] == start[r]
        invariant forall r :: 0 < r < row ==> grid[r] == RepairedRow(presets, headers, start[r])
      {
        if Reviewed(grid[row]) {
          RepairRow(presets, headers, row);
        }
      }
      RepairedGrid(presets, start, grid, width);
    }

    /** `_ensure_inventory_headers`, and the headers it reports as added. */
    method EnsureHeaders(presets: string -> string, required: seq<string>) returns (missing: seq<string>)
      requires Valid()
      modifies this
      ensures Valid() && |grid| == old(|grid|)
      ensures View() == Ensured(presets, old(View()), |grid| - 1, required)
      ensures missing == Missing(required, Headers(Merged(old(View()))))
    {
      hide Place, InsertAt, BlankColumn, OrderTooling, MoveBehind, Legacy.Migrate, Headers, Repair;
      NamesApart();
      MigrateLegacyHeader(LEGACY_TOOL, TOOL);
      MigrateLegacyHeader(LEGACY_CUPS, PARTS_PICKED);
      var existing := HeaderRow();
      missing := Missing(required, existing);
      var k := 0;
      ghost var goal := AddFrom(View(), |grid| - 1, missing, 0);
      while k < |missing|
        invariant Valid() && |grid| == old(|grid|) && k <= |missing| && existing == Headers(View())
        invariant AddFrom(View(), |grid| - 1, missing, k) == goal
      {
        var at := Place(existing, missing[k]);
        InsertHeader(at, missing[k]);
        existing := HeaderRow();
        k := k + 1;
      }
      assert View() == goal;
      MoveColumnBehind(PRESS, TOOL);
      MoveColumnBehind(TOOL, ASSEMBLY);
      OrderToolingColumns();
      RepairGrippers(presets);
    }
  }
}
