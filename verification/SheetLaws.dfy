/** The repair of the inventory sheet told by the headers and cells themselves: which columns are merged, where missing
    ones go, how they end up, and which rows count (core/audit_entries.py). */
module SheetLaws {
  import opened Wrappers
  import opened Text
  import opened Columns
  import opened Layout
  import opened GripperCells
  import opened Inventory
  import Legacy

  /* ---- Rows that count ---- */

  /** Something is said in the row, and it is more than a time stamp in the last cell. */
  ghost predicate Counts(row: seq<string>)
  {
    && (exists i :: 0 <= i < |row| && !Blank(row[i]))
    && !(row != [] && (forall i :: 0 <= i < |row| - 1 ==> Blank(row[i]))
         && "Last Updated:" <= Strip(row[|row| - 1]))
  }

  lemma {:induction false} SaidNone(row: seq<string>)
    ensures Said(row) == 0 <==> forall i :: 0 <= i < |row| ==> Blank(row[i])
  {
    hide Blank;
    if row != [] {
      SaidNone(row[1..]);
      if Said(row) == 0 {
        forall i | 0 <= i < |row| ensures Blank(row[i]) { if i > 0 { assert row[1..][i - 1] == row[i]; } }
      }
    }
  }

  lemma {:induction false} SaidLast(row: seq<string>)
    requires row != [] && !Blank(row[|row| - 1])
    ensures Said(row) == 1 <==> forall i :: 0 <= i < |row| - 1 ==> Blank(row[i])
    ensures Said(row) >= 1
  {
    hide Blank;
    if |row| > 1 {
      SaidLast(row[1..]);
      if Said(row) == 1 {
        forall i | 0 <= i < |row| - 1 ensures Blank(row[i]) { if i > 0 { assert row[1..][i - 1] == row[i]; } }
      }
    } else {
      assert row[1..] == [];
    }
  }

  lemma ReviewedWhen(row: seq<string>)
    ensures Reviewed(row) <==> Counts(row)
  {
    hide Said, Strip;
    SaidNone(row);
    if row != [] && !Blank(row[|row| - 1]) { SaidLast(row); }
    if row != [] && STAMP <= Strip(row[|row| - 1]) { StampSays(row[|row| - 1]); }
  }

  lemma StampSays(v: string)
    requires "Last Updated:" <= Strip(v)
    ensures !Blank(v)
  {
    hide Strip;
  }

  /** A row of a table is its cells column by column; a column that does not reach so far counts as blank. */
  lemma RowTold(t: Table, r: nat, c: nat)
    requires c < |t|
    ensures |RowOf(t, r)| == |t| && RowOf(t, r)[c] == if r < |t[c]| then t[c][r] else ""
  {
  }

  /** The columns that are repaired. */
  lemma GripperFields(h: string)
    ensures h in Fields() <==> h == "# of Grippers" || h == "Gripper Type" || h == "Gripper Model"
  {
  }

  /** A gripper model that names a preset becomes its part number; a blank cell is marked; everything else stays. */
  lemma RepairedTold(presets: string -> string, field: string, v: string)
    ensures field != "Gripper Model" || Blank(v) || presets(Strip(v)) == Strip(v) ==>
      Repaired(presets, field, v) == if Blank(v) then "N/A" else v
    ensures field == "Gripper Model" && !Blank(v) && presets(Strip(v)) != Strip(v) ==>
      Repaired(presets, field, v) == if Blank(presets(Strip(v))) then "N/A" else presets(Strip(v))
  {
    hide Strip;
  }

  /* ---- Missing columns ---- */

  /** A blank column has its header, and nothing below. */
  lemma BlankTold(h: string, rows: nat)
    ensures |BlankColumn(h, rows)| == rows + 1 && BlankColumn(h, rows)[0] == h
    ensures forall r :: 1 <= r <= rows ==> BlankColumn(h, rows)[r] == ""
  {
  }

  /** The tool goes behind the press, the EOAT ID behind the tool or else the press, the wiring column behind the
      part detection, and what has no place of its own to the end. */
  lemma PlaceTold(hs: seq<string>)
    ensures "Press/Machine #" in hs ==> Place(hs, "Tool #") == Index(hs, "Press/Machine #") + 1
    ensures "Press/Machine #" !in hs ==> Place(hs, "Tool #") == |hs|
    ensures "Tool #" in hs ==> Place(hs, "EOAT Assembly ID") == Index(hs, "Tool #") + 1
    ensures "Tool #" !in hs && "Press/Machine #" in hs ==>
      Place(hs, "EOAT Assembly ID") == Index(hs, "Press/Machine #") + 1
    ensures "Tool #" !in hs && "Press/Machine #" !in hs ==> Place(hs, "EOAT Assembly ID") == |hs|
    ensures "Part-Present Detection Present?" in hs ==>
      Place(hs, "Electrical/Wiring Present?") == Index(hs, "Part-Present Detection Present?") + 1
    ensures "Part-Present Detection Present?" !in hs ==> Place(hs, "Electrical/Wiring Present?") == |hs|
  {
    hide ToolingOrder, Index;
    NotTooling();
  }

  lemma NotTooling()
    ensures "Tool #" !in ToolingOrder() && "EOAT Assembly ID" !in ToolingOrder()
    ensures "Electrical/Wiring Present?" !in ToolingOrder()
  {
    hide ToolingOrder;
    ToolIsNotTooling();
    AssemblyIsNotTooling();
    WiringIsNotTooling();
  }

  lemma ToolIsNotTooling()
    ensures "Tool #" !in ToolingOrder()
  {
  }

  lemma AssemblyIsNotTooling()
    ensures "EOAT Assembly ID" !in ToolingOrder()
  {
  }

  lemma WiringIsNotTooling()
    ensures "Electrical/Wiring Present?" !in ToolingOrder()
  {
  }

  lemma {:induction false} BeforeTold(order: seq<string>, k: nat, hs: seq<string>)
    requires k <= |order|
    ensures match Before(order, k, hs)
      case Some(p) => exists j :: 0 <= j < k && order[j] == p && p in hs && forall i :: j < i < k ==> order[i] !in hs
      case None => forall i :: 0 <= i < k ==> order[i] !in hs
  {
    if k > 0 && order[k - 1] !in hs { BeforeTold(order, k - 1, hs); }
  }

  lemma {:induction false} AfterTold(order: seq<string>, k: nat, hs: seq<string>)
    requires k <= |order|
    ensures match After(order, k, hs)
      case Some(f) =>
        exists j :: k <= j < |order| && order[j] == f && f in hs && forall i :: k <= i < j ==> order[i] !in hs
      case None => forall i :: k <= i < |order| ==> order[i] !in hs
    decreases |order| - k
  {
    if k < |order| && order[k] !in hs { AfterTold(order, k + 1, hs); }
  }

  /** A missing tooling column goes right behind the nearest tooling column in front of it that the sheet has, or
      else right before the nearest one behind it, or else to the end. */
  lemma ToolingTold(hs: seq<string>, k: nat)
    requires k < |ToolingOrder()| && Distinct(ToolingOrder()) && Ordinary(ToolingOrder()[k])
    ensures var order, at := ToolingOrder(), Place(hs, ToolingOrder()[k]);
      || (exists j :: 0 <= j < k && order[j] in hs && at == Index(hs, order[j]) + 1
            && forall i :: j < i < k ==> order[i] !in hs)
      || (exists j :: k < j < |order| && order[j] in hs && at == Index(hs, order[j])
            && forall i :: 0 <= i < j && i != k ==> order[i] !in hs)
      || (at == |hs| && forall i :: 0 <= i < |order| && i != k ==> order[i] !in hs)
  {
    hide ToolingOrder, Index, Before, After;
    var order := ToolingOrder();
    IndexOf(order, k);
    BeforeTold(order, k, hs);
    AfterTold(order, k + 1, hs);
  }

  /** A header with no rule of its own. */
  ghost predicate Ordinary(h: string)
  {
    h != "Tool #" && h != "EOAT Assembly ID" && h != "Electrical/Wiring Present?"
  }

  /* ---- The sheet that comes out ---- */

  /** Whatever order the columns came in, the tool ends up behind the press, and the EOAT ID behind the tool. */
  lemma KeyColumnsEnd(presets: string -> string, t: Table, rows: nat, required: seq<string>)
    requires Distinct(Headers(Merged(t))) && Distinct(required)
    requires "Mold #" !in required && "Number of Vacuum Cups" !in required
    requires "Press/Machine #" in required && "Tool #" in required && "EOAT Assembly ID" in required
    ensures var hs := Headers(Ensured(presets, t, rows, required));
      && Follows(hs, "Press/Machine #", "Tool #") && Follows(hs, "Tool #", "EOAT Assembly ID")
      && "Mold #" !in hs && "Number of Vacuum Cups" !in hs
  {
    hide Distinct, Merged, Repair, Laid, Present, Chained, Follows, ToolingOrder, Missing, Extends, Headers;
    var m, w := Merged(t), Laid(t, rows, required);
    assert Headers(Ensured(presets, t, rows, required)) == Headers(w);
    LaidEffect(t, rows, required, w);
    AllThere(m, w, rows, required);
    MergedHasNoLegacy(t);
    NoNewLegacy(m, w, rows, required);
  }

  lemma NoNewLegacy(m: Table, w: Table, rows: nat, required: seq<string>)
    requires Extends(m, w, rows, Missing(required, Headers(m)))
    requires "Mold #" !in required && "Number of Vacuum Cups" !in required
    requires LEGACY_TOOL !in Headers(m) && LEGACY_CUPS !in Headers(m)
    ensures "Mold #" !in Headers(w) && "Number of Vacuum Cups" !in Headers(w)
  {
    hide Headers, Under, BlankColumn;
  }

  /** The tooling columns of the schema, as they are to stand. */
  ghost function ToolingColumns(): seq<string>
  {
    Tools() + Cups() + Circuits()
  }

  ghost function Tools(): seq<string>
  {
    ["EOAT Type", "EOAT Moves", "Connection Type", "Number of Parts Picked", "# of Cylinders", "Cylinder Type",
     "# of Grippers", "Gripper Type", "Gripper Model"]
  }

  ghost function Cups(): seq<string>
  {
    ["# of Cups", "Cup Type/Material", "Cup Diameter/Size", "Vacuum Generator Type"]
  }

  ghost function Circuits(): seq<string>
  {
    ["Air Circuit Architecture", "EOAT Vacuum Circuits", "EOAT Pressure Circuits", "EOAT Interchangeable Circuits",
     "External Vacuum Circuits", "External Pressure Circuits", "External Interchangeable Circuits"]
  }

  lemma ToolingIsOrder()
    ensures ToolingOrder() == ToolingColumns()
  {
  }

  lemma {:induction false} AllPresent(order: seq<string>, hs: seq<string>)
    requires forall h :: h in order ==> h in hs
    ensures Present(order, hs) == order
  {
    if order != [] { AllPresent(order[1..], hs); }
  }

  /** When the schema asks for all of them, the tooling columns stand in a row and in this order. */
  lemma ToolingEnds(presets: string -> string, t: Table, rows: nat, required: seq<string>, k: nat)
    requires Distinct(Headers(Merged(t))) && Distinct(required)
    requires "Mold #" !in required && "Number of Vacuum Cups" !in required
    requires forall h :: h in ToolingColumns() ==> h in required
    requires k < |ToolingColumns()|
    ensures var hs := Headers(Ensured(presets, t, rows, required));
      && "EOAT Type" in hs && Index(hs, "EOAT Type") + k < |hs|
      && hs[Index(hs, "EOAT Type") + k] == ToolingColumns()[k]
  {
    hide Distinct, Merged, Repair, Laid, Present, Chained, Follows, ToolingOrder, ToolingColumns, Missing, Extends,
         Headers, Index;
    var m, w := Merged(t), Laid(t, rows, required);
    var hs := Headers(w);
    assert Headers(Ensured(presets, t, rows, required)) == hs;
    LaidEffect(t, rows, required, w);
    AllThere(m, w, rows, required);
    ToolingIsOrder();
    FirstColumn();
    AllPresent(ToolingOrder(), hs);
    assert ToolingOrder()[0] in ToolingOrder();
    ChainIndexOf(hs, k);
  }

  lemma FirstColumn()
    ensures |ToolingColumns()| == 20 && ToolingColumns()[0] == "EOAT Type"
  {
  }

  lemma ChainIndexOf(hs: seq<string>, k: nat)
    requires Arranged(hs) && EOAT_TYPE in hs && Present(ToolingOrder(), hs) == ToolingOrder()
    requires k < |ToolingOrder()| && ToolingOrder()[0] == EOAT_TYPE
    ensures ToolingOrder()[k] in hs && Index(hs, ToolingOrder()[k]) == Index(hs, EOAT_TYPE) + k
  {
    hide ToolingOrder, Follows, Index, Present;
    ChainIndex(hs, ToolingOrder(), k);
  }

  /** The legacy columns are merged into the tool and the number of parts picked. */
  lemma MergedTold(t: Table)
    ensures "Mold #" in Headers(t) ==> "Tool #" in Headers(Merged(t))
    ensures "Number of Vacuum Cups" in Headers(t) ==> "Number of Parts Picked" in Headers(Merged(t))
    ensures forall h :: h in Headers(t) && h != "Mold #" && h != "Number of Vacuum Cups" ==> h in Headers(Merged(t))
  {
    hide Legacy.Migrate;
    NamesApart();
    MigrateReaches(t, "Mold #", "Tool #");
    MigrateReaches(Legacy.Migrate(t, "Mold #", "Tool #"), "Number of Vacuum Cups", "Number of Parts Picked");
  }

  lemma {:induction false} MigrateReaches(t: Table, legacy: string, target: string)
    requires legacy != target
    ensures legacy in Headers(t) ==> target in Headers(Legacy.Migrate(t, legacy, target))
    ensures forall h :: h in Headers(t) && h != legacy ==> h in Headers(Legacy.Migrate(t, legacy, target))
    decreases Legacy.Count(t, legacy)
  {
    hide Legacy.Count;
    if legacy in Headers(t) {
      var once := Legacy.MigrateOnce(t, legacy, target);
      MigrateReaches(once, legacy, target);
      forall h | h in Headers(t) && h != legacy ensures h in Headers(once) {
        var i := Index(Headers(t), h);
        var at := Index(Headers(t), legacy);
        assert Headers(once)[if target in Headers(t) && i > at then i - 1 else i] == h;
      }
      if target !in Headers(t) {
        assert Headers(once)[Index(Headers(t), legacy)] == target;
      }
    }
  }
}
