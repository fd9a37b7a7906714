/** How the gripper cells of the inventory are repaired, row by row (core/audit_entries.py). */
module GripperCells {
  import opened Wrappers
  import opened Text
  import opened Columns

  const GRIPPER_COUNT := "# of Grippers"
  const GRIPPER_TYPE := "Gripper Type"
  const GRIPPER_MODEL := "Gripper Model"
  const NOT_APPLICABLE := "N/A"
  const STAMP := "Last Updated:"

  function Fields(): (r: seq<string>)
    ensures |r| == 3
  {
    [GRIPPER_COUNT, GRIPPER_TYPE, GRIPPER_MODEL]
  }

  /** How many cells of a row say something. */
  function Said(row: seq<string>): nat
  {
    if row == [] then 0 else (if Blank(row[0]) then 0 else 1) + Said(row[1..])
  }

  /** A row is passed over when it is empty, or holds nothing but the time stamp in its last cell. */
  predicate Reviewed(row: seq<string>)
  {
    Said(row) > 0 && row != [] && !(Said(row) == 1 && STAMP <= Strip(row[|row| - 1]))
  }

  /** What a gripper cell of a reviewed row becomes; `presets` turns the name of a preset into its part number. */
  function Repaired(presets: string -> string, field: string, v: string): string
  {
    var text := Strip(v);
    var w := if field == GRIPPER_MODEL && text != "" && presets(text) != text then presets(text) else v;
    if Blank(w) then NOT_APPLICABLE else w
  }

  /** The row after the first `k` gripper fields. */
  function PartlyRepaired(presets: string -> string, hs: seq<string>, row: seq<string>, k: nat): (r: seq<string>)
    requires k <= 3 && |hs| == |row|
    ensures |r| == |row|
  {
    if k == 0 then row
    else
      var before, field := PartlyRepaired(presets, hs, row, k - 1), Fields()[k - 1];
      if field !in hs then before
      else
        var at := Index(hs, field);
        before[at := Repaired(presets, field, before[at])]
  }

  function RepairedRow(presets: string -> string, hs: seq<string>, row: seq<string>): (r: seq<string>)
    requires |hs| == |row|
    ensures |r| == |row|
  {
    if Reviewed(row) then PartlyRepaired(presets, hs, row, 3) else row
  }

  /** The cell of a column in a row, if the column reaches so far. */
  function CellAt(c: Column, r: nat): string
  {
    if r < |c| then c[r] else ""
  }

  function RowOf(t: Table, r: nat): (row: seq<string>)
    ensures |row| == |t|
  {
    seq(|t|, c requires 0 <= c < |t| => CellAt(t[c], r))
  }

  function RepairedColumn(presets: string -> string, t: Table, c: nat): (r: Column)
    requires c < |t|
    ensures |r| == |t[c]| && r[0] == t[c][0]
  {
    var cells := seq(|t[c]|, r requires 0 <= r < |t[c]| =>
      if r == 0 then t[c][0] else RepairedRow(presets, Headers(t), RowOf(t, r))[c]);
    assert cells[0] == t[c][0];
    cells
  }

  /** `_migrate_inventory_gripper_values`: the table it leaves. */
  function Repair(presets: string -> string, t: Table): (r: Table)
    ensures |r| == |t| && Headers(r) == Headers(t)
  {
    seq(|t|, c requires 0 <= c < |t| => RepairedColumn(presets, t, c))
  }

  /* ---- What it does ---- */

  /** A repaired row, cell by cell: only the gripper cells are touched. */
  lemma RepairedCell(presets: string -> string, hs: seq<string>, row: seq<string>, c: nat)
    requires |hs| == |row| && Distinct(hs) && c < |hs|
    ensures PartlyRepaired(presets, hs, row, 3)[c] ==
      if hs[c] in Fields() then Repaired(presets, hs[c], row[c]) else row[c]
  {
    hide Repaired, Index, Distinct;
    IndexOf(hs, c);
    var one, two := PartlyRepaired(presets, hs, row, 1), PartlyRepaired(presets, hs, row, 2);
    var count, kind, model := Fields()[0], Fields()[1], Fields()[2];
    assert PartlyRepaired(presets, hs, row, 0) == row;
    assert one[c] == if hs[c] == count then Repaired(presets, count, row[c]) else row[c];
    assert two[c] == if hs[c] == kind then Repaired(presets, kind, one[c]) else one[c];
    var three := PartlyRepaired(presets, hs, row, 3);
    assert three[c] == if hs[c] == model then Repaired(presets, model, two[c]) else two[c];
  }

  /** Only the gripper columns change, and of them only the reviewed rows, which are then filled in: a blank cell
      says not applicable, and a model that names a preset is its part number. */
  lemma RepairEffect(presets: string -> string, t: Table, h: string)
    requires Distinct(Headers(t)) && h in Headers(t)
    ensures var c, d := Under(t, h), Under(Repair(presets, t), h);
      && (h !in Fields() ==> d == c)
      && |d| == |c| && d[0] == c[0]
      && (h in Fields() ==> forall r :: 0 < r < |c| ==>
            d[r] == if Reviewed(RowOf(t, r)) then Repaired(presets, h, c[r]) else c[r])
  {
    hide Reviewed, Repaired, PartlyRepaired, Fields, Index, Distinct;
    var i := Index(Headers(t), h);
    forall r | 0 < r < |t[i]|
      ensures Repair(presets, t)[i][r] ==
        if Reviewed(RowOf(t, r)) && h in Fields() then Repaired(presets, h, t[i][r]) else t[i][r]
    {
      RepairedCell(presets, Headers(t), RowOf(t, r), i);
    }
  }

  /** No gripper cell of a reviewed row stays blank, and what was said in the count and the type stays. */
  lemma RepairFills(presets: string -> string, field: string, v: string)
    ensures !Blank(Repaired(presets, field, v))
    ensures Blank(v) ==> Repaired(presets, field, v) == NOT_APPLICABLE
    ensures !Blank(v) && field != GRIPPER_MODEL ==> Repaired(presets, field, v) == v
  {
    hide Strip;
    StripFixed(NOT_APPLICABLE);
  }

  /** Part numbers are not names of presets themselves, nor is the mark. */
  ghost predicate Settled(presets: string -> string)
  {
    presets(NOT_APPLICABLE) == NOT_APPLICABLE && forall v :: presets(Strip(presets(v))) == Strip(presets(v))
  }

  lemma RepairedTwice(presets: string -> string, field: string, v: string)
    requires Settled(presets)
    ensures Repaired(presets, field, Repaired(presets, field, v)) == Repaired(presets, field, v)
  {
    hide Strip;
    StripFixed(NOT_APPLICABLE);
  }

  /** A second repair changes nothing. */
  lemma RepairTwice(presets: string -> string, t: Table)
    requires Settled(presets) && Distinct(Headers(t))
    ensures Repair(presets, Repair(presets, t)) == Repair(presets, t)
  {
    hide Reviewed, Repaired, PartlyRepaired, Fields, Index, Distinct, Settled;
    var u := Repair(presets, t);
    forall c, r | 0 <= c < |t| && 0 < r < |t[c]| ensures Repair(presets, u)[c][r] == u[c][r] {
      RepairedCell(presets, Headers(t), RowOf(t, r), c);
      RepairedCell(presets, Headers(t), RowOf(u, r), c);
      RepairedTwice(presets, Headers(t)[c], t[c][r]);
      if !Reviewed(RowOf(t, r)) { SameRow(presets, t, r); }
    }
    forall c | 0 <= c < |t| ensures Repair(presets, u)[c] == u[c] {}
  }

  lemma SameRow(presets: string -> string, t: Table, r: nat)
    requires r > 0 && !Reviewed(RowOf(t, r))
    ensures RowOf(Repair(presets, t), r) == RowOf(t, r)
  {
    hide Reviewed;
  }
}
