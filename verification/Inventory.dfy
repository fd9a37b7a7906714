/** How the inventory sheet is brought to the current schema: legacy columns merged, missing columns
    inserted, columns put in order, gripper cells repaired (core/audit_entries.py). */
module Inventory {
  import opened Wrappers
  import opened Columns
  import opened Layout
  import opened GripperCells
  import Legacy

  const LEGACY_TOOL := "Mold #"
  const LEGACY_CUPS := "Number of Vacuum Cups"
  const PARTS_PICKED := "Number of Parts Picked"
  const ELECTRICAL := "Electrical/Wiring Present?"
  const PART_PRESENT := "Part-Present Detection Present?"

  function BlankColumn(h: string, rows: nat): Column
  {
    [h] + seq(rows, _ => "")
  }

  function InsertAt(t: Table, at: nat, c: Column): Table
    requires at <= |t|
  {
    t[..at] + [c] + t[at..]
  }

  /** The last of the tooling headers before `k` that the sheet has. */
  function Before(order: seq<string>, k: nat, hs: seq<string>): (r: Option<string>)
    requires k <= |order|
    ensures r.Some? ==> r.value in hs
  {
    if k == 0 then None
    else if order[k - 1] in hs then Some(order[k - 1])
    else Before(order, k - 1, hs)
  }

  /** The first of the tooling headers from `k` on that the sheet has. */
  function After(order: seq<string>, k: nat, hs: seq<string>): (r: Option<string>)
    requires k <= |order|
    ensures r.Some? ==> r.value in hs
    decreases |order| - k
  {
    if k == |order| then None
    else if order[k] in hs then Some(order[k])
    else After(order, k + 1, hs)
  }

  /** `_tooling_insert_index`, counted from zero. */
  function ToolingPlace(hs: seq<string>, h: string): (r: Option<nat>)
    ensures r.Some? ==> r.value <= |hs|
  {
    if h !in ToolingOrder() then None
    else
      var k := Index(ToolingOrder(), h);
      match Before(ToolingOrder(), k, hs)
      case Some(p) => Some(Index(hs, p) + 1)
      case None =>
        match After(ToolingOrder(), k + 1, hs)
        case Some(f) => Some(Index(hs, f))
        case None => None
  }

  /** Where a missing header goes. */
  function Place(hs: seq<string>, h: string): (at: nat)
    ensures at <= |hs|
  {
    if h == TOOL && PRESS in hs then Index(hs, PRESS) + 1
    else if h == ASSEMBLY then
      if TOOL in hs then Index(hs, TOOL) + 1
      else if PRESS in hs then Index(hs, PRESS) + 1
      else |hs|
    else if ToolingPlace(hs, h).Some? then ToolingPlace(hs, h).value
    else if h == ELECTRICAL && PART_PRESENT in hs then Index(hs, PART_PRESENT) + 1
    else |hs|
  }

  /** The required headers that the sheet has not. */
  function Missing(required: seq<string>, hs: seq<string>): (r: seq<string>)
    ensures forall h :: h in r <==> h in required && h !in hs
  {
    if required == [] then []
    else (if required[0] in hs then [] else [required[0]]) + Missing(required[1..], hs)
  }

  /** Inserts the missing headers from the k-th on. */
  function AddFrom(t: Table, rows: nat, missing: seq<string>, k: nat): Table
    requires k <= |missing|
    decreases |missing| - k
  {
    if k == |missing| then t
    else AddFrom(InsertAt(t, Place(Headers(t), missing[k]), BlankColumn(missing[k], rows)), rows, missing, k + 1)
  }

  function Merged(t: Table): Table
  {
    Legacy.Migrate(Legacy.Migrate(t, LEGACY_TOOL, TOOL), LEGACY_CUPS, PARTS_PICKED)
  }

  /** The columns that the sheet gets, in their order. */
  function Laid(t: Table, rows: nat, required: seq<string>): Table
  {
    var m := Merged(t);
    Arrange(AddFrom(m, rows, Missing(required, Headers(m)), 0))
  }

  /** `_ensure_inventory_headers`: the table it leaves. */
  function Ensured(presets: string -> string, t: Table, rows: nat, required: seq<string>): Table
  {
    Repair(presets, Laid(t, rows, required))
  }

  /* ---- What inserting does ---- */

  /** `u` has the columns of `t`, and blank columns under the headers `added`. */
  ghost predicate Extends(t: Table, u: Table, rows: nat, added: seq<string>)
  {
    && (forall h :: h in Headers(u) <==> h in Headers(t) || h in added)
    && (forall h :: h in Headers(t) ==> Under(u, h) == Under(t, h))
    && (forall h :: h in added ==> Under(u, h) == BlankColumn(h, rows))
  }

  lemma Shifted(t: Table, at: nat, c: Column, h: string)
    requires Distinct(Headers(t)) && c[0] !in Headers(t) && at <= |t| && h in Headers(t)
    ensures var u := InsertAt(t, at, c);
      Distinct(Headers(u)) && h in Headers(u) && Under(u, h) == Under(t, h)
  {
    var u, i := InsertAt(t, at, c), Index(Headers(t), h);
    InsertedHeaders(t, at, c);
    var j := if i < at then i else i + 1;
    assert Headers(u)[j] == h && u[j] == t[i];
    IndexOf(Headers(u), j);
  }

  lemma InsertedHeaders(t: Table, at: nat, c: Column)
    requires Distinct(Headers(t)) && c[0] !in Headers(t) && at <= |t|
    ensures var u := InsertAt(t, at, c);
      && Headers(u) == Headers(t)[..at] + [c[0]] + Headers(t)[at..]
      && Distinct(Headers(u))
      && (forall h :: h in Headers(u) <==> h in Headers(t) || h == c[0])
      && Under(u, c[0]) == c
  {
    var u, hs := InsertAt(t, at, c), Headers(t);
    assert Headers(u) == hs[..at] + [c[0]] + hs[at..];
    assert forall h :: h in hs <==> h in hs[..at] || h in hs[at..] by { assert hs == hs[..at] + hs[at..]; }
    assert Distinct(Headers(u)) by {
      forall i, j | 0 <= i < j < |Headers(u)| ensures Headers(u)[i] != Headers(u)[j] {
        assert i != at ==> Headers(u)[i] == hs[if i < at then i else i - 1];
        assert j != at ==> Headers(u)[j] == hs[if j < at then j else j - 1];
      }
    }
    IndexOf(Headers(u), at);
  }

  lemma InsertExtends(t: Table, u: Table, at: nat, rows: nat, added: seq<string>, h: string)
    requires Distinct(Headers(u)) && Extends(t, u, rows, added) && h !in Headers(u) && at <= |u|
    ensures var v := InsertAt(u, at, BlankColumn(h, rows));
      Distinct(Headers(v)) && Extends(t, v, rows, added + [h])
  {
    hide InsertAt, Headers, Index, BlankColumn, Distinct, Under;
    var c := BlankColumn(h, rows);
    assert c[0] == h by { BlankFirst(h, rows); }
    var v := InsertAt(u, at, c);
    InsertedHeaders(u, at, c);
    forall g | g in Headers(u) ensures g in Headers(v) && Under(v, g) == Under(u, g) {
      Shifted(u, at, c, g);
    }
  }

  lemma BlankFirst(h: string, rows: nat)
    ensures BlankColumn(h, rows)[0] == h
  {
  }

  lemma {:induction false} AddExtends(t: Table, u: Table, rows: nat, missing: seq<string>, k: nat)
    requires k <= |missing| && Distinct(missing) && Distinct(Headers(u))
    requires Extends(t, u, rows, missing[..k]) && forall h :: h in missing ==> h !in Headers(t)
    ensures var v := AddFrom(u, rows, missing, k);
      Distinct(Headers(v)) && Extends(t, v, rows, missing)
    decreases |missing| - k
  {
    hide Extends, InsertAt, Place, BlankColumn, Headers;
    if k == |missing| {
      assert missing[..k] == missing;
    } else {
      var at := Place(Headers(u), missing[k]);
      assert missing[k] !in Headers(u) by { NotYet(t, u, rows, missing, k); }
      InsertExtends(t, u, at, rows, missing[..k], missing[k]);
      assert missing[..k] + [missing[k]] == missing[..k + 1];
      AddExtends(t, InsertAt(u, at, BlankColumn(missing[k], rows)), rows, missing, k + 1);
    }
  }

  lemma NotYet(t: Table, u: Table, rows: nat, missing: seq<string>, k: nat)
    requires k < |missing| && Distinct(missing) && Extends(t, u, rows, missing[..k])
    requires forall h :: h in missing ==> h !in Headers(t)
    ensures missing[k] !in Headers(u)
  {
  }

  lemma {:induction false} MissingDistinct(required: seq<string>, hs: seq<string>)
    requires Distinct(required)
    ensures Distinct(Missing(required, hs))
  {
    if required != [] {
      MissingDistinct(required[1..], hs);
      assert required[0] !in required[1..];
    }
  }

  lemma {:induction false} NoneMissing(required: seq<string>, hs: seq<string>)
    requires forall h :: h in required ==> h in hs
    ensures Missing(required, hs) == []
  {
    if required != [] { NoneMissing(required[1..], hs); }
  }

  /** Laying the columns out loses no value: each column left by the legacy merge is there unchanged, each required
      header that was missing got a blank column, nothing else is there, and the columns are in order. A sheet with
      these headers, whatever its cells, is laid out already. */
  lemma LaidEffect(t: Table, rows: nat, required: seq<string>, u: Table)
    requires Distinct(Headers(Merged(t))) && Distinct(required)
    requires LEGACY_TOOL !in required && LEGACY_CUPS !in required
    requires Headers(u) == Headers(Laid(t, rows, required))
    ensures var m, w := Merged(t), Laid(t, rows, required);
            var added := Missing(required, Headers(m));
      && Distinct(Headers(w)) && Extends(m, w, rows, added) && Arranged(Headers(w))
      && Missing(required, Headers(Merged(u))) == []
      && Laid(u, rows, required) == u
  {
    hide Distinct, Headers, Arranged, Arrange, AddFrom, Missing, Legacy.Migrate, Extends;
    var m, w := Merged(t), Laid(t, rows, required);
    var added := Missing(required, Headers(m));
    MissingDistinct(required, Headers(m));
    NothingAdded(m, rows);
    AddExtends(m, m, rows, added, 0);
    var v := AddFrom(m, rows, added, 0);
    ArrangeEffect(v);
    SameExtends(m, v, w, rows, added);
    MergedHasNoLegacy(t);
    NoLegacy(m, w, u, rows, added);
    AllThere(m, w, rows, required);
    NoneMissing(required, Headers(u));
    AddNothing(u, rows);
    ArrangeEffect(u);
  }

  lemma NothingAdded(t: Table, rows: nat)
    ensures Extends(t, t, rows, [])
  {
  }

  lemma AllThere(m: Table, w: Table, rows: nat, required: seq<string>)
    requires Extends(m, w, rows, Missing(required, Headers(m)))
    ensures forall h :: h in required ==> h in Headers(w)
  {
    hide Headers, Under, BlankColumn;
  }

  /** The whole repair: the columns that are not the grippers' are those of the merged sheet or blank ones; in the
      gripper columns exactly the reviewed rows are repaired. Repairing again changes nothing, as long as presets
      settle. */
  lemma EnsuredEffect(presets: string -> string, t: Table, rows: nat, required: seq<string>, h: string)
    requires Distinct(Headers(Merged(t))) && Distinct(required)
    requires LEGACY_TOOL !in required && LEGACY_CUPS !in required
    requires h in Headers(Ensured(presets, t, rows, required))
    ensures var m, w, u := Merged(t), Laid(t, rows, required), Ensured(presets, t, rows, required);
            var c := if h in Headers(m) then Under(m, h) else BlankColumn(h, rows);
      && (forall g :: g in Headers(u) <==> g in Headers(m) || g in required)
      && Distinct(Headers(u)) && Arranged(Headers(u))
      && (h !in Fields() ==> Under(u, h) == c)
      && |Under(u, h)| == |c| && Under(u, h)[0] == c[0]
      && (h in Fields() ==> forall r :: 0 < r < |c| ==>
            Under(u, h)[r] == if Reviewed(RowOf(w, r)) then Repaired(presets, h, c[r]) else c[r])
      && (Settled(presets) ==> Ensured(presets, u, rows, required) == u)
  {
    hide Distinct, Headers, Arranged, Laid, Missing, Under, Repair, BlankColumn, Fields, Reviewed, RowOf, Repaired,
         Settled;
    var m, w, u := Merged(t), Laid(t, rows, required), Ensured(presets, t, rows, required);
    LaidEffect(t, rows, required, u);
    RepairEffect(presets, w, h);
    if Settled(presets) { RepairTwice(presets, w); }
  }

  lemma AddNothing(t: Table, rows: nat)
    ensures AddFrom(t, rows, [], 0) == t
  {
  }

  lemma SameExtends(t: Table, u: Table, v: Table, rows: nat, added: seq<string>)
    requires Extends(t, u, rows, added) && SameColumns(u, v)
    ensures Extends(t, v, rows, added)
  {
  }

  lemma NamesApart()
    ensures LEGACY_TOOL != TOOL && LEGACY_CUPS != PARTS_PICKED && LEGACY_TOOL != PARTS_PICKED
    ensures LEGACY_TOOL != LEGACY_CUPS
  {
  }

  lemma {:induction false} MigrateAdds(t: Table, legacy: string, target: string, h: string)
    requires legacy != target && h in Headers(Legacy.Migrate(t, legacy, target)) && h != target
    ensures h in Headers(t)
    decreases Legacy.Count(t, legacy)
  {
    hide Legacy.Count;
    if legacy in Headers(t) {
      var once := Legacy.MigrateOnce(t, legacy, target);
      MigrateAdds(once, legacy, target, h);
      var i, j := Index(Headers(t), legacy), Index(Headers(once), h);
      assert Headers(once)[j] == h;
      assert Headers(t)[if target in Headers(t) && j >= i then j + 1 else j] == h;
    }
  }

  lemma MergedHasNoLegacy(t: Table)
    ensures LEGACY_TOOL !in Headers(Merged(t)) && LEGACY_CUPS !in Headers(Merged(t))
  {
    hide Legacy.Migrate;
    NamesApart();
    if LEGACY_TOOL in Headers(Merged(t)) {
      MigrateAdds(Legacy.Migrate(t, LEGACY_TOOL, TOOL), LEGACY_CUPS, PARTS_PICKED, LEGACY_TOOL);
    }
  }

  lemma NoLegacy(m: Table, w: Table, u: Table, rows: nat, added: seq<string>)
    requires LEGACY_TOOL !in Headers(m) && LEGACY_CUPS !in Headers(m)
    requires Extends(m, w, rows, added) && LEGACY_TOOL !in added && LEGACY_CUPS !in added
    requires Headers(u) == Headers(w)
    ensures Merged(u) == u
  {
    hide Headers, Under, BlankColumn;
    NamesApart();
  }
}
