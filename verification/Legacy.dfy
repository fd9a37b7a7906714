/** How legacy columns are merged into the column that replaces them (core/audit_entries.py). */
module Legacy {
  import opened Columns

  predicate Blank(cell: string)
  {
    cell == ""
  }

  /** The target column, with its blank cells filled from the legacy column; the header stays. */
  function Filled(target: Column, legacy: Column): (r: Column)
    ensures |r| == |target| && r[0] == target[0]
  {
    seq(|target|, i requires 0 <= i < |target| =>
      if i > 0 && Blank(target[i]) && i < |legacy| then legacy[i] else target[i])
  }

  function Renamed(c: Column, header: string): Column
  {
    c[0 := header]
  }

  function Without(t: Table, i: nat): Table
    requires i < |t|
  {
    t[..i] + t[i + 1..]
  }

  /** How many columns carry the header. */
  function Count(t: Table, h: string): nat
  {
    if t == [] then 0 else (if t[0][0] == h then 1 else 0) + Count(t[1..], h)
  }

  lemma {:induction false} CountAt(t: Table, h: string, i: nat, c: Column)
    requires i < |t| && t[i][0] == h && c[0] != h
    ensures Count(t, h) > 0
    ensures Count(Without(t, i), h) == Count(t, h) - 1 && Count(t[i := c], h) == Count(t, h) - 1
  {
    if i == 0 {
      assert Without(t, 0) == t[1..] && t[0 := c][1..] == t[1..];
    } else {
      CountAt(t[1..], h, i - 1, c);
      assert Without(t, i)[1..] == Without(t[1..], i - 1) && t[i := c][1..] == t[1..][i - 1 := c];
    }
  }

  lemma {:induction false} CountReplaced(t: Table, h: string, i: nat, c: Column)
    requires i < |t| && (t[i][0] == h <==> c[0] == h)
    ensures Count(t[i := c], h) == Count(t, h)
  {
    if i > 0 {
      CountReplaced(t[1..], h, i - 1, c);
      assert t[i := c][1..] == t[1..][i - 1 := c];
    } else {
      assert t[0 := c][1..] == t[1..];
    }
  }

  /** One round of a legacy header loop. */
  function MigrateOnce(t: Table, legacy: string, target: string): (r: Table)
    requires legacy in Headers(t) && legacy != target
    ensures Count(r, legacy) < Count(t, legacy)
  {
    var hs := Headers(t);
    var i := Index(hs, legacy);
    CountAt(t, legacy, i, Renamed(t[i], target));
    if target in hs then
      var j := Index(hs, target);
      var filled := t[j := Filled(t[j], t[i])];
      CountReplaced(t, legacy, j, Filled(t[j], t[i]));
      CountAt(filled, legacy, i, Renamed(t[i], target));
      Without(filled, i)
    else t[i := Renamed(t[i], target)]
  }

  /** `_migrate_legacy_tool_header` and `_migrate_legacy_vacuum_cups_header`: round after round until no
      legacy column is left. */
  function Migrate(t: Table, legacy: string, target: string): (r: Table)
    requires legacy != target
    ensures legacy !in Headers(r)
    decreases Count(t, legacy)
  {
    if legacy !in Headers(t) then t else Migrate(MigrateOnce(t, legacy, target), legacy, target)
  }

  /* ---- What is left ---- */

  /** The columns under other headers, in order. */
  function Others(t: Table, legacy: string): Table
  {
    if t == [] then []
    else (if t[0][0] == legacy then [] else [t[0]]) + Others(t[1..], legacy)
  }

  /** The legacy columns, left to right. */
  function Legacies(t: Table, legacy: string): Table
  {
    if t == [] then []
    else (if t[0][0] == legacy then [t[0]] else []) + Legacies(t[1..], legacy)
  }

  /** The column with each legacy column filled in after the other. */
  function Merged(c: Column, legacies: Table): (r: Column)
    ensures |r| == |c| && r[0] == c[0]
    decreases |legacies|
  {
    if legacies == [] then c else Merged(Filled(c, legacies[0]), legacies[1..])
  }

  /** The cells of one row in some columns. */
  function Cells(columns: Table, row: nat): (cells: seq<string>)
    ensures |cells| == |columns|
  {
    seq(|columns|, k requires 0 <= k < |columns| => if row < |columns[k]| then columns[k][row] else "")
  }

  /** `cell` is the first of the cells that is not blank, or blank if all of them are. */
  ghost predicate IsFirstFilled(cell: string, cells: seq<string>)
  {
    if forall k :: 0 <= k < |cells| ==> Blank(cells[k]) then Blank(cell)
    else exists k :: 0 <= k < |cells| && cell == cells[k] && !Blank(cell) && forall m :: 0 <= m < k ==> Blank(cells[m])
  }

  lemma {:induction false} MergedCell(c: Column, legacies: Table, row: nat)
    requires 0 < row < |c|
    ensures IsFirstFilled(Merged(c, legacies)[row], [c[row]] + Cells(legacies, row))
    decreases |legacies|
  {
    var cells := [c[row]] + Cells(legacies, row);
    if legacies == [] {
      assert cells == [c[row]];
      if !Blank(c[row]) { assert c[row] == cells[0]; }
    } else {
      var c1 := Filled(c, legacies[0]);
      MergedCell(c1, legacies[1..], row);
      var rest := [c1[row]] + Cells(legacies[1..], row);
      var cell := Merged(c, legacies)[row];
      assert forall k :: 2 <= k < |cells| ==> cells[k] == rest[k - 1];
      assert cells[1] == Cells(legacies, row)[0];
      if !Blank(c[row]) {
        assert rest[0] == cells[0];
        assert cell == cells[0];
      } else {
        assert Blank(cells[0]) && cells[1] == rest[0];
        if k :| 0 <= k < |rest| && cell == rest[k] && !Blank(cell) && forall m :: 0 <= m < k ==> Blank(rest[m]) {
          assert cell == cells[k + 1];
          forall m | 0 <= m < k + 1 ensures Blank(cells[m]) {
            if m > 0 { assert cells[m] == rest[m - 1]; }
          }
        }
      }
    }
  }

  lemma IndexBehind(h: string, hs: seq<string>, x: string)
    requires x in hs
    ensures x in [h] + hs
    ensures Index([h] + hs, x) == if h == x then 0 else Index(hs, x) + 1
  {
    assert ([h] + hs)[1..] == hs;
  }

  /** Filling a kept column keeps its place among the kept columns, and touches no legacy column. */
  lemma {:induction false} OthersAt(t: Table, legacy: string, j: nat, c: Column)
    requires j < |t| && t[j][0] != legacy && c[0] == t[j][0] && c[0] !in Headers(t)[..j]
    ensures c[0] in Headers(Others(t, legacy))
    ensures var at := Index(Headers(Others(t, legacy)), c[0]);
      && Others(t, legacy)[at] == t[j]
      && Others(t[j := c], legacy) == Others(t, legacy)[at := c]
      && Legacies(t[j := c], legacy) == Legacies(t, legacy)
    decreases |t|, 1
  {
    hide Index, Others, Legacies;
    var o, o1 := Others(t, legacy), Others(t[1..], legacy);
    OthersFirst(t, legacy);
    OthersFirst(t[j := c], legacy);
    if j == 0 {
      assert t[0 := c][1..] == t[1..];
      assert Headers(o)[0] == c[0];
      assert o[0 := c] == [c] + o1;
    } else {
      OthersRest(t, legacy, j, c);
      if t[0][0] != legacy {
        BehindFirst(t[0], o1, c);
      } else {
        assert o == o1 && Others(t[j := c], legacy) == Others(t[j := c][1..], legacy);
      }
    }
  }

  lemma OthersFirst(t: Table, legacy: string)
    requires t != []
    ensures Others(t, legacy) == (if t[0][0] == legacy then [] else [t[0]]) + Others(t[1..], legacy)
    ensures Legacies(t, legacy) == (if t[0][0] == legacy then [t[0]] else []) + Legacies(t[1..], legacy)
  {
  }

  lemma BehindFirst(first: Column, rest: Table, c: Column)
    requires c[0] in Headers(rest) && first[0] != c[0]
    ensures c[0] in Headers([first] + rest)
    ensures var at := Index(Headers(rest), c[0]);
      && Index(Headers([first] + rest), c[0]) == at + 1
      && [first] + rest[at := c] == ([first] + rest)[at + 1 := c]
  {
    hide Index;
    assert Headers([first] + rest) == [first[0]] + Headers(rest);
    IndexBehind(first[0], Headers(rest), c[0]);
  }

  lemma {:induction false} OthersRest(t: Table, legacy: string, j: nat, c: Column)
    requires 0 < j < |t| && t[j][0] != legacy && c[0] == t[j][0] && c[0] !in Headers(t)[..j]
    ensures t[j := c][0] == t[0] && t[0][0] != c[0]
    ensures c[0] in Headers(Others(t[1..], legacy))
    ensures var at := Index(Headers(Others(t[1..], legacy)), c[0]);
      && Others(t[1..], legacy)[at] == t[j]
      && Others(t[j := c][1..], legacy) == Others(t[1..], legacy)[at := c]
      && Legacies(t[j := c][1..], legacy) == Legacies(t[1..], legacy)
    decreases |t|, 0
  {
    hide Index, Others, Legacies;
    assert Headers(t)[..j][0] == t[0][0];
    assert Headers(t[1..])[..j - 1] == Headers(t)[1..j];
    OthersAt(t[1..], legacy, j - 1, c);
    assert t[j := c][1..] == t[1..][j - 1 := c];
  }

  lemma {:induction false} WithoutFirst(t: Table, legacy: string, i: nat)
    requires i < |t| && t[i][0] == legacy && legacy !in Headers(t)[..i]
    ensures Others(Without(t, i), legacy) == Others(t, legacy)
    ensures Legacies(t, legacy) == [t[i]] + Legacies(Without(t, i), legacy)
  {
    if i == 0 {
      assert Without(t, 0) == t[1..];
    } else {
      assert Headers(t[1..])[..i - 1] == Headers(t)[1..i];
      WithoutFirst(t[1..], legacy, i - 1);
      assert Without(t, i)[1..] == Without(t[1..], i - 1);
      assert Headers(t)[..i][0] == t[0][0];
    }
  }

  lemma {:induction false} NothingLeft(t: Table, legacy: string)
    requires legacy !in Headers(t)
    ensures Others(t, legacy) == t && Legacies(t, legacy) == []
  {
    if t != [] {
      assert Headers(t)[0] == t[0][0] && Headers(t[1..]) == Headers(t)[1..];
      NothingLeft(t[1..], legacy);
    }
  }

  /* ---- The whole loop ---- */

  /** The columns the merge works on: without a target column, the first legacy column becomes it. */
  function Prepared(t: Table, legacy: string, target: string): Table
  {
    if target !in Headers(t) && legacy in Headers(t)
    then var i := Index(Headers(t), legacy); t[i := Renamed(t[i], target)]
    else t
  }

  /** What the loop leaves. */
  function Merge(t: Table, legacy: string, target: string): Table
  {
    var o: Table := Others(t, legacy);
    if target !in Headers(o) then o
    else var at := Index(Headers(o), target); o[at := Merged(o[at], Legacies(t, legacy))]
  }

  lemma MergeOnce(t: Table, legacy: string, target: string)
    requires legacy != target && legacy in Headers(t) && target in Headers(t)
    ensures Merge(MigrateOnce(t, legacy, target), legacy, target) == Merge(t, legacy, target)
    ensures target in Headers(MigrateOnce(t, legacy, target))
  {
    hide Others, Legacies, Filled, Count;
    var i, j := Index(Headers(t), legacy), Index(Headers(t), target);
    var c: Column := Filled(t[j], t[i]);
    var filled := t[j := c];
    OthersAt(t, legacy, j, c);
    assert Headers(filled) == Headers(t);
    WithoutFirst(filled, legacy, i);
    StillThere(filled, i, target);
    var o: Table := Others(t, legacy);
    var at := Index(Headers(o), target);
    assert Headers(o[at := c]) == Headers(o);
    assert o[at := c][at := Merged(c, Legacies(Without(filled, i), legacy))]
        == o[at := Merged(c, Legacies(Without(filled, i), legacy))];
    WithoutFirst(t, legacy, i);
    assert Legacies(t, legacy)[1..] == Legacies(Without(filled, i), legacy);
  }

  lemma StillThere(t: Table, i: nat, h: string)
    requires i < |t| && t[i][0] != h && h in Headers(t)
    ensures h in Headers(Without(t, i))
  {
    var j :| 0 <= j < |t| && Headers(t)[j] == h;
    assert Headers(Without(t, i))[if j < i then j else j - 1] == h;
  }

  lemma {:induction false} MigrateMerges(t: Table, legacy: string, target: string)
    requires legacy != target && (legacy in Headers(t) ==> target in Headers(t))
    ensures Migrate(t, legacy, target) == Merge(t, legacy, target)
    decreases Count(t, legacy)
  {
    hide MigrateOnce, Others, Legacies, Count;
    if legacy in Headers(t) {
      MergeOnce(t, legacy, target);
      MigrateMerges(MigrateOnce(t, legacy, target), legacy, target);
    } else {
      NothingLeft(t, legacy);
    }
  }

  lemma RenamesFirst(t: Table, legacy: string, target: string)
    requires legacy != target && legacy in Headers(t) && target !in Headers(t)
    ensures Prepared(t, legacy, target) == MigrateOnce(t, legacy, target)
    ensures target in Headers(Prepared(t, legacy, target))
  {
    var i := Index(Headers(t), legacy);
    assert Headers(Prepared(t, legacy, target))[i] == target;
  }

  /** Once the loop is done no legacy column is left. The other columns stand as they stood, in the same
      order and unchanged but for the target column, and each of its cells is the first filled one among
      the cell it had and the cells of the legacy columns from left to right. */
  lemma MigrateEffect(t: Table, legacy: string, target: string)
    requires legacy != target
    ensures var u, p := Migrate(t, legacy, target), Prepared(t, legacy, target);
            var kept, merged := Others(p, legacy), Legacies(p, legacy);
      && legacy !in Headers(u) && Headers(u) == Headers(kept)
      && (forall k :: 0 <= k < |u| && (target !in Headers(u) || k != Index(Headers(u), target)) ==> u[k] == kept[k])
      && (target in Headers(u) ==>
            var at := Index(Headers(u), target);
            && |u[at]| == |kept[at]|
            && forall row :: 0 < row < |u[at]| ==>
                 IsFirstFilled(u[at][row], [kept[at][row]] + Cells(merged, row)))
  {
    hide Others, Legacies, MigrateOnce, Merged, IsFirstFilled, Count, Cells;
    var p := Prepared(t, legacy, target);
    if p != t {
      RenamesFirst(t, legacy, target);
      assert Migrate(t, legacy, target) == Migrate(p, legacy, target);
    } else if legacy in Headers(t) && target !in Headers(t) {
      RenamesFirst(t, legacy, target);
    }
    MigrateMerges(p, legacy, target);
    var u, kept, merged := Merge(p, legacy, target), Others(p, legacy), Legacies(p, legacy);
    if target in Headers(kept) {
      var at := Index(Headers(kept), target);
      assert Headers(u) == Headers(kept);
      forall row | 0 < row < |u[at]|
        ensures IsFirstFilled(u[at][row], [kept[at][row]] + Cells(merged, row))
      {
        MergedCell(kept[at], merged, row);
      }
    }
  }
}
