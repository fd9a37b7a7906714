/** When the records of a loaded bundle are told apart by their keys, and what becomes of tools that share a name
    (core/atlas_data_loader.py, core/atlas_setup_packets.py). */
module AtlasNames {
  import opened Wrappers
  import opened Tokens
  import opened Atlas
  import opened AtlasLoader
  import opened AtlasBundles

  /** Different members have different images. */
  ghost predicate Apart(s: set<string>, image: string -> string)
  {
    forall k, l :: k in s && l in s && k != l ==> image(k) != image(l)
  }

  lemma ListedApart(list: seq<string>, s: set<string>, image: string -> string)
    requires Lists(list, s)
    ensures Apart(s, image) <==> forall i, j :: 0 <= i < j < |list| ==> image(list[i]) != image(list[j])
  {
    if Apart(s, image) {
      assert forall i :: 0 <= i < |list| ==> list[i] in list;
    } else {
      var k, l :| k in s && l in s && k != l && image(k) == image(l);
      assert k in list && l in list;
      var i, j :| 0 <= i < |list| && 0 <= j < |list| && list[i] == k && list[j] == l;
      assert i != j;
    }
  }

  /* ---- Machines ---- */

  /** The machines of a loaded bundle are told apart exactly when the names in its sources are. */
  lemma MachinesAreUnique(b: Bundle, eoats: seq<EoatRecord>, rows: seq<Source>, capacity: seq<Capacity>,
                          robots: set<string>, o: Orders)
    requires Keeps(o) && LoadedFrom(b, eoats, rows, capacity, robots, o)
    ensures UniqueMachines(b) <==> Apart(MachineNames(rows, capacity, robots), b.keys.machine)
  {
    hide Built, MachineNames, ToolsOn, EoatsOn, ToolsLoaded, EoatEntries, Apart;
    var s := MachineNames(rows, capacity, robots);
    assert Lists(o.machines(s), s);
    var names := o.machines(s);
    ListedApart(names, s, b.keys.machine);
    assert |b.machines| == |names| && forall i :: 0 <= i < |names| ==> b.machines[i].name == names[i];
  }

  /* ---- Tools ---- */

  /** The keys that tools are kept under. */
  function ToolKeys(rows: seq<Source>, capacity: seq<Capacity>, key: string -> string): set<string>
  {
    ToolKeysOf(rows, key) + CapacityKeys(capacity, key)
  }

  /** The key of what a tool is called, for the key that it is kept under. */
  function Called(rows: seq<Source>, capacity: seq<Capacity>, key: string -> string): (r: string -> string)
    ensures forall k :: r(k) == key(ToolName(rows, capacity, key, k))
  {
    k => key(ToolName(rows, capacity, key, k))
  }

  /** The tools of a loaded bundle are told apart exactly when what they are called is. */
  lemma ToolsAreUnique(b: Bundle, eoats: seq<EoatRecord>, rows: seq<Source>, capacity: seq<Capacity>,
                       robots: set<string>, o: Orders)
    requires Keeps(o) && LoadedFrom(b, eoats, rows, capacity, robots, o)
    ensures var key := b.keys.tool;
      UniqueTools(b) <==> Apart(ToolKeys(rows, capacity, key), Called(rows, capacity, key))
  {
    hide Built, ToolKeysOf, CapacityKeys, ToolName, MachinesLoaded, EoatEntries, Apart, Carriers, CarriedTo,
         PartMachines, Normalized, Called;
    var key := b.keys.tool;
    var s := ToolKeys(rows, capacity, key);
    assert Lists(o.names(s), s);
    var keys := o.names(s);
    ListedApart(keys, s, Called(rows, capacity, key));
    assert |b.tools| == |keys|;
    assert forall i :: 0 <= i < |keys| ==> b.tools[i].name == ToolName(rows, capacity, key, keys[i]);
  }

  /** Every tool cell has the key of each tool that it names, so it names one. */
  ghost predicate CellsName(rows: seq<Source>, key: string -> string)
  {
    forall row, k :: row in rows && k in RowKeys(row, key) ==> key(row.toolCell) == k
  }

  /** A tool is called by its own key exactly when the cell of its first row is; so it is on a sheet whose cells name
      one tool each, and there tools are told apart. */
  lemma CellsTellTools(rows: seq<Source>, capacity: seq<Capacity>, key: string -> string)
    requires Lawful(key)
    ensures forall k :: k in ToolKeys(rows, capacity, key) ==>
      (key(ToolName(rows, capacity, key, k)) == k <==>
       (FirstRow(rows, key, k) < |rows| ==> key(rows[FirstRow(rows, key, k)].toolCell) == k))
    ensures CellsName(rows, key) ==>
      Apart(ToolKeys(rows, capacity, key), Called(rows, capacity, key))
  {
    hide FirstRow, FirstPart, RowKeys, ToolKeysOf, CapacityKeys, Display, Called;
    forall k | k in ToolKeys(rows, capacity, key)
      ensures FirstRow(rows, key, k) < |rows| || FirstPart(capacity, key, k) < |capacity|
    {
      ToolsNamed(rows, capacity, key, k);
    }
    if CellsName(rows, key) {
      forall k | FirstRow(rows, key, k) < |rows| ensures key(rows[FirstRow(rows, key, k)].toolCell) == k {
        assert rows[FirstRow(rows, key, k)] in rows;
      }
    }
  }

  /** Two tools whose first rows have one and the same cell, filled or blank, are called alike, and tools are not told
      apart. */
  lemma SharedCellClashes(b: Bundle, eoats: seq<EoatRecord>, rows: seq<Source>, capacity: seq<Capacity>,
                          robots: set<string>, o: Orders, k: string, l: string)
    requires Keeps(o) && LoadedFrom(b, eoats, rows, capacity, robots, o)
    requires var r, q := FirstRow(rows, b.keys.tool, k), FirstRow(rows, b.keys.tool, l);
      k != l && r < |rows| && q < |rows| && rows[r].toolCell == rows[q].toolCell
    ensures !UniqueTools(b)
  {
    hide LoadedFrom, Keeps, FirstRow, FirstPart, ToolKeysOf, CapacityKeys, UniqueTools, Called;
    ToolsAreUnique(b, eoats, rows, capacity, robots, o);
    NamedByRow(rows, b.keys.tool, k);
    NamedByRow(rows, b.keys.tool, l);
  }

  /* ---- EOATs ---- */

  /** What the EOAT of a group is called. */
  function EoatName(rows: seq<Source>, group: string): string
  {
    var members := Members(rows, group);
    if members == [] then group else DisplayId(rows[Primary(rows, members)], group)
  }

  /** The key of what the EOAT of a group is called. */
  function EoatCalled(rows: seq<Source>, key: string -> string): (r: string -> string)
    ensures forall g :: r(g) == key(EoatName(rows, g))
  {
    g => key(EoatName(rows, g))
  }

  lemma {:induction false} CountedOnce<T>(s: seq<T>)
    ensures Distinct(s) <==> forall e :: multiset(s)[e] <= 1
  {
    if s != [] {
      var n := |s| - 1;
      var front, last := s[..n], s[n];
      CountedOnce(front);
      assert s == front + [last];
      assert multiset(s) == multiset(front) + multiset{last};
      if Distinct(s) {
        assert last !in front;
        assert forall i, j :: 0 <= i < j < n ==> front[i] == s[i] && front[j] == s[j];
      }
      if forall e :: multiset(s)[e] <= 1 {
        assert multiset(s)[last] == multiset(front)[last] + 1;
        assert forall e :: multiset(front)[e] <= multiset(s)[e];
        assert forall i :: 0 <= i < n ==> front[i] == s[i] && front[i] in multiset(front);
      }
    }
  }

  /** Whether records are told apart does not depend on their order. */
  lemma OrderedApart(s: seq<EoatRecord>, t: seq<EoatRecord>, key: string -> string)
    requires multiset(s) == multiset(t)
    requires forall i, j :: 0 <= i < j < |s| ==> key(s[i].id) != key(s[j].id)
    ensures forall i, j :: 0 <= i < j < |t| ==> key(t[i].id) != key(t[j].id)
  {
    CountedOnce(s);
    CountedOnce(t);
    forall i, j | 0 <= i < j < |t| ensures key(t[i].id) != key(t[j].id) {
      assert t[i] in multiset(t) && t[j] in multiset(t);
      var k, l :| 0 <= k < |s| && 0 <= l < |s| && s[k] == t[i] && s[l] == t[j];
    }
  }

  /** The EOATs of a loaded bundle are told apart exactly when what their groups are called is. */
  lemma EoatsAreUnique(b: Bundle, eoats: seq<EoatRecord>, groups: seq<string>, rows: seq<Source>,
                       capacity: seq<Capacity>, robots: set<string>, o: Orders)
    requires Keeps(o) && LoadedFrom(b, eoats, rows, capacity, robots, o)
    requires EoatsAre(eoats, groups, rows, capacity, b.keys.tool)
    ensures UniqueEoats(b) <==> Apart((set g | g in groups), EoatCalled(rows, b.keys.eoat))
  {
    hide Built, MachinesLoaded, ToolsLoaded, Apart, Primary, DisplayId, ToolsShown, MachinesShown, CapacityMachines,
         Normalized, EoatCalled;
    var key, ordered, s := b.keys.eoat, o.eoats(eoats), (set g | g in groups);
    assert multiset(ordered) == multiset(eoats);
    assert |b.eoats| == |ordered| && forall i :: 0 <= i < |ordered| ==> b.eoats[i].id == ordered[i].id;
    if UniqueEoats(b) { OrderedApart(ordered, eoats, key); }
    ListedApart(groups, s, EoatCalled(rows, key));
    assert forall i :: 0 <= i < |groups| ==> groups[i] in groups && eoats[i].id == EoatName(rows, groups[i]);
    if Apart(s, EoatCalled(rows, key)) { OrderedApart(eoats, ordered, key); }
  }

  /** On a sheet whose rows all have an EOAT ID, that is so exactly when different IDs have different keys. */
  lemma IdsTellEoats(groups: seq<string>, rows: seq<Source>, key: string -> string)
    requires GroupsAre(groups, rows) && forall row :: row in rows ==> row.eoatId != ""
    ensures Apart((set g | g in groups), EoatCalled(rows, key)) <==>
            forall r, q :: r in rows && q in rows && r.eoatId != q.eoatId ==> key(r.eoatId) != key(q.eoatId)
  {
    hide Members, Primary, EoatCalled;
    forall g | g in groups ensures EoatName(rows, g) == g && exists r :: r in rows && r.eoatId == g {
      var i := Primary(rows, Members(rows, g));
      assert i in Members(rows, g) && rows[i] in rows;
    }
    forall r | r in rows ensures r.eoatId in groups {
      var i :| 0 <= i < |rows| && rows[i] == r;
      assert i in Members(rows, r.eoatId);
    }
  }

  /** When a loaded bundle is as the offers assume, told from the sources. */
  lemma LoadedIsGood(b: Bundle, eoats: seq<EoatRecord>, groups: seq<string>, rows: seq<Source>,
                     capacity: seq<Capacity>, robots: set<string>, o: Orders)
    requires Keeps(o) && LoadedFrom(b, eoats, rows, capacity, robots, o) && AllLawful(b)
    requires EoatsAre(eoats, groups, rows, capacity, b.keys.tool)
    ensures var machines := Apart(MachineNames(rows, capacity, robots), b.keys.machine);
            var ids := Apart((set g | g in groups), EoatCalled(rows, b.keys.eoat));
            var tools := Apart(ToolKeys(rows, capacity, b.keys.tool), Called(rows, capacity, b.keys.tool));
      && (Fair(b) <==> machines && ids) && (Good(b) <==> machines && ids && tools)
  {
    hide Keeps, Built, AllLawful, EoatsAre, Apart, MachineNames, ToolKeys, Called, EoatCalled, Fair, Good,
         UniqueMachines, UniqueTools, UniqueEoats, MachinesLoaded, ToolsLoaded, EoatEntries;
    BuiltIsGood(b);
    MachinesAreUnique(b, eoats, rows, capacity, robots, o);
    ToolsAreUnique(b, eoats, rows, capacity, robots, o);
    EoatsAreUnique(b, eoats, groups, rows, capacity, robots, o);
  }

  /* ---- Tools that share a name ---- */

  /** The last tool record with the key, which its index holds. */
  function LastToolWith(tools: seq<Tool>, key: string -> string, k: string): (r: Option<Tool>)
    ensures r.Some? ==> r.value in tools && key(r.value.name) == k
    ensures r.None? ==> forall t :: t in tools ==> key(t.name) != k
    ensures At(MachinesByTool(tools, key), k) == if r.Some? then r.value.machines else []
  {
    if tools == [] then None
    else
      var n := |tools| - 1;
      assert tools == tools[..n] + [tools[n]];
      if key(tools[n].name) == k then Some(tools[n]) else LastToolWith(tools[..n], key, k)
  }

  /** The first or the last tool record with the key names the machine. */
  ghost predicate EndNamesMachine(b: Bundle, t: string, m: string)
  {
    || (FindTool(b.tools, b.keys.tool, t).Some?
          && HasKey(FindTool(b.tools, b.keys.tool, t).value.machines, b.keys.machine, m))
    || (LastToolWith(b.tools, b.keys.tool, t).Some?
          && HasKey(LastToolWith(b.tools, b.keys.tool, t).value.machines, b.keys.machine, m))
  }

  /** The first tool record with the key names the EOAT. */
  ghost predicate FirstNamesEoat(b: Bundle, t: string, e: string)
  {
    FindTool(b.tools, b.keys.tool, t).Some?
    && HasKey(FindTool(b.tools, b.keys.tool, t).value.eoats, b.keys.eoat, e)
  }

  ghost predicate SomeMachineNames(b: Bundle, t: string, m: string)
  {
    exists r :: r in b.machines && b.keys.machine(r.name) == m && HasKey(r.tools, b.keys.tool, t)
  }

  ghost predicate SomeEoatNames(b: Bundle, t: string, e: string)
  {
    exists r :: r in b.eoats && b.keys.eoat(r.id) == e && HasKey(r.tools, b.keys.tool, t)
  }

  lemma MachinesTold(b: Bundle, id: string, m: string)
    requires Built(b) && Lawful(b.keys.machine)
    ensures var t := b.keys.tool(id);
      m in MachinesForTool(b, id) <==> m != "" && (EndNamesMachine(b, t, m) || SomeMachineNames(b, t, m))
  {
    hide Shown, Lawful, Display, MachinesNamingTool, MachinesByTool, FindTool, LastToolWith, HasKey;
    var t, found := b.keys.tool(id), ToolOf(b, id);
    assert HasKey([], b.keys.machine, m) == false by { NothingHasKey(b.keys.machine, m); }
    ShownOfThree(At(b.machinesByTool, t), if found.Some? then found.value.machines else [],
                 MachinesNamingTool(b.machines, b.keys.tool, t), b.keys.machine, m);
    NamedMachines(b, t, m);
  }

  lemma NothingHasKey(key: string -> string, k: string)
    ensures !HasKey([], key, k)
  {
  }

  lemma EoatsTold(b: Bundle, id: string, e: string)
    requires Indexed(b) && Lawful(b.keys.eoat)
    ensures var t := b.keys.tool(id);
      e in EoatsForTool(b, id) <==> e != "" && (FirstNamesEoat(b, t, e) || SomeEoatNames(b, t, e))
  {
    hide Shown, Lawful, Display, EoatsNamingTool, FindTool, HasKey;
    var t, found := b.keys.tool(id), ToolOf(b, id);
    var named := EoatsNamingTool(b.eoats, b.keys.tool, t);
    assert HasKey([], b.keys.eoat, e) == false by { NothingHasKey(b.keys.eoat, e); }
    ShownOfThree(At(b.eoatsByTool, t), if found.Some? then found.value.eoats else [], named, b.keys.eoat, e);
    SameMembers(At(b.eoatsByTool, t), named, b.keys.eoat, e);
    NamedEoats(b, t, e);
  }

  /** What is told of a tool only from the other side, when it shares its name: a machine that only records between
      the first and the last with that name list, and an EOAT that only records behind the first list. */
  lemma NotToldBack(b: Bundle, machine: string, tool: string, eoat: string)
    requires Fair(b) && Built(b)
    requires b.keys.machine(machine) != "" && b.keys.tool(tool) != "" && b.keys.eoat(eoat) != ""
    ensures var m, t, e := b.keys.machine(machine), b.keys.tool(tool), b.keys.eoat(eoat);
      && (t in ToolsForMachine(b, machine) && m !in MachinesForTool(b, tool) <==>
            && (exists r :: r in b.tools && b.keys.tool(r.name) == t && HasKey(r.machines, b.keys.machine, m))
            && !EndNamesMachine(b, t, m) && !SomeMachineNames(b, t, m))
      && (t in ToolsForEoat(b, eoat) && e !in EoatsForTool(b, tool) <==>
            && (exists r :: r in b.tools && b.keys.tool(r.name) == t && HasKey(r.eoats, b.keys.eoat, e))
            && !FirstNamesEoat(b, t, e) && !SomeEoatNames(b, t, e))
  {
    hide Lawful, Indexed, UniqueMachines, UniqueEoats, Built, Shown, ToolsForMachine, MachinesForTool, EoatsForTool,
         ToolsForEoat, EndNamesMachine, FirstNamesEoat, HasKey;
    ToolsForMachineAre(b, machine, b.keys.tool(tool));
    ToolsForEoatAre(b, eoat, b.keys.tool(tool));
    MachinesTold(b, tool, b.keys.machine(machine));
    EoatsTold(b, tool, b.keys.eoat(eoat));
  }
}
