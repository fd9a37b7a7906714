/** The bundle that the Atlas is looked up in, from the records (core/atlas_data_loader.py). */
module AtlasBundles {
  import opened Wrappers
  import opened Tokens
  import opened Atlas
  import opened AtlasLoader
  import AtlasSetup

  /* ---- Machine records ---- */

  /** The machines that a row of the inventory, press capacity or the robot list names. */
  function MachineNames(rows: seq<Source>, capacity: seq<Capacity>, robots: set<string>): set<string>
  {
    (set row, m | row in rows && m in row.listed && m != "" :: Token(m)) +
    (set c | c in capacity && Token(c.machine) != "" :: Token(c.machine)) + robots
  }

  function PartsOn(capacity: seq<Capacity>, name: string): set<string>
  {
    set c | c in capacity && Token(c.machine) == name != "" :: Display(c.part)
  }

  /** The tools that capacity or a row gives for a machine. */
  function ToolsOn(rows: seq<Source>, capacity: seq<Capacity>, name: string): set<string>
  {
    PartsOn(capacity, name) +
    (set row, m, t | row in rows && m in row.listed && m != "" && Token(m) == name && t in RowTools(row) :: t)
  }

  /** The EOATs whose records list a machine. */
  function EoatsOn(eoats: seq<EoatRecord>, name: string): set<string>
  {
    set e, m | e in eoats && m in e.machines && Token(m) == name :: e.id
  }

  function MachineFor(rows: seq<Source>, capacity: seq<Capacity>, eoats: seq<EoatRecord>, name: string): MachineRecord
  {
    MachineRecord(name, ToolsOn(rows, capacity, name), EoatsOn(eoats, name))
  }

  /** A record lists a machine under the machine's name. */
  function ByMachine(e: EoatRecord): Listing
  {
    Listing(e.id, e.machines)
  }

  /** The tools of the rows by machine, while the machines of one row are gone through. */
  ghost predicate OnMachines(tools: Sets, rows: seq<Source>, capacity: seq<Capacity>, listed: seq<string>, row: Source)
  {
    forall name :: OnMachineAt(tools, rows, capacity, listed, row, name)
  }

  ghost predicate OnMachineAt(tools: Sets, rows: seq<Source>, capacity: seq<Capacity>, listed: seq<string>, row: Source,
                              name: string)
  {
    Of(tools, name) == ToolsOn(rows, capacity, name) + FromRow(listed, row, name)
  }

  function FromRow(listed: seq<string>, row: Source, name: string): set<string>
  {
    set m, t | m in listed && m != "" && Token(m) == name && t in RowTools(row) :: t
  }

  lemma NothingListed(tools: Sets, rows: seq<Source>, capacity: seq<Capacity>, row: Source)
    requires forall name :: Of(tools, name) == ToolsOn(rows, capacity, name)
    ensures OnMachines(tools, rows, capacity, [], row)
  {
    hide Of, ToolsOn, RowTools, Token;
  }

  lemma NextListed(tools: Sets, rows: seq<Source>, capacity: seq<Capacity>, row: Source, j: nat)
    requires j < |row.listed| && OnMachines(tools, rows, capacity, row.listed[..j], row)
    ensures var m, n := row.listed[j], j + 1;
      OnMachines(if m == "" then tools else PutAll(tools, Token(m), RowTools(row)),
                 rows, capacity, row.listed[..n], row)
  {
    hide Of, PutAll, ToolsOn, RowTools, Token;
    var m, n := row.listed[j], j + 1;
    var more := if m == "" then tools else PutAll(tools, Token(m), RowTools(row));
    assert row.listed[..n] == row.listed[..j] + [m];
    forall name ensures OnMachineAt(more, rows, capacity, row.listed[..n], row, name) {
      assert OnMachineAt(tools, rows, capacity, row.listed[..j], row, name);
      assert FromRow(row.listed[..n], row, name) == FromRow(row.listed[..j], row, name) +
             if m != "" && Token(m) == name then RowTools(row) else {};
    }
  }

  lemma RowDone(tools: Sets, rows: seq<Source>, capacity: seq<Capacity>, i: nat)
    requires i < |rows| && OnMachines(tools, rows[..i], capacity, rows[i].listed, rows[i])
    ensures forall name :: Of(tools, name) == ToolsOn(rows[..i + 1], capacity, name)
  {
    hide Of, RowTools, Token;
    assert rows[..i + 1] == rows[..i] + [rows[i]];
    forall name ensures Of(tools, name) == ToolsOn(rows[..i + 1], capacity, name) {
      assert OnMachineAt(tools, rows[..i], capacity, rows[i].listed, rows[i], name);
    }
  }

  /** The tools by machine: first those of capacity, then those of the rows. */
  method GatherTools(rows: seq<Source>, capacity: seq<Capacity>) returns (tools: Sets)
    ensures forall name :: Of(tools, name) == ToolsOn(rows, capacity, name)
  {
    hide Of, Put, PutAll, Token, Display, ToolsOn, OnMachines;
    tools := map[];
    NoToolsOn();
    for i := 0 to |capacity|
      invariant forall name :: Of(tools, name) == PartsOn(capacity[..i], name)
    {
      var c := capacity[i];
      assert capacity[..i + 1] == capacity[..i] + [c];
      if Token(c.machine) != "" {
        tools := Put(tools, Token(c.machine), Display(c.part));
      }
    }
    assert capacity[..|capacity|] == capacity;
    forall name ensures PartsOn(capacity, name) == ToolsOn(rows[..0], capacity, name) { ToolsOfNoRows(capacity, name); }
    for i := 0 to |rows|
      invariant forall name :: Of(tools, name) == ToolsOn(rows[..i], capacity, name)
    {
      NothingListed(tools, rows[..i], capacity, rows[i]);
      for j := 0 to |rows[i].listed|
        invariant OnMachines(tools, rows[..i], capacity, rows[i].listed[..j], rows[i])
      {
        NextListed(tools, rows[..i], capacity, rows[i], j);
        if rows[i].listed[j] != "" {
          tools := PutAll(tools, Token(rows[i].listed[j]), RowTools(rows[i]));
        }
      }
      assert rows[i].listed[..|rows[i].listed|] == rows[i].listed;
      RowDone(tools, rows, capacity, i);
    }
    assert rows[..|rows|] == rows;
  }

  lemma ToolsOfNoRows(capacity: seq<Capacity>, name: string)
    ensures PartsOn(capacity, name) == ToolsOn([], capacity, name)
  {
    hide PartsOn, Token;
  }

  lemma NoToolsOn()
    ensures forall name :: Of(map[], name) == PartsOn([], name)
  {
  }

  /** `_build_machine_records`: a record for each machine that anything names. */
  method BuildMachines(rows: seq<Source>, capacity: seq<Capacity>, eoats: seq<EoatRecord>, robots: set<string>)
    returns (records: map<string, MachineRecord>)
    ensures records.Keys == MachineNames(rows, capacity, robots)
    ensures forall name :: name in records ==> records[name] == MachineFor(rows, capacity, eoats, name)
  {
    hide Of, Token, ToolsOn, EoatsOn, MachineNames, Scan;
    var tools := GatherTools(rows, capacity);
    var listings := seq(|eoats|, i requires 0 <= i < |eoats| => ByMachine(eoats[i]));
    var eoatsBy := BuildIndex(listings, Token);
    forall name ensures Scan(listings, Token, name) == EoatsOn(eoats, name) { ScannedByMachine(eoats, listings, name); }
    records := map name | name in MachineNames(rows, capacity, robots) ::
      MachineRecord(name, Of(tools, name), Of(eoatsBy, name));
  }

  lemma ScannedByMachine(eoats: seq<EoatRecord>, listings: seq<Listing>, name: string)
    requires |listings| == |eoats| && forall i :: 0 <= i < |eoats| ==> listings[i] == ByMachine(eoats[i])
    ensures Scan(listings, Token, name) == EoatsOn(eoats, name)
  {
    hide Token;
    forall e | e in eoats ensures ByMachine(e) in listings {
      var i :| 0 <= i < |eoats| && eoats[i] == e;
      assert listings[i] == ByMachine(e);
    }
  }

  /* ---- The records as they are listed ---- */

  /** How records and sets of names are put in order. */
  datatype Orders = Orders(names: set<string> -> seq<string>, machines: set<string> -> seq<string>,
                           eoats: seq<EoatRecord> -> seq<EoatRecord>)

  /** Ordering keeps what there is, as often as it is there. */
  ghost predicate Keeps(o: Orders)
  {
    && (forall s :: Lists(o.names(s), s)) && (forall s :: Lists(o.machines(s), s))
    && (forall s :: multiset(o.eoats(s)) == multiset(s))
  }

  /** The elements of a set, each once. */
  ghost predicate Lists(list: seq<string>, s: set<string>)
  {
    Distinct(list) && forall v :: v in list <==> v in s
  }

  function EoatEntry(r: EoatRecord, o: Orders): Eoat
  {
    Eoat(r.id, o.names(r.tools), o.machines(r.machines))
  }

  function MachineEntry(r: MachineRecord, o: Orders): Machine
  {
    Machine(r.name, o.names(r.tools), o.names(r.eoats))
  }

  function ToolEntry(r: ToolRecord, o: Orders): Tool
  {
    Tool(r.name, o.machines(r.machines), o.names(r.eoats))
  }

  function EoatEntries(records: seq<EoatRecord>, o: Orders): seq<Eoat>
  {
    var ordered := o.eoats(records);
    seq(|ordered|, i requires 0 <= i < |ordered| => EoatEntry(ordered[i], o))
  }

  /* ---- The indexes ---- */

  /** The dictionaries with one entry for each record: the last record with a key counts. */
  function MachinesByTool(tools: seq<Tool>, key: string -> string): Index
  {
    if tools == [] then map[]
    else
      var n := |tools| - 1;
      MachinesByTool(tools[..n], key)[key(tools[n].name) := tools[n].machines]
  }

  function MachinesByEoat(eoats: seq<Eoat>, key: string -> string): Index
  {
    if eoats == [] then map[]
    else
      var n := |eoats| - 1;
      MachinesByEoat(eoats[..n], key)[key(eoats[n].id) := eoats[n].machines]
  }

  function EoatById(eoats: seq<Eoat>, key: string -> string): (r: map<string, string>)
    ensures forall k :: k in r ==> key(r[k]) == k
  {
    if eoats == [] then map[]
    else
      var n := |eoats| - 1;
      EoatById(eoats[..n], key)[key(eoats[n].id) := eoats[n].id]
  }

  /** What `_build_indexes` leaves: three indexes say what a scan of the records says, and three hold the last
      record with each key. */
  ghost predicate Built(b: Bundle)
  {
    && (forall k, v :: v in At(b.toolsByMachine, k) <==> v in ToolsNamingMachine(b.tools, b.keys.machine, k))
    && (forall k, v :: v in At(b.eoatsByMachine, k) <==> v in EoatsNamingMachine(b.eoats, b.keys.machine, k))
    && (forall k, v :: v in At(b.eoatsByTool, k) <==> v in EoatsNamingTool(b.eoats, b.keys.tool, k))
    && b.machinesByTool == MachinesByTool(b.tools, b.keys.tool)
    && b.machinesByEoat == MachinesByEoat(b.eoats, b.keys.eoat)
    && b.eoatById == EoatById(b.eoats, b.keys.eoat)
  }

  function ToolListings(tools: seq<Tool>): (r: seq<Listing>)
    ensures |r| == |tools|
  {
    seq(|tools|, i requires 0 <= i < |tools| => Listing(tools[i].name, set v | v in tools[i].machines))
  }

  function ValuesOf(e: Eoat, byTool: bool): seq<string>
  {
    if byTool then e.tools else e.machines
  }

  function EoatListings(eoats: seq<Eoat>, byTool: bool): (r: seq<Listing>)
    ensures |r| == |eoats|
  {
    seq(|eoats|, i requires 0 <= i < |eoats| =>
      Listing(eoats[i].id, set v | v in ValuesOf(eoats[i], byTool)))
  }

  lemma ScannedTools(tools: seq<Tool>, key: string -> string, k: string)
    ensures forall v :: v in Scan(ToolListings(tools), key, k) <==> v in ToolsNamingMachine(tools, key, k)
  {
    hide ToolsNamingMachine;
    var listings := ToolListings(tools);
    forall t | t in tools && HasKey(t.machines, key, k) ensures t.name in Scan(listings, key, k) {
      var i :| 0 <= i < |tools| && tools[i] == t;
      var v :| v in t.machines && key(v) == k;
      assert listings[i] in listings && v in listings[i].values;
    }
  }

  lemma ScannedEoats(eoats: seq<Eoat>, key: string -> string, k: string, byTool: bool)
    ensures byTool ==> forall v :: v in Scan(EoatListings(eoats, true), key, k) <==> v in EoatsNamingTool(eoats, key, k)
    ensures !byTool ==>
      forall v :: v in Scan(EoatListings(eoats, false), key, k) <==> v in EoatsNamingMachine(eoats, key, k)
  {
    hide EoatsNamingTool, EoatsNamingMachine;
    var listings := EoatListings(eoats, byTool);
    forall e | e in eoats && HasKey(ValuesOf(e, byTool), key, k) ensures e.id in Scan(listings, key, k) {
      var i :| 0 <= i < |eoats| && eoats[i] == e;
      var v :| v in ValuesOf(e, byTool) && key(v) == k;
      assert listings[i] in listings && v in listings[i].values;
    }
  }

  function Listed(sets: Sets, order: set<string> -> seq<string>): Index
  {
    map k | k in sets :: order(sets[k])
  }

  lemma ListedAt(sets: Sets, o: Orders, k: string, v: string)
    requires Keeps(o)
    ensures v in At(Listed(sets, o.names), k) <==> v in Of(sets, k)
  {
    if k in sets { assert Lists(o.names(sets[k]), sets[k]); }
  }

  /** `_build_indexes`. */
  method BuildIndexes(keys: Keys, o: Orders, eoats: seq<Eoat>, machines: seq<Machine>, tools: seq<Tool>)
    returns (b: Bundle)
    requires Keeps(o)
    ensures b.keys == keys && b.eoats == eoats && b.machines == machines && b.tools == tools && Built(b)
  {
    hide Scan, Of, At, Listed, ToolListings, EoatListings, ToolsNamingMachine, EoatsNamingMachine, EoatsNamingTool,
         Keeps;
    var byId: map<string, string>, machinesByEoat: Index, machinesByTool: Index := map[], map[], map[];
    for i := 0 to |eoats|
      invariant byId == EoatById(eoats[..i], keys.eoat) && machinesByEoat == MachinesByEoat(eoats[..i], keys.eoat)
    {
      assert eoats[..i + 1][..i] == eoats[..i];
      byId := byId[keys.eoat(eoats[i].id) := eoats[i].id];
      machinesByEoat := machinesByEoat[keys.eoat(eoats[i].id) := eoats[i].machines];
    }
    assert eoats[..|eoats|] == eoats;
    for i := 0 to |tools|
      invariant machinesByTool == MachinesByTool(tools[..i], keys.tool)
    {
      assert tools[..i + 1][..i] == tools[..i];
      machinesByTool := machinesByTool[keys.tool(tools[i].name) := tools[i].machines];
    }
    assert tools[..|tools|] == tools;
    var eoatsByTool := BuildIndex(EoatListings(eoats, true), keys.tool);
    var eoatsByMachine := BuildIndex(EoatListings(eoats, false), keys.machine);
    var toolsByMachine := BuildIndex(ToolListings(tools), keys.machine);
    b := Bundle(keys, eoats, machines, tools, byId, Listed(eoatsByTool, o.names), Listed(eoatsByMachine, o.names),
                machinesByTool, machinesByEoat, Listed(toolsByMachine, o.names));
    forall k, v ensures v in At(b.toolsByMachine, k) <==> v in ToolsNamingMachine(tools, keys.machine, k) {
      ListedAt(toolsByMachine, o, k, v);
      ScannedTools(tools, keys.machine, k);
    }
    forall k, v ensures v in At(b.eoatsByMachine, k) <==> v in EoatsNamingMachine(eoats, keys.machine, k) {
      ListedAt(eoatsByMachine, o, k, v);
      ScannedEoats(eoats, keys.machine, k, false);
    }
    forall k, v ensures v in At(b.eoatsByTool, k) <==> v in EoatsNamingTool(eoats, keys.tool, k) {
      ListedAt(eoatsByTool, o, k, v);
      ScannedEoats(eoats, keys.tool, k, true);
    }
  }

  lemma {:induction false} LastTool(tools: seq<Tool>, key: string -> string, k: string)
    ensures k in MachinesByTool(tools, key) <==> exists t :: t in tools && key(t.name) == k
    ensures k in MachinesByTool(tools, key) ==>
      exists t :: t in tools && key(t.name) == k && t.machines == MachinesByTool(tools, key)[k]
  {
    if tools != [] {
      var n := |tools| - 1;
      LastTool(tools[..n], key, k);
      assert tools == tools[..n] + [tools[n]];
    }
  }

  lemma {:induction false} LastEoat(eoats: seq<Eoat>, key: string -> string, k: string)
    ensures k in MachinesByEoat(eoats, key) <==> exists e :: e in eoats && key(e.id) == k
    ensures k in MachinesByEoat(eoats, key) ==>
      exists e :: e in eoats && key(e.id) == k && e.machines == MachinesByEoat(eoats, key)[k]
  {
    if eoats != [] {
      var n := |eoats| - 1;
      LastEoat(eoats[..n], key, k);
      assert eoats == eoats[..n] + [eoats[n]];
    }
  }

  /** With lawful keys, the indexes are true, and the bundle is as good as its keys are unique. */
  lemma BuiltIsGood(b: Bundle)
    requires Built(b) && AllLawful(b)
    ensures Indexed(b)
    ensures Fair(b) <==> UniqueMachines(b) && UniqueEoats(b)
    ensures Good(b) <==> UniqueMachines(b) && UniqueEoats(b) && UniqueTools(b)
  {
    hide Lawful, UniqueMachines, UniqueEoats, UniqueTools, ToolsNamingMachine, EoatsNamingMachine, EoatsNamingTool,
         EoatById, MachinesByTool, MachinesByEoat;
    forall k, v | v in At(b.machinesByTool, k)
      ensures exists t :: t in b.tools && b.keys.tool(t.name) == k && v in t.machines
    {
      LastTool(b.tools, b.keys.tool, k);
    }
    forall k, v | v in At(b.machinesByEoat, k)
      ensures exists e :: e in b.eoats && b.keys.eoat(e.id) == k && v in e.machines
    {
      LastEoat(b.eoats, b.keys.eoat, k);
    }
  }

  /* ---- Loading ---- */

  /** The machine records as they are to be listed. */
  function MachinesLoaded(rows: seq<Source>, capacity: seq<Capacity>, robots: set<string>, eoats: seq<EoatRecord>,
                          o: Orders): seq<Machine>
  {
    var names := o.machines(MachineNames(rows, capacity, robots));
    seq(|names|, i requires 0 <= i < |names| => MachineEntry(MachineFor(rows, capacity, eoats, names[i]), o))
  }

  /** The tool records as they are to be listed. */
  function ToolsLoaded(rows: seq<Source>, capacity: seq<Capacity>, eoats: seq<EoatRecord>, key: string -> string,
                       o: Orders): seq<Tool>
  {
    var keys := o.names(ToolKeysOf(rows, key) + CapacityKeys(capacity, key));
    seq(|keys|, i requires 0 <= i < |keys| => ToolEntry(ToolFor(rows, capacity, eoats, key, keys[i]), o))
  }

  /** The bundle is the one of these EOAT records. */
  ghost predicate LoadedFrom(b: Bundle, eoats: seq<EoatRecord>, rows: seq<Source>, capacity: seq<Capacity>,
                             robots: set<string>, o: Orders)
  {
    && Built(b) && b.eoats == EoatEntries(eoats, o)
    && b.machines == MachinesLoaded(rows, capacity, robots, eoats, o)
    && b.tools == ToolsLoaded(rows, capacity, eoats, b.keys.tool, o)
  }

  /** Building the whole bundle, one step after the other. */
  method Load(rows: seq<Source>, capacity: seq<Capacity>, robots: set<string>, keys: Keys, o: Orders)
    returns (b: Bundle)
    requires Keeps(o)
    ensures b.keys == keys
    ensures exists eoats, groups ::
      EoatsAre(eoats, groups, rows, capacity, keys.tool) && LoadedFrom(b, eoats, rows, capacity, robots, o)
  {
    hide Built, EoatsAre, EoatFor, Keeps, MachineNames, ToolKeysOf, CapacityKeys, MachineFor, ToolFor;
    var eoats, groups := BuildEoats(rows, capacity, keys.tool);
    var machineRecords := BuildMachines(rows, capacity, eoats, robots);
    var toolRecords := BuildTools(rows, capacity, eoats, keys.tool);
    var names := o.machines(machineRecords.Keys);
    var toolKeys := o.names(toolRecords.Keys);
    AllKept(o, machineRecords.Keys, toolRecords.Keys);
    var machines := seq(|names|, i requires 0 <= i < |names| => MachineEntry(machineRecords[names[i]], o));
    var tools := seq(|toolKeys|, i requires 0 <= i < |toolKeys| => ToolEntry(toolRecords[toolKeys[i]], o));
    b := BuildIndexes(keys, o, EoatEntries(eoats, o), machines, tools);
    assert LoadedFrom(b, eoats, rows, capacity, robots, o);
  }

  lemma AllKept(o: Orders, names: set<string>, keys: set<string>)
    requires Keeps(o)
    ensures forall i :: 0 <= i < |o.machines(names)| ==> o.machines(names)[i] in names
    ensures forall i :: 0 <= i < |o.names(keys)| ==> o.names(keys)[i] in keys
  {
    assert Lists(o.machines(names), names) && Lists(o.names(keys), keys);
  }

  /** In a bundle that was loaded, every EOAT that is named has a record. */
  lemma LoadedIsClosed(b: Bundle, eoats: seq<EoatRecord>, rows: seq<Source>, capacity: seq<Capacity>,
                       robots: set<string>, o: Orders)
    requires Keeps(o) && LoadedFrom(b, eoats, rows, capacity, robots, o)
    ensures AtlasSetup.EoatsClosed(b)
  {
    hide EoatsNamingMachine, EoatsNamingTool, MachineNames, ToolKeysOf, CapacityKeys, ToolsOn, ToolName, Normalized,
         CarriedTo, PartMachines, Token, MachinesByTool, MachinesByEoat, EoatById;
    forall e | e in eoats ensures AtlasSetup.HasRecord(b, e.id) {
      var ordered := o.eoats(eoats);
      assert e in multiset(eoats) && multiset(ordered) == multiset(eoats);
      var i :| 0 <= i < |ordered| && ordered[i] == e;
      assert b.eoats[i].id == e.id && b.eoats[i] in b.eoats;
    }
  }

  /** In a bundle that was loaded with lawful keys, and with EOATs that are told apart by theirs, the selection lists
      neither offer too much nor too little. */
  lemma LoadedSelection(b: Bundle, eoats: seq<EoatRecord>, rows: seq<Source>, capacity: seq<Capacity>,
                        robots: set<string>, o: Orders, m: Machine, t: Tool, e: Eoat)
    requires Keeps(o) && LoadedFrom(b, eoats, rows, capacity, robots, o)
    requires AllLawful(b) && UniqueEoats(b)
    requires m in b.machines && t in b.tools && e in b.eoats && m.name != "" && t.name != ""
    ensures t in AtlasSetup.SelectableTools(b, m.name, "", false)
            && e in AtlasSetup.SelectableEoats(b, m.name, t.name, false)
            <==> AtlasSetup.Validate(b, m.name, t.name, e.id, false) == AtlasSetup.AllConfirmed
  {
    hide AllLawful, UniqueEoats, Built, Keeps, EoatEntries, MachinesLoaded, ToolsLoaded, Indexed;
    hide AtlasSetup.SelectableTools, AtlasSetup.SelectableEoats, AtlasSetup.Validate, AtlasSetup.EoatsClosed;
    BuiltIsGood(b);
    AtlasSetup.IndexedIds(b);
    if AtlasSetup.Validate(b, m.name, t.name, e.id, false) == AtlasSetup.AllConfirmed {
      LoadedIsClosed(b, eoats, rows, capacity, robots, o);
      AtlasSetup.SelectionIsComplete(b, m, t, e);
    } else if t in AtlasSetup.SelectableTools(b, m.name, "", false)
              && e in AtlasSetup.SelectableEoats(b, m.name, t.name, false) {
      AtlasSetup.SelectionIsSound(b, m, t, e);
    }
  }
}
