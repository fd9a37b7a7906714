/** Two small sheets, loaded as the application loads them, and what is not offered in their bundles
    (core/atlas_data_loader.py, core/atlas_setup_packets.py). */
module AtlasExamples {
  import opened Text
  import opened Wrappers
  import opened Atlas
  import opened AtlasLoader
  import opened AtlasBundles
  import opened AtlasKeys
  import opened AtlasNames
  import AtlasSetup
  import Tokens

  /* ---- Some bundle is loaded ---- */

  ghost function IndexBy(keys: set<string>, values: string -> seq<string>): Index
  {
    map k | k in keys :: values(k)
  }

  /** Whatever the records, the indexes can be built. */
  lemma SomeBuilt(keys: Keys, eoats: seq<Eoat>, machines: seq<Machine>, tools: seq<Tool>) returns (b: Bundle)
    ensures b.keys == keys && b.eoats == eoats && b.machines == machines && b.tools == tools && Built(b)
  {
    hide ToolsNamingMachine, EoatsNamingMachine, EoatsNamingTool, MachinesByTool, MachinesByEoat, EoatById;
    var toolsOn := set t, v | t in tools && v in t.machines :: keys.machine(v);
    var eoatsOn := set e, v | e in eoats && v in e.machines :: keys.machine(v);
    var eoatsWith := set e, v | e in eoats && v in e.tools :: keys.tool(v);
    b := Bundle(keys, eoats, machines, tools, EoatById(eoats, keys.eoat),
                IndexBy(eoatsWith, k => EoatsNamingTool(eoats, keys.tool, k)),
                IndexBy(eoatsOn, k => EoatsNamingMachine(eoats, keys.machine, k)),
                MachinesByTool(tools, keys.tool), MachinesByEoat(eoats, keys.eoat),
                IndexBy(toolsOn, k => ToolsNamingMachine(tools, keys.machine, k)));
  }

  /** Whatever the rows, some bundle is loaded from them. */
  lemma SomeLoaded(keys: Keys, eoats: seq<EoatRecord>, rows: seq<Source>, capacity: seq<Capacity>, o: Orders)
    returns (b: Bundle)
    ensures b.keys == keys && LoadedFrom(b, eoats, rows, capacity, {}, o)
  {
    hide Built, EoatEntries, MachinesLoaded, ToolsLoaded;
    b := SomeBuilt(keys, EoatEntries(eoats, o), MachinesLoaded(rows, capacity, {}, eoats, o),
                   ToolsLoaded(rows, capacity, eoats, keys.tool, o));
  }

  lemma OnlyOne(list: seq<string>, v: string)
    requires Lists(list, {v})
    ensures list == [v]
  {
    assert v in list;
    if |list| > 1 {
      TwoElements(list);
      assert false;
    }
  }

  lemma TwoElements(list: seq<string>)
    requires Distinct(list) && |list| > 1
    ensures exists v, w :: v in list && w in list && v != w
  {
    assert list[0] in list && list[1] in list && list[0] != list[1];
  }

  lemma NoneOf(list: seq<string>)
    requires Lists(list, {})
    ensures list == []
  {
    if list != [] {
      SomeElement(list);
      assert false;
    }
  }

  lemma SomeElement(list: seq<string>)
    requires list != []
    ensures exists v :: v in list
  {
    assert list[0] in list;
  }

  /* ---- Two rows ---- */

  /** Two rows with different EOAT IDs are two groups. */
  lemma TwoGroups(rows: seq<Source>)
    requires |rows| == 2 && rows[0].eoatId != "" && rows[1].eoatId != "" && rows[0].eoatId != rows[1].eoatId
    ensures GroupsAre([rows[0].eoatId, rows[1].eoatId], rows)
    ensures Members(rows, rows[0].eoatId) == [0] && Members(rows, rows[1].eoatId) == [1]
  {
    hide GroupId;
    assert GroupId(rows[0], 0) == rows[0].eoatId && GroupId(rows[1], 1) == rows[1].eoatId by { OwnGroup(rows); }
    assert rows[..1][..0] == [];
    forall g ensures Members(rows, g) == if g == rows[0].eoatId then [0] else if g == rows[1].eoatId then [1] else [] {
      assert Members(rows[..1], g) == if g == rows[0].eoatId then [0] else [];
    }
  }

  lemma OwnGroup(rows: seq<Source>)
    requires |rows| == 2 && rows[0].eoatId != "" && rows[1].eoatId != ""
    ensures GroupId(rows[0], 0) == rows[0].eoatId && GroupId(rows[1], 1) == rows[1].eoatId
  {
  }

  /** What the example sheets name: two EOATs, two tools, a cell that names both, and a machine. */
  datatype Names = Names(one: string, other: string, first: string, second: string, cell: string, machine: string)

  /** All of it is text that loading leaves alone. */
  ghost predicate Plain(n: Names)
  {
    && n.one != "" && n.other != "" && n.one != n.other
    && n.first != "" && n.second != "" && n.first != n.second && n.machine != "" && Tokens.Token(n.machine) == n.machine
    && Display(n.first) == n.first && Display(n.second) == n.second
  }

  /* ---- A setup that is confirmed but not offered ---- */

  /** The two EOATs share a key: the first carries the tool, which capacity puts on the machine; the second is on the
      machine without a tool. */
  function AliasRows(n: Names): seq<Source>
  {
    [Source(n.one, "", [n.first], [], [], n.first, 2), Source(n.other, "", [], [n.machine], [n.machine], "", 2)]
  }

  function AliasCapacity(n: Names): seq<Capacity>
  {
    [Capacity(n.machine, n.first)]
  }

  function AliasEoats(n: Names): seq<EoatRecord>
  {
    [EoatRecord(n.one, {n.first}, {n.machine}, [0]), EoatRecord(n.other, {}, {n.machine}, [1])]
  }

  lemma AliasRecords(n: Names, key: string -> string)
    requires Plain(n)
    ensures EoatsAre(AliasEoats(n), [n.one, n.other], AliasRows(n), AliasCapacity(n), key)
  {
    hide Tokens.Token, Display, Members, GroupsAre;
    var rows, capacity := AliasRows(n), AliasCapacity(n);
    TwoGroups(rows);
    assert [0][0] == 0 && [1][0] == 1 && rows[0].tools[0] == n.first && rows[1].machines[0] == n.machine;
    assert ToolsShown(rows, [0]) == {n.first} && ToolsShown(rows, [1]) == {};
    assert MachinesShown(rows, [0]) == {} && MachinesShown(rows, [1]) == {n.machine};
    assert capacity[0] in capacity;
    assert CapacityMachines(capacity, key, {n.first}) == {n.machine} && CapacityMachines(capacity, key, {}) == {};
    assert Normalized({} + {n.machine}) == {n.machine} == Normalized({n.machine} + {});
  }

  lemma AliasTool(n: Names, key: string -> string)
    requires Plain(n)
    ensures ToolKeysOf(AliasRows(n), key) + CapacityKeys(AliasCapacity(n), key) == {key(n.first)}
    ensures ToolName(AliasRows(n), AliasCapacity(n), key, key(n.first)) == n.first
  {
    hide Tokens.Token, Display, FirstRow, FirstPart;
    var rows, capacity := AliasRows(n), AliasCapacity(n);
    assert rows[0].tools[0] == n.first && rows[0] in rows && capacity[0] in capacity;
    assert RowTools(rows[0]) == {n.first} && RowTools(rows[1]) == {};
    assert NamesTool(rows[0], key, key(n.first));
  }

  lemma AliasCarriers(n: Names, key: string -> string)
    requires Plain(n)
    ensures Normalized(PartMachines(AliasCapacity(n), key, key(n.first)) + CarriedTo(AliasEoats(n), key, key(n.first)))
         == {n.machine}
    ensures Carriers(AliasEoats(n), key, key(n.first)) == {n.one}
  {
    hide Tokens.Token, Normalized, Display;
    AliasLinks(n, key);
    assert {n.machine} + {n.machine} == {n.machine};
    NormalOne(n.machine);
  }

  lemma AliasLinks(n: Names, key: string -> string)
    ensures PartMachines(AliasCapacity(n), key, key(n.first)) == {n.machine}
    ensures CarriedTo(AliasEoats(n), key, key(n.first)) == {n.machine}
    ensures Carriers(AliasEoats(n), key, key(n.first)) == {n.one}
  {
    assert AliasCapacity(n)[0] in AliasCapacity(n) && AliasEoats(n)[0] in AliasEoats(n);
  }

  lemma NormalOne(machine: string)
    requires machine != "" && Tokens.Token(machine) == machine
    ensures Normalized({machine}) == {machine}
  {
    hide Tokens.Token;
  }

  lemma AliasMachine(n: Names)
    requires Plain(n)
    ensures MachineNames(AliasRows(n), AliasCapacity(n), {}) == {n.machine}
    ensures MachineFor(AliasRows(n), AliasCapacity(n), AliasEoats(n), n.machine)
         == MachineRecord(n.machine, {n.first}, {n.one, n.other})
  {
    hide Tokens.Token, Display;
    var rows, eoats, capacity := AliasRows(n), AliasEoats(n), AliasCapacity(n);
    assert rows[1].listed[0] == n.machine && rows[1] in rows && capacity[0] in capacity;
    assert eoats[0] in eoats && eoats[1] in eoats;
    assert RowTools(rows[1]) == {} && PartsOn(capacity, n.machine) == {n.first};
    assert EoatsOn(eoats, n.machine) == {n.one, n.other};
  }

  /** The records of the bundle. */
  ghost predicate AliasBundle(b: Bundle, n: Names)
  {
    && Built(b) && b.eoats == [Eoat(n.one, [n.first], [n.machine]), Eoat(n.other, [], [n.machine])]
    && |b.machines| == 1 && b.machines[0].name == n.machine
    && b.tools == [Atlas.Tool(n.first, [n.machine], [n.one])]
  }

  lemma AliasLoads(b: Bundle, n: Names, o: Orders)
    requires Plain(n) && Keeps(o) && o.eoats(AliasEoats(n)) == AliasEoats(n)
    requires LoadedFrom(b, AliasEoats(n), AliasRows(n), AliasCapacity(n), {}, o)
    ensures AliasBundle(b, n)
  {
    hide Plain, Built, MachineNames, MachineFor, ToolKeysOf, CapacityKeys, ToolName, Normalized, PartMachines,
         CarriedTo, Carriers, AliasRows, AliasCapacity;
    AliasTool(n, b.keys.tool);
    AliasCarriers(n, b.keys.tool);
    AliasMachine(n);
    var k := b.keys.tool(n.first);
    assert Lists(o.names({k}), {k}) && Lists(o.names({n.first}), {n.first}) && Lists(o.names({n.one}), {n.one});
    assert Lists(o.names({}), {}) && Lists(o.machines({n.machine}), {n.machine});
    OnlyOne(o.names({k}), k);
    OnlyOne(o.names({n.first}), n.first);
    OnlyOne(o.names({n.one}), n.one);
    OnlyOne(o.machines({n.machine}), n.machine);
    NoneOf(o.names({}));
  }

  lemma AliasNames(b: Bundle, n: Names)
    requires AliasBundle(b, n)
    ensures var m, t := b.keys.machine(n.machine), b.keys.tool(n.first);
      && ToolsNamingMachine(b.tools, b.keys.machine, m) == [n.first]
      && EoatsNamingMachine(b.eoats, b.keys.machine, m) == [n.one, n.other]
      && EoatsNamingTool(b.eoats, b.keys.tool, t) == [n.one]
  {
    hide Built, HasKey;
    Single(n.machine, b.keys.machine);
    Single(n.first, b.keys.tool);
    NothingHasKey(b.keys.tool, b.keys.tool(n.first));
    assert b.tools[1..] == [] && b.eoats[1..] == [b.eoats[1]] && b.eoats[1..][1..] == [];
    assert EoatsNamingMachine(b.eoats[1..], b.keys.machine, b.keys.machine(n.machine)) == [n.other];
    assert EoatsNamingTool(b.eoats[1..], b.keys.tool, b.keys.tool(n.first)) == [];
  }

  lemma Single(v: string, key: string -> string)
    ensures HasKey([v], key, key(v))
  {
    assert v in [v];
  }

  lemma LastShown(values: seq<string>, key: string -> string, v: string)
    requires key(v) != ""
    ensures key(v) in Shown(values + [v], key) && Shown(values + [v], key)[key(v)] == Display(v)
  {
    assert (values + [v])[..|values|] == values;
  }

  lemma AliasLists(b: Bundle, n: Names)
    requires AliasBundle(b, n) && b.keys.tool(n.first) != "" && b.keys.eoat(n.one) == b.keys.eoat(n.other) != ""
    ensures b.keys.tool(n.first) in ToolsForMachine(b, n.machine)
    ensures var k := b.keys.eoat(n.one);
      && k in EoatsForMachine(b, n.machine) && EoatsForMachine(b, n.machine)[k] == Display(n.other)
      && k in EoatsForTool(b, n.first) && EoatsForTool(b, n.first)[k] == Display(n.one)
  {
    hide Built, Display, Shown, ToolsNamingMachine, EoatsNamingMachine, EoatsNamingTool, Lawful, Keyed;
    AliasNames(b, n);
    var m, t := MachineOf(b, n.machine), ToolOf(b, n.first);
    LastShown(At(b.toolsByMachine, b.keys.machine(n.machine)) + (if m.Some? then m.value.tools else []), b.keys.tool,
              n.first);
    var eoatsOn := At(b.eoatsByMachine, b.keys.machine(n.machine)) + (if m.Some? then m.value.eoats else []);
    assert eoatsOn + [n.one, n.other] == eoatsOn + [n.one] + [n.other];
    LastShown(eoatsOn + [n.one], b.keys.eoat, n.other);
    LastShown(At(b.eoatsByTool, b.keys.tool(n.first)) + (if t.Some? then t.value.eoats else []), b.keys.eoat, n.one);
  }

  /** What the keys make of the names. */
  ghost predicate Aliased(keys: Keys, n: Names)
  {
    && Lawful(keys.tool) && Lawful(keys.machine) && Lawful(keys.eoat)
    && keys.tool(n.first) != "" && keys.eoat(n.one) == keys.eoat(n.other) != ""
    && Lower(Display(n.one)) != Lower(Display(n.other))
  }

  /** With such names a setup is confirmed, and yet its EOAT is not offered for the machine and the tool. */
  lemma SelectionIsNotComplete(keys: Keys, n: Names, o: Orders)
    requires Plain(n) && Aliased(keys, n) && Keeps(o) && o.eoats(AliasEoats(n)) == AliasEoats(n)
    ensures EoatsAre(AliasEoats(n), [n.one, n.other], AliasRows(n), AliasCapacity(n), keys.tool)
    ensures exists b: Bundle ::
      && b.keys == keys && LoadedFrom(b, AliasEoats(n), AliasRows(n), AliasCapacity(n), {}, o)
      && AtlasSetup.Validate(b, n.machine, n.first, n.one, false) == AtlasSetup.AllConfirmed
      && b.eoats != [] && b.eoats[0].id == n.one
      && b.eoats[0] !in AtlasSetup.SelectableEoats(b, n.machine, n.first, false)
  {
    hide Display, AtlasSetup.Validate, AtlasSetup.SelectableEoats, Built, ToolsForMachine, EoatsForMachine,
         EoatsForTool, Lawful, LoadedFrom, EoatsAre, Indexed, Keeps;
    AliasRecords(n, keys.tool);
    var b := SomeLoaded(keys, AliasEoats(n), AliasRows(n), AliasCapacity(n), o);
    AliasLoads(b, n, o);
    AliasLists(b, n);
    BuiltIsGood(b);
    AtlasSetup.IndexedIds(b);
    AtlasSetup.FoundMachine(b, b.machines[0]);
    AtlasSetup.FoundTool(b, b.tools[0]);
    AtlasSetup.FoundEoat(b, b.eoats[0]);
    AtlasSetup.ConfirmedWhen(b, n.machine, n.first, n.one);
    AtlasSetup.SelectionMisses(b, b.machines[0], b.tools[0], b.eoats[0]);
  }

  /* ---- Two tools in one cell ---- */

  /** The first EOAT carries both tools, named in one cell; the other carries the second tool alone. */
  function SharedRows(n: Names): seq<Source>
  {
    [Source(n.one, "", [n.first, n.second], [], [], n.cell, 2), Source(n.other, "", [n.second], [], [], n.second, 2)]
  }

  function SharedEoats(n: Names): seq<EoatRecord>
  {
    [EoatRecord(n.one, {n.first, n.second}, {}, [0]), EoatRecord(n.other, {n.second}, {}, [1])]
  }

  lemma SharedRecords(n: Names, key: string -> string)
    requires Plain(n)
    ensures EoatsAre(SharedEoats(n), [n.one, n.other], SharedRows(n), [], key)
  {
    hide Tokens.Token, Display, Members, GroupsAre;
    var rows := SharedRows(n);
    TwoGroups(rows);
    assert [0][0] == 0 && [1][0] == 1;
    assert rows[0].tools[0] == n.first && rows[0].tools[1] == n.second && rows[1].tools[0] == n.second;
    assert ToolsShown(rows, [0]) == {n.first, n.second} && ToolsShown(rows, [1]) == {n.second};
    assert MachinesShown(rows, [0]) == {} && MachinesShown(rows, [1]) == {};
    assert CapacityMachines([], key, {n.first, n.second}) == {} && CapacityMachines([], key, {n.second}) == {};
    assert Normalized({} + {}) == {};
  }

  /** The keys tell the tools and their cell apart, and the EOATs. */
  ghost predicate Shared(keys: Keys, n: Names)
  {
    && Lawful(keys.tool) && Lawful(keys.machine) && Lawful(keys.eoat)
    && keys.tool(n.first) != keys.tool(n.second) && keys.tool(n.cell) != ""
    && keys.tool(n.cell) != keys.tool(n.first) && keys.tool(n.cell) != keys.tool(n.second)
    && keys.eoat(n.one) != keys.eoat(n.other) && keys.eoat(n.other) != "" && keys.machine(n.machine) != ""
  }

  lemma SharedTools(n: Names, key: string -> string)
    requires Plain(n) && key(n.first) != key(n.second)
    ensures ToolKeysOf(SharedRows(n), key) + CapacityKeys([], key) == {key(n.first), key(n.second)}
    ensures ToolName(SharedRows(n), [], key, key(n.first)) == n.cell == ToolName(SharedRows(n), [], key, key(n.second))
    ensures Carriers(SharedEoats(n), key, key(n.first)) == {n.one}
    ensures Carriers(SharedEoats(n), key, key(n.second)) == {n.one, n.other}
  {
    hide Tokens.Token, Display, FirstRow, FirstPart;
    var rows, eoats := SharedRows(n), SharedEoats(n);
    assert rows[0].tools[0] == n.first && rows[0].tools[1] == n.second && rows[1].tools[0] == n.second;
    assert rows[0] in rows && rows[1] in rows && eoats[0] in eoats && eoats[1] in eoats;
    assert RowTools(rows[0]) == {n.first, n.second} && RowTools(rows[1]) == {n.second};
    assert NamesTool(rows[0], key, key(n.first)) && NamesTool(rows[0], key, key(n.second));
  }

  /** The records of the bundle. */
  ghost predicate SharedBundle(b: Bundle, n: Names)
  {
    && Built(b) && b.machines == []
    && |b.eoats| == 2 && b.eoats[0].id == n.one && b.eoats[1] == Eoat(n.other, [n.second], b.eoats[1].machines)
    && |b.tools| == 2 && b.tools[0].name == n.cell == b.tools[1].name
    && b.tools[0].eoats == [n.one] && n.other in b.tools[1].eoats
  }

  lemma SharedLoads(b: Bundle, n: Names, o: Orders)
    requires Plain(n) && Shared(b.keys, n) && Keeps(o) && o.eoats(SharedEoats(n)) == SharedEoats(n)
    requires o.names({b.keys.tool(n.first), b.keys.tool(n.second)}) == [b.keys.tool(n.first), b.keys.tool(n.second)]
    requires LoadedFrom(b, SharedEoats(n), SharedRows(n), [], {}, o)
    ensures SharedBundle(b, n)
  {
    hide Plain, Lawful, Built, MachineNames, ToolKeysOf, CapacityKeys, ToolName, Carriers, CarriedTo, PartMachines,
         Normalized, SharedRows;
    SharedTools(n, b.keys.tool);
    NoMachines(n);
    assert Lists(o.names({n.second}), {n.second}) && Lists(o.names({n.one}), {n.one});
    assert Lists(o.names({n.one, n.other}), {n.one, n.other}) && Lists(o.machines({}), {});
    OnlyOne(o.names({n.second}), n.second);
    OnlyOne(o.names({n.one}), n.one);
    NoneOf(o.machines({}));
  }

  lemma NoMachines(n: Names)
    ensures MachineNames(SharedRows(n), [], {}) == {}
  {
  }

  /** Two tools in one cell are called alike, and the EOAT that carries only the second is told to fit their name, but
      is not among those told of it. */
  lemma SharedCell(keys: Keys, n: Names, o: Orders)
    requires Plain(n) && Shared(keys, n) && Keeps(o) && o.eoats(SharedEoats(n)) == SharedEoats(n)
    requires o.names({keys.tool(n.first), keys.tool(n.second)}) == [keys.tool(n.first), keys.tool(n.second)]
    ensures EoatsAre(SharedEoats(n), [n.one, n.other], SharedRows(n), [], keys.tool)
    ensures exists b: Bundle ::
      && b.keys == keys && LoadedFrom(b, SharedEoats(n), SharedRows(n), [], {}, o) && Fair(b) && !UniqueTools(b)
      && keys.tool(n.cell) in ToolsForEoat(b, n.other) && keys.eoat(n.other) !in EoatsForTool(b, n.cell)
  {
    hide Plain, Built, EoatsForTool, ToolsForEoat, ToolsForMachine, MachinesForTool, EndNamesMachine, SomeMachineNames,
         Lawful, LoadedFrom, EoatsAre, Indexed, SharedRows, Keeps;
    SharedRecords(n, keys.tool);
    var b := SomeLoaded(keys, SharedEoats(n), SharedRows(n), [], o);
    SharedLoads(b, n, o);
    BuiltIsGood(b);
    assert Fair(b) && !UniqueTools(b);
    assert b.tools[1] in b.tools && HasKey(b.tools[1].eoats, keys.eoat, keys.eoat(n.other));
    NotToldBack(b, n.machine, n.cell, n.other);
  }

  /* ---- The application ---- */

  /** The keys of the application. */
  function LookupKeys(): Keys
  {
    Keys(ToolLookup, MachineLookup, EoatLookup)
  }

  function Sample(): Names
  {
    Names("A", "A-", "S", "T", "S; T", "M")
  }

  function Other(): Names
  {
    Sample().(other := "B")
  }

  /** Such names there are, in the keys of the application, and such an order. */
  lemma ExamplesArise()
    ensures Plain(Sample()) && Aliased(LookupKeys(), Sample())
    ensures Plain(Other()) && Shared(LookupKeys(), Other())
    ensures exists o: Orders :: Keeps(o) && (forall s :: o.eoats(s) == s) && o.names({"s", "t"}) == ["s", "t"]
    ensures ToolLookup("S") == "s" && ToolLookup("T") == "t"
  {
    hide LookupKey, ToolLookup, MachineLookup, EoatLookup, Tokens.Token, Display, Lawful, Lower, Keeps;
    KeysAreLawful();
    LettersRead();
    DashReads();
    CellReads();
    var o := Order();
    assert forall s :: o.eoats(s) == s;
  }

  ghost function ListOf(s: set<string>): (r: seq<string>)
    ensures Lists(r, s)
  {
    if s == {} then [] else
      var v :| v in s;
      [v] + ListOf(s - {v})
  }

  /** An order that keeps the records and puts two tools in theirs. */
  ghost function Order(): (o: Orders)
    ensures Keeps(o)
  {
    Orders(s => if s == {"s", "t"} then ["s", "t"] else ListOf(s), s => ListOf(s), s => s)
  }

  lemma LetterReads(s: string)
    requires |s| == 1 && 'A' <= s[0] <= 'Z' && s != "N" && s != "P"
    ensures LookupKey(s) == [LowerChar(s[0])] && Display(s) == s && Tokens.Tool(s) == s && Tokens.Token(s) == s
  {
    hide Strip;
    StripFixed(s);
    var low := Lower(s);
    assert low == [LowerChar(s[0])] && low[1..] == "";
    assert KeyChars(low[1..]) == "" && IsKeyChar(low[0]) && KeyChars(low) == [low[0]] + KeyChars(low[1..]);
  }

  lemma LettersRead()
    ensures ToolLookup("S") == "s" && ToolLookup("T") == "t" && MachineLookup("M") == "m"
    ensures EoatLookup("A") == "a" && EoatLookup("B") == "b"
    ensures Tokens.Token("M") == "M" && Display("S") == "S" && Display("T") == "T" && Display("A") == "A"
  {
    hide LookupKey, Tokens.Tool, Tokens.Token, EoatLookup, Display;
    LetterReads("S");
    LetterReads("T");
    LetterReads("M");
    LetterReads("A");
    LetterReads("B");
    EoatIsPlain("A");
    EoatIsPlain("B");
  }

  lemma DashReads()
    ensures EoatLookup("A-") == "a" && Display("A-") == "A-"
  {
    hide Strip, EoatLookup;
    EoatIsPlain("A-");
    StripFixed("A-");
    assert Lower("A-") == "a-" && "a-"[1..] == "-" && "-"[1..] == "";
    assert KeyChars("-") == KeyChars("");
  }

  lemma CellReads()
    ensures ToolLookup("S; T") == "st"
  {
    hide Strip;
    StripFixed("S; T");
    FindAt("S; T", '.', 4);
    var low := Lower("S; T");
    assert low == "s; t" && low[1..] == "; t" && low[2..] == " t" && low[3..] == "t" && low[4..] == "";
    assert "; t"[1..] == " t" && " t"[1..] == "t" && "t"[1..] == "";
    assert KeyChars("t") == "t" && KeyChars(" t") == "t" && KeyChars("; t") == "t";
  }
}
