/** How the records and indexes of the Atlas are built from the inventory and press capacity
    (core/atlas_data_loader.py). */
module AtlasLoader {
  import opened Wrappers
  import opened Tokens
  import opened Atlas
  import AuditIds

  /** An inventory row, by what the builders read from it: its EOAT ID, normalised; its Audit ID, as shown; the
      tools and machines its cells name; the machines its press column names, or the first machine it names
      elsewhere; its tool cell, as shown; and how many of its cells are filled. */
  datatype Source = Source(eoatId: string, auditId: string, tools: seq<string>, machines: seq<string>,
                           listed: seq<string>, toolCell: string, filled: nat)

  datatype Capacity = Capacity(machine: string, part: string)

  /** The records, with their lists as sets. */
  datatype EoatRecord = EoatRecord(id: string, tools: set<string>, machines: set<string>, rows: seq<nat>)
  datatype ToolRecord = ToolRecord(name: string, machines: set<string>, eoats: set<string>)
  datatype MachineRecord = MachineRecord(name: string, tools: set<string>, eoats: set<string>)

  /* ---- Sets by key ---- */

  type Sets = map<string, set<string>>

  function Of(sets: Sets, k: string): set<string>
  {
    if k in sets then sets[k] else {}
  }

  function Put(sets: Sets, k: string, v: string): (r: Sets)
    ensures forall j :: Of(r, j) == Of(sets, j) + if j == k then {v} else {}
    ensures r.Keys == sets.Keys + {k}
  {
    sets[k := Of(sets, k) + {v}]
  }

  function PutAll(sets: Sets, k: string, vs: set<string>): (r: Sets)
    ensures forall j :: Of(r, j) == Of(sets, j) + if j == k then vs else {}
    ensures r.Keys == sets.Keys + {k}
  {
    sets[k := Of(sets, k) + vs]
  }

  /* ---- Grouping the rows ---- */

  /** `_eoat_group_id`; the first row below the headers is row 2. */
  function GroupId(row: Source, index: nat): string
  {
    if row.eoatId != "" then row.eoatId
    else if row.auditId != "" then "audit::" + row.auditId
    else "row::" + AuditIds.Decimal(index + 2)
  }

  /** The positions of the rows of a group. */
  function Members(rows: seq<Source>, group: string): (r: seq<nat>)
    ensures forall i :: i in r <==> 0 <= i < |rows| && GroupId(rows[i], i) == group
  {
    if rows == [] then []
    else
      var n := |rows| - 1;
      Members(rows[..n], group) + if GroupId(rows[n], n) == group then [n] else []
  }

  /** The row with the most filled cells, the first of them. */
  function Primary(rows: seq<Source>, members: seq<nat>): (p: nat)
    requires members != [] && forall i :: i in members ==> i < |rows|
    ensures p in members && forall i :: i in members ==> rows[i].filled <= rows[p].filled
  {
    if |members| == 1 then members[0]
    else
      var before, last := members[..|members| - 1], members[|members| - 1];
      assert members == before + [last];
      assert forall i :: i in members <==> i in before || i == last;
      var rest := Primary(rows, before);
      if rows[last].filled > rows[rest].filled then last else rest
  }

  /** `_display_eoat_id`. */
  function DisplayId(row: Source, group: string): string
  {
    if row.eoatId != "" then row.eoatId else if row.auditId != "" then row.auditId else group
  }

  /** The tools shown for some rows. */
  function ToolsShown(rows: seq<Source>, members: seq<nat>): set<string>
    requires forall i :: i in members ==> i < |rows|
  {
    set i, t | i in members && t in rows[i].tools && Display(t) != "" :: Display(t)
  }

  /** The machines some rows name, normalised. */
  function MachinesShown(rows: seq<Source>, members: seq<nat>): set<string>
    requires forall i :: i in members ==> i < |rows|
  {
    set i, m | i in members && m in rows[i].machines && Token(m) != "" :: Token(m)
  }

  /** The machines that capacity gives for the tools. */
  function CapacityMachines(capacity: seq<Capacity>, key: string -> string, tools: set<string>): set<string>
  {
    set c, t | c in capacity && t in tools && key(c.part) == key(t) :: c.machine
  }

  function Normalized(machines: set<string>): set<string>
  {
    set m | m in machines && Token(m) != "" :: Token(m)
  }

  /** What the record of a group is to hold. */
  function EoatFor(rows: seq<Source>, capacity: seq<Capacity>, key: string -> string, group: string): EoatRecord
    requires Members(rows, group) != []
  {
    var members := Members(rows, group);
    var tools := ToolsShown(rows, members);
    EoatRecord(DisplayId(rows[Primary(rows, members)], group), tools,
               Normalized(MachinesShown(rows, members) + CapacityMachines(capacity, key, tools)), members)
  }

  /** The groups in the order in which they come up, each once. */
  ghost predicate GroupsAre(groups: seq<string>, rows: seq<Source>)
  {
    && Distinct(groups) && (forall g :: g in groups <==> Members(rows, g) != [])
  }

  /** One record for each group, holding what it should. */
  ghost predicate EoatsAre(records: seq<EoatRecord>, groups: seq<string>, rows: seq<Source>,
                           capacity: seq<Capacity>, key: string -> string)
  {
    && GroupsAre(groups, rows) && |records| == |groups|
    && forall i :: 0 <= i < |groups| ==> records[i] == EoatFor(rows, capacity, key, groups[i])
  }

  lemma GroupGrows(groups: seq<string>, rows: seq<Source>, i: nat)
    requires i < |rows| && GroupsAre(groups, rows[..i])
    ensures var g := GroupId(rows[i], i);
      GroupsAre(if Members(rows[..i], g) != [] then groups else groups + [g], rows[..i + 1])
    ensures forall g ::
              Members(rows[..i + 1], g) == Members(rows[..i], g) + if GroupId(rows[i], i) == g then [i] else []
  {
    hide GroupId;
    assert rows[..i + 1][..i] == rows[..i];
  }

  /** The rows by group. */
  method GroupRows(rows: seq<Source>) returns (groups: seq<string>, members: map<string, seq<nat>>)
    ensures GroupsAre(groups, rows)
    ensures forall g :: g in groups ==> g in members && members[g] == Members(rows, g)
  {
    hide GroupId, Members;
    groups, members := [], map[];
    NoMembers();
    for i := 0 to |rows|
      invariant GroupsAre(groups, rows[..i])
      invariant forall g :: (g in groups <==> g in members) && (g in members ==> members[g] == Members(rows[..i], g))
    {
      var g := GroupId(rows[i], i);
      GroupGrows(groups, rows, i);
      if g !in members {
        groups := groups + [g];
        members := members[g := []];
      }
      members := members[g := members[g] + [i]];
    }
    assert rows[..|rows|] == rows;
  }

  lemma NoMembers()
    ensures GroupsAre([], []) && forall g :: Members([], g) == []
  {
  }

  /** The capacity machines by the key of their tool. */
  method CapacityByTool(capacity: seq<Capacity>, key: string -> string) returns (byTool: Sets)
    ensures forall k :: Of(byTool, k) == set c | c in capacity && key(c.part) == k :: c.machine
  {
    hide Put, Of;
    byTool := map[];
    assert forall k :: Of(byTool, k) == {} by { NoSets(); }
    for i := 0 to |capacity|
      invariant forall k :: Of(byTool, k) == set c | c in capacity[..i] && key(c.part) == k :: c.machine
    {
      assert capacity[..i + 1] == capacity[..i] + [capacity[i]];
      byTool := Put(byTool, key(capacity[i].part), capacity[i].machine);
    }
    assert capacity[..|capacity|] == capacity;
  }

  lemma NoSets()
    ensures forall k :: Of(map[], k) == {}
  {
  }

  /** `_build_eoat_records`. */
  method BuildEoats(rows: seq<Source>, capacity: seq<Capacity>, key: string -> string)
    returns (records: seq<EoatRecord>, groups: seq<string>)
    ensures EoatsAre(records, groups, rows, capacity, key)
  {
    hide GroupId, Members, Primary, Token, Display, Of;
    var members;
    groups, members := GroupRows(rows);
    var byTool := CapacityByTool(capacity, key);
    records := [];
    for i := 0 to |groups|
      invariant |records| == i
      invariant forall k :: 0 <= k < i ==>
                  Members(rows, groups[k]) != [] && records[k] == EoatFor(rows, capacity, key, groups[k])
    {
      var mine := members[groups[i]];
      assert groups[i] in groups && mine == Members(rows, groups[i]);
      var tools := ToolsShown(rows, mine);
      var machines := AddCapacity(MachinesShown(rows, mine), tools, capacity, key, byTool);
      var id := DisplayId(rows[Primary(rows, mine)], groups[i]);
      records := records + [EoatRecord(id, tools, Normalized(machines), mine)];
    }
  }

  /** The capacity machines of each of the tools are added to the machines. */
  method AddCapacity(machines: set<string>, tools: set<string>, ghost capacity: seq<Capacity>, key: string -> string,
                     byTool: Sets)
    returns (all: set<string>)
    requires forall k :: Of(byTool, k) == set c | c in capacity && key(c.part) == k :: c.machine
    ensures all == machines + CapacityMachines(capacity, key, tools)
  {
    hide CapacityMachines, Of;
    all := machines;
    var rest := tools;
    NoTools(capacity, key);
    assert tools - rest == {};
    while rest != {}
      invariant rest <= tools && all == machines + CapacityMachines(capacity, key, tools - rest)
      decreases |rest|
    {
      var t :| t in rest;
      OneMoreTool(capacity, key, tools - rest, t);
      assert tools - (rest - {t}) == tools - rest + {t};
      rest := rest - {t};
      all := all + Of(byTool, key(t));
    }
    assert tools - rest == tools;
  }

  lemma NoTools(capacity: seq<Capacity>, key: string -> string)
    ensures CapacityMachines(capacity, key, {}) == {}
  {
  }

  lemma OneMoreTool(capacity: seq<Capacity>, key: string -> string, tools: set<string>, t: string)
    ensures CapacityMachines(capacity, key, tools + {t})
         == CapacityMachines(capacity, key, tools) + set c | c in capacity && key(c.part) == key(t) :: c.machine
  {
  }

  /** Each inventory row lands in exactly one record. */
  lemma EachRowOnce(records: seq<EoatRecord>, groups: seq<string>, rows: seq<Source>, capacity: seq<Capacity>,
                    key: string -> string, i: nat)
    requires EoatsAre(records, groups, rows, capacity, key) && i < |rows|
    ensures exists j :: 0 <= j < |records| && i in records[j].rows
              && forall k :: 0 <= k < |records| && i in records[k].rows ==> k == j
  {
    hide GroupId;
    var g := GroupId(rows[i], i);
    assert i in Members(rows, g);
    var j :| 0 <= j < |groups| && groups[j] == g;
    assert i in records[j].rows;
    forall k | 0 <= k < |records| && i in records[k].rows ensures k == j {
      assert i in Members(rows, groups[k]);
    }
  }

  /* ---- Tools ---- */

  /** The tools that a row names, as shown. */
  function RowTools(row: Source): set<string>
  {
    set t | t in row.tools && Display(t) != "" :: Display(t)
  }

  function ToolKeysOf(rows: seq<Source>, key: string -> string): set<string>
  {
    set row, t | row in rows && t in RowTools(row) :: key(t)
  }

  function CapacityKeys(capacity: seq<Capacity>, key: string -> string): set<string>
  {
    set c | c in capacity :: key(c.part)
  }

  /** The machines of the EOATs that carry the tool. */
  function CarriedTo(eoats: seq<EoatRecord>, key: string -> string, k: string): set<string>
  {
    set e, t, m | e in eoats && t in e.tools && key(t) == k && m in e.machines :: m
  }

  function Carriers(eoats: seq<EoatRecord>, key: string -> string, k: string): set<string>
  {
    set e, t | e in eoats && t in e.tools && key(t) == k :: e.id
  }

  function PartMachines(capacity: seq<Capacity>, key: string -> string, k: string): set<string>
  {
    set c | c in capacity && key(c.part) == k :: c.machine
  }

  /** The keys of the tools that a row names. */
  function RowKeys(row: Source, key: string -> string): set<string>
  {
    set t | t in RowTools(row) :: key(t)
  }

  predicate NamesTool(row: Source, key: string -> string, k: string)
  {
    k in RowKeys(row, key)
  }

  /** The first place from the `i`-th on where something holds, or the length. */
  function First<T>(s: seq<T>, holds: T -> bool, i: nat): (r: nat)
    requires i <= |s|
    ensures i <= r <= |s| && (r < |s| ==> holds(s[r])) && forall j :: i <= j < r ==> !holds(s[j])
    decreases |s| - i
  {
    if i == |s| || holds(s[i]) then i else First(s, holds, i + 1)
  }

  /** The first row that names the tool, or the number of rows. */
  function FirstRow(rows: seq<Source>, key: string -> string, k: string): (r: nat)
    ensures r <= |rows| && (r < |rows| ==> NamesTool(rows[r], key, k))
    ensures forall j :: 0 <= j < r ==> !NamesTool(rows[j], key, k)
  {
    hide NamesTool;
    First(rows, (row: Source) => NamesTool(row, key, k), 0)
  }

  function FirstPart(capacity: seq<Capacity>, key: string -> string, k: string): (c: nat)
    ensures c <= |capacity| && (c < |capacity| ==> key(capacity[c].part) == k)
    ensures forall j :: 0 <= j < c ==> key(capacity[j].part) != k
  {
    First(capacity, (c: Capacity) => key(c.part) == k, 0)
  }

  /** What a tool is called: the whole tool cell of its first row, or the part of its first capacity row. */
  function ToolName(rows: seq<Source>, capacity: seq<Capacity>, key: string -> string, k: string): string
  {
    var r, c := FirstRow(rows, key, k), FirstPart(capacity, key, k);
    if r < |rows| then rows[r].toolCell else if c < |capacity| then Display(capacity[c].part) else ""
  }

  /** What the record of a tool is to hold: the machines of capacity and of every EOAT that carries it. */
  function ToolFor(rows: seq<Source>, capacity: seq<Capacity>, eoats: seq<EoatRecord>, key: string -> string,
                   k: string): ToolRecord
  {
    ToolRecord(ToolName(rows, capacity, key, k), Normalized(PartMachines(capacity, key, k) + CarriedTo(eoats, key, k)),
               Carriers(eoats, key, k))
  }

  /** The name found for a tool in the first rows, if they name it. */
  predicate NamedAt(names: map<string, string>, rows: seq<Source>, key: string -> string, i: nat, k: string)
  {
    var r := FirstRow(rows, key, k);
    (k in names <==> r < i) && (k in names && r < |rows| ==> names[k] == rows[r].toolCell)
  }

  /** The tools that the rows name, by what their first row calls them. */
  method NamesInRows(rows: seq<Source>, key: string -> string) returns (names: map<string, string>)
    ensures forall k :: NamedAt(names, rows, key, |rows|, k)
  {
    hide RowTools, RowKeys, FirstRow, NamesTool, NamedAt;
    names := map[];
    forall k ensures NamedAt(map[], rows, key, 0, k) { NamedNone(rows, key, k); }
    for i := 0 to |rows|
      invariant forall k :: NamedAt(names, rows, key, i, k)
    {
      var keys := RowKeys(rows[i], key);
      var more := (map k | k in keys :: rows[i].toolCell) + names;
      var n := i + 1;
      forall k ensures NamedAt(more, rows, key, n, k) { NameStep(names, more, rows, key, i, keys, k); }
      names := more;
    }
  }

  lemma NamedNone(rows: seq<Source>, key: string -> string, k: string)
    ensures NamedAt(map[], rows, key, 0, k)
  {
    hide FirstRow;
  }

  lemma NameStep(names: map<string, string>, more: map<string, string>, rows: seq<Source>, key: string -> string,
                 i: nat, keys: set<string>, k: string)
    requires i < |rows| && NamedAt(names, rows, key, i, k) && keys == RowKeys(rows[i], key)
    requires more == (map j | j in keys :: rows[i].toolCell) + names
    ensures NamedAt(more, rows, key, i + 1, k)
  {
    hide RowTools, RowKeys, FirstRow;
    assert k in keys <==> NamesTool(rows[i], key, k);
  }

  /** The name found for a tool in the rows or in the first of capacity. */
  predicate CalledAt(names: map<string, string>, rows: seq<Source>, capacity: seq<Capacity>, key: string -> string,
                     i: nat, k: string)
  {
    && (k in names <==> FirstRow(rows, key, k) < |rows| || FirstPart(capacity, key, k) < i)
    && (k in names ==> names[k] == ToolName(rows, capacity, key, k))
  }

  /** The first rows of the groups `rows_by_tool` and `capacity_by_tool`, by what they call the tool. */
  method NameTools(rows: seq<Source>, capacity: seq<Capacity>, key: string -> string)
    returns (names: map<string, string>)
    ensures forall k :: CalledAt(names, rows, capacity, key, |capacity|, k)
  {
    hide CalledAt, NamedAt;
    names := NamesInRows(rows, key);
    forall k ensures CalledAt(names, rows, capacity, key, 0, k) { CalledInRows(names, rows, capacity, key, k); }
    for i := 0 to |capacity|
      invariant forall k :: CalledAt(names, rows, capacity, key, i, k)
    {
      var part, n := key(capacity[i].part), i + 1;
      var more := if part in names then names else names[part := Display(capacity[i].part)];
      forall k ensures CalledAt(more, rows, capacity, key, n, k) { CallStep(names, more, rows, capacity, key, i, k); }
      names := more;
    }
  }

  lemma CalledInRows(names: map<string, string>, rows: seq<Source>, capacity: seq<Capacity>, key: string -> string,
                     k: string)
    requires NamedAt(names, rows, key, |rows|, k)
    ensures CalledAt(names, rows, capacity, key, 0, k)
  {
    hide FirstRow, FirstPart;
  }

  lemma CallStep(names: map<string, string>, more: map<string, string>, rows: seq<Source>, capacity: seq<Capacity>,
                 key: string -> string, i: nat, k: string)
    requires i < |capacity| && CalledAt(names, rows, capacity, key, i, k)
    requires CalledAt(names, rows, capacity, key, i, key(capacity[i].part))
    requires more == if key(capacity[i].part) in names then names
                     else names[key(capacity[i].part) := Display(capacity[i].part)]
    ensures CalledAt(more, rows, capacity, key, i + 1, k)
  {
    hide FirstRow, FirstPart, NamesTool, Display;
  }

  lemma ToolsNamed(rows: seq<Source>, capacity: seq<Capacity>, key: string -> string, k: string)
    ensures k in ToolKeysOf(rows, key) + CapacityKeys(capacity, key) <==>
            FirstRow(rows, key, k) < |rows| || FirstPart(capacity, key, k) < |capacity|
  {
    hide RowTools, FirstPart;
    NamedByRow(rows, key, k);
    if c :| c in capacity && key(c.part) == k {
      var i :| 0 <= i < |capacity| && capacity[i] == c;
    }
  }

  lemma NamedByRow(rows: seq<Source>, key: string -> string, k: string)
    ensures k in ToolKeysOf(rows, key) <==> FirstRow(rows, key, k) < |rows|
  {
    hide RowTools, FirstRow;
  }

  lemma NextCarrier(eoats: seq<EoatRecord>, i: nat, key: string -> string, done: set<string>, t: string, k: string)
    requires i < |eoats| && t in eoats[i].tools
    ensures CarriedBy(eoats[i], key, done + {t}, k) ==
            CarriedBy(eoats[i], key, done, k) + if key(t) == k then eoats[i].machines else {}
    ensures CarryingBy(eoats[i], key, done + {t}, k) ==
            CarryingBy(eoats[i], key, done, k) + if key(t) == k then {eoats[i].id} else {}
  {
  }

  /** The machines of one EOAT, as far as some of its tools lead to the key. */
  function CarriedBy(e: EoatRecord, key: string -> string, tools: set<string>, k: string): set<string>
  {
    set t, m | t in tools && key(t) == k && m in e.machines :: m
  }

  function CarryingBy(e: EoatRecord, key: string -> string, tools: set<string>, k: string): set<string>
  {
    set t | t in tools && key(t) == k :: e.id
  }

  lemma AddEoat(eoats: seq<EoatRecord>, i: nat, key: string -> string, k: string)
    requires i < |eoats|
    ensures CarriedTo(eoats[..i + 1], key, k) ==
            CarriedTo(eoats[..i], key, k) + CarriedBy(eoats[i], key, eoats[i].tools, k)
    ensures Carriers(eoats[..i + 1], key, k) ==
            Carriers(eoats[..i], key, k) + CarryingBy(eoats[i], key, eoats[i].tools, k)
  {
    assert eoats[..i + 1] == eoats[..i] + [eoats[i]];
  }

  /** The dictionaries of the EOATs by tool, while one EOAT is being added. */
  ghost predicate ByTool(eoatsBy: Sets, machinesBy: Sets, capacity: seq<Capacity>, eoats: seq<EoatRecord>, i: nat,
                         done: set<string>, key: string -> string)
    requires i <= |eoats|
  {
    forall k :: ByToolAt(eoatsBy, machinesBy, capacity, eoats, i, done, key, k)
  }

  ghost predicate ByToolAt(eoatsBy: Sets, machinesBy: Sets, capacity: seq<Capacity>, eoats: seq<EoatRecord>, i: nat,
                           done: set<string>, key: string -> string, k: string)
    requires i <= |eoats|
  {
    && Of(eoatsBy, k) == Carriers(eoats[..i], key, k) + (if i < |eoats| then CarryingBy(eoats[i], key, done, k) else {})
    && Of(machinesBy, k) == PartMachines(capacity, key, k) + CarriedTo(eoats[..i], key, k)
                          + (if i < |eoats| then CarriedBy(eoats[i], key, done, k) else {})
  }

  lemma ByToolStart(machinesBy: Sets, capacity: seq<Capacity>, eoats: seq<EoatRecord>, key: string -> string)
    requires forall k :: Of(machinesBy, k) == PartMachines(capacity, key, k)
    ensures ByTool(map[], machinesBy, capacity, eoats, 0, {}, key)
  {
    hide PartMachines;
    forall k ensures ByToolAt(map[], machinesBy, capacity, eoats, 0, {}, key, k) {
      assert Carriers([], key, k) == {} && CarriedTo([], key, k) == {};
      if eoats != [] { assert CarryingBy(eoats[0], key, {}, k) == {} && CarriedBy(eoats[0], key, {}, k) == {}; }
    }
  }

  lemma ByToolStep(eoatsBy: Sets, machinesBy: Sets, capacity: seq<Capacity>, eoats: seq<EoatRecord>, i: nat,
                   done: set<string>, key: string -> string, t: string)
    requires i < |eoats| && t in eoats[i].tools && ByTool(eoatsBy, machinesBy, capacity, eoats, i, done, key)
    ensures ByTool(Put(eoatsBy, key(t), eoats[i].id), PutAll(machinesBy, key(t), eoats[i].machines),
                   capacity, eoats, i, done + {t}, key)
  {
    hide PartMachines, Carriers, CarriedTo, CarriedBy, CarryingBy, Of, Put, PutAll;
    var e, m := Put(eoatsBy, key(t), eoats[i].id), PutAll(machinesBy, key(t), eoats[i].machines);
    forall k ensures ByToolAt(e, m, capacity, eoats, i, done + {t}, key, k) {
      assert ByToolAt(eoatsBy, machinesBy, capacity, eoats, i, done, key, k);
      NextCarrier(eoats, i, key, done, t, k);
    }
  }

  lemma ByToolNext(eoatsBy: Sets, machinesBy: Sets, capacity: seq<Capacity>, eoats: seq<EoatRecord>, i: nat,
                   key: string -> string)
    requires i < |eoats| && ByTool(eoatsBy, machinesBy, capacity, eoats, i, eoats[i].tools, key)
    ensures ByTool(eoatsBy, machinesBy, capacity, eoats, i + 1, {}, key)
  {
    hide PartMachines, Carriers, CarriedTo, Of;
    var n := i + 1;
    forall k ensures ByToolAt(eoatsBy, machinesBy, capacity, eoats, n, {}, key, k) {
      assert ByToolAt(eoatsBy, machinesBy, capacity, eoats, i, eoats[i].tools, key, k);
      AddEoat(eoats, i, key, k);
      if n < |eoats| { assert CarryingBy(eoats[n], key, {}, k) == {} && CarriedBy(eoats[n], key, {}, k) == {}; }
    }
  }

  /** `_build_tool_records`: a record for each tool that a row or capacity names. */
  method BuildTools(rows: seq<Source>, capacity: seq<Capacity>, eoats: seq<EoatRecord>, key: string -> string)
    returns (records: map<string, ToolRecord>)
    ensures records.Keys == ToolKeysOf(rows, key) + CapacityKeys(capacity, key)
    ensures forall k :: k in records ==> records[k] == ToolFor(rows, capacity, eoats, key, k)
  {
    hide Put, PutAll, Of, ByTool, Carriers, CarriedTo, Normalized, ToolKeysOf, CapacityKeys, ToolName, FirstRow,
         FirstPart;
    var names := NameTools(rows, capacity, key);
    var machinesBy := CapacityByTool(capacity, key);
    var eoatsBy: Sets := map[];
    ByToolStart(machinesBy, capacity, eoats, key);
    for i := 0 to |eoats|
      invariant ByTool(eoatsBy, machinesBy, capacity, eoats, i, {}, key)
    {
      var rest := eoats[i].tools;
      assert eoats[i].tools - rest == {};
      while rest != {}
        invariant rest <= eoats[i].tools && ByTool(eoatsBy, machinesBy, capacity, eoats, i, eoats[i].tools - rest, key)
        decreases |rest|
      {
        var t :| t in rest;
        ByToolStep(eoatsBy, machinesBy, capacity, eoats, i, eoats[i].tools - rest, key, t);
        assert eoats[i].tools - (rest - {t}) == eoats[i].tools - rest + {t};
        rest := rest - {t};
        eoatsBy := Put(eoatsBy, key(t), eoats[i].id);
        machinesBy := PutAll(machinesBy, key(t), eoats[i].machines);
      }
      assert eoats[i].tools - rest == eoats[i].tools;
      ByToolNext(eoatsBy, machinesBy, capacity, eoats, i, key);
    }
    forall k ensures k in names <==> k in ToolKeysOf(rows, key) + CapacityKeys(capacity, key) {
      assert CalledAt(names, rows, capacity, key, |capacity|, k);
      ToolsNamed(rows, capacity, key, k);
    }
    assert forall k :: k in names ==> names[k] == ToolName(rows, capacity, key, k) by {
      forall k ensures k in names ==> names[k] == ToolName(rows, capacity, key, k) {
        assert CalledAt(names, rows, capacity, key, |capacity|, k);
      }
    }
    records := map k | k in names :: ToolRecord(names[k], Normalized(Of(machinesBy, k)), Of(eoatsBy, k));
    forall k ensures Of(eoatsBy, k) == Carriers(eoats, key, k)
             ensures Of(machinesBy, k) == PartMachines(capacity, key, k) + CarriedTo(eoats, key, k)
    {
      ByToolDone(eoatsBy, machinesBy, capacity, eoats, key, k);
    }
  }

  lemma ByToolDone(eoatsBy: Sets, machinesBy: Sets, capacity: seq<Capacity>, eoats: seq<EoatRecord>,
                   key: string -> string, k: string)
    requires ByTool(eoatsBy, machinesBy, capacity, eoats, |eoats|, {}, key)
    ensures Of(eoatsBy, k) == Carriers(eoats, key, k)
    ensures Of(machinesBy, k) == PartMachines(capacity, key, k) + CarriedTo(eoats, key, k)
  {
    hide Of, Carriers, CarriedTo, PartMachines;
    assert ByToolAt(eoatsBy, machinesBy, capacity, eoats, |eoats|, {}, key, k);
    assert eoats[..|eoats|] == eoats;
  }

  /* ---- The join ---- */

  /** A row of the group names the tool. */
  ghost predicate Carries(rows: seq<Source>, group: string, key: string -> string, k: string)
  {
    exists t :: t in ToolsShown(rows, Members(rows, group)) && key(t) == k
  }

  /** A row of the group names the machine. */
  ghost predicate NamesMachine(rows: seq<Source>, group: string, m: string)
  {
    exists x :: x in MachinesShown(rows, Members(rows, group)) && Token(x) == m
  }

  /** Capacity gives the machine for a tool of the group. */
  ghost predicate CapacityReaches(rows: seq<Source>, capacity: seq<Capacity>, group: string, key: string -> string,
                                  m: string)
  {
    m in CapacityMachines(capacity, key, ToolsShown(rows, Members(rows, group)))
  }

  lemma ShownSettles(rows: seq<Source>, members: seq<nat>, x: string)
    requires (forall i :: i in members ==> i < |rows|) && x in MachinesShown(rows, members)
    ensures Token(x) != "" && Token(Token(x)) == Token(x)
  {
    hide Token;
    var i, y :| i in members && y in rows[i].machines && Token(y) != "" && x == Token(y);
    TokenStays(y);
    TokenSettles(y);
  }

  /** The machines of an EOAT record, without the dictionaries. */
  lemma EoatReaches(rows: seq<Source>, capacity: seq<Capacity>, key: string -> string, group: string, m: string)
    requires Members(rows, group) != [] && forall c :: c in capacity ==> Canonical(c.machine)
    ensures m in EoatFor(rows, capacity, key, group).machines <==>
            NamesMachine(rows, group, m) || CapacityReaches(rows, capacity, group, key, m)
    ensures m in EoatFor(rows, capacity, key, group).machines ==> Canonical(m)
  {
    hide Token, Members, ToolsShown, MachinesShown, Primary;
    var members := Members(rows, group);
    var shown, given := MachinesShown(rows, members), CapacityMachines(capacity, key, ToolsShown(rows, members));
    forall x | x in shown ensures Token(x) != "" && Token(Token(x)) == Token(x) {
      ShownSettles(rows, members, x);
    }
    assert forall x :: x in given ==> Canonical(x);
  }

  /** A tool reaches a machine exactly when capacity puts the two together, or when some EOAT carries the tool and
      either one of its rows names the machine or capacity puts the machine together with any of its tools. */
  lemma ToolReaches(records: seq<EoatRecord>, groups: seq<string>, rows: seq<Source>, capacity: seq<Capacity>,
                    key: string -> string, k: string, m: string)
    requires EoatsAre(records, groups, rows, capacity, key) && forall c :: c in capacity ==> Canonical(c.machine)
    ensures m in ToolFor(rows, capacity, records, key, k).machines <==>
      || m in PartMachines(capacity, key, k)
      || exists g :: g in groups && Carries(rows, g, key, k)
                     && (NamesMachine(rows, g, m) || CapacityReaches(rows, capacity, g, key, m))
  {
    hide Token, Members, NamesMachine, CapacityReaches, GroupId, EoatsAre, EoatFor, Carries, CarriedTo;
    CarriedAre(records, groups, rows, capacity, key, k, m);
    forall x | x in CarriedTo(records, key, k) ensures Canonical(x) {
      CarriedAre(records, groups, rows, capacity, key, k, x);
    }
    assert forall x :: x in PartMachines(capacity, key, k) ==> Canonical(x);
  }

  lemma CarriedAre(records: seq<EoatRecord>, groups: seq<string>, rows: seq<Source>, capacity: seq<Capacity>,
                   key: string -> string, k: string, m: string)
    requires EoatsAre(records, groups, rows, capacity, key) && forall c :: c in capacity ==> Canonical(c.machine)
    ensures m in CarriedTo(records, key, k) <==>
      exists g :: g in groups && Carries(rows, g, key, k)
                  && (NamesMachine(rows, g, m) || CapacityReaches(rows, capacity, g, key, m))
    ensures m in CarriedTo(records, key, k) ==> Canonical(m)
  {
    hide Token, Canonical, Members, ToolsShown, MachinesShown, Primary, NamesMachine, CapacityReaches, GroupId;
    if m in CarriedTo(records, key, k) {
      var e, t :| e in records && t in e.tools && key(t) == k && m in e.machines;
      var i :| 0 <= i < |records| && records[i] == e;
      assert groups[i] in groups;
      EoatReaches(rows, capacity, key, groups[i], m);
      assert Carries(rows, groups[i], key, k);
    }
    if g :| g in groups && Carries(rows, g, key, k)
            && (NamesMachine(rows, g, m) || CapacityReaches(rows, capacity, g, key, m)) {
      var i :| 0 <= i < |groups| && groups[i] == g;
      EoatReaches(rows, capacity, key, g, m);
      assert records[i] in records && m in records[i].machines;
      var t :| t in ToolsShown(rows, Members(rows, g)) && key(t) == k;
      assert t in records[i].tools;
    }
  }

  /* ---- Indexes ---- */

  /** A record, by its name and the values it lists. */
  datatype Listing = Listing(name: string, values: set<string>)

  /** The names of the records that list a value with the key. */
  function Scan(records: seq<Listing>, key: string -> string, k: string): set<string>
  {
    set r, v | r in records && v in r.values && key(v) == k :: r.name
  }

  function ScanOne(r: Listing, values: set<string>, key: string -> string, k: string): set<string>
  {
    set v | v in values && key(v) == k :: r.name
  }

  lemma ScanMore(records: seq<Listing>, i: nat, key: string -> string, k: string)
    requires i < |records|
    ensures Scan(records[..i + 1], key, k) ==
            Scan(records[..i], key, k) + ScanOne(records[i], records[i].values, key, k)
  {
    assert records[..i + 1] == records[..i] + [records[i]];
  }

  lemma ScanValue(r: Listing, values: set<string>, key: string -> string, k: string, v: string)
    ensures ScanOne(r, values + {v}, key, k) == ScanOne(r, values, key, k) + if key(v) == k then {r.name} else {}
    ensures ScanOne(r, {}, key, k) == {}
  {
  }

  /** The values of one record are put into the index. */
  method IndexOne(start: Sets, r: Listing, key: string -> string) returns (index: Sets)
    ensures forall k :: Of(index, k) == Of(start, k) + ScanOne(r, r.values, key, k)
  {
    hide Of, Put, ScanOne;
    index := start;
    var rest := r.values;
    forall k ensures ScanOne(r, {}, key, k) == {} { ScanValue(r, {}, key, k, ""); }
    assert r.values - rest == {};
    while rest != {}
      invariant rest <= r.values
      invariant forall k :: Of(index, k) == Of(start, k) + ScanOne(r, r.values - rest, key, k)
      decreases |rest|
    {
      var v :| v in rest;
      ghost var done := r.values - rest;
      forall k
        ensures ScanOne(r, done + {v}, key, k) == ScanOne(r, done, key, k) + if key(v) == k then {r.name} else {}
      {
        ScanValue(r, done, key, k, v);
      }
      rest := rest - {v};
      assert r.values - rest == done + {v};
      index := Put(index, key(v), r.name);
    }
    assert r.values - rest == r.values;
  }

  /** The loops of `_build_indexes`: the EOATs by tool and by machine, and the tools by machine. Looking a key up
      gives what a scan of the records gives. */
  method BuildIndex(records: seq<Listing>, key: string -> string) returns (index: Sets)
    ensures forall k :: Of(index, k) == Scan(records, key, k)
  {
    hide Of, Scan, ScanOne;
    index := map[];
    NoScan(key);
    for i := 0 to |records|
      invariant forall k :: Of(index, k) == Scan(records[..i], key, k)
    {
      forall k
        ensures Scan(records[..i], key, k) + ScanOne(records[i], records[i].values, key, k)
             == Scan(records[..i + 1], key, k)
      {
        ScanMore(records, i, key, k);
      }
      index := IndexOne(index, records[i], key);
    }
    assert records[..|records|] == records;
  }

  lemma NoScan(key: string -> string)
    ensures forall k :: Of(map[], k) == Scan([], key, k)
  {
  }
}
