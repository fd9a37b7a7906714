/** Selection lists and the validation of a setup (core/atlas_setup_packets.py). */
module AtlasSetup {
  import opened Text
  import opened Atlas

  /* ---- Selection ---- */

  /** The texts of a group in lower case. */
  function Lowers(group: map<string, string>): set<string>
  {
    set k | k in group :: Lower(group[k])
  }

  /** The values of the first group whose text, in lower case, stands in every other group. */
  function Allowed(groups: seq<map<string, string>>): map<string, string>
  {
    if groups == [] then map[]
    else
      map k | k in groups[0] && forall i :: 0 < i < |groups| ==> Lower(groups[0][k]) in Lowers(groups[i]) ::
        groups[0][k]
  }

  /** `_intersection`, narrowing the first group by one group after the other. */
  method Intersection(groups: seq<map<string, string>>) returns (allowed: map<string, string>)
    ensures allowed == Allowed(groups)
  {
    hide Lowers;
    if groups == [] || exists i :: 0 <= i < |groups| && groups[i] == map[] {
      NoneAllowed(groups);
      return map[];
    }
    allowed := groups[0];
    for i := 1 to |groups|
      invariant allowed == Allowed(groups[..i])
    {
      var lowers := Lowers(groups[i]);
      allowed := map k | k in allowed && Lower(allowed[k]) in lowers :: allowed[k];
    }
    assert groups[..|groups|] == groups;
  }

  lemma NoneAllowed(groups: seq<map<string, string>>)
    requires groups == [] || exists i :: 0 <= i < |groups| && groups[i] == map[]
    ensures Allowed(groups) == map[]
  {
    if groups != [] {
      var i :| 0 <= i < |groups| && groups[i] == map[];
      assert Lowers(groups[i]) == {};
      assert forall k :: k !in Allowed(groups);
    }
  }

  /** The keys of the values allowed. */
  function KeysOf(allowed: map<string, string>, key: string -> string): set<string>
  {
    set k | k in allowed :: key(allowed[k])
  }

  function KeepTools(tools: seq<Tool>, key: string -> string, keys: set<string>): (r: seq<Tool>)
    ensures forall t :: t in r <==> t in tools && key(t.name) in keys
  {
    if tools == [] then []
    else (if key(tools[0].name) in keys then [tools[0]] else []) + KeepTools(tools[1..], key, keys)
  }

  function KeepMachines(machines: seq<Machine>, key: string -> string, keys: set<string>): (r: seq<Machine>)
    ensures forall m :: m in r <==> m in machines && key(m.name) in keys
  {
    if machines == [] then []
    else (if key(machines[0].name) in keys then [machines[0]] else []) + KeepMachines(machines[1..], key, keys)
  }

  function KeepEoats(eoats: seq<Eoat>, key: string -> string, keys: set<string>): (r: seq<Eoat>)
    ensures forall e :: e in r <==> e in eoats && key(e.id) in keys
  {
    if eoats == [] then []
    else (if key(eoats[0].id) in keys then [eoats[0]] else []) + KeepEoats(eoats[1..], key, keys)
  }

  /** The groups of those that were given. */
  function Groups(first: bool, one: map<string, string>, second: bool, other: map<string, string>)
    : seq<map<string, string>>
  {
    (if first then [one] else []) + (if second then [other] else [])
  }

  function SelectableTools(b: Bundle, machine: string, eoat: string, unconfirmed: bool): seq<Tool>
  {
    if unconfirmed || (machine == "" && eoat == "") then b.tools
    else
      var groups := Groups(machine != "", ToolsForMachine(b, machine), eoat != "", ToolsForEoat(b, eoat));
      KeepTools(b.tools, b.keys.tool, KeysOf(Allowed(groups), b.keys.tool))
  }

  function SelectableMachines(b: Bundle, tool: string, eoat: string, unconfirmed: bool): seq<Machine>
  {
    if unconfirmed || (tool == "" && eoat == "") then b.machines
    else
      var groups := Groups(tool != "", MachinesForTool(b, tool), eoat != "", MachinesForEoat(b, eoat));
      KeepMachines(b.machines, b.keys.machine, KeysOf(Allowed(groups), b.keys.machine))
  }

  function SelectableEoats(b: Bundle, machine: string, tool: string, unconfirmed: bool): seq<Eoat>
  {
    if unconfirmed || (machine == "" && tool == "") then b.eoats
    else
      var groups := Groups(machine != "", EoatsForMachine(b, machine), tool != "", EoatsForTool(b, tool));
      KeepEoats(b.eoats, b.keys.eoat, KeysOf(Allowed(groups), b.keys.eoat))
  }

  /* ---- Validation ---- */

  datatype Check = Confirmed | NotConfirmed | MissingData

  /** `_relationship_check`. */
  function CheckLink(source: bool, target: bool, values: map<string, string>, key: string -> string,
                     value: string): Check
  {
    if !source || !target || values == map[] then MissingData
    else if exists k :: k in values && key(values[k]) == key(value) then Confirmed
    else NotConfirmed
  }

  datatype Status = ManualOverride | AllConfirmed | Partial | Missing | Unconfirmed

  function Count(checks: seq<Check>, which: Check): nat
  {
    if checks == [] then 0 else (if checks[0] == which then 1 else 0) + Count(checks[1..], which)
  }

  /** `_validation_status`; what is missing only counts by whether there is something. */
  function StatusOf(checks: seq<Check>, missing: bool, override: bool): Status
  {
    if override then ManualOverride
    else if Count(checks, Confirmed) == |checks| then AllConfirmed
    else if Count(checks, Confirmed) > 0 then Partial
    else if missing && Count(checks, NotConfirmed) == 0 then Missing
    else Unconfirmed
  }

  function ChecksOf(b: Bundle, machine: string, tool: string, eoat: string): seq<Check>
  {
    var m, t, e := MachineOf(b, machine).Some?, ToolOf(b, tool).Some?, EoatOf(b, eoat).Some?;
    [CheckLink(m, t, ToolsForMachine(b, machine), b.keys.tool, tool),
     CheckLink(t, e, EoatsForTool(b, tool), b.keys.eoat, eoat),
     CheckLink(m, e, EoatsForMachine(b, machine), b.keys.eoat, eoat)]
  }

  /** `validate_setup_context`: the status. */
  function Validate(b: Bundle, machine: string, tool: string, eoat: string, override: bool): Status
  {
    var checks := ChecksOf(b, machine, tool, eoat);
    var missing := || machine == "" || MachineOf(b, machine).None? || tool == "" || ToolOf(b, tool).None?
                   || eoat == "" || EoatOf(b, eoat).None? || MissingData in checks;
    StatusOf(checks, missing, override)
  }

  /* ---- What the two have to do with each other ---- */

  lemma CheckMeans(source: bool, target: bool, values: map<string, string>, key: string -> string, value: string)
    requires Keyed(values, key)
    ensures CheckLink(source, target, values, key, value) == Confirmed <==> source && target && key(value) in values
  {
  }

  /** Without an override a setup is confirmed exactly when all three records are there and each of the three
      links is listed. */
  lemma ConfirmedWhen(b: Bundle, machine: string, tool: string, eoat: string)
    requires AllLawful(b)
    ensures Validate(b, machine, tool, eoat, false) == AllConfirmed <==>
      && MachineOf(b, machine).Some? && ToolOf(b, tool).Some? && EoatOf(b, eoat).Some?
      && b.keys.tool(tool) in ToolsForMachine(b, machine)
      && b.keys.eoat(eoat) in EoatsForTool(b, tool)
      && b.keys.eoat(eoat) in EoatsForMachine(b, machine)
  {
    hide Lawful, Shown, CheckLink, MachineOf, ToolOf, EoatOf;
    var m, t, e := MachineOf(b, machine).Some?, ToolOf(b, tool).Some?, EoatOf(b, eoat).Some?;
    CheckMeans(m, t, ToolsForMachine(b, machine), b.keys.tool, tool);
    CheckMeans(t, e, EoatsForTool(b, tool), b.keys.eoat, eoat);
    CheckMeans(m, e, EoatsForMachine(b, machine), b.keys.eoat, eoat);
    CountThree(ChecksOf(b, machine, tool, eoat), Confirmed);
  }

  /** The other outcomes tell how many links are confirmed: some but not all, none with something against it, or
      none because for each link something is missing. */
  lemma StatusTellsLinks(b: Bundle, machine: string, tool: string, eoat: string)
    ensures var checks, status := ChecksOf(b, machine, tool, eoat), Validate(b, machine, tool, eoat, false);
      && (status == Partial <==> Confirmed in checks && exists c :: c in checks && c != Confirmed)
      && (status == Unconfirmed <==> Confirmed !in checks && NotConfirmed in checks)
      && (status == Missing <==> forall c :: c in checks ==> c == MissingData)
    ensures Validate(b, machine, tool, eoat, true) == ManualOverride
  {
    hide CheckLink, MachineOf, ToolOf, EoatOf, ToolsForMachine, EoatsForTool, EoatsForMachine;
    var checks := ChecksOf(b, machine, tool, eoat);
    CountThree(checks, Confirmed);
    CountThree(checks, NotConfirmed);
    assert checks[0] in checks && checks[1] in checks && checks[2] in checks;
  }

  lemma CountThree(checks: seq<Check>, which: Check)
    requires |checks| == 3
    ensures Count(checks, which) ==
      (if checks[0] == which then 1 else 0) + (if checks[1] == which then 1 else 0)
      + (if checks[2] == which then 1 else 0)
  {
    var rest := checks[1..];
    assert rest[0] == checks[1] && rest[1..][0] == checks[2] && rest[1..][1..] == [];
    assert Count(rest[1..], which) == if checks[2] == which then 1 else 0;
    assert Count(rest, which) == (if checks[1] == which then 1 else 0) + Count(rest[1..], which);
  }

  /** A value allowed by one group is in it. */
  lemma AllowedByOne(group: map<string, string>, key: string -> string, k: string)
    requires Keyed(group, key)
    ensures k in KeysOf(Allowed([group]), key) <==> k in group
  {
    assert Allowed([group]) == group;
    if k in group { assert key(group[k]) == k; }
  }

  /** A key is allowed by two groups exactly when both have it and show the same text for it, up to case. */
  lemma AllowedByTwo(one: map<string, string>, other: map<string, string>, key: string -> string, k: string)
    requires Lawful(key) && Keyed(one, key) && Keyed(other, key)
    ensures k in KeysOf(Allowed([one, other]), key) <==> k in one && k in other && Lower(one[k]) == Lower(other[k])
  {
    hide Display;
    var groups := [one, other];
    if k in KeysOf(Allowed(groups), key) {
      var j :| j in Allowed(groups) && key(Allowed(groups)[j]) == k;
      assert Lower(one[j]) in Lowers(groups[1]);
      var l :| l in other && Lower(other[l]) == Lower(one[j]);
      assert key(other[l]) == key(one[j]);
    }
    if k in one && k in other && Lower(one[k]) == Lower(other[k]) {
      assert Lower(one[k]) in Lowers(other);
      assert k in Allowed(groups);
    }
  }

  /** What is offered for a machine and a tool: an EOAT whose key both list, under the same text up to case. */
  lemma OfferedWhen(b: Bundle, machine: string, tool: string, eoat: Eoat)
    requires AllLawful(b) && machine != "" && tool != "" && eoat in b.eoats
    ensures var k, one, other := b.keys.eoat(eoat.id), EoatsForMachine(b, machine), EoatsForTool(b, tool);
      eoat in SelectableEoats(b, machine, tool, false) <==> k in one && k in other && Lower(one[k]) == Lower(other[k])
  {
    hide Lawful, Shown, EoatsForMachine, EoatsForTool, Allowed, Keyed, KeysOf;
    assert Groups(true, EoatsForMachine(b, machine), true, EoatsForTool(b, tool))
        == [EoatsForMachine(b, machine), EoatsForTool(b, tool)];
    AllowedByTwo(EoatsForMachine(b, machine), EoatsForTool(b, tool), b.keys.eoat, b.keys.eoat(eoat.id));
  }

  lemma FoundMachine(b: Bundle, m: Machine)
    requires m in b.machines
    ensures MachineOf(b, m.name).Some?
  {
  }

  lemma FoundTool(b: Bundle, t: Tool)
    requires t in b.tools
    ensures ToolOf(b, t.name).Some?
  {
  }

  lemma FoundEoat(b: Bundle, e: Eoat)
    requires e in b.eoats && IdsKeyed(b)
    ensures EoatOf(b, e.id).Some?
  {
  }

  /** What is offered for a machine: the tools it lists. */
  lemma OfferedTool(b: Bundle, machine: string, t: Tool)
    requires AllLawful(b) && machine != ""
    ensures t in SelectableTools(b, machine, "", false) <==>
            t in b.tools && b.keys.tool(t.name) in ToolsForMachine(b, machine)
  {
    hide Lawful, Shown, ToolsForMachine, Allowed, KeysOf, Keyed;
    assert Groups(true, ToolsForMachine(b, machine), false, ToolsForEoat(b, "")) == [ToolsForMachine(b, machine)];
    AllowedByOne(ToolsForMachine(b, machine), b.keys.tool, b.keys.tool(t.name));
  }

  /** Whatever is picked from the lists, one after the other, validates as confirmed. */
  lemma SelectionIsSound(b: Bundle, m: Machine, t: Tool, e: Eoat)
    requires AllLawful(b) && IdsKeyed(b)
    requires m in b.machines && m.name != "" && t.name != ""
    requires t in SelectableTools(b, m.name, "", false) && e in SelectableEoats(b, m.name, t.name, false)
    ensures Validate(b, m.name, t.name, e.id, false) == AllConfirmed
  {
    hide *;
    OfferedTool(b, m.name, t);
    OfferedEoat(b, m.name, t.name, e);
    OfferedWhen(b, m.name, t.name, e);
    FoundMachine(b, m);
    FoundTool(b, t);
    FoundEoat(b, e);
    ConfirmedWhen(b, m.name, t.name, e.id);
  }

  lemma OfferedEoat(b: Bundle, machine: string, tool: string, e: Eoat)
    requires e in SelectableEoats(b, machine, tool, false)
    ensures e in b.eoats
  {
    hide EoatsForMachine, EoatsForTool, Allowed, KeysOf;
  }

  /** An EOAT that fits is offered exactly when its machine and its tool list it under the same text, up to case. */
  lemma SelectionMisses(b: Bundle, m: Machine, t: Tool, e: Eoat)
    requires AllLawful(b) && m.name != "" && t.name != "" && e in b.eoats
    requires Validate(b, m.name, t.name, e.id, false) == AllConfirmed
    ensures b.keys.eoat(e.id) in EoatsForMachine(b, m.name) && b.keys.eoat(e.id) in EoatsForTool(b, t.name)
    ensures e in SelectableEoats(b, m.name, t.name, false) <==>
      Lower(EoatsForMachine(b, m.name)[b.keys.eoat(e.id)]) == Lower(EoatsForTool(b, t.name)[b.keys.eoat(e.id)])
  {
    hide Lawful, Validate, SelectableEoats, EoatsForMachine, EoatsForTool;
    ConfirmedWhen(b, m.name, t.name, e.id);
    OfferedWhen(b, m.name, t.name, e);
  }

  /** Every EOAT that a record or an index names has a record. */
  ghost predicate EoatsClosed(b: Bundle)
  {
    && (forall k, v :: v in At(b.eoatsByMachine, k) ==> HasRecord(b, v))
    && (forall k, v :: v in At(b.eoatsByTool, k) ==> HasRecord(b, v))
    && (forall m, v :: m in b.machines && v in m.eoats ==> HasRecord(b, v))
    && (forall t, v :: t in b.tools && v in t.eoats ==> HasRecord(b, v))
  }

  ghost predicate HasRecord(b: Bundle, id: string)
  {
    exists e :: e in b.eoats && e.id == id
  }

  /** When EOATs are told apart by their keys, the lists miss nothing: whatever validates as confirmed is offered. */
  lemma SelectionIsComplete(b: Bundle, m: Machine, t: Tool, e: Eoat)
    requires AllLawful(b) && UniqueEoats(b) && EoatsClosed(b)
    requires m.name != "" && t in b.tools && t.name != "" && e in b.eoats
    requires Validate(b, m.name, t.name, e.id, false) == AllConfirmed
    ensures t in SelectableTools(b, m.name, "", false) && e in SelectableEoats(b, m.name, t.name, false)
  {
    hide *;
    SelectionMisses(b, m, t, e);
    ConfirmedWhen(b, m.name, t.name, e.id);
    OfferedTool(b, m.name, t);
    ListedAsItself(b, m.name, t.name, e);
  }

  /** Both lists show the EOAT by its own ID. */
  lemma ListedAsItself(b: Bundle, machine: string, tool: string, e: Eoat)
    requires UniqueEoats(b) && EoatsClosed(b) && e in b.eoats
    ensures var k := b.keys.eoat(e.id);
      && (k in EoatsForMachine(b, machine) ==> EoatsForMachine(b, machine)[k] == Display(e.id))
      && (k in EoatsForTool(b, tool) ==> EoatsForTool(b, tool)[k] == Display(e.id))
  {
    hide Lawful, Shown, Display, EoatsNamingMachine, EoatsNamingTool, FindMachine, FindTool, UniqueEoats;
    forall f | f in b.eoats && b.keys.eoat(f.id) == b.keys.eoat(e.id) ensures f == e { OneEoat(b, f, e); }
    var k, m, t := b.keys.eoat(e.id), MachineOf(b, machine), ToolOf(b, tool);
    var onMachine := At(b.eoatsByMachine, b.keys.machine(machine)) + (if m.Some? then m.value.eoats else []) +
                     EoatsNamingMachine(b.eoats, b.keys.machine, b.keys.machine(machine));
    var onTool := At(b.eoatsByTool, b.keys.tool(tool)) + (if t.Some? then t.value.eoats else []) +
                  EoatsNamingTool(b.eoats, b.keys.tool, b.keys.tool(tool));
    if k in EoatsForMachine(b, machine) {
      assert forall v :: v in onMachine ==> HasRecord(b, v);
      ShownText(onMachine, b.keys.eoat, k, e.id);
    }
    if k in EoatsForTool(b, tool) {
      assert forall v :: v in onTool ==> HasRecord(b, v);
      ShownText(onTool, b.keys.eoat, k, e.id);
    }
  }

  /** The same holds when the picking starts from the tool, whose name other tools may share: a machine offered for it
      and for one of its EOATs makes a confirmed setup. */
  lemma SelectionFromToolIsSound(b: Bundle, m: Machine, t: Tool, e: Eoat)
    requires Fair(b) && t in b.tools && t.name != "" && b.keys.tool(t.name) != "" && e.id != ""
    requires e in SelectableEoats(b, "", t.name, false) && m in SelectableMachines(b, t.name, e.id, false)
    ensures Validate(b, m.name, t.name, e.id, false) == AllConfirmed
  {
    hide Lawful, Indexed, UniqueMachines, UniqueEoats, SelectableEoats, SelectableMachines, Validate, EoatOf, MachineOf,
         ToolOf, ToolsForMachine, MachinesForTool, EoatsForTool, ToolsForEoat, EoatsForMachine, MachinesForEoat,
         ToolFitsMachine, EoatFitsMachine;
    OfferedForTool(b, t, e);
    OfferedMachine(b, t.name, e.id, m);
    assert IdsKeyed(b) by { IndexedIds(b); }
    MachinesForToolAre(b, t.name, b.keys.machine(m.name));
    MachinesForEoatAre(b, e.id, b.keys.machine(m.name));
    ToolsForMachineAre(b, m.name, b.keys.tool(t.name));
    EoatsForMachineAre(b, m.name, b.keys.eoat(e.id));
    EoatHasKey(b, t.name, b.keys.eoat(e.id));
    FoundMachine(b, m);
    FoundTool(b, t);
    FoundEoat(b, e);
    ConfirmedWhen(b, m.name, t.name, e.id);
  }

  lemma IndexedIds(b: Bundle)
    requires Indexed(b)
    ensures IdsKeyed(b)
  {
  }

  lemma EoatHasKey(b: Bundle, tool: string, k: string)
    requires AllLawful(b) && Indexed(b) && k in EoatsForTool(b, tool)
    ensures k != ""
  {
    hide Lawful, Indexed, EoatsForTool, EoatFitsTool;
    EoatsForToolAre(b, tool, k);
  }

  lemma OfferedForTool(b: Bundle, t: Tool, e: Eoat)
    requires AllLawful(b) && t.name != "" && e in SelectableEoats(b, "", t.name, false)
    ensures e in b.eoats && b.keys.eoat(e.id) in EoatsForTool(b, t.name)
  {
    hide Lawful, Shown, EoatsForTool, Allowed, KeysOf, Keyed;
    assert Groups(false, EoatsForMachine(b, ""), true, EoatsForTool(b, t.name)) == [EoatsForTool(b, t.name)];
    AllowedByOne(EoatsForTool(b, t.name), b.keys.eoat, b.keys.eoat(e.id));
  }

  lemma OfferedMachine(b: Bundle, tool: string, eoat: string, m: Machine)
    requires AllLawful(b) && tool != "" && eoat != "" && m in SelectableMachines(b, tool, eoat, false)
    ensures m in b.machines
    ensures b.keys.machine(m.name) in MachinesForTool(b, tool) && b.keys.machine(m.name) in MachinesForEoat(b, eoat)
  {
    hide Lawful, Shown, MachinesForTool, MachinesForEoat, Allowed, KeysOf, Keyed;
    var one, other := MachinesForTool(b, tool), MachinesForEoat(b, eoat);
    assert Groups(true, one, true, other) == [one, other];
    AllowedByTwo(one, other, b.keys.machine, b.keys.machine(m.name));
  }
}
