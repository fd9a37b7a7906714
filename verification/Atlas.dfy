/** Which machine, tool and EOAT fit together, as offered for selection and as validated
    (core/atlas_setup_packets.py, core/atlas_utils.py). */
module Atlas {
  import opened Text
  import opened Wrappers

  /** `display_value` on a text. */
  function Display(v: string): string
  {
    var text := Strip(v);
    if Lower(text) in ["n/a", "na", "none", "null"] then "" else text
  }

  /** The lookup keys of tools, machines and EOATs. */
  datatype Keys = Keys(tool: string -> string, machine: string -> string, eoat: string -> string)

  /** A key does not depend on the case, nor on what displaying does to a text. */
  ghost predicate Lawful(key: string -> string)
  {
    && (forall v :: key(Display(v)) == key(v))
    && (forall v, w :: Lower(v) == Lower(w) ==> key(v) == key(w))
  }

  datatype Eoat = Eoat(id: string, tools: seq<string>, machines: seq<string>)
  datatype Machine = Machine(name: string, tools: seq<string>, eoats: seq<string>)
  datatype Tool = Tool(name: string, machines: seq<string>, eoats: seq<string>)

  type Index = map<string, seq<string>>

  datatype Bundle = Bundle(keys: Keys, eoats: seq<Eoat>, machines: seq<Machine>, tools: seq<Tool>,
                           eoatById: map<string, string>, eoatsByTool: Index, eoatsByMachine: Index,
                           machinesByTool: Index, machinesByEoat: Index, toolsByMachine: Index)

  function At(index: Index, key: string): seq<string>
  {
    if key in index then index[key] else []
  }

  /** Some value has the key. */
  predicate HasKey(values: seq<string>, key: string -> string, k: string)
  {
    exists v :: v in values && key(v) == k
  }

  /* ---- The display lists ---- */

  /** The text for a key has that key. */
  ghost predicate Keyed(shown: map<string, string>, key: string -> string)
  {
    forall k :: k in shown ==> key(shown[k]) == k
  }

  /** The dictionary from a key to the text shown for it: the last one counts, and values without a key do not. */
  function Shown(values: seq<string>, key: string -> string): (r: map<string, string>)
    ensures Lawful(key) ==> Keyed(r, key)
  {
    if values == [] then map[]
    else
      var v := values[|values| - 1];
      var before := Shown(values[..|values| - 1], key);
      if key(v) == "" then before else before[key(v) := Display(v)]
  }

  /** `_sort_tools`, `_sort_machines` and `_sort_eoats`, before the sorting. */
  method Show(values: seq<string>, key: string -> string) returns (shown: map<string, string>)
    ensures shown == Shown(values, key)
  {
    shown := map[];
    for i := 0 to |values|
      invariant shown == Shown(values[..i], key)
    {
      assert values[..i + 1][..i] == values[..i];
      if key(values[i]) != "" {
        shown := shown[key(values[i]) := Display(values[i])];
      }
    }
    assert values[..|values|] == values;
  }

  /** What is shown are the values, under their keys. */
  lemma {:induction false} ShownKeys(values: seq<string>, key: string -> string)
    requires Lawful(key)
    ensures forall k :: k in Shown(values, key) <==> k != "" && HasKey(values, key, k)
  {
    hide Display;
    if values != [] {
      var n := |values| - 1;
      ShownKeys(values[..n], key);
      assert values == values[..n] + [values[n]];
      assert forall k :: HasKey(values, key, k) <==> HasKey(values[..n], key, k) || key(values[n]) == k;
    }
  }

  /** When all values with the key are one text, that text is shown. */
  lemma {:induction false} ShownText(values: seq<string>, key: string -> string, k: string, text: string)
    requires k in Shown(values, key) && forall v :: v in values && key(v) == k ==> v == text
    ensures Shown(values, key)[k] == Display(text)
  {
    hide Display, Keyed, Lawful;
    var n := |values| - 1;
    if n >= 0 && (k == "" || key(values[n]) != k) { ShownText(values[..n], key, k, text); }
  }

  /* ---- Finding records ---- */

  function FindMachine(machines: seq<Machine>, key: string -> string, k: string): (r: Option<Machine>)
    ensures r.Some? ==> r.value in machines && key(r.value.name) == k
    ensures r.None? ==> forall m :: m in machines ==> key(m.name) != k
  {
    if machines == [] then None
    else if key(machines[0].name) == k then Some(machines[0])
    else FindMachine(machines[1..], key, k)
  }

  function FindTool(tools: seq<Tool>, key: string -> string, k: string): (r: Option<Tool>)
    ensures r.Some? ==> r.value in tools && key(r.value.name) == k
    ensures r.None? ==> forall t :: t in tools ==> key(t.name) != k
  {
    if tools == [] then None
    else if key(tools[0].name) == k then Some(tools[0])
    else FindTool(tools[1..], key, k)
  }

  function FindEoat(eoats: seq<Eoat>, key: string -> string, k: string): (r: Option<Eoat>)
    ensures r.Some? ==> r.value in eoats && key(r.value.id) == k
    ensures r.None? ==> forall e :: e in eoats ==> key(e.id) != k
  {
    if eoats == [] then None
    else if key(eoats[0].id) == k then Some(eoats[0])
    else FindEoat(eoats[1..], key, k)
  }

  function MachineOf(b: Bundle, id: string): Option<Machine>
  {
    FindMachine(b.machines, b.keys.machine, b.keys.machine(id))
  }

  function ToolOf(b: Bundle, id: string): Option<Tool>
  {
    FindTool(b.tools, b.keys.tool, b.keys.tool(id))
  }

  /** `find_eoat`, by way of the index of canonical IDs. */
  function EoatOf(b: Bundle, id: string): Option<Eoat>
  {
    var k := b.keys.eoat(id);
    FindEoat(b.eoats, b.keys.eoat, b.keys.eoat(if k in b.eoatById then b.eoatById[k] else id))
  }

  /* ---- The compatible values ---- */

  function ToolsNamingMachine(tools: seq<Tool>, key: string -> string, k: string): (r: seq<string>)
    ensures forall v :: v in r <==> exists t :: t in tools && t.name == v && HasKey(t.machines, key, k)
  {
    if tools == [] then []
    else (if HasKey(tools[0].machines, key, k) then [tools[0].name] else []) + ToolsNamingMachine(tools[1..], key, k)
  }

  function ToolsNamingEoat(tools: seq<Tool>, key: string -> string, k: string): (r: seq<string>)
    ensures forall v :: v in r <==> exists t :: t in tools && t.name == v && HasKey(t.eoats, key, k)
  {
    if tools == [] then []
    else (if HasKey(tools[0].eoats, key, k) then [tools[0].name] else []) + ToolsNamingEoat(tools[1..], key, k)
  }

  function MachinesNamingTool(machines: seq<Machine>, key: string -> string, k: string): (r: seq<string>)
    ensures forall v :: v in r <==> exists m :: m in machines && m.name == v && HasKey(m.tools, key, k)
  {
    if machines == [] then []
    else
      (if HasKey(machines[0].tools, key, k) then [machines[0].name] else [])
      + MachinesNamingTool(machines[1..], key, k)
  }

  function MachinesNamingEoat(machines: seq<Machine>, key: string -> string, k: string): (r: seq<string>)
    ensures forall v :: v in r <==> exists m :: m in machines && m.name == v && HasKey(m.eoats, key, k)
  {
    if machines == [] then []
    else
      (if HasKey(machines[0].eoats, key, k) then [machines[0].name] else [])
      + MachinesNamingEoat(machines[1..], key, k)
  }

  function EoatsNamingTool(eoats: seq<Eoat>, key: string -> string, k: string): (r: seq<string>)
    ensures forall v :: v in r <==> exists e :: e in eoats && e.id == v && HasKey(e.tools, key, k)
  {
    if eoats == [] then []
    else (if HasKey(eoats[0].tools, key, k) then [eoats[0].id] else []) + EoatsNamingTool(eoats[1..], key, k)
  }

  function EoatsNamingMachine(eoats: seq<Eoat>, key: string -> string, k: string): (r: seq<string>)
    ensures forall v :: v in r <==> exists e :: e in eoats && e.id == v && HasKey(e.machines, key, k)
  {
    if eoats == [] then []
    else (if HasKey(eoats[0].machines, key, k) then [eoats[0].id] else []) + EoatsNamingMachine(eoats[1..], key, k)
  }

  /** `compatible_tools_for_machine`. */
  function ToolsForMachine(b: Bundle, id: string): (r: map<string, string>)
    ensures Lawful(b.keys.tool) ==> Keyed(r, b.keys.tool)
  {
    var k, machine := b.keys.machine(id), MachineOf(b, id);
    Shown(At(b.toolsByMachine, k) + (if machine.Some? then machine.value.tools else []) +
          ToolsNamingMachine(b.tools, b.keys.machine, k), b.keys.tool)
  }

  /** `compatible_eoats_for_machine`. */
  function EoatsForMachine(b: Bundle, id: string): (r: map<string, string>)
    ensures Lawful(b.keys.eoat) ==> Keyed(r, b.keys.eoat)
  {
    var k, machine := b.keys.machine(id), MachineOf(b, id);
    Shown(At(b.eoatsByMachine, k) + (if machine.Some? then machine.value.eoats else []) +
          EoatsNamingMachine(b.eoats, b.keys.machine, k), b.keys.eoat)
  }

  /** `compatible_machines_for_tool`. */
  function MachinesForTool(b: Bundle, id: string): (r: map<string, string>)
    ensures Lawful(b.keys.machine) ==> Keyed(r, b.keys.machine)
  {
    var k, tool := b.keys.tool(id), ToolOf(b, id);
    Shown(At(b.machinesByTool, k) + (if tool.Some? then tool.value.machines else []) +
          MachinesNamingTool(b.machines, b.keys.tool, k), b.keys.machine)
  }

  /** `compatible_eoats_for_tool`. */
  function EoatsForTool(b: Bundle, id: string): (r: map<string, string>)
    ensures Lawful(b.keys.eoat) ==> Keyed(r, b.keys.eoat)
  {
    var k, tool := b.keys.tool(id), ToolOf(b, id);
    Shown(At(b.eoatsByTool, k) + (if tool.Some? then tool.value.eoats else []) +
          EoatsNamingTool(b.eoats, b.keys.tool, k), b.keys.eoat)
  }

  /** `compatible_tools_for_eoat`. */
  function ToolsForEoat(b: Bundle, id: string): (r: map<string, string>)
    ensures Lawful(b.keys.tool) ==> Keyed(r, b.keys.tool)
  {
    var k, eoat := b.keys.eoat(id), EoatOf(b, id);
    Shown((if eoat.Some? then eoat.value.tools else []) + ToolsNamingEoat(b.tools, b.keys.eoat, k), b.keys.tool)
  }

  /** `compatible_machines_for_eoat`. */
  function MachinesForEoat(b: Bundle, id: string): (r: map<string, string>)
    ensures Lawful(b.keys.machine) ==> Keyed(r, b.keys.machine)
  {
    var k, eoat := b.keys.eoat(id), EoatOf(b, id);
    Shown(At(b.machinesByEoat, k) + (if eoat.Some? then eoat.value.machines else []) +
          MachinesNamingEoat(b.machines, b.keys.eoat, k), b.keys.machine)
  }

  /* ---- Well-formed bundles ---- */

  ghost predicate AllLawful(b: Bundle)
  {
    Lawful(b.keys.tool) && Lawful(b.keys.machine) && Lawful(b.keys.eoat)
  }

  ghost predicate UniqueMachines(b: Bundle)
  {
    forall i, j :: 0 <= i < j < |b.machines| ==>
      b.keys.machine(b.machines[i].name) != b.keys.machine(b.machines[j].name)
  }

  ghost predicate UniqueTools(b: Bundle)
  {
    forall i, j :: 0 <= i < j < |b.tools| ==> b.keys.tool(b.tools[i].name) != b.keys.tool(b.tools[j].name)
  }

  ghost predicate UniqueEoats(b: Bundle)
  {
    forall i, j :: 0 <= i < j < |b.eoats| ==> b.keys.eoat(b.eoats[i].id) != b.keys.eoat(b.eoats[j].id)
  }

  /** Three indexes say what a scan of the records says, and the others nothing that no record says. */
  ghost predicate Indexed(b: Bundle)
  {
    && (forall k, v :: v in At(b.toolsByMachine, k) <==> v in ToolsNamingMachine(b.tools, b.keys.machine, k))
    && (forall k, v :: v in At(b.eoatsByMachine, k) <==> v in EoatsNamingMachine(b.eoats, b.keys.machine, k))
    && (forall k, v :: v in At(b.eoatsByTool, k) <==> v in EoatsNamingTool(b.eoats, b.keys.tool, k))
    && (forall k, v :: v in At(b.machinesByTool, k) ==>
          exists t :: t in b.tools && b.keys.tool(t.name) == k && v in t.machines)
    && (forall k, v :: v in At(b.machinesByEoat, k) ==>
          exists e :: e in b.eoats && b.keys.eoat(e.id) == k && v in e.machines)
    && IdsKeyed(b)
  }

  /** The index of canonical IDs leads back to a record. */
  ghost predicate IdsKeyed(b: Bundle)
  {
    forall k :: k in b.eoatById ==> b.keys.eoat(b.eoatById[k]) == k
  }

  /** Machines and EOATs are told apart by their keys; tools may share one. */
  ghost predicate Fair(b: Bundle)
  {
    AllLawful(b) && Indexed(b) && UniqueMachines(b) && UniqueEoats(b)
  }

  ghost predicate Good(b: Bundle)
  {
    Fair(b) && UniqueTools(b)
  }

  /* ---- The relations ---- */

  /** A tool record with the key names the machine, or a machine record with the key names the tool. */
  ghost predicate ToolFitsMachine(b: Bundle, t: string, m: string)
  {
    || (exists r :: r in b.tools && b.keys.tool(r.name) == t && HasKey(r.machines, b.keys.machine, m))
    || (exists r :: r in b.machines && b.keys.machine(r.name) == m && HasKey(r.tools, b.keys.tool, t))
  }

  ghost predicate EoatFitsTool(b: Bundle, e: string, t: string)
  {
    || (exists r :: r in b.eoats && b.keys.eoat(r.id) == e && HasKey(r.tools, b.keys.tool, t))
    || (exists r :: r in b.tools && b.keys.tool(r.name) == t && HasKey(r.eoats, b.keys.eoat, e))
  }

  ghost predicate EoatFitsMachine(b: Bundle, e: string, m: string)
  {
    || (exists r :: r in b.eoats && b.keys.eoat(r.id) == e && HasKey(r.machines, b.keys.machine, m))
    || (exists r :: r in b.machines && b.keys.machine(r.name) == m && HasKey(r.eoats, b.keys.eoat, e))
  }

  lemma HasKeyPlus(a: seq<string>, c: seq<string>, key: string -> string, k: string)
    ensures HasKey(a + c, key, k) <==> HasKey(a, key, k) || HasKey(c, key, k)
  {
    if HasKey(a, key, k) { var v :| v in a && key(v) == k; assert v in a + c; }
    if HasKey(c, key, k) { var v :| v in c && key(v) == k; assert v in a + c; }
  }

  lemma ShownOfThree(a: seq<string>, c: seq<string>, d: seq<string>, key: string -> string, k: string)
    requires Lawful(key)
    ensures k in Shown(a + c + d, key) <==> k != "" && (HasKey(a, key, k) || HasKey(c, key, k) || HasKey(d, key, k))
  {
    hide Lawful, Shown, HasKey;
    ShownKeys(a + c + d, key);
    HasKeyPlus(a + c, d, key, k);
    HasKeyPlus(a, c, key, k);
  }

  lemma SameMembers(a: seq<string>, c: seq<string>, key: string -> string, k: string)
    requires forall v :: v in a <==> v in c
    ensures HasKey(a, key, k) <==> HasKey(c, key, k)
  {
  }

  lemma OneMachine(b: Bundle, r: Machine, s: Machine)
    requires UniqueMachines(b) && r in b.machines && s in b.machines && b.keys.machine(r.name) == b.keys.machine(s.name)
    ensures r == s
  {
  }

  lemma OneTool(b: Bundle, r: Tool, s: Tool)
    requires UniqueTools(b) && r in b.tools && s in b.tools && b.keys.tool(r.name) == b.keys.tool(s.name)
    ensures r == s
  {
  }

  lemma OneEoat(b: Bundle, r: Eoat, s: Eoat)
    requires UniqueEoats(b) && r in b.eoats && s in b.eoats && b.keys.eoat(r.id) == b.keys.eoat(s.id)
    ensures r == s
  {
  }

  /** Looking an EOAT up by the canonical ID finds the record with the key. */
  lemma FindsByKey(b: Bundle, id: string)
    requires IdsKeyed(b)
    ensures EoatOf(b, id) == FindEoat(b.eoats, b.keys.eoat, b.keys.eoat(id))
  {
    hide FindEoat;
  }

  /** What is offered for a machine, and the other way round, is one relation. */
  lemma ToolsForMachineAre(b: Bundle, id: string, t: string)
    requires Lawful(b.keys.tool) && UniqueMachines(b) && Indexed(b)
    ensures t in ToolsForMachine(b, id) <==> t != "" && ToolFitsMachine(b, t, b.keys.machine(id))
  {
    hide Shown, Lawful, Display, ToolsNamingMachine, UniqueMachines;
    var m, found := b.keys.machine(id), MachineOf(b, id);
    var named := ToolsNamingMachine(b.tools, b.keys.machine, m);
    ShownOfThree(At(b.toolsByMachine, m), if found.Some? then found.value.tools else [], named, b.keys.tool, t);
    SameMembers(At(b.toolsByMachine, m), named, b.keys.tool, t);
    forall r | r in b.machines && b.keys.machine(r.name) == m && found.Some? ensures r == found.value {
      OneMachine(b, r, found.value);
    }
    NamedTools(b, m, t);
  }

  lemma NamedTools(b: Bundle, m: string, t: string)
    ensures HasKey(ToolsNamingMachine(b.tools, b.keys.machine, m), b.keys.tool, t) <==>
            exists r :: r in b.tools && b.keys.tool(r.name) == t && HasKey(r.machines, b.keys.machine, m)
  {
  }

  lemma MachinesForToolAre(b: Bundle, id: string, m: string)
    requires Lawful(b.keys.machine) && Indexed(b)
    ensures m in MachinesForTool(b, id) ==> m != "" && ToolFitsMachine(b, b.keys.tool(id), m)
    ensures UniqueTools(b) && m != "" && ToolFitsMachine(b, b.keys.tool(id), m) ==> m in MachinesForTool(b, id)
  {
    hide Shown, Lawful, Display, MachinesNamingTool, UniqueTools;
    var t, found := b.keys.tool(id), ToolOf(b, id);
    ShownOfThree(At(b.machinesByTool, t), if found.Some? then found.value.machines else [],
                 MachinesNamingTool(b.machines, b.keys.tool, t), b.keys.machine, m);
    forall r | UniqueTools(b) && r in b.tools && b.keys.tool(r.name) == t && found.Some? ensures r == found.value {
      OneTool(b, r, found.value);
    }
    NamedMachines(b, t, m);
  }

  lemma NamedMachines(b: Bundle, t: string, m: string)
    ensures HasKey(MachinesNamingTool(b.machines, b.keys.tool, t), b.keys.machine, m) <==>
            exists r :: r in b.machines && b.keys.machine(r.name) == m && HasKey(r.tools, b.keys.tool, t)
  {
  }

  lemma EoatsForToolAre(b: Bundle, id: string, e: string)
    requires Lawful(b.keys.eoat) && Indexed(b)
    ensures e in EoatsForTool(b, id) ==> e != "" && EoatFitsTool(b, e, b.keys.tool(id))
    ensures UniqueTools(b) && e != "" && EoatFitsTool(b, e, b.keys.tool(id)) ==> e in EoatsForTool(b, id)
  {
    hide Shown, Lawful, Display, EoatsNamingTool, UniqueTools;
    var t, found := b.keys.tool(id), ToolOf(b, id);
    var named := EoatsNamingTool(b.eoats, b.keys.tool, t);
    ShownOfThree(At(b.eoatsByTool, t), if found.Some? then found.value.eoats else [], named, b.keys.eoat, e);
    SameMembers(At(b.eoatsByTool, t), named, b.keys.eoat, e);
    forall r | UniqueTools(b) && r in b.tools && b.keys.tool(r.name) == t && found.Some? ensures r == found.value {
      OneTool(b, r, found.value);
    }
    NamedEoats(b, t, e);
  }

  lemma NamedEoats(b: Bundle, t: string, e: string)
    ensures HasKey(EoatsNamingTool(b.eoats, b.keys.tool, t), b.keys.eoat, e) <==>
            exists r :: r in b.eoats && b.keys.eoat(r.id) == e && HasKey(r.tools, b.keys.tool, t)
  {
  }

  lemma ToolsForEoatAre(b: Bundle, id: string, t: string)
    requires Lawful(b.keys.tool) && UniqueEoats(b) && Indexed(b)
    ensures t in ToolsForEoat(b, id) <==> t != "" && EoatFitsTool(b, b.keys.eoat(id), t)
  {
    hide Shown, Lawful, Display, ToolsNamingEoat, UniqueEoats, EoatOf;
    FindsByKey(b, id);
    var e, found := b.keys.eoat(id), EoatOf(b, id);
    var named := ToolsNamingEoat(b.tools, b.keys.eoat, e);
    var mine := if found.Some? then found.value.tools else [];
    assert [] + mine + named == mine + named;
    ShownOfThree([], mine, named, b.keys.tool, t);
    forall r | r in b.eoats && b.keys.eoat(r.id) == e && found.Some? ensures r == found.value {
      OneEoat(b, r, found.value);
    }
    NamedByEoat(b, e, t);
  }

  lemma NamedByEoat(b: Bundle, e: string, t: string)
    ensures HasKey(ToolsNamingEoat(b.tools, b.keys.eoat, e), b.keys.tool, t) <==>
            exists r :: r in b.tools && b.keys.tool(r.name) == t && HasKey(r.eoats, b.keys.eoat, e)
  {
  }

  lemma EoatsForMachineAre(b: Bundle, id: string, e: string)
    requires Lawful(b.keys.eoat) && UniqueMachines(b) && Indexed(b)
    ensures e in EoatsForMachine(b, id) <==> e != "" && EoatFitsMachine(b, e, b.keys.machine(id))
  {
    hide Shown, Lawful, Display, EoatsNamingMachine, UniqueMachines;
    var m, found := b.keys.machine(id), MachineOf(b, id);
    var named := EoatsNamingMachine(b.eoats, b.keys.machine, m);
    ShownOfThree(At(b.eoatsByMachine, m), if found.Some? then found.value.eoats else [], named, b.keys.eoat, e);
    SameMembers(At(b.eoatsByMachine, m), named, b.keys.eoat, e);
    forall r | r in b.machines && b.keys.machine(r.name) == m && found.Some? ensures r == found.value {
      OneMachine(b, r, found.value);
    }
    NamedOnMachine(b, m, e);
  }

  lemma NamedOnMachine(b: Bundle, m: string, e: string)
    ensures HasKey(EoatsNamingMachine(b.eoats, b.keys.machine, m), b.keys.eoat, e) <==>
            exists r :: r in b.eoats && b.keys.eoat(r.id) == e && HasKey(r.machines, b.keys.machine, m)
  {
  }

  lemma MachinesForEoatAre(b: Bundle, id: string, m: string)
    requires Lawful(b.keys.machine) && UniqueEoats(b) && Indexed(b)
    ensures m in MachinesForEoat(b, id) <==> m != "" && EoatFitsMachine(b, b.keys.eoat(id), m)
  {
    hide Shown, Lawful, Display, MachinesNamingEoat, UniqueEoats, EoatOf;
    FindsByKey(b, id);
    var e, found := b.keys.eoat(id), EoatOf(b, id);
    ShownOfThree(At(b.machinesByEoat, e), if found.Some? then found.value.machines else [],
                 MachinesNamingEoat(b.machines, b.keys.eoat, e), b.keys.machine, m);
    forall r | r in b.eoats && b.keys.eoat(r.id) == e && found.Some? ensures r == found.value {
      OneEoat(b, r, found.value);
    }
    NamedForEoat(b, e, m);
  }

  lemma NamedForEoat(b: Bundle, e: string, m: string)
    ensures HasKey(MachinesNamingEoat(b.machines, b.keys.eoat, e), b.keys.machine, m) <==>
            exists r :: r in b.machines && b.keys.machine(r.name) == m && HasKey(r.eoats, b.keys.eoat, e)
  {
  }

  /** What is told of a machine and an EOAT is told both ways, and what a tool is told to fit is told to fit it; with
      unique tools the other way round as well. */
  lemma CompatibilityIsSymmetric(b: Bundle, machine: string, tool: string, eoat: string)
    requires Fair(b)
    requires b.keys.machine(machine) != "" && b.keys.tool(tool) != "" && b.keys.eoat(eoat) != ""
    ensures b.keys.eoat(eoat) in EoatsForMachine(b, machine) <==> b.keys.machine(machine) in MachinesForEoat(b, eoat)
    ensures b.keys.machine(machine) in MachinesForTool(b, tool) ==> b.keys.tool(tool) in ToolsForMachine(b, machine)
    ensures b.keys.eoat(eoat) in EoatsForTool(b, tool) ==> b.keys.tool(tool) in ToolsForEoat(b, eoat)
    ensures Good(b) ==>
      && (b.keys.tool(tool) in ToolsForMachine(b, machine) ==> b.keys.machine(machine) in MachinesForTool(b, tool))
      && (b.keys.tool(tool) in ToolsForEoat(b, eoat) ==> b.keys.eoat(eoat) in EoatsForTool(b, tool))
  {
    hide Lawful, Indexed, UniqueMachines, UniqueTools, UniqueEoats, Shown, ToolsForMachine, MachinesForTool,
         EoatsForTool, ToolsForEoat, EoatsForMachine, MachinesForEoat, ToolFitsMachine, EoatFitsTool, EoatFitsMachine;
    ToolsForMachineAre(b, machine, b.keys.tool(tool));
    MachinesForToolAre(b, tool, b.keys.machine(machine));
    EoatsForToolAre(b, tool, b.keys.eoat(eoat));
    ToolsForEoatAre(b, eoat, b.keys.tool(tool));
    EoatsForMachineAre(b, machine, b.keys.eoat(eoat));
    MachinesForEoatAre(b, eoat, b.keys.machine(machine));
  }
}
