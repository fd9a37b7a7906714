/** The Atlas told from its texts and rows: what is shown, what a key looks at, which rows belong together, which
    machines there are, what is offered and how a setup validates (core/atlas_utils.py, core/atlas_data_loader.py,
    core/atlas_setup_packets.py). */
module AtlasLaws {
  import opened Text
  import opened Wrappers
  import opened Tokens
  import opened Atlas
  import AtlasLoader
  import AtlasBundles
  import opened AtlasSetup
  import AtlasKeys
  import AuditIds

  /* ---- Texts and keys ---- */

  /** Nothing is shown for a blank and for four words; everything else is shown without the spaces around it. */
  lemma DisplayTold(v: string)
    ensures var t := Lower(Strip(v));
      (Display(v) == "" <==> t == "" || t == "n/a" || t == "na" || t == "none" || t == "null")
      && (Display(v) != "" ==> Display(v) == Strip(v))
  {
    hide Strip;
  }

  ghost function KeyLetters(): string { "abcdefghijklmnopqrstuvwxyz" }
  ghost function KeyDigits(): string { "0123456789" }

  lemma KeyCharIs(c: char)
    ensures AtlasKeys.IsKeyChar(c) <==> c in KeyLetters() || c in KeyDigits()
  {
    hide KeyLetters, KeyDigits;
    IsLetter(c);
    IsKeyDigit(c);
  }

  lemma IsLetter(c: char)
    ensures c in KeyLetters() <==> 'a' <= c <= 'z'
  {
  }

  lemma IsKeyDigit(c: char)
    ensures c in KeyDigits() <==> '0' <= c <= '9'
  {
  }

  /** A key keeps the letters and digits of a text, one by one and in order, and drops everything else. */
  lemma {:induction false} KeyCharsTold(s: string, t: string, c: char)
    ensures AtlasKeys.KeyChars([c]) == if c in KeyLetters() || c in KeyDigits() then [c] else ""
    ensures AtlasKeys.KeyChars(s + t) == AtlasKeys.KeyChars(s) + AtlasKeys.KeyChars(t)
    ensures AtlasKeys.KeyChars("") == ""
  {
    hide AtlasKeys.IsKeyChar, KeyLetters, KeyDigits;
    KeyCharIs(c);
    assert [c][1..] == "";
    if s == "" {
      assert s + t == t;
    } else {
      assert (s + t)[1..] == s[1..] + t;
      KeyCharsTold(s[1..], t, c);
    }
  }

  /** The prefix of an assembly ID, in lower case. */
  ghost predicate AssemblyPrefix(p: string)
  {
    p == "p4-eoat-" || p == "cl-eoat-"
  }

  lemma AssemblyWhen(text: string)
    ensures AtlasKeys.IsAssemblyId(text) <==>
      |text| == 12 && AssemblyPrefix(Lower(text[..8])) && AllDigits(text[8..])
  {
    hide AllDigits;
    if |text| == 12 { assert Lower(text[..8]) == Lower(text)[..8]; }
  }

  /** An assembly ID, in whatever case, is written with its prefix in capitals; any other text stays. */
  lemma AssemblyIdTold(v: string)
    ensures var text := Strip(v);
      if |text| == 12 && AssemblyPrefix(Lower(text[..8])) && AllDigits(text[8..])
      then AtlasKeys.AssemblyId(v)
           == (if Lower(text[..8]) == "p4-eoat-" then "P4-EOAT-" else "CL-EOAT-") + text[8..]
      else AtlasKeys.AssemblyId(v) == text
  {
    hide Strip, AtlasKeys.IsAssemblyId, AllDigits;
    var text := Strip(v);
    AssemblyWhen(text);
    if |text| == 12 { assert Lower(text[..8]) == Lower(text)[..8]; }
  }

  /* ---- Rows and groups ---- */

  /** Rows with EOAT IDs belong together when the IDs are equal; rows without, when their Audit IDs are equal; and a
      row without either stands alone. */
  lemma GroupsTold(row: AtlasLoader.Source, i: nat, other: AtlasLoader.Source, j: nat)
    ensures row.eoatId != "" && other.eoatId != "" ==>
      (AtlasLoader.GroupId(row, i) == AtlasLoader.GroupId(other, j) <==> row.eoatId == other.eoatId)
    ensures row.eoatId == other.eoatId == "" && row.auditId != "" && other.auditId != "" ==>
      (AtlasLoader.GroupId(row, i) == AtlasLoader.GroupId(other, j) <==> row.auditId == other.auditId)
    ensures row.eoatId == other.eoatId == row.auditId == other.auditId == "" ==>
      (AtlasLoader.GroupId(row, i) == AtlasLoader.GroupId(other, j) <==> i == j)
    ensures row.eoatId == other.eoatId == "" && row.auditId == "" && other.auditId != "" ==>
      AtlasLoader.GroupId(row, i) != AtlasLoader.GroupId(other, j)
  {
    hide AuditIds.Decimal;
    assert ("row::" + AuditIds.Decimal(i + 2))[0] == 'r' && ("audit::" + other.auditId)[0] == 'a';
    if row.auditId == other.auditId == "" {
      AuditIds.DecimalValue(i + 2);
      AuditIds.DecimalValue(j + 2);
      assert ("row::" + AuditIds.Decimal(i + 2))[5..] == AuditIds.Decimal(i + 2);
      assert ("row::" + AuditIds.Decimal(j + 2))[5..] == AuditIds.Decimal(j + 2);
    } else {
      assert ("audit::" + row.auditId)[7..] == row.auditId;
      assert ("audit::" + other.auditId)[7..] == other.auditId;
    }
  }

  /** What the record of a row's group is called: its EOAT ID, else its Audit ID, else the row by its number, with
      the headers in row 1. */
  lemma NamesTold(row: AtlasLoader.Source, i: nat)
    ensures var name := AtlasLoader.DisplayId(row, AtlasLoader.GroupId(row, i));
      && (row.eoatId != "" ==> name == row.eoatId)
      && (row.eoatId == "" && row.auditId != "" ==> name == row.auditId)
      && (row.eoatId == row.auditId == "" ==> "row::" <= name && AuditIds.Value(name[5..]) == i + 2)
  {
    hide AuditIds.Decimal, AuditIds.Value;
    AuditIds.DecimalValue(i + 2);
    assert ("row::" + AuditIds.Decimal(i + 2))[5..] == AuditIds.Decimal(i + 2);
  }

  /** The k-th of some rows has more cells filled than any before it, and as many as any. */
  ghost predicate Fullest(rows: seq<AtlasLoader.Source>, members: seq<nat>, k: nat)
    requires k < |members| && forall i :: 0 <= i < |members| ==> members[i] < |rows|
  {
    && (forall j :: 0 <= j < k ==> rows[members[j]].filled < rows[members[k]].filled)
    && (forall j :: 0 <= j < |members| ==> rows[members[j]].filled <= rows[members[k]].filled)
  }

  /** Of the rows of a record the first of the fullest is shown for it. */
  lemma {:induction false} PrimaryIsFirst(rows: seq<AtlasLoader.Source>, members: seq<nat>) returns (k: nat)
    requires members != [] && (forall i :: i in members ==> i < |rows|)
    ensures k < |members| && AtlasLoader.Primary(rows, members) == members[k]
    ensures (forall i :: 0 <= i < |members| ==> members[i] < |rows|) && Fullest(rows, members, k)
  {
    forall i | 0 <= i < |members| ensures members[i] < |rows| { assert members[i] in members; }
    k := 0;
    if |members| > 1 {
      var n := |members| - 1;
      var before := members[..n];
      forall i | i in before ensures i < |rows| { assert i in members; }
      k := PrimaryIsFirst(rows, before);
      k := BestOfTwo(rows, members, k);
    }
  }

  lemma BestOfTwo(rows: seq<AtlasLoader.Source>, members: seq<nat>, before: nat) returns (k: nat)
    requires |members| > 1 && (forall i :: 0 <= i < |members| ==> members[i] < |rows|) && before < |members| - 1
    requires Fullest(rows, members[..|members| - 1], before)
    ensures k == if rows[members[|members| - 1]].filled > rows[members[before]].filled then |members| - 1 else before
    ensures Fullest(rows, members, k)
  {
    var n := |members| - 1;
    assert forall j :: 0 <= j < n ==> members[..n][j] == members[j];
    k := if rows[members[n]].filled > rows[members[before]].filled then n else before;
  }

  /** A name is among those of a row exactly when it is what one of its tools is shown as. */
  lemma RowToolsTold(row: AtlasLoader.Source, name: string)
    ensures name in AtlasLoader.RowTools(row) <==> name != "" && exists t :: t in row.tools && Display(t) == name
  {
    hide Display;
  }

  /** There is a record for exactly the machines that a row, press capacity or the robot list names. */
  lemma MachinesTold(rows: seq<AtlasLoader.Source>, capacity: seq<AtlasLoader.Capacity>, robots: set<string>,
                     name: string)
    ensures name in AtlasBundles.MachineNames(rows, capacity, robots) <==>
      || (exists row, m :: row in rows && m in row.listed && m != "" && Token(m) == name)
      || (exists c :: c in capacity && Token(c.machine) == name && name != "")
      || name in robots
  {
    hide Token;
  }

  /* ---- What is offered ---- */

  /** A record is offered by one or two lists when the lists that were asked for have its key, both under one text
      up to case. */
  ghost predicate ListedBy(first: bool, one: map<string, string>, second: bool, other: map<string, string>, k: string)
  {
    && (first ==> k in one) && (second ==> k in other)
    && (first && second ==> Lower(one[k]) == Lower(other[k]))
  }

  lemma AllowedWhen(first: bool, one: map<string, string>, second: bool, other: map<string, string>,
                    key: string -> string, k: string)
    requires Lawful(key) && Keyed(one, key) && Keyed(other, key) && (first || second)
    ensures k in KeysOf(AtlasSetup.Allowed(Groups(first, one, second, other)), key)
        <==> ListedBy(first, one, second, other, k)
  {
    hide Lawful, Keyed, KeysOf, AtlasSetup.Allowed;
    if first && second {
      assert Groups(first, one, second, other) == [one, other];
      AllowedByTwo(one, other, key, k);
    } else if first {
      assert Groups(first, one, second, other) == [one];
      AllowedByOne(one, key, k);
    } else {
      assert Groups(first, one, second, other) == [other];
      AllowedByOne(other, key, k);
    }
  }

  /** The tools offered for a machine, an EOAT, or both: all of them when nothing is picked yet or unconfirmed links
      are let through, otherwise those that what was picked lists. */
  lemma ToolsOffered(b: Bundle, machine: string, eoat: string, unconfirmed: bool, t: Tool)
    requires AllLawful(b)
    ensures t in SelectableTools(b, machine, eoat, unconfirmed) <==>
      && t in b.tools
      && (unconfirmed || (machine == "" && eoat == "")
          || ListedBy(machine != "", ToolsForMachine(b, machine), eoat != "", ToolsForEoat(b, eoat),
                      b.keys.tool(t.name)))
  {
    hide Lawful, Shown, ToolsForMachine, ToolsForEoat, AtlasSetup.Allowed, KeysOf, Keyed, Groups, ListedBy;
    if !unconfirmed && (machine != "" || eoat != "") {
      AllowedWhen(machine != "", ToolsForMachine(b, machine), eoat != "", ToolsForEoat(b, eoat), b.keys.tool,
                  b.keys.tool(t.name));
    }
  }

  /** The machines offered for a tool, an EOAT, or both. */
  lemma MachinesOffered(b: Bundle, tool: string, eoat: string, unconfirmed: bool, m: Machine)
    requires AllLawful(b)
    ensures m in SelectableMachines(b, tool, eoat, unconfirmed) <==>
      && m in b.machines
      && (unconfirmed || (tool == "" && eoat == "")
          || ListedBy(tool != "", MachinesForTool(b, tool), eoat != "", MachinesForEoat(b, eoat),
                      b.keys.machine(m.name)))
  {
    hide Lawful, Shown, MachinesForTool, MachinesForEoat, AtlasSetup.Allowed, KeysOf, Keyed, Groups, ListedBy;
    if !unconfirmed && (tool != "" || eoat != "") {
      AllowedWhen(tool != "", MachinesForTool(b, tool), eoat != "", MachinesForEoat(b, eoat), b.keys.machine,
                  b.keys.machine(m.name));
    }
  }

  /** The EOATs offered for a machine, a tool, or both. */
  lemma EoatsOffered(b: Bundle, machine: string, tool: string, unconfirmed: bool, e: Eoat)
    requires AllLawful(b)
    ensures e in SelectableEoats(b, machine, tool, unconfirmed) <==>
      && e in b.eoats
      && (unconfirmed || (machine == "" && tool == "")
          || ListedBy(machine != "", EoatsForMachine(b, machine), tool != "", EoatsForTool(b, tool),
                      b.keys.eoat(e.id)))
  {
    hide Lawful, Shown, EoatsForMachine, EoatsForTool, AtlasSetup.Allowed, KeysOf, Keyed, Groups, ListedBy;
    if !unconfirmed && (machine != "" || tool != "") {
      AllowedWhen(machine != "", EoatsForMachine(b, machine), tool != "", EoatsForTool(b, tool), b.keys.eoat,
                  b.keys.eoat(e.id));
    }
  }

  /* ---- How a setup validates ---- */

  /** There is something to check a link against. */
  ghost predicate HasData(source: bool, target: bool, values: map<string, string>)
  {
    source && target && values != map[]
  }

  lemma LinkTold(source: bool, target: bool, values: map<string, string>, key: string -> string, value: string)
    requires Keyed(values, key)
    ensures var link := CheckLink(source, target, values, key, value);
      && (link == MissingData <==> !HasData(source, target, values))
      && (link == Confirmed <==> HasData(source, target, values) && key(value) in values)
  {
  }

  /** The three links of a setup: which have data, and which are listed. */
  lemma LinksTold(b: Bundle, machine: string, tool: string, eoat: string)
    requires AllLawful(b)
    ensures var m, t, e := MachineOf(b, machine).Some?, ToolOf(b, tool).Some?, EoatOf(b, eoat).Some?;
      var toTool := HasData(m, t, ToolsForMachine(b, machine));
      var toEoat := HasData(t, e, EoatsForTool(b, tool));
      var onMachine := HasData(m, e, EoatsForMachine(b, machine));
      var toolListed := toTool && b.keys.tool(tool) in ToolsForMachine(b, machine);
      var eoatListed := toEoat && b.keys.eoat(eoat) in EoatsForTool(b, tool);
      var eoatFits := onMachine && b.keys.eoat(eoat) in EoatsForMachine(b, machine);
      var status := Validate(b, machine, tool, eoat, false);
      && (status == AllConfirmed <==> toolListed && eoatListed && eoatFits)
      && (status == Partial <==> (toolListed || eoatListed || eoatFits) && !(toolListed && eoatListed && eoatFits))
      && (status == Missing <==> !toTool && !toEoat && !onMachine)
      && (status == Unconfirmed <==>
          (toTool || toEoat || onMachine) && !toolListed && !eoatListed && !eoatFits)
  {
    hide Lawful, Shown, CheckLink, MachineOf, ToolOf, EoatOf, ToolsForMachine, EoatsForTool, EoatsForMachine,
         Validate, Keyed;
    var m, t, e := MachineOf(b, machine).Some?, ToolOf(b, tool).Some?, EoatOf(b, eoat).Some?;
    LinkTold(m, t, ToolsForMachine(b, machine), b.keys.tool, tool);
    LinkTold(t, e, EoatsForTool(b, tool), b.keys.eoat, eoat);
    LinkTold(m, e, EoatsForMachine(b, machine), b.keys.eoat, eoat);
    StatusTellsLinks(b, machine, tool, eoat);
    ConfirmedWhen(b, machine, tool, eoat);
    var checks := ChecksOf(b, machine, tool, eoat);
    assert checks[0] in checks && checks[1] in checks && checks[2] in checks;
    assert forall c :: c in checks ==> c == checks[0] || c == checks[1] || c == checks[2];
  }

  /* ---- The records of a bundle ---- */

  /** A record of the bundle lists exactly what was found for it, each name once. */
  lemma EntriesTold(e: AtlasLoader.EoatRecord, m: AtlasLoader.MachineRecord, t: AtlasLoader.ToolRecord,
                    o: AtlasBundles.Orders)
    requires AtlasBundles.Keeps(o)
    ensures var entry := AtlasBundles.EoatEntry(e, o);
      entry.id == e.id && AtlasBundles.Lists(entry.tools, e.tools) && AtlasBundles.Lists(entry.machines, e.machines)
    ensures var entry := AtlasBundles.MachineEntry(m, o);
      entry.name == m.name && AtlasBundles.Lists(entry.tools, m.tools) && AtlasBundles.Lists(entry.eoats, m.eoats)
    ensures var entry := AtlasBundles.ToolEntry(t, o);
      entry.name == t.name && AtlasBundles.Lists(entry.machines, t.machines) && AtlasBundles.Lists(entry.eoats, t.eoats)
  {
    hide AtlasBundles.Lists;
  }
}
