/** Applying an off-machine audit to the machines its tool can run on (core/audit_compatibility.py). */
module OffMachine {
  import opened Text
  import opened Wrappers
  import opened Tokens
  import opened Relationships
  import AuditIds

  /** An inventory row. `cells` are the columns that a machine brings along, in the order of
      `MACHINE_DERIVED_AUDIT_FIELDS`, the press column second; `elsewhere` are the other columns a machine may
      stand in; `parts` are those a part number may stand in, the tool third. */
  datatype OffRow = OffRow(auditId: string, cells: seq<string>, elsewhere: seq<string>, parts: seq<string>,
                           assemblyId: string, entryType: string, context: string, verified: string)

  const PRESS := 1
  const TOOL := 2
  const CLEANROOM := 4
  const DERIVED := 7

  predicate Shaped(row: OffRow)
  {
    |row.cells| == DERIVED && |row.parts| == 6
  }

  /** A machine found for the tool, and what it brings along. */
  datatype Match = Match(machine: string, values: seq<string>)

  function Blanks(): seq<string>
  {
    ["", "-", "--", "n/a", "na", "none", "null", "not applicable"]
  }

  function Absences(): seq<string>
  {
    ["not installed", "eoat not installed", "bench", "bench audit", "off machine", "off-machine", "uninstalled"]
  }

  function Prompts(): seq<string>
  {
    ["select", "select machine", "select machine number", "enter machine", "enter machine number",
     "unknown", "unknown / not checked", "not checked"]
  }

  /** `MISSING_MACHINE_VALUES`, the words that stand for no machine. */
  function Placeholders(): seq<string>
  {
    Blanks() + Absences() + Prompts()
  }

  /** `_field_value_is_missing`. */
  predicate Missing(v: string)
  {
    Lower(Strip(v)) in Placeholders()
  }

  /** A match as press capacity gives it: a canonical machine that is not a placeholder. */
  ghost predicate Good(m: Match)
  {
    && Canonical(m.machine) && ',' !in m.machine && !Missing(m.machine)
    && |m.values| == DERIVED && m.values[PRESS] == m.machine
  }

  /* ---- Equivalent rows ---- */

  predicate Names(cells: seq<string>, machine: string)
  {
    exists i :: 0 <= i < |cells| && machine in Machines(cells[i])
  }

  /** The machine is one of the row's, in whichever column. */
  predicate HasMachine(row: OffRow, machine: string)
    requires Shaped(row)
  {
    machine in Machines(row.cells[PRESS]) || Names(row.elsewhere, machine)
  }

  /** `_find_equivalent_compatibility_rows`, for one row. */
  predicate Equivalent(row: OffRow, tool: string, machine: string, assemblyId: string)
    requires Shaped(row)
  {
    && ToolKey(FirstText(row.parts)) == ToolKey(tool)
    && HasMachine(row, Token(machine))
    && (assemblyId == "" || TextValue(row.assemblyId) == assemblyId)
  }

  predicate AllShaped(rows: seq<OffRow>)
  {
    forall i :: 0 <= i < |rows| ==> Shaped(rows[i])
  }

  /** Some row, other than the one left aside, is equivalent. */
  predicate Has(rows: seq<OffRow>, tool: string, machine: string, assemblyId: string, aside: int)
    requires AllShaped(rows)
  {
    exists i :: 0 <= i < |rows| && i != aside && Equivalent(rows[i], tool, machine, assemblyId)
  }

  /* ---- Filling in what is missing ---- */

  function FilledCells(cells: seq<string>, values: seq<string>): (r: seq<string>)
    requires |cells| == |values|
    ensures |r| == |cells|
  {
    seq(|cells|, i requires 0 <= i < |cells| =>
      if TextValue(values[i]) != "" && Missing(cells[i]) then values[i] else cells[i])
  }

  predicate IsCompatible(row: OffRow)
  {
    Lower(TextValue(row.entryType)) == CompatibleText()
  }

  predicate OpenContext(context: string)
  {
    Missing(TextValue(context)) || Lower(TextValue(context)) == "not installed / bench audit"
  }

  /** `_fill_missing_machine_fields`: the row it leaves. */
  function FilledRow(row: OffRow, m: Match): (r: OffRow)
    requires Shaped(row) && |m.values| == DERIVED
    ensures Shaped(r) && r.parts == row.parts && r.assemblyId == row.assemblyId && r.elsewhere == row.elsewhere
    ensures r.auditId == row.auditId && r.entryType == row.entryType
  {
    row.(cells := FilledCells(row.cells, m.values),
         context := if !OpenContext(row.context) then row.context
                    else if IsCompatible(row) then "Compatibility row" else "Installed on Machine",
         verified := if !Missing(row.verified) then row.verified else if IsCompatible(row) then "No" else "Yes")
  }

  /** The equivalent rows filled in, the others as they were. */
  function FilledRows(rows: seq<OffRow>, tool: string, m: Match, assemblyId: string, aside: int): (r: seq<OffRow>)
    requires AllShaped(rows) && |m.values| == DERIVED
    ensures |r| == |rows| && AllShaped(r)
  {
    seq(|rows|, i requires 0 <= i < |rows| =>
      if i != aside && Equivalent(rows[i], tool, m.machine, assemblyId) then FilledRow(rows[i], m) else rows[i])
  }

  /** A row after it was brought to a machine: a cell that says something stays, a placeholder takes what the match
      has for it, and so do the context and the verification, by the kind of the row. */
  ghost predicate Took(before: OffRow, after: OffRow, m: Match)
    requires Shaped(before) && Shaped(after) && |m.values| == DERIVED
  {
    && (forall i :: 0 <= i < DERIVED && !Missing(before.cells[i]) ==> after.cells[i] == before.cells[i])
    && (forall i :: 0 <= i < DERIVED && Missing(before.cells[i]) ==>
          after.cells[i] == if TextValue(m.values[i]) == "" then before.cells[i] else m.values[i])
    && Annotated(before, after)
    && after == before.(cells := after.cells, context := after.context, verified := after.verified)
  }

  /** A context or verification that says something stays; an open one says that an audited row was installed and
      seen, and that a compatible row was not. */
  ghost predicate Annotated(before: OffRow, after: OffRow)
  {
    var compatible := Lower(TextValue(before.entryType)) == "compatible";
    var open := Missing(TextValue(before.context)) || Lower(TextValue(before.context)) == "not installed / bench audit";
    && (!open ==> after.context == before.context)
    && (open && compatible ==> after.context == "Compatibility row")
    && (open && !compatible ==> after.context == "Installed on Machine")
    && (!Missing(before.verified) ==> after.verified == before.verified)
    && (Missing(before.verified) && compatible ==> after.verified == "No")
    && (Missing(before.verified) && !compatible ==> after.verified == "Yes")
  }

  lemma FilledTook(row: OffRow, m: Match)
    requires Shaped(row) && |m.values| == DERIVED
    ensures Took(row, FilledRow(row, m), m)
  {
    hide Missing, TextValue, Lower;
  }

  /** Nothing that a row says of itself is overwritten. */
  ghost predicate KeepsFilled(before: OffRow, after: OffRow)
  {
    && after.auditId == before.auditId && after.elsewhere == before.elsewhere && after.parts == before.parts
    && after.assemblyId == before.assemblyId && after.entryType == before.entryType
    && |after.cells| == |before.cells|
    && (forall i :: 0 <= i < |before.cells| && !Missing(before.cells[i]) ==> after.cells[i] == before.cells[i])
    && (Missing(TextValue(before.context)) || Lower(TextValue(before.context)) == "not installed / bench audit"
        || after.context == before.context)
    && (Missing(before.verified) || after.verified == before.verified)
  }

  ghost predicate AllKeepFilled(before: seq<OffRow>, after: seq<OffRow>)
  {
    |before| <= |after| && forall k :: 0 <= k < |before| ==> KeepsFilled(before[k], after[k])
  }

  lemma FilledRowsKeepFilled(before: seq<OffRow>, rows: seq<OffRow>, tool: string, m: Match, assemblyId: string,
                             aside: int)
    requires AllShaped(rows) && |m.values| == DERIVED && AllKeepFilled(before, rows)
    ensures AllKeepFilled(before, FilledRows(rows, tool, m, assemblyId, aside))
  {
    hide KeepsFilled, FilledRow, Equivalent, Shaped;
    var after := FilledRows(rows, tool, m, assemblyId, aside);
    forall k | 0 <= k < |before| ensures KeepsFilled(before[k], after[k]) {
      FilledKeepsFilled(before[k], rows[k], m);
    }
  }

  lemma FilledKeepsFilled(before: OffRow, row: OffRow, m: Match)
    requires Shaped(row) && |m.values| == DERIVED && KeepsFilled(before, row)
    ensures KeepsFilled(before, FilledRow(row, m))
  {
    hide Missing, TextValue, Lower;
  }

  lemma KeepsItself(rows: seq<OffRow>)
    ensures AllKeepFilled(rows, rows)
  {
    hide Missing, TextValue, Lower;
  }

  /* ---- Placeholders name no machine ---- */

  predicate Plain(c: char)
  {
    'a' <= c <= 'z' || c == ' ' || c == '-' || c == '/'
  }

  predicate PlainWord(w: string)
  {
    forall i :: 0 <= i < |w| ==> Plain(w[i])
  }

  lemma BlanksArePlain()
    ensures forall w :: w in Blanks() ==> PlainWord(w)
  {
    assert PlainWord("") && PlainWord("-") && PlainWord("--") && PlainWord("n/a") && PlainWord("na");
    assert PlainWord("none") && PlainWord("null") && PlainWord("not applicable");
  }

  lemma AbsencesArePlain()
    ensures forall w :: w in Absences() ==> PlainWord(w)
  {
    assert PlainWord("not installed") && PlainWord("eoat not installed") && PlainWord("bench");
    assert PlainWord("bench audit") && PlainWord("off machine") && PlainWord("off-machine") && PlainWord("uninstalled");
  }

  lemma PromptsArePlain()
    ensures forall w :: w in Prompts() ==> PlainWord(w)
  {
    assert PlainWord("select") && PlainWord("select machine") && PlainWord("select machine number");
    assert PlainWord("enter machine") && PlainWord("enter machine number") && PlainWord("unknown");
    assert PlainWord("unknown / not checked") && PlainWord("not checked");
  }

  lemma PlaceholdersArePlain(w: string)
    requires w in Placeholders()
    ensures PlainWord(w)
  {
    hide Blanks, Absences, Prompts, PlainWord;
    BlanksArePlain();
    AbsencesArePlain();
    PromptsArePlain();
  }

  /** Stripping only removes spaces. */
  lemma {:induction false} StripLeftKeeps(s: string, c: char)
    requires c in s && !IsSpace(c)
    ensures c in StripLeft(s)
  {
    if s != "" && IsSpace(s[0]) {
      assert s == [s[0]] + s[1..];
      StripLeftKeeps(s[1..], c);
    }
  }

  lemma {:induction false} StripRightKeeps(s: string, c: char)
    requires c in s && !IsSpace(c)
    ensures c in StripRight(s)
  {
    if s != "" && IsSpace(s[|s| - 1]) {
      assert s == s[..|s| - 1] + [s[|s| - 1]];
      StripRightKeeps(s[..|s| - 1], c);
    }
  }

  lemma StripKeeps(s: string, c: char)
    requires c in s && !IsSpace(c)
    ensures c in Strip(s)
  {
    hide StripLeft, StripRight;
    StripLeftKeeps(s, c);
    StripRightKeeps(StripLeft(s), c);
  }

  lemma {:induction false} SkipIsSuffix(s: string)
    ensures SkipSpaces(s) == s[|s| - |SkipSpaces(s)|..]
  {
    if s != "" && IsSpace(s[0]) { SkipIsSuffix(s[1..]); }
  }

  /** A number behind a prefix ends the text with a digit. */
  lemma NumberEnds(s: string)
    requires NumberBehind(s).Some?
    ensures s != "" && IsDigit(s[|s| - 1])
  {
    hide SkipSpaces;
    var t := SkipSpaces(s);
    var t1 := if t != "" && (t[0] == '-' || t[0] == '#') then t[1..] else t;
    SkipIsSuffix(s);
    SkipIsSuffix(t1);
    var u := SkipSpaces(t1);
    assert u[|u| - 1] == t1[|t1| - 1] == t[|t| - 1] == s[|s| - 1];
  }

  /** A text without digits that is neither blank nor N/A is its own token. */
  lemma WordToken(v: string)
    requires forall i :: 0 <= i < |TextValue(v)| ==> !IsDigit(TextValue(v)[i])
    ensures Token(v) == TextValue(v)
  {
    hide TextValue, NumberBehind;
    var text := TextValue(v);
    if text != "" {
      assert WholePart(text).None? by {
        var i := Find(text, '.');
        assert i > 0 ==> text[..i][0] == text[0];
      }
      NoPrefix(text, "press");
      NoPrefix(text, "machine");
      NoPrefix(text, "p");
      NoPrefix(text, "m");
    }
  }

  lemma NoPrefix(text: string, prefix: string)
    requires text != "" && !IsDigit(text[|text| - 1])
    ensures Behind(text, prefix).None?
  {
    hide NumberBehind;
    if prefix <= Lower(text) {
      var rest := text[|prefix|..];
      if rest == "" { NoNumber(); } else { assert rest[|rest| - 1] == text[|text| - 1]; NumberEndsOr(rest); }
    }
  }

  lemma NoNumber()
    ensures NumberBehind("").None?
  {
  }

  lemma NumberEndsOr(s: string)
    requires s != "" && !IsDigit(s[|s| - 1])
    ensures NumberBehind(s).None?
  {
    hide NumberBehind;
    if NumberBehind(s).Some? { NumberEnds(s); }
  }

  /** A cell that is a placeholder names no machine that is not one. */
  lemma PlaceholderNamesNone(cell: string, machine: string)
    requires Missing(cell) && !Missing(machine)
    ensures machine !in Machines(cell)
  {
    hide Placeholders, Token, Strip, Find;
    var text := Strip(cell);
    PlaceholdersArePlain(Lower(text));
    forall i | 0 <= i < |text| ensures !IsDigit(text[i]) && text[i] != ',' {
      assert Plain(Lower(text)[i]);
    }
    if ',' in cell { StripKeeps(cell, ','); }
    FindAt(cell, ',', |cell|);
    assert cell[..|cell|] == cell;
    assert Split(cell, ',') == [cell];
    assert Collected([cell][..0]) == [];
    WordToken(cell);
    StripTwice(cell);
  }

  /* ---- What filling in keeps ---- */

  /** Filling in takes no machine away that is not a placeholder. */
  lemma FilledKeepsMachine(row: OffRow, m: Match, machine: string)
    requires Shaped(row) && |m.values| == DERIVED && !Missing(machine) && HasMachine(row, machine)
    ensures HasMachine(FilledRow(row, m), machine)
  {
    hide Machines, Missing, TextValue, Names;
    if Missing(row.cells[PRESS]) { PlaceholderNamesNone(row.cells[PRESS], machine); }
  }

  lemma FilledStaysEquivalent(row: OffRow, m: Match, tool: string, machine: string, assemblyId: string)
    requires Shaped(row) && |m.values| == DERIVED && Canonical(machine) && !Missing(machine)
    requires Equivalent(row, tool, machine, assemblyId)
    ensures Equivalent(FilledRow(row, m), tool, machine, assemblyId)
  {
    hide ToolKey, FirstText, TextValue, Missing, HasMachine, FilledRow, Token;
    FilledKeepsMachine(row, m, machine);
  }

  /** Filling in rows leaves each machine that is found where it is found. */
  lemma FilledRowsKeep(rows: seq<OffRow>, tool: string, m: Match, assemblyId: string, aside: int, machine: string,
                       other: int)
    requires AllShaped(rows) && |m.values| == DERIVED && Canonical(machine) && !Missing(machine)
    requires Has(rows, tool, machine, assemblyId, other)
    ensures Has(FilledRows(rows, tool, m, assemblyId, aside), tool, machine, assemblyId, other)
  {
    hide Equivalent, FilledRow, Missing, Canonical, Shaped;
    var i :| 0 <= i < |rows| && i != other && Equivalent(rows[i], tool, machine, assemblyId);
    FilledStaysEquivalent(rows[i], m, tool, machine, assemblyId);
    assert Equivalent(FilledRows(rows, tool, m, assemblyId, aside)[i], tool, machine, assemblyId);
  }

  ghost predicate AllGood(matches: seq<Match>)
  {
    forall m :: m in matches ==> Good(m)
  }

  /** The rows after some matches were gone through, the matches to be created, and how many were duplicates. */
  datatype Passed = Passed(rows: seq<OffRow>, creates: seq<Match>, duplicates: nat)

  /** The pass over the matches: those with an equivalent row fill it in and count as duplicates, the others are
      to be created. */
  function Pass(rows: seq<OffRow>, matches: seq<Match>, tool: string, assemblyId: string): (r: Passed)
    requires AllShaped(rows) && forall m :: m in matches ==> |m.values| == DERIVED
    ensures AllShaped(r.rows) && |r.rows| == |rows| && forall m :: m in r.creates ==> m in matches
    decreases |matches|
  {
    if matches == [] then Passed(rows, [], 0)
    else
      var last := matches[|matches| - 1];
      var before := Pass(rows, matches[..|matches| - 1], tool, assemblyId);
      if Has(before.rows, tool, last.machine, assemblyId, -1)
      then Passed(FilledRows(before.rows, tool, last, assemblyId, -1), before.creates, before.duplicates + 1)
      else Passed(before.rows, before.creates + [last], before.duplicates)
  }

  /** Each match is created or counted. */
  lemma {:induction false} PassAddsUp(rows: seq<OffRow>, matches: seq<Match>, tool: string, assemblyId: string)
    requires AllShaped(rows) && forall m :: m in matches ==> |m.values| == DERIVED
    ensures var r := Pass(rows, matches, tool, assemblyId); |r.creates| + r.duplicates == |matches|
    decreases |matches|
  {
    hide Has, FilledRows;
    if matches != [] { PassAddsUp(rows, matches[..|matches| - 1], tool, assemblyId); }
  }

  lemma {:induction false} PassKeeps(rows: seq<OffRow>, matches: seq<Match>, tool: string, assemblyId: string,
                                     machine: string)
    requires AllShaped(rows) && AllGood(matches) && Canonical(machine) && !Missing(machine)
    requires Has(rows, tool, machine, assemblyId, -1)
    ensures Has(Pass(rows, matches, tool, assemblyId).rows, tool, machine, assemblyId, -1)
    decreases |matches|
  {
    hide Has, FilledRows, AllShaped, Missing, Canonical;
    if matches != [] {
      var last := matches[|matches| - 1];
      assert last in matches;
      PassKeeps(rows, matches[..|matches| - 1], tool, assemblyId, machine);
      var before := Pass(rows, matches[..|matches| - 1], tool, assemblyId).rows;
      FilledRowsKeep(before, tool, last, assemblyId, -1, machine, -1);
    }
  }

  /** After the pass each match either has an equivalent row or is to be created; one that had an equivalent row
      all along is not created. */
  lemma {:induction false} PassSorts(rows: seq<OffRow>, matches: seq<Match>, tool: string, assemblyId: string, m: Match)
    requires AllShaped(rows) && AllGood(matches) && m in matches
    ensures var r := Pass(rows, matches, tool, assemblyId);
      && (m in r.creates || Has(r.rows, tool, m.machine, assemblyId, -1))
      && (m in r.creates ==> !Has(rows, tool, m.machine, assemblyId, -1))
    decreases |matches|
  {
    hide Has, FilledRows, AllShaped, Missing, Canonical;
    var last, earlier := matches[|matches| - 1], matches[..|matches| - 1];
    assert last in matches && AllGood(earlier);
    var before := Pass(rows, earlier, tool, assemblyId).rows;
    if m in earlier { PassSorts(rows, earlier, tool, assemblyId, m); }
    if Has(rows, tool, m.machine, assemblyId, -1) { PassKeeps(rows, earlier, tool, assemblyId, m.machine); }
    if Has(before, tool, m.machine, assemblyId, -1) {
      FilledRowsKeep(before, tool, last, assemblyId, -1, m.machine, -1);
    }
  }

  /* ---- The rows that are written ---- */

  function MarkedCell(i: nat, v: string): string
  {
    if v == "" && i == CLEANROOM then "Unknown / Not Checked" else if Strip(v) == "" then "N/A" else v
  }

  /** The row that is written for a match; `normalize` is what the EOAT ID is normalised by. */
  function NewRow(source: OffRow, m: Match, id: string, tool: string, normalize: string -> string): (r: OffRow)
    requires Shaped(source) && |m.values| == DERIVED
    ensures Shaped(r)
  {
    OffRow(id,
           seq(DERIVED, i requires 0 <= i < DERIVED =>
             if TextValue(m.values[i]) != "" then m.values[i] else MarkedCell(i, source.cells[i])),
           seq(|source.elsewhere|, _ => ""), ["", "", if Strip(tool) == "" then "N/A" else tool, "", "", ""],
           normalize(source.assemblyId), "Compatible", "Compatibility row", "No")
  }

  lemma NoneMeansNone()
    ensures MeansNone(NoneText()) && MeansNone("")
  {
  }

  /** The part number of a new row is the tool, whatever it was. */
  lemma NewPart(tool: string)
    ensures ToolKey(FirstText(["", "", if Strip(tool) == "" then "N/A" else tool, "", "", ""])) == ToolKey(tool)
  {
    hide FirstText, Find, WholePart, MeansNone, Strip, NoneText;
    var cell := if Strip(tool) == "" then "N/A" else tool;
    ThirdText(["", "", cell, "", "", ""], cell);
    StripTwice(cell);
    StripEmpty();
    NoneMeansNone();
    assert Lower("") == "";
    if Strip(tool) == "" { NoTool(tool); }
  }

  lemma NoTool(tool: string)
    requires Strip(tool) == ""
    ensures ToolKey(tool) == ToolKey("N/A")
  {
    hide Strip;
    StripFixed("N/A");
    assert Lower("N/A") == "n/a" && Lower("") == "";
  }

  lemma CanonicalText(machine: string)
    requires Canonical(machine)
    ensures TextValue(machine) != ""
  {
    hide WholePart, Prefixed, Trim, TextValue;
  }

  /** A new row stands for its match, when the EOAT ID is normalised already. */
  lemma NewRowEquivalent(source: OffRow, m: Match, id: string, tool: string, normalize: string -> string)
    requires Shaped(source) && Good(m) && normalize(source.assemblyId) == source.assemblyId
    ensures Equivalent(NewRow(source, m, id, tool, normalize), tool, m.machine, TextValue(source.assemblyId))
  {
    hide ToolKey, FirstText, TextValue, Missing, Machines, Token, Names, Strip, MarkedCell;
    NewPart(tool);
    CanonicalText(m.machine);
    MachinesOfOne(m.machine);
  }

  /* ---- The whole choice ---- */

  datatype Choice = UpdateAndAdd | AddOnly

  /** `source_tool`. */
  function ToolOf(row: OffRow): string
    requires Shaped(row)
  {
    if Strip(row.parts[TOOL]) != "" then Strip(row.parts[TOOL]) else FirstText(row.parts)
  }

  /** The row's tool is the one its part number fields lead to. */
  predicate ToolsAgree(row: OffRow)
    requires Shaped(row)
  {
    ToolKey(FirstText(row.parts)) == ToolKey(ToolOf(row))
  }

  /** `audit_row_has_missing_machine`. */
  predicate IsOffMachine(row: OffRow)
    requires Shaped(row)
  {
    Missing(row.cells[PRESS]) && forall i :: 0 <= i < |row.elsewhere| ==> Missing(row.elsewhere[i])
  }

  /** Whether filling in finds something to fill. */
  predicate Changes(row: OffRow, m: Match)
    requires Shaped(row) && |m.values| == DERIVED
  {
    || (exists i :: 0 <= i < DERIVED && TextValue(m.values[i]) != "" && Missing(row.cells[i]))
    || OpenContext(row.context) || Missing(row.verified)
  }

  /** The rows, the matches still to go through, how many duplicates were found, and whether the saved row
      itself was brought to the first machine. */
  datatype First = First(rows: seq<OffRow>, rest: seq<Match>, duplicates: nat, current: bool)

  function Begin(rows: seq<OffRow>, at: nat, matches: seq<Match>, choice: Choice): (r: First)
    requires AllShaped(rows) && at < |rows| && matches != [] && forall m :: m in matches ==> |m.values| == DERIVED
    ensures AllShaped(r.rows) && |r.rows| == |rows| && (r.rest == matches || r.rest == matches[1..])
  {
    var tool, assemblyId, m := ToolOf(rows[at]), TextValue(rows[at].assemblyId), matches[0];
    if choice == AddOnly then First(rows, matches, 0, false)
    else if Has(rows, tool, m.machine, assemblyId, at)
    then First(FilledRows(rows, tool, m, assemblyId, at), matches[1..], 1, false)
    else First(WithRow(rows, at, FilledRow(rows[at], m)), matches[1..], 0, Changes(rows[at], m))
  }

  function WithRow(rows: seq<OffRow>, at: nat, row: OffRow): (r: seq<OffRow>)
    requires AllShaped(rows) && at < |rows| && Shaped(row)
    ensures |r| == |rows| && AllShaped(r)
  {
    rows[at := row]
  }

  /** The pass over the matches that the beginning leaves. */
  function Went(rows: seq<OffRow>, at: nat, matches: seq<Match>, choice: Choice): (r: Passed)
    requires AllShaped(rows) && at < |rows| && matches != [] && forall m :: m in matches ==> |m.values| == DERIVED
    ensures forall m :: m in r.creates ==> m in matches
  {
    var first := Begin(rows, at, matches, choice);
    Pass(first.rows, first.rest, ToolOf(rows[at]), TextValue(rows[at].assemblyId))
  }

  function NewRows(source: OffRow, creates: seq<Match>, ids: seq<string>, normalize: string -> string): (r: seq<OffRow>)
    requires Shaped(source) && |ids| == |creates| && forall m :: m in creates ==> |m.values| == DERIVED
    ensures |r| == |creates| && AllShaped(r)
  {
    seq(|creates|, i requires 0 <= i < |creates| => NewRow(source, creates[i], ids[i], ToolOf(source), normalize))
  }

  /** The rows after the choice was applied. */
  function Applied(rows: seq<OffRow>, at: nat, matches: seq<Match>, choice: Choice, ids: seq<string>,
                   normalize: string -> string): (r: seq<OffRow>)
    requires AllShaped(rows) && at < |rows| && matches != [] && forall m :: m in matches ==> |m.values| == DERIVED
    requires |ids| == |Went(rows, at, matches, choice).creates|
    ensures AllShaped(r)
  {
    var went := Went(rows, at, matches, choice);
    went.rows + NewRows(rows[at], went.creates, ids, normalize)
  }

  lemma {:induction false} PassKeepsFilled(before: seq<OffRow>, rows: seq<OffRow>, matches: seq<Match>, tool: string,
                                           assemblyId: string)
    requires AllShaped(rows) && (forall m :: m in matches ==> |m.values| == DERIVED) && AllKeepFilled(before, rows)
    ensures AllKeepFilled(before, Pass(rows, matches, tool, assemblyId).rows)
    decreases |matches|
  {
    hide Has, FilledRows, AllShaped, AllKeepFilled;
    if matches != [] {
      var last, earlier := matches[|matches| - 1], matches[..|matches| - 1];
      PassKeepsFilled(before, rows, earlier, tool, assemblyId);
      FilledRowsKeepFilled(before, Pass(rows, earlier, tool, assemblyId).rows, tool, last, assemblyId, -1);
    }
  }

  /** Whatever is chosen, no row that was there before loses anything it says. */
  lemma AppliedKeepsFilled(rows: seq<OffRow>, at: nat, matches: seq<Match>, choice: Choice, ids: seq<string>,
                           normalize: string -> string)
    requires AllShaped(rows) && at < |rows| && matches != [] && forall m :: m in matches ==> |m.values| == DERIVED
    requires |ids| == |Went(rows, at, matches, choice).creates|
    ensures AllKeepFilled(rows, Applied(rows, at, matches, choice, ids, normalize))
  {
    hide Has, FilledRows, FilledRow, Changes, Pass, NewRows, TextValue, Missing, FirstText, KeepsFilled;
    var tool, assemblyId, m := ToolOf(rows[at]), TextValue(rows[at].assemblyId), matches[0];
    var first := Begin(rows, at, matches, choice);
    KeepsItself(rows);
    FilledRowsKeepFilled(rows, rows, tool, m, assemblyId, at);
    FilledKeepsFilled(rows[at], rows[at], m);
    PassKeepsFilled(rows, first.rows, first.rest, tool, assemblyId);
  }

  lemma MachineFound(row: OffRow, m: Match)
    requires Shaped(row) && Good(m) && IsOffMachine(row)
    ensures Changes(row, m) && HasMachine(FilledRow(row, m), m.machine)
  {
    hide TextValue, Missing, Machines, Token, Names, OpenContext;
    CanonicalText(m.machine);
    MachinesOfOne(m.machine);
    assert TextValue(m.values[PRESS]) != "" && Missing(row.cells[PRESS]);
  }

  /** Each match ends up as a new row, as a duplicate, or on the saved row. */
  lemma MatchesAddUp(rows: seq<OffRow>, at: nat, matches: seq<Match>, choice: Choice)
    requires AllShaped(rows) && at < |rows| && matches != [] && AllGood(matches) && IsOffMachine(rows[at])
    ensures |Went(rows, at, matches, choice).creates|
          + (Begin(rows, at, matches, choice).duplicates + Went(rows, at, matches, choice).duplicates)
          + (if Begin(rows, at, matches, choice).current then 1 else 0) == |matches|
    ensures Begin(rows, at, matches, choice).current <==>
            && choice == UpdateAndAdd
            && !Has(rows, ToolOf(rows[at]), matches[0].machine, TextValue(rows[at].assemblyId), at)
  {
    hide Has, FilledRows, FilledRow, Changes, Pass, IsOffMachine, Good, ToolOf, TextValue;
    assert matches[0] in matches;
    MachineFound(rows[at], matches[0]);
    AllShapedMatches(matches);
    var first := Begin(rows, at, matches, choice);
    PassAddsUp(first.rows, first.rest, ToolOf(rows[at]), TextValue(rows[at].assemblyId));
  }

  lemma AllShapedMatches(matches: seq<Match>)
    requires AllGood(matches)
    ensures forall m :: m in matches ==> |m.values| == DERIVED
  {
  }

  lemma FirstCovered(rows: seq<OffRow>, at: nat, matches: seq<Match>, choice: Choice)
    requires AllShaped(rows) && at < |rows| && matches != [] && AllGood(matches)
    requires IsOffMachine(rows[at]) && ToolsAgree(rows[at]) && choice == UpdateAndAdd
    ensures Has(Begin(rows, at, matches, choice).rows, ToolOf(rows[at]), matches[0].machine,
                TextValue(rows[at].assemblyId), -1)
  {
    hide FilledRow, Missing, Machines, ToolKey, FirstText, TextValue, Canonical, HasMachine, IsOffMachine, ToolOf;
    var m, tool, assemblyId := matches[0], ToolOf(rows[at]), TextValue(rows[at].assemblyId);
    assert m in matches;
    assert Token(m.machine) == m.machine by { CanonicalToken(m.machine); }
    if Has(rows, tool, m.machine, assemblyId, at) {
      var i :| 0 <= i < |rows| && i != at && Equivalent(rows[i], tool, m.machine, assemblyId);
      FilledStaysEquivalent(rows[i], m, tool, m.machine, assemblyId);
      assert Equivalent(Begin(rows, at, matches, choice).rows[i], tool, m.machine, assemblyId);
    } else {
      MachineFound(rows[at], m);
      assert Equivalent(Begin(rows, at, matches, choice).rows[at], tool, m.machine, assemblyId);
    }
  }

  lemma CanonicalToken(machine: string)
    requires Canonical(machine)
    ensures Token(machine) == machine
  {
  }

  lemma NewRowsHave(source: OffRow, creates: seq<Match>, ids: seq<string>, normalize: string -> string, m: Match)
    requires Shaped(source) && |ids| == |creates| && AllGood(creates) && m in creates
    requires normalize(source.assemblyId) == source.assemblyId
    ensures Has(NewRows(source, creates, ids, normalize), ToolOf(source), m.machine, TextValue(source.assemblyId), -1)
  {
    hide Equivalent, NewRow, ToolOf, TextValue;
    var i :| 0 <= i < |creates| && creates[i] == m;
    NewRowEquivalent(source, m, ids[i], ToolOf(source), normalize);
    assert Equivalent(NewRows(source, creates, ids, normalize)[i], ToolOf(source), m.machine,
                      TextValue(source.assemblyId));
  }

  /** Afterwards every machine that was found has a row with the tool and the EOAT of the audit. */
  lemma AppliedCovers(rows: seq<OffRow>, at: nat, matches: seq<Match>, choice: Choice, ids: seq<string>,
                      normalize: string -> string, m: Match)
    requires AllShaped(rows) && at < |rows| && matches != [] && AllGood(matches) && m in matches
    requires IsOffMachine(rows[at]) && ToolsAgree(rows[at])
    requires normalize(rows[at].assemblyId) == rows[at].assemblyId
    requires |ids| == |Went(rows, at, matches, choice).creates|
    ensures Has(Applied(rows, at, matches, choice, ids, normalize), ToolOf(rows[at]), m.machine,
                TextValue(rows[at].assemblyId), -1)
  {
    hide FilledRows, FilledRow, Changes, Pass, IsOffMachine, ToolOf, ToolsAgree, NewRows, TextValue, Canonical, Missing,
         Equivalent;
    var tool, assemblyId, first := ToolOf(rows[at]), TextValue(rows[at].assemblyId), Begin(rows, at, matches, choice);
    var went := Went(rows, at, matches, choice);
    var added := NewRows(rows[at], went.creates, ids, normalize);
    assert AllGood(first.rest) && AllGood(went.creates);
    if m in first.rest {
      PassSorts(first.rows, first.rest, tool, assemblyId, m);
      if m in went.creates {
        NewRowsHave(rows[at], went.creates, ids, normalize, m);
        var i :| 0 <= i < |added| && Equivalent(added[i], tool, m.machine, assemblyId);
        assert (went.rows + added)[|went.rows| + i] == added[i];
        return;
      }
    } else {
      assert m == matches[0] by { assert choice == UpdateAndAdd && matches == [matches[0]] + matches[1..]; }
      FirstCovered(rows, at, matches, choice);
      PassKeeps(first.rows, first.rest, tool, assemblyId, m.machine);
    }
    var i :| 0 <= i < |went.rows| && Equivalent(went.rows[i], tool, m.machine, assemblyId);
    assert (went.rows + added)[i] == went.rows[i];
  }

  lemma {:induction false} PassLeavesRow(rows: seq<OffRow>, matches: seq<Match>, tool: string, assemblyId: string,
                                         at: nat)
    requires AllShaped(rows) && (forall m :: m in matches ==> |m.values| == DERIVED) && at < |rows|
    ensures var r := Pass(rows, matches, tool, assemblyId).rows;
      r[at].parts == rows[at].parts && r[at].assemblyId == rows[at].assemblyId
    decreases |matches|
  {
    hide Has, FilledRow, Equivalent;
    if matches != [] { PassLeavesRow(rows, matches[..|matches| - 1], tool, assemblyId, at); }
  }

  /** Adding the rows once more creates nothing. */
  lemma AddingAgain(rows: seq<OffRow>, at: nat, matches: seq<Match>, ids: seq<string>, normalize: string -> string)
    requires AllShaped(rows) && at < |rows| && matches != [] && AllGood(matches)
    requires IsOffMachine(rows[at]) && ToolsAgree(rows[at])
    requires normalize(rows[at].assemblyId) == rows[at].assemblyId
    requires |ids| == |Went(rows, at, matches, AddOnly).creates|
    ensures Went(Applied(rows, at, matches, AddOnly, ids, normalize), at, matches, AddOnly).creates == []
  {
    hide Has, FilledRows, FilledRow, Changes, Pass, IsOffMachine, ToolsAgree, NewRows, TextValue, Canonical, Missing,
         FirstText;
    var after := Applied(rows, at, matches, AddOnly, ids, normalize);
    var tool, assemblyId := ToolOf(rows[at]), TextValue(rows[at].assemblyId);
    PassLeavesRow(rows, matches, tool, assemblyId, at);
    assert ToolOf(after[at]) == tool && TextValue(after[at].assemblyId) == assemblyId;
    var creates := Pass(after, matches, tool, assemblyId).creates;
    if creates != [] {
      AppliedCovers(rows, at, matches, AddOnly, ids, normalize, creates[0]);
      PassSorts(after, matches, tool, assemblyId, creates[0]);
    }
  }

  function IdsOf(rows: seq<OffRow>): set<string>
  {
    set r | r in rows :: TextValue(r.auditId)
  }

  /* ---- The sheet ---- */

  datatype Report = Report(created: nat, duplicates: nat, currentUpdated: bool)

  /** The inventory sheet, by the rows that hold something. */
  class OffMachineSheet {
    var rows: seq<OffRow>

    ghost predicate Valid()
      reads this
    {
      AllShaped(rows)
    }

    /** `_find_equivalent_compatibility_rows`. */
    method FindEquivalent(tool: string, machine: string, assemblyId: string, aside: int) returns (found: seq<nat>)
      requires Valid()
      ensures forall i :: i in found <==>
                0 <= i < |rows| && i != aside && Equivalent(rows[i], tool, machine, assemblyId)
      ensures forall i, j :: 0 <= i < j < |found| ==> found[i] != found[j]
    {
      hide Equivalent;
      found := [];
      for i := 0 to |rows|
        invariant forall k :: k in found <==> 0 <= k < i && k != aside && Equivalent(rows[k], tool, machine, assemblyId)
        invariant forall k, l :: 0 <= k < l < |found| ==> found[k] != found[l]
      {
        if i != aside && Equivalent(rows[i], tool, machine, assemblyId) {
          found := found + [i];
        }
      }
    }

    /** The duplicates of a match are filled in, if there are any. */
    method FillDuplicates(m: Match, tool: string, assemblyId: string, aside: int) returns (any: bool)
      requires Valid() && |m.values| == DERIVED
      modifies this
      ensures Valid() && any == Has(old(rows), tool, m.machine, assemblyId, aside)
      ensures rows == if any then FilledRows(old(rows), tool, m, assemblyId, aside) else old(rows)
      ensures |rows| == |old(rows)|
      ensures forall i :: 0 <= i < |rows| && i != aside && Equivalent(old(rows)[i], tool, m.machine, assemblyId) ==>
                Took(old(rows)[i], rows[i], m)
      ensures forall i :: 0 <= i < |rows| && (i == aside || !Equivalent(old(rows)[i], tool, m.machine, assemblyId)) ==>
                rows[i] == old(rows)[i]
    {
      hide Equivalent, FilledRow, Shaped, Took;
      var found := FindEquivalent(tool, m.machine, assemblyId, aside);
      any := found != [];
      ghost var start := rows;
      for k := 0 to |found|
        invariant Valid() && |rows| == |start|
        invariant forall i :: 0 <= i < |rows| ==>
                    rows[i] == if i in found[..k] then FilledRow(start[i], m) else start[i]
      {
        assert found[k] in found && found[k] !in found[..k] && found[..k + 1] == found[..k] + [found[k]];
        rows := rows[found[k] := FilledRow(rows[found[k]], m)];
      }
      assert found[..|found|] == found;
      if any { assert found[0] in found; }
      assert any ==> rows == FilledRows(start, tool, m, assemblyId, aside);
      forall i | 0 <= i < |rows| && i in found ensures Took(start[i], rows[i], m) {
        FilledTook(start[i], m);
      }
    }

    /** `apply_off_machine_compatibility_choice`, from the matches on. */
    method ApplyChoice(at: nat, matches: seq<Match>, choice: Choice, prefix: string,
                       number: string -> Option<int>, normalize: string -> string)
      returns (report: Report)
      requires Valid() && at < |rows| && matches != [] && forall m :: m in matches ==> |m.values| == DERIVED
      modifies this
      ensures Valid()
      ensures report.created == |Went(old(rows), at, matches, choice).creates|
      ensures report.duplicates
              == Begin(old(rows), at, matches, choice).duplicates + Went(old(rows), at, matches, choice).duplicates
      ensures report.currentUpdated == Begin(old(rows), at, matches, choice).current
      ensures exists ids: seq<string> ::
        (|ids| == report.created && AuditIds.NewIds(ids, IdsOf(old(rows)))
         && rows == Applied(old(rows), at, matches, choice, ids, normalize))
      ensures AllKeepFilled(old(rows), rows)
    {
      hide FilledRows, FilledRow, Has, Changes, ToolOf, TextValue, NewRow, Shaped, AllKeepFilled;
      ghost var start := rows;
      var source := rows[at];
      var tool, assemblyId := ToolOf(source), TextValue(source.assemblyId);
      var taken := IdsOf(rows);
      report := Report(0, 0, false);
      var rest := matches;
      if choice == UpdateAndAdd {
        var any := FillDuplicates(matches[0], tool, assemblyId, at);
        if any {
          report := report.(duplicates := 1);
        } else {
          report := report.(currentUpdated := Changes(source, matches[0]));
          rows := rows[at := FilledRow(source, matches[0])];
        }
        rest := matches[1..];
      }
      assert Begin(start, at, matches, choice) == First(rows, rest, report.duplicates, report.currentUpdated);
      var creates, duplicates := GoThrough(rest, tool, assemblyId);
      report := report.(created := |creates|, duplicates := report.duplicates + duplicates);
      var ids := AuditIds.GenerateAuditIds(taken, prefix, number, |creates|);
      AddRows(source, creates, ids, normalize);
      AppliedKeepsFilled(start, at, matches, choice, ids, normalize);
    }

    method GoThrough(rest: seq<Match>, tool: string, assemblyId: string)
      returns (creates: seq<Match>, duplicates: nat)
      requires Valid() && forall m :: m in rest ==> |m.values| == DERIVED
      modifies this
      ensures Valid() && Passed(rows, creates, duplicates) == Pass(old(rows), rest, tool, assemblyId)
    {
      hide FilledRows, Has, AllShaped;
      creates, duplicates := [], 0;
      for k := 0 to |rest|
        invariant Valid() && Passed(rows, creates, duplicates) == Pass(old(rows), rest[..k], tool, assemblyId)
      {
        assert rest[..k + 1][..k] == rest[..k];
        var any := FillDuplicates(rest[k], tool, assemblyId, -1);
        if any {
          duplicates := duplicates + 1;
        } else {
          creates := creates + [rest[k]];
        }
      }
      assert rest[..|rest|] == rest;
    }

    method AddRows(source: OffRow, creates: seq<Match>, ids: seq<string>, normalize: string -> string)
      requires Valid() && Shaped(source) && |ids| == |creates| && forall m :: m in creates ==> |m.values| == DERIVED
      modifies this
      ensures Valid() && rows == old(rows) + NewRows(source, creates, ids, normalize)
    {
      hide NewRow, ToolOf, Shaped;
      for i := 0 to |creates|
        invariant rows == old(rows) + NewRows(source, creates, ids, normalize)[..i]
      {
        rows := rows + [NewRow(source, creates[i], ids[i], ToolOf(source), normalize)];
      }
    }
  }
}
