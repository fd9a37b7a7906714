/** What an off-machine choice leaves of each row, told from the row as it was and the matches
    (core/audit_compatibility.py). */
module OffMachineEffects {
  import opened Text
  import opened Wrappers
  import opened Tokens
  import opened Relationships
  import opened OffMachine
  import AuditIds

  /* ---- The words for no machine ---- */

  ghost predicate NoWord(t: string)
  {
    || t == "" || t == "-" || t == "--" || t == "n/a" || t == "na" || t == "none" || t == "null"
    || t == "not applicable"
  }

  ghost predicate NotInstalled(t: string)
  {
    || t == "not installed" || t == "eoat not installed" || t == "bench" || t == "bench audit" || t == "off machine"
    || t == "off-machine" || t == "uninstalled"
  }

  ghost predicate NotChosen(t: string)
  {
    || t == "select" || t == "select machine" || t == "select machine number" || t == "enter machine"
    || t == "enter machine number" || t == "unknown" || t == "unknown / not checked" || t == "not checked"
  }

  /** A cell is a placeholder exactly when it says one of these, in whatever case. */
  lemma MissingWhen(v: string)
    ensures Missing(v) <==>
      var t := Lower(Strip(v)); NoWord(t) || NotInstalled(t) || NotChosen(t)
  {
    hide Strip, Lower, NoWord, NotInstalled, NotChosen, Blanks, Absences, Prompts;
    NoWords(Lower(Strip(v)));
    NotInstalledWords(Lower(Strip(v)));
    NotChosenWords(Lower(Strip(v)));
  }

  lemma NoWords(t: string)
    ensures t in Blanks() <==> NoWord(t)
  {
  }

  lemma NotInstalledWords(t: string)
    ensures t in Absences() <==> NotInstalled(t)
  {
  }

  lemma NotChosenWords(t: string)
    ensures t in Prompts() <==> NotChosen(t)
  {
  }

  /* ---- One row through the pass ---- */

  /** The row after a match was gone through. */
  ghost function Stepped(row: OffRow, m: Match, tool: string, assemblyId: string): (r: OffRow)
    requires Shaped(row) && |m.values| == DERIVED
    ensures Shaped(r)
  {
    if Equivalent(row, tool, m.machine, assemblyId) then FilledRow(row, m) else row
  }

  /** The row after all of them. */
  ghost function RowAfter(row: OffRow, matches: seq<Match>, tool: string, assemblyId: string): (r: OffRow)
    requires Shaped(row) && forall m :: m in matches ==> |m.values| == DERIVED
    ensures Shaped(r)
    decreases |matches|
  {
    if matches == [] then row
    else Stepped(RowAfter(row, matches[..|matches| - 1], tool, assemblyId), matches[|matches| - 1], tool, assemblyId)
  }

  /** The pass takes each row through the matches by itself. */
  lemma {:induction false} PassRow(rows: seq<OffRow>, matches: seq<Match>, tool: string, assemblyId: string, k: nat)
    requires AllShaped(rows) && (forall m :: m in matches ==> |m.values| == DERIVED) && k < |rows|
    ensures Pass(rows, matches, tool, assemblyId).rows[k] == RowAfter(rows[k], matches, tool, assemblyId)
    decreases |matches|
  {
    hide Equivalent, FilledRow, Shaped;
    if matches != [] {
      PassRow(rows, matches[..|matches| - 1], tool, assemblyId, k);
    }
  }

  lemma {:induction false} FirstMatch(row: OffRow, m: Match, rest: seq<Match>, tool: string, assemblyId: string)
    requires Shaped(row) && |m.values| == DERIVED && forall n :: n in rest ==> |n.values| == DERIVED
    ensures RowAfter(row, [m] + rest, tool, assemblyId)
         == RowAfter(Stepped(row, m, tool, assemblyId), rest, tool, assemblyId)
    decreases |rest|
  {
    hide Stepped, Shaped;
    if rest == [] {
      assert [m] + rest == [m] && [m][..0] == [];
    } else {
      FirstMatch(row, m, rest[..|rest| - 1], tool, assemblyId);
      assert ([m] + rest)[..|rest|] == [m] + rest[..|rest| - 1];
    }
  }

  /* ---- Which matches a row takes ---- */

  /** Bringing a row to a machine that it names already adds no machine. */
  lemma SameMachines(row: OffRow, m: Match, machine: string)
    requires Shaped(row) && Good(m) && HasMachine(row, m.machine) && !Missing(machine)
    ensures HasMachine(FilledRow(row, m), machine) <==> HasMachine(row, machine)
  {
    hide Machines, Missing, TextValue, Names, Canonical, Lower;
    if Missing(row.cells[PRESS]) {
      PlaceholderNamesNone(row.cells[PRESS], machine);
      MachinesOfOne(m.machine);
    }
  }

  /** So a row fits a match after a step exactly when it did before. */
  lemma FitsStay(row: OffRow, m: Match, tool: string, assemblyId: string, n: Match)
    requires Shaped(row) && Good(m) && Good(n)
    ensures Equivalent(Stepped(row, m, tool, assemblyId), tool, n.machine, assemblyId)
        <==> Equivalent(row, tool, n.machine, assemblyId)
  {
    hide ToolKey, FirstText, TextValue, Missing, HasMachine, FilledRow, Token;
    CanonicalToken(m.machine);
    CanonicalToken(n.machine);
    if Equivalent(row, tool, m.machine, assemblyId) { SameMachines(row, m, n.machine); }
  }

  lemma {:induction false} FitsStayAfter(row: OffRow, matches: seq<Match>, tool: string, assemblyId: string, n: Match)
    requires Shaped(row) && AllGood(matches) && Good(n)
    ensures Equivalent(RowAfter(row, matches, tool, assemblyId), tool, n.machine, assemblyId)
        <==> Equivalent(row, tool, n.machine, assemblyId)
    decreases |matches|
  {
    hide Equivalent, Stepped, Good;
    if matches != [] {
      assert matches[|matches| - 1] in matches;
      FitsStayAfter(row, matches[..|matches| - 1], tool, assemblyId, n);
      GoodValues(matches);
      FitsStay(RowAfter(row, matches[..|matches| - 1], tool, assemblyId), matches[|matches| - 1], tool, assemblyId, n);
    }
  }

  lemma GoodValues(matches: seq<Match>)
    requires AllGood(matches)
    ensures forall m :: m in matches ==> |m.values| == DERIVED
  {
  }

  /* ---- What a row takes ---- */

  /** One of the matches that the row fits has something for the cell, and that stands in it now. */
  ghost predicate TakenFrom(row: OffRow, v: string, matches: seq<Match>, tool: string, assemblyId: string, i: nat)
    requires Shaped(row) && (forall m :: m in matches ==> |m.values| == DERIVED) && i < DERIVED
  {
    exists m :: m in matches && Equivalent(row, tool, m.machine, assemblyId) && TextValue(m.values[i]) != ""
                && v == m.values[i]
  }

  ghost predicate Offered(row: OffRow, matches: seq<Match>, tool: string, assemblyId: string, i: nat)
    requires Shaped(row) && (forall m :: m in matches ==> |m.values| == DERIVED) && i < DERIVED
  {
    exists m :: m in matches && Equivalent(row, tool, m.machine, assemblyId) && TextValue(m.values[i]) != ""
  }

  ghost predicate FitsAny(row: OffRow, matches: seq<Match>, tool: string, assemblyId: string)
    requires Shaped(row)
  {
    exists m :: m in matches && Equivalent(row, tool, m.machine, assemblyId)
  }

  ghost predicate CellSettled(before: OffRow, after: OffRow, matches: seq<Match>, tool: string, assemblyId: string,
                              i: nat)
    requires Shaped(before) && Shaped(after) && (forall m :: m in matches ==> |m.values| == DERIVED) && i < DERIVED
  {
    if Missing(before.cells[i]) && Offered(before, matches, tool, assemblyId, i)
    then TakenFrom(before, after.cells[i], matches, tool, assemblyId, i)
    else after.cells[i] == before.cells[i]
  }

  /** Placeholders take what a fitting match has, every other cell stays; a row that fits a match is annotated, and
      one that fits none is left alone. */
  ghost predicate Settled(before: OffRow, after: OffRow, matches: seq<Match>, tool: string, assemblyId: string)
    requires Shaped(before) && Shaped(after) && (forall m :: m in matches ==> |m.values| == DERIVED)
  {
    && (forall i :: 0 <= i < DERIVED ==> CellSettled(before, after, matches, tool, assemblyId, i))
    && after == before.(cells := after.cells, context := after.context, verified := after.verified)
    && (if FitsAny(before, matches, tool, assemblyId) then Annotated(before, after) else after == before)
  }

  lemma NothingTaken(row: OffRow, tool: string, assemblyId: string)
    requires Shaped(row)
    ensures Settled(row, row, [], tool, assemblyId)
  {
    hide Equivalent, Missing, TextValue;
  }

  /** A cell after one more match. */
  lemma NextCell(row: OffRow, middle: OffRow, earlier: seq<Match>, last: Match, tool: string, assemblyId: string,
                 i: nat)
    requires Shaped(row) && Shaped(middle) && (forall m :: m in earlier ==> |m.values| == DERIVED)
    requires |last.values| == DERIVED && i < DERIVED && CellSettled(row, middle, earlier, tool, assemblyId, i)
    requires Equivalent(middle, tool, last.machine, assemblyId) <==> Equivalent(row, tool, last.machine, assemblyId)
    ensures CellSettled(row, Stepped(middle, last, tool, assemblyId), earlier + [last], tool, assemblyId, i)
  {
    hide Equivalent, FilledRow, Missing, TextValue, Annotated;
    var matches := earlier + [last];
    assert last in matches;
    OfferedMore(row, earlier, last, tool, assemblyId, i);
    FilledTook(middle, last);
    if TakenFrom(row, middle.cells[i], earlier, tool, assemblyId, i) {
      var m :| m in earlier && Equivalent(row, tool, m.machine, assemblyId) && TextValue(m.values[i]) != ""
               && middle.cells[i] == m.values[i];
      assert m in matches;
    }
  }

  lemma OfferedMore(row: OffRow, earlier: seq<Match>, last: Match, tool: string, assemblyId: string, i: nat)
    requires Shaped(row) && (forall m :: m in earlier ==> |m.values| == DERIVED) && |last.values| == DERIVED
    requires i < DERIVED
    ensures Offered(row, earlier + [last], tool, assemblyId, i) <==>
      Offered(row, earlier, tool, assemblyId, i)
      || (Equivalent(row, tool, last.machine, assemblyId) && TextValue(last.values[i]) != "")
  {
    hide Equivalent, TextValue;
    assert last in earlier + [last];
    forall m | m in earlier ensures m in earlier + [last] {}
  }

  lemma FitsMore(row: OffRow, earlier: seq<Match>, last: Match, tool: string, assemblyId: string)
    requires Shaped(row)
    ensures FitsAny(row, earlier + [last], tool, assemblyId) <==>
      FitsAny(row, earlier, tool, assemblyId) || Equivalent(row, tool, last.machine, assemblyId)
  {
    hide Equivalent;
    assert last in earlier + [last];
    forall m | m in earlier ensures m in earlier + [last] {}
  }

  /** What no placeholder looks like. */
  ghost predicate Unmistakable(t: string)
  {
    'y' in t || (|t| == 20 && t[0] == 'i') || (|t| == 2 && t[1] == 'o')
  }

  lemma NoWordIsPlain(t: string)
    ensures NoWord(t) ==> !Unmistakable(t)
  {
  }

  lemma NotInstalledIsPlain(t: string)
    ensures NotInstalled(t) ==> !Unmistakable(t)
  {
  }

  lemma NotChosenIsPlain(t: string)
    ensures NotChosen(t) ==> !Unmistakable(t)
  {
  }

  lemma NotMissing(v: string)
    requires v != "" && !IsSpace(v[0]) && !IsSpace(v[|v| - 1]) && Unmistakable(Lower(v))
    ensures Strip(v) == v && !Missing(v)
  {
    hide Strip, Lower, Missing, Unmistakable, NoWord, NotInstalled, NotChosen;
    StripFixed(v);
    MissingWhen(v);
    NoWordIsPlain(Lower(v));
    NotInstalledIsPlain(Lower(v));
    NotChosenIsPlain(Lower(v));
  }

  /** What an annotation says is neither a placeholder nor open. */
  lemma AnnotationsSay()
    ensures TextValue("Compatibility row") == "Compatibility row" && !Missing("Compatibility row")
    ensures Lower("Compatibility row") != "not installed / bench audit"
    ensures TextValue("Installed on Machine") == "Installed on Machine" && !Missing("Installed on Machine")
    ensures Lower("Installed on Machine") != "not installed / bench audit"
    ensures !Missing("Yes") && !Missing("No")
  {
    hide Strip, Missing;
    assert Lower("Compatibility row")[12] == 'y' && Lower("Yes")[0] == 'y';
    assert Lower("Installed on Machine")[0] == 'i' && Lower("No")[1] == 'o';
    NotMissing("Compatibility row");
    NotMissing("Installed on Machine");
    NotMissing("Yes");
    NotMissing("No");
    assert |"not installed / bench audit"| == 27 && |NoneText()| == 3;
  }

  /** An annotated row is not annotated again. */
  lemma AnnotatedTwice(row: OffRow, middle: OffRow, after: OffRow)
    requires Annotated(row, middle) && Annotated(middle, after) && middle.entryType == row.entryType
    ensures Annotated(row, after)
  {
    hide TextValue, Missing, Lower;
    AnnotationsSay();
  }

  lemma {:induction false} RowSettles(row: OffRow, matches: seq<Match>, tool: string, assemblyId: string)
    requires Shaped(row) && AllGood(matches)
    ensures Settled(row, RowAfter(row, matches, tool, assemblyId), matches, tool, assemblyId)
    decreases |matches|
  {
    hide Equivalent, FilledRow, Good, CellSettled, Annotated, Shaped, Missing, TextValue;
    GoodValues(matches);
    if matches == [] {
      NothingTaken(row, tool, assemblyId);
    } else {
      var last, earlier := matches[|matches| - 1], matches[..|matches| - 1];
      assert last in matches && matches == earlier + [last];
      RowSettles(row, earlier, tool, assemblyId);
      FitsStayAfter(row, earlier, tool, assemblyId, last);
      FitsMore(row, earlier, last, tool, assemblyId);
      var middle := RowAfter(row, earlier, tool, assemblyId);
      var after := RowAfter(row, matches, tool, assemblyId);
      forall i | 0 <= i < DERIVED ensures CellSettled(row, after, matches, tool, assemblyId, i) {
        NextCell(row, middle, earlier, last, tool, assemblyId, i);
      }
      if Equivalent(row, tool, last.machine, assemblyId) {
        FilledTook(middle, last);
        if FitsAny(row, earlier, tool, assemblyId) {
          AnnotatedTwice(row, middle, after);
        }
      }
    }
  }

  /* ---- The whole choice ---- */

  /** A row other than the saved one, after the choice: it was taken through all the matches. */
  lemma RowOfChoice(rows: seq<OffRow>, at: nat, matches: seq<Match>, choice: Choice, ids: seq<string>,
                    normalize: string -> string, k: nat)
    requires AllShaped(rows) && at < |rows| && k < |rows| && k != at && matches != []
    requires (forall m :: m in matches ==> |m.values| == DERIVED) && |ids| == |Went(rows, at, matches, choice).creates|
    ensures Applied(rows, at, matches, choice, ids, normalize)[k]
         == RowAfter(rows[k], matches, ToolOf(rows[at]), TextValue(rows[at].assemblyId))
  {
    hide Equivalent, FilledRow, Changes, ToolOf, TextValue, NewRows, Shaped, Pass;
    var tool, assemblyId := ToolOf(rows[at]), TextValue(rows[at].assemblyId);
    var first := Begin(rows, at, matches, choice);
    PassRow(first.rows, first.rest, tool, assemblyId, k);
    if choice != AddOnly {
      assert matches == [matches[0]] + matches[1..];
      FirstMatch(rows[k], matches[0], matches[1..], tool, assemblyId);
      BeginRow(rows, at, matches, k);
    }
  }

  lemma BeginRow(rows: seq<OffRow>, at: nat, matches: seq<Match>, k: nat)
    requires AllShaped(rows) && at < |rows| && k < |rows| && k != at && matches != []
    requires forall m :: m in matches ==> |m.values| == DERIVED
    ensures Begin(rows, at, matches, UpdateAndAdd).rows[k]
         == Stepped(rows[k], matches[0], ToolOf(rows[at]), TextValue(rows[at].assemblyId))
  {
    hide Equivalent, FilledRow, Changes, ToolOf, TextValue, Shaped;
  }

  /** In a row other than the saved one, a placeholder takes what a match for the row has, when one has something,
      and every other cell stays; the context and the verification follow the kind of the row. */
  lemma ChoiceSettles(rows: seq<OffRow>, at: nat, matches: seq<Match>, choice: Choice, ids: seq<string>,
                      normalize: string -> string, k: nat)
    requires AllShaped(rows) && at < |rows| && k < |rows| && k != at && matches != [] && AllGood(matches)
    requires |ids| == |Went(rows, at, matches, choice).creates|
    ensures Settled(rows[k], Applied(rows, at, matches, choice, ids, normalize)[k], matches, ToolOf(rows[at]),
                    TextValue(rows[at].assemblyId))
  {
    hide Applied, Went, Good, ToolOf, TextValue, Shaped, RowAfter, Settled;
    GoodValues(matches);
    RowOfChoice(rows, at, matches, choice, ids, normalize, k);
    RowSettles(rows[k], matches, ToolOf(rows[at]), TextValue(rows[at].assemblyId));
  }

  /* ---- The saved row ---- */

  /** An off-machine row fits no match. */
  lemma OffFitsNone(row: OffRow, m: Match, tool: string, assemblyId: string)
    requires Shaped(row) && IsOffMachine(row) && Good(m)
    ensures !Equivalent(row, tool, m.machine, assemblyId)
  {
    hide Machines, Missing, TextValue, ToolKey, FirstText, Token;
    CanonicalToken(m.machine);
    PlaceholderNamesNone(row.cells[PRESS], m.machine);
    forall i | 0 <= i < |row.elsewhere| ensures m.machine !in Machines(row.elsewhere[i]) {
      PlaceholderNamesNone(row.elsewhere[i], m.machine);
    }
  }

  /** Once it was brought to a machine it fits that one alone. */
  lemma BroughtFitsOne(row: OffRow, m: Match, n: Match, tool: string, assemblyId: string)
    requires Shaped(row) && IsOffMachine(row) && Good(m) && Good(n) && n.machine != m.machine
    ensures !Equivalent(FilledRow(row, m), tool, n.machine, assemblyId)
  {
    hide Machines, Missing, TextValue, ToolKey, FirstText, Token, Lower;
    CanonicalToken(n.machine);
    CanonicalText(m.machine);
    MachinesOfOne(m.machine);
    forall i | 0 <= i < |row.elsewhere| ensures n.machine !in Machines(row.elsewhere[i]) {
      PlaceholderNamesNone(row.elsewhere[i], n.machine);
    }
  }

  lemma {:induction false} FitsNone(row: OffRow, matches: seq<Match>, tool: string, assemblyId: string)
    requires Shaped(row) && AllGood(matches)
    requires forall m :: m in matches ==> !Equivalent(row, tool, m.machine, assemblyId)
    ensures RowAfter(row, matches, tool, assemblyId) == row
    decreases |matches|
  {
    hide Equivalent, FilledRow, Good, Shaped;
    GoodValues(matches);
    if matches != [] {
      assert matches[|matches| - 1] in matches;
      FitsNone(row, matches[..|matches| - 1], tool, assemblyId);
    }
  }

  /** The saved row is brought to the first machine when that is asked for and no other row stands for it yet;
      otherwise it is left alone. */
  lemma SavedRow(rows: seq<OffRow>, at: nat, matches: seq<Match>, choice: Choice, ids: seq<string>,
                 normalize: string -> string)
    requires AllShaped(rows) && at < |rows| && matches != [] && AllGood(matches) && IsOffMachine(rows[at])
    requires forall i, j :: 0 <= i < j < |matches| ==> matches[i].machine != matches[j].machine
    requires |ids| == |Went(rows, at, matches, choice).creates|
    ensures var tool, assemblyId := ToolOf(rows[at]), TextValue(rows[at].assemblyId);
      var after := Applied(rows, at, matches, choice, ids, normalize)[at];
      if choice == UpdateAndAdd && !Has(rows, tool, matches[0].machine, assemblyId, at)
      then Took(rows[at], after, matches[0]) else after == rows[at]
  {
    hide Equivalent, FilledRow, FilledRows, Changes, ToolOf, TextValue, NewRows, Shaped, Pass, Good,
         IsOffMachine, Has, Took;
    GoodValues(matches);
    var tool, assemblyId := ToolOf(rows[at]), TextValue(rows[at].assemblyId);
    var first := Begin(rows, at, matches, choice);
    PassRow(first.rows, first.rest, tool, assemblyId, at);
    assert AllGood(first.rest);
    if choice == UpdateAndAdd && !Has(rows, tool, matches[0].machine, assemblyId, at) {
      FilledTook(rows[at], matches[0]);
      forall n | n in first.rest ensures !Equivalent(first.rows[at], tool, n.machine, assemblyId) {
        var j :| 0 <= j < |matches[1..]| && matches[1..][j] == n;
        BroughtFitsOne(rows[at], matches[0], n, tool, assemblyId);
      }
    } else {
      AsideStays(rows, at, matches, choice);
      forall n | n in first.rest ensures !Equivalent(first.rows[at], tool, n.machine, assemblyId) {
        OffFitsNone(rows[at], n, tool, assemblyId);
      }
    }
    FitsNone(first.rows[at], first.rest, tool, assemblyId);
  }

  lemma AsideStays(rows: seq<OffRow>, at: nat, matches: seq<Match>, choice: Choice)
    requires AllShaped(rows) && at < |rows| && matches != [] && forall m :: m in matches ==> |m.values| == DERIVED
    requires choice == AddOnly || Has(rows, ToolOf(rows[at]), matches[0].machine, TextValue(rows[at].assemblyId), at)
    ensures Begin(rows, at, matches, choice).rows[at] == rows[at]
  {
    hide Equivalent, FilledRow, Changes, ToolOf, TextValue, Shaped, Has;
  }

  /* ---- The rows that are added ---- */

  /** A compatible row for the match: it has the new ID, the match's value wherever there is one and the source's
      elsewhere, no blank cell, and no machine in the other columns. */
  ghost predicate IsAdded(row: OffRow, source: OffRow, m: Match, id: string, normalize: string -> string)
    requires Shaped(row) && Shaped(source) && |m.values| == DERIVED
  {
    && row.auditId == id && Lower(TextValue(row.entryType)) == "compatible"
    && row.context == "Compatibility row" && row.verified == "No"
    && row.assemblyId == normalize(source.assemblyId)
    && TextValue(FirstText(row.parts)) == TextValue(ToolOf(source))
    && |row.elsewhere| == |source.elsewhere| && (forall j :: 0 <= j < |row.elsewhere| ==> row.elsewhere[j] == "")
    && forall i :: 0 <= i < DERIVED ==> CellAdded(row.cells[i], source.cells[i], m.values[i], i)
  }

  ghost predicate CellAdded(cell: string, source: string, value: string, i: nat)
  {
    && (TextValue(value) != "" ==> cell == value)
    && (TextValue(value) == "" && Strip(source) != "" ==> cell == source)
    && (TextValue(value) == "" && Strip(source) == "" ==>
          cell == if i == 4 && source == "" then "Unknown / Not Checked" else "N/A")
  }

  /** The rows that are added stand behind those that were there, one for each match to be created. */
  lemma AddedRows(rows: seq<OffRow>, at: nat, matches: seq<Match>, choice: Choice, ids: seq<string>,
                  normalize: string -> string, j: nat)
    requires AllShaped(rows) && at < |rows| && matches != [] && forall m :: m in matches ==> |m.values| == DERIVED
    requires |ids| == |Went(rows, at, matches, choice).creates| && j < |ids|
    ensures var after := Applied(rows, at, matches, choice, ids, normalize);
      && |after| == |rows| + |ids|
      && IsAdded(after[|rows| + j], rows[at], Went(rows, at, matches, choice).creates[j], ids[j], normalize)
  {
    hide Begin, Pass, Shaped, IsAdded, NewRow, ToolOf, TextValue;
    var went := Went(rows, at, matches, choice);
    var added := NewRows(rows[at], went.creates, ids, normalize);
    assert Applied(rows, at, matches, choice, ids, normalize)[|rows| + j] == added[j];
    NewRowAdded(rows[at], went.creates[j], ids[j], normalize);
  }

  lemma NewRowAdded(source: OffRow, m: Match, id: string, normalize: string -> string)
    requires Shaped(source) && |m.values| == DERIVED
    ensures IsAdded(NewRow(source, m, id, ToolOf(source), normalize), source, m, id, normalize)
  {
    hide TextValue, Strip, FirstText, ToolOf, Lower;
    var tool := ToolOf(source);
    var cell := if Strip(tool) == "" then "N/A" else tool;
    StripEmpty();
    ThirdText(["", "", cell, "", "", ""], cell);
    ToolText(tool);
    CompatibleKind();
  }

  lemma CompatibleKind()
    ensures Lower(TextValue("Compatible")) == "compatible"
  {
    hide Strip;
    StripFixed("Compatible");
    assert |NoneText()| == 3;
  }

  lemma ToolText(tool: string)
    ensures TextValue(TextValue(if Strip(tool) == "" then "N/A" else tool)) == TextValue(tool)
  {
    hide Strip;
    StripFixed("N/A");
    StripFixed("n/a");
    StripTwice(tool);
    StripEmpty();
    assert Lower("N/A") == "n/a" && Lower("n/a") == "n/a" && Lower("") == "";
  }

  /* ---- Which rows stand for a match ---- */

  /** A row stands for a machine and a tool when its part number is the tool, the machine is named in the press
      column or another machine column, and the EOAT ID, if one is asked for, is its own. */
  lemma EquivalentWhen(row: OffRow, tool: string, machine: string, assemblyId: string)
    requires Shaped(row)
    ensures Equivalent(row, tool, machine, assemblyId) <==>
      && ToolKey(FirstText(row.parts)) == ToolKey(tool)
      && (exists cell :: cell in [row.cells[1]] + row.elsewhere && Token(machine) in Machines(cell))
      && (assemblyId == "" || TextValue(row.assemblyId) == assemblyId)
  {
    hide ToolKey, FirstText, TextValue, Token, Machines;
    var cells := [row.cells[1]] + row.elsewhere;
    if HasMachine(row, Token(machine)) {
      if Token(machine) in Machines(row.cells[1]) {
        assert cells[0] in cells;
      } else {
        var i :| 0 <= i < |row.elsewhere| && Token(machine) in Machines(row.elsewhere[i]);
        assert cells[i + 1] in cells;
      }
    }
  }

  /** The tool of the saved row: its tool cell, or else the first part number. */
  lemma ToolOfTold(row: OffRow)
    requires Shaped(row)
    ensures Strip(row.parts[2]) != "" ==> ToolOf(row) == Strip(row.parts[2])
    ensures Strip(row.parts[2]) == "" ==> ToolOf(row) == FirstText(row.parts)
  {
  }

  /** The saved row counts as updated exactly when a placeholder takes a value or an open annotation is filled in. */
  lemma ChangesWhen(row: OffRow, m: Match)
    requires Shaped(row) && |m.values| == 7
    ensures Changes(row, m) <==>
      || (exists i :: 0 <= i < 7 && Missing(row.cells[i]) && TextValue(m.values[i]) != "")
      || Missing(TextValue(row.context)) || Lower(TextValue(row.context)) == "not installed / bench audit"
      || Missing(row.verified)
  {
    hide Missing, TextValue, Lower;
  }

  /** A row has the seven columns that a machine brings along, and six that a part number may stand in. */
  lemma ShapedWhen(row: OffRow)
    ensures Shaped(row) <==> |row.cells| == 7 && |row.parts| == 6
  {
  }

  /** New IDs are those of no row that was there. */
  lemma NewIdsAreNew(rows: seq<OffRow>, ids: seq<string>, i: nat)
    requires AuditIds.NewIds(ids, IdsOf(rows)) && i < |ids|
    ensures forall row :: row in rows ==> TextValue(row.auditId) != ids[i]
    ensures forall j :: 0 <= j < |ids| && j != i ==> ids[j] != ids[i]
  {
    hide TextValue;
    forall row | row in rows ensures TextValue(row.auditId) in IdsOf(rows) {}
  }
}
