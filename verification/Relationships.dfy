/** Inventory rows against the machine and tool pairs that press capacity requires
    (core/audit_compatibility.py). */
module Relationships {
  import opened Text
  import opened Tokens

  datatype Kind = Audited | Compatible

  /** An inventory row, by the columns that the relationships are read from: the press column, the columns a
      part number may stand in and those a description may stand in, by preference. */
  datatype Row = Row(auditId: string, press: string, parts: seq<string>, descriptions: seq<string>,
                     entryType: string, sourceId: string, eoatType: string)

  /** A machine and a tool that press capacity puts together. */
  datatype Relationship = Relationship(machine: string, part: string, description: string)
  {
    function Key(): Key { KeyOf(machine, part) }
  }

  function FirstText(cells: seq<string>): string
  {
    if cells == [] then "" else if TextValue(cells[0]) != "" then TextValue(cells[0]) else FirstText(cells[1..])
  }

  /** A cell without a text is passed over. */
  lemma PassOver(cells: seq<string>)
    requires cells != [] && TextValue(cells[0]) == ""
    ensures FirstText(cells) == FirstText(cells[1..])
  {
    hide TextValue;
  }

  /** With nothing but the third of six cells filled, that one counts. */
  lemma ThirdText(cells: seq<string>, cell: string)
    requires |cells| == 6 && cells[2] == cell && forall i :: 0 <= i < 6 && i != 2 ==> cells[i] == ""
    ensures FirstText(cells) == TextValue(cell)
  {
    hide TextValue;
    EmptyText();
    PassOver(cells);
    PassOver(cells[1..]);
    var rest := cells[1..][1..];
    if TextValue(cell) == "" {
      PassOver(rest);
      PassOver(rest[1..]);
      PassOver(rest[1..][1..]);
      PassOver(rest[1..][1..][1..]);
    }
  }

  function CompatibleText(): string { "compatible" }

  /** `normalize_entry_type`. */
  function KindOf(row: Row): Kind
  {
    if Lower(TextValue(row.entryType)) == CompatibleText() then Compatible else Audited
  }

  /** The keys of a row, one for each machine it names. */
  function KeysIn(row: Row): seq<Key>
  {
    var part := FirstText(row.parts);
    if part == "" then [] else KeysFor(Machines(row.press), part)
  }

  function KeysFor(machines: seq<string>, part: string): (keys: seq<Key>)
    ensures |keys| == |machines| && forall i :: 0 <= i < |machines| ==> keys[i] == KeyOf(machines[i], part)
  {
    seq(|machines|, i requires 0 <= i < |machines| => KeyOf(machines[i], part))
  }

  /* ---- The summary by key ---- */

  /** The rows under one key, in the order of the sheet. */
  function Under(rows: seq<Row>, key: Key): seq<Row>
  {
    if rows == [] then []
    else
      var last := rows[|rows| - 1];
      Under(rows[..|rows| - 1], key) + Repeated(last, KeysIn(last), key)
  }

  function Repeated(row: Row, keys: seq<Key>, key: Key): seq<Row>
  {
    if keys == [] then []
    else Repeated(row, keys[..|keys| - 1], key) + if keys[|keys| - 1] == key then [row] else []
  }

  lemma {:induction false} RepeatedAre(row: Row, keys: seq<Key>, key: Key)
    ensures forall r :: r in Repeated(row, keys, key) <==> r == row && key in keys
  {
    if keys != [] {
      RepeatedAre(row, keys[..|keys| - 1], key);
      assert keys == keys[..|keys| - 1] + [keys[|keys| - 1]];
    }
  }

  /** A row is under a key exactly when the key is one of its own. */
  lemma {:induction false} UnderAre(rows: seq<Row>, key: Key)
    ensures forall r :: r in Under(rows, key) <==> r in rows && key in KeysIn(r)
  {
    hide KeysIn;
    if rows != [] {
      var last := rows[|rows| - 1];
      UnderAre(rows[..|rows| - 1], key);
      RepeatedAre(last, KeysIn(last), key);
      assert rows == rows[..|rows| - 1] + [last];
    }
  }

  /** `summary` holds every key with rows under it, and the rows. */
  ghost predicate Summarizes(summary: map<Key, seq<Row>>, rows: seq<Row>)
  {
    forall key :: SummarizedAt(summary, rows, key)
  }

  ghost predicate SummarizedAt(summary: map<Key, seq<Row>>, rows: seq<Row>, key: Key)
  {
    (key in summary <==> Under(rows, key) != []) && (key in summary ==> summary[key] == Under(rows, key))
  }

  /** The summary while a row is being added, up to some of its keys. */
  ghost predicate Adding(summary: map<Key, seq<Row>>, rows: seq<Row>, row: Row, keys: seq<Key>)
  {
    forall key :: AddingAt(summary, rows, row, keys, key)
  }

  ghost predicate AddingAt(summary: map<Key, seq<Row>>, rows: seq<Row>, row: Row, keys: seq<Key>, key: Key)
  {
    && Entry(summary, key) == Under(rows, key) + Repeated(row, keys, key)
    && (key in summary ==> summary[key] != [])
  }

  lemma AddStart(summary: map<Key, seq<Row>>, rows: seq<Row>, row: Row)
    requires Summarizes(summary, rows)
    ensures Adding(summary, rows, row, [])
  {
    hide Under;
    forall key ensures AddingAt(summary, rows, row, [], key) {
      assert SummarizedAt(summary, rows, key);
      assert Under(rows, key) + Repeated(row, [], key) == Under(rows, key);
    }
  }

  lemma AddKey(summary: map<Key, seq<Row>>, rows: seq<Row>, row: Row, keys: seq<Key>, k: nat)
    requires k < |keys| && Adding(summary, rows, row, keys[..k])
    ensures Adding(summary[keys[k] := Entry(summary, keys[k]) + [row]], rows, row, keys[..k + 1])
  {
    hide Under;
    assert keys[..k + 1][..k] == keys[..k];
    var more, done := summary[keys[k] := Entry(summary, keys[k]) + [row]], keys[..k + 1];
    forall key ensures AddingAt(more, rows, row, done, key) {
      assert AddingAt(summary, rows, row, keys[..k], key);
      if key == keys[k] {
        assert Under(rows, key) + Repeated(row, keys[..k], key) + [row]
            == Under(rows, key) + Repeated(row, keys[..k + 1], key);
      } else {
        assert Repeated(row, keys[..k + 1], key) == Repeated(row, keys[..k], key);
      }
    }
  }

  lemma AddEnd(summary: map<Key, seq<Row>>, rows: seq<Row>, i: nat)
    requires i < |rows| && Adding(summary, rows[..i], rows[i], KeysIn(rows[i]))
    ensures Summarizes(summary, rows[..i + 1])
  {
    hide KeysIn, Repeated;
    assert rows[..i + 1][..i] == rows[..i];
    var more := rows[..i + 1];
    forall key ensures SummarizedAt(summary, more, key) {
      assert AddingAt(summary, rows[..i], rows[i], KeysIn(rows[i]), key);
    }
  }

  /** `summarize_master_relationships`, filling its dictionary. */
  method Summarize(rows: seq<Row>) returns (summary: map<Key, seq<Row>>)
    ensures Summarizes(summary, rows)
  {
    hide KeysIn, Summarizes, Adding, Entry;
    summary := map[];
    NoRows();
    for i := 0 to |rows|
      invariant Summarizes(summary, rows[..i])
    {
      var row, keys := rows[i], KeysIn(rows[i]);
      AddStart(summary, rows[..i], row);
      for k := 0 to |keys|
        invariant Adding(summary, rows[..i], row, keys[..k])
      {
        AddKey(summary, rows[..i], row, keys, k);
        summary := summary[keys[k] := Entry(summary, keys[k]) + [row]];
      }
      assert keys[..|keys|] == keys;
      AddEnd(summary, rows, i);
    }
    assert rows[..|rows|] == rows;
  }

  lemma NoRows()
    ensures Summarizes(map[], [])
  {
  }

  function Entry(summary: map<Key, seq<Row>>, key: Key): seq<Row>
  {
    if key in summary then summary[key] else []
  }

  /* ---- What press capacity requires ---- */

  /** A capacity row: the part, the description and the machines it names. */
  datatype Capacity = Capacity(part: string, description: string, machines: string)

  /** The relationships of the first rows, the first one for each key. */
  function Required(cells: seq<Capacity>): seq<Relationship>
  {
    if cells == [] then []
    else
      var last := cells[|cells| - 1];
      Joined(Required(cells[..|cells| - 1]), Strip(last.part), TextValue(last.description), Machines(last.machines))
  }

  function Joined(before: seq<Relationship>, part: string, description: string,
                  machines: seq<string>): seq<Relationship>
  {
    if Tool(part) == "" || machines == [] then before
    else
      var rest := Joined(before, part, description, machines[..|machines| - 1]);
      var key := KeyOf(machines[|machines| - 1], part);
      if HasKey(rest, key) then rest else rest + [Relationship(key.0, part, description)]
  }

  predicate HasKey(required: seq<Relationship>, key: Key)
  {
    exists i :: 0 <= i < |required| && required[i].Key() == key
  }

  /** What is known of the relationships that were loaded: their keys differ, and say what their machine and
      part say. */
  ghost predicate Sound(required: seq<Relationship>)
  {
    && (forall i, j :: 0 <= i < j < |required| ==> required[i].Key() != required[j].Key())
    && (forall i :: 0 <= i < |required| ==> SoundOne(required[i]))
  }

  ghost predicate SoundOne(r: Relationship)
  {
    Canonical(r.machine) && ',' !in r.machine && Strip(r.part) == r.part && Tool(r.part) != ""
  }

  lemma {:induction false} JoinedSound(before: seq<Relationship>, cell: string, description: string, machines: string,
                                       k: nat)
    requires Sound(before) && k <= |Machines(machines)|
    ensures Sound(Joined(before, Strip(cell), description, Machines(machines)[..k]))
  {
    hide Machines, Strip, Tool, ToolKey, Token;
    var ms := Machines(machines)[..k];
    if k > 0 && Tool(Strip(cell)) != "" {
      assert ms[..k - 1] == Machines(machines)[..k - 1];
      JoinedSound(before, cell, description, machines, k - 1);
      MachineKey(machines, ms[k - 1]);
      StripTwice(cell);
      assert Canonical(Token(ms[k - 1]));
    }
  }

  lemma {:induction false} RequiredSound(cells: seq<Capacity>)
    ensures Sound(Required(cells))
  {
    hide Joined, Strip, TextValue, Machines, Sound;
    if cells != [] {
      var last := cells[|cells| - 1];
      RequiredSound(cells[..|cells| - 1]);
      JoinedSound(Required(cells[..|cells| - 1]), last.part, TextValue(last.description), last.machines,
                  |Machines(last.machines)|);
      assert Machines(last.machines)[..|Machines(last.machines)|] == Machines(last.machines);
    } else {
      NothingSound();
    }
  }

  lemma NothingSound()
    ensures Sound([])
  {
  }

  /** The capacity row names the key. */
  ghost predicate NamesKey(cell: Capacity, key: Key)
  {
    Tool(Strip(cell.part)) != "" && exists m :: m in Machines(cell.machines) && KeyOf(m, Strip(cell.part)) == key
  }

  /** The relationship stands for a capacity row. */
  ghost predicate StandsFor(r: Relationship, cell: Capacity)
  {
    && NamesKey(cell, r.Key()) && r.part == Strip(cell.part) && r.description == TextValue(cell.description)
    && r.machine == r.Key().0
  }

  ghost predicate AmongFirst(machines: seq<string>, part: string, key: Key, k: nat)
    requires k <= |machines|
  {
    exists i :: 0 <= i < k && KeyOf(machines[i], part) == key
  }

  /** Joining a capacity row adds its keys that are new, and nothing else. */
  lemma {:induction false} JoinedKeys(before: seq<Relationship>, cell: Capacity, k: nat, key: Key)
    requires k <= |Machines(cell.machines)|
    ensures var machines, part := Machines(cell.machines), Strip(cell.part);
      var joined := Joined(before, part, TextValue(cell.description), machines[..k]);
      && (HasKey(joined, key) <==> HasKey(before, key) || (Tool(part) != "" && AmongFirst(machines, part, key, k)))
      && (forall r :: r in before ==> r in joined)
      && (forall r :: r in joined && r !in before ==> StandsFor(r, cell) && !HasKey(before, r.Key()))
  {
    hide Machines, Strip, TextValue, Token, ToolKey, Tool, StandsFor;
    var machines, part := Machines(cell.machines), Strip(cell.part);
    if k > 0 {
      JoinedKeys(before, cell, k - 1, key);
      assert machines[..k][..k - 1] == machines[..k - 1] && machines[..k][k - 1] == machines[k - 1];
      if Tool(part) != "" {
        var last := KeyOf(machines[k - 1], part);
        JoinedKeys(before, cell, k - 1, last);
        assert machines[k - 1] in machines;
        KeysAreCanonical(cell.machines, machines[k - 1], part);
        var rest := Joined(before, part, TextValue(cell.description), machines[..k - 1]);
        var r := Relationship(last.0, part, TextValue(cell.description));
        assert r.Key() == last;
        OneMore(rest, r, key);
        OneMoreMachine(machines, part, key, k);
        Stands(r, cell, machines[k - 1]);
      }
    }
  }

  lemma OneMore(rest: seq<Relationship>, r: Relationship, key: Key)
    ensures HasKey(rest + [r], key) <==> HasKey(rest, key) || r.Key() == key
  {
    hide KeyOf;
    assert (rest + [r])[|rest|] == r;
    if HasKey(rest, key) {
      var i :| 0 <= i < |rest| && rest[i].Key() == key;
      assert (rest + [r])[i] == rest[i];
    }
  }

  lemma OneMoreMachine(machines: seq<string>, part: string, key: Key, k: nat)
    requires 0 < k <= |machines|
    ensures AmongFirst(machines, part, key, k) <==>
      AmongFirst(machines, part, key, k - 1) || KeyOf(machines[k - 1], part) == key
  {
    hide KeyOf;
  }

  lemma Stands(r: Relationship, cell: Capacity, machine: string)
    requires machine in Machines(cell.machines) && Tool(Strip(cell.part)) != ""
    requires r == Relationship(r.Key().0, Strip(cell.part), TextValue(cell.description))
    requires r.Key() == KeyOf(machine, Strip(cell.part))
    ensures StandsFor(r, cell)
  {
    hide Machines, Strip, TextValue, Tool, KeyOf;
  }

  /** A key is required exactly when a capacity row names it; a relationship stands for the first row that does. */
  lemma {:induction false} RequiredTold(cells: seq<Capacity>, key: Key)
    ensures HasKey(Required(cells), key) <==> exists i :: 0 <= i < |cells| && NamesKey(cells[i], key)
    ensures forall r :: r in Required(cells) ==>
      exists i :: 0 <= i < |cells| && StandsFor(r, cells[i]) && forall j :: 0 <= j < i ==> !NamesKey(cells[j], r.Key())
  {
    hide Joined, Machines, Strip, TextValue, Tool, KeyOf, StandsFor, NamesKey;
    if cells != [] {
      var n := |cells| - 1;
      var last, earlier := cells[n], cells[..n];
      RequiredTold(earlier, key);
      JoinedAll(Required(earlier), last, key);
      assert forall i :: 0 <= i < n ==> earlier[i] == cells[i];
      assert cells[n] == last;
      forall r | r in Required(cells)
        ensures exists i :: 0 <= i < |cells| && StandsFor(r, cells[i])
                  && forall j :: 0 <= j < i ==> !NamesKey(cells[j], r.Key())
      {
        if r !in Required(earlier) {
          RequiredTold(earlier, r.Key());
        } else {
          var i :| 0 <= i < n && StandsFor(r, earlier[i])
                   && forall j :: 0 <= j < i ==> !NamesKey(earlier[j], r.Key());
          assert StandsFor(r, cells[i]);
        }
      }
    }
  }

  lemma JoinedAll(before: seq<Relationship>, cell: Capacity, key: Key)
    ensures var joined := Joined(before, Strip(cell.part), TextValue(cell.description), Machines(cell.machines));
      && (HasKey(joined, key) <==> HasKey(before, key) || NamesKey(cell, key))
      && (forall r :: r in joined && r !in before ==> StandsFor(r, cell) && !HasKey(before, r.Key()))
  {
    hide Joined, Strip, TextValue, Tool, KeyOf, StandsFor, HasKey, Collected;
    var machines := Machines(cell.machines);
    assert machines[..|machines|] == machines;
    JoinedKeys(before, cell, |machines|, key);
  }

  /* ---- The keys of a row ---- */

  /** The first of several cells that hold a text counts. */
  lemma {:induction false} FirstTextTold(cells: seq<string>)
    ensures FirstText(cells) == "" <==> forall i :: 0 <= i < |cells| ==> TextValue(cells[i]) == ""
    ensures forall i :: 0 <= i < |cells| && TextValue(cells[i]) != "" ==>
      (forall j :: 0 <= j < i ==> TextValue(cells[j]) == "") ==> FirstText(cells) == TextValue(cells[i])
  {
    hide TextValue;
    if cells != [] {
      FirstTextTold(cells[1..]);
      if TextValue(cells[0]) == "" {
        forall i | 0 < i < |cells| ensures cells[i] == cells[1..][i - 1] {}
      }
    }
  }

  /** A row has the keys of its part number on the machines of its press column; without a part number it has none. */
  lemma KeysInAre(row: Row, key: Key)
    ensures key in KeysIn(row) <==>
      FirstText(row.parts) != "" && exists m :: m in Machines(row.press) && KeyOf(m, FirstText(row.parts)) == key
  {
    hide FirstText, KeyOf, Machines;
    var part, machines := FirstText(row.parts), Machines(row.press);
    if part != "" {
      var keys := KeysFor(machines, part);
      if m :| m in machines && KeyOf(m, part) == key {
        var i :| 0 <= i < |machines| && machines[i] == m;
        assert keys[i] == key;
      }
    }
  }
}
