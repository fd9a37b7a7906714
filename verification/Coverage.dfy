/** Which required relationships the inventory covers (core/audit_progress.py). */
module Coverage {
  import opened Wrappers
  import opened Tokens
  import opened Relationships

  /** A row of this kind has the key. */
  ghost predicate Linked(rows: seq<Row>, key: Key, kind: Kind)
  {
    exists r :: r in rows && LinkedBy(r, key, kind)
  }

  predicate LinkedBy(row: Row, key: Key, kind: Kind)
  {
    key in KeysIn(row) && KindOf(row) == kind
  }

  function KeySet(required: seq<Relationship>): set<Key>
  {
    set r | r in required :: r.Key()
  }

  /** The required keys with a row of the kind. */
  ghost function Keys(required: seq<Relationship>, rows: seq<Row>, kind: Kind): set<Key>
  {
    set key | key in KeySet(required) && Linked(rows, key, kind)
  }

  ghost function Covered(required: seq<Relationship>, rows: seq<Row>): set<Key>
  {
    Keys(required, rows, Audited) + Keys(required, rows, Compatible)
  }

  ghost function Uncovered(required: seq<Relationship>, rows: seq<Row>): set<Key>
  {
    KeySet(required) - Covered(required, rows)
  }

  /* ---- As the report computes them ---- */

  predicate HasKind(rows: seq<Row>, kind: Kind)
  {
    exists r :: r in rows && KindOf(r) == kind
  }

  lemma HasKindUnder(rows: seq<Row>, key: Key, kind: Kind)
    ensures HasKind(Under(rows, key), kind) <==> Linked(rows, key, kind)
  {
    hide KeysIn, Under;
    UnderAre(rows, key);
    if Linked(rows, key, kind) {
      var r :| r in rows && LinkedBy(r, key, kind);
      assert r in Under(rows, key);
    }
    if HasKind(Under(rows, key), kind) {
      var r :| r in Under(rows, key) && KindOf(r) == kind;
      assert LinkedBy(r, key, kind);
    }
  }

  /** The key sets of the report, from the dictionary of the rows. */
  method Cover(required: seq<Relationship>, rows: seq<Row>)
    returns (audited: set<Key>, compatible: set<Key>, covered: set<Key>, missing: set<Key>)
    ensures audited == Keys(required, rows, Audited) && compatible == Keys(required, rows, Compatible)
    ensures covered == Covered(required, rows) && missing == Uncovered(required, rows)
  {
    hide Linked, KeysIn, Under, HasKind;
    var summary := Summarize(rows);
    var keys := KeySet(required);
    audited := set key | key in summary.Keys && key in keys && HasKind(summary[key], Audited);
    compatible := set key | key in summary.Keys && key in keys && HasKind(summary[key], Compatible);
    covered := audited + compatible;
    missing := keys - covered;
    forall key, kind: Kind ensures key in summary && HasKind(summary[key], kind) <==> Linked(rows, key, kind) {
      assert SummarizedAt(summary, rows, key);
      HasKindUnder(rows, key, kind);
      NoneOfKind(kind);
    }
  }

  lemma NoneOfKind(kind: Kind)
    ensures !HasKind([], kind)
  {
  }

  /** Covered and uncovered make up what is required. */
  lemma CoverageAddsUp(required: seq<Relationship>, rows: seq<Row>)
    ensures |Covered(required, rows)| + |Uncovered(required, rows)| == |KeySet(required)|
  {
    hide Linked;
    var k, c := KeySet(required), Covered(required, rows);
    assert k == c + Uncovered(required, rows);
  }

  /** One more row, of whatever kind and wherever it stands, uncovers nothing. */
  lemma MoreRowsCoverMore(required: seq<Relationship>, before: seq<Row>, row: Row, after: seq<Row>)
    ensures Covered(required, before + after) <= Covered(required, before + [row] + after)
    ensures Uncovered(required, before + [row] + after) <= Uncovered(required, before + after)
  {
    hide KeysIn, Relationships.KindOf;
    forall key, kind: Kind | Linked(before + after, key, kind) ensures Linked(before + [row] + after, key, kind) {
      var r :| r in before + after && LinkedBy(r, key, kind);
      assert r in before + [row] + after;
    }
  }

  /* ---- Groups ---- */

  function MachineOf(key: Key): string { key.0 }
  function PartOf(key: Key): string { key.1 }

  /** The keys of one machine, or of one part. */
  ghost function Of(keys: set<Key>, side: Key -> string, name: string): set<Key>
  {
    set key | key in keys && side(key) == name
  }

  ghost function Sizes(keys: set<Key>, side: Key -> string, names: seq<string>): nat
  {
    if names == [] then 0 else |Of(keys, side, names[0])| + Sizes(keys, side, names[1..])
  }

  lemma {:induction false} SizesWithout(keys: set<Key>, side: Key -> string, names: seq<string>, name: string)
    requires name !in names
    ensures Sizes(keys - Of(keys, side, name), side, names) == Sizes(keys, side, names)
  {
    if names != [] {
      assert Of(keys - Of(keys, side, name), side, names[0]) == Of(keys, side, names[0]);
      SizesWithout(keys, side, names[1..], name);
    }
  }

  /** Group by group the keys add up to all of them. */
  lemma {:induction false} GroupsAddUp(keys: set<Key>, side: Key -> string, names: seq<string>)
    requires Distinct(names) && forall key :: key in keys ==> side(key) in names
    ensures Sizes(keys, side, names) == |keys|
  {
    if names != [] {
      var mine := Of(keys, side, names[0]);
      forall key | key in keys - mine ensures side(key) in names[1..] {
        assert side(key) in names;
      }
      GroupsAddUp(keys - mine, side, names[1..]);
      SizesWithout(keys, side, names[1..], names[0]);
      assert keys == mine + (keys - mine);
    } else {
      assert keys == {};
    }
  }

  /* ---- Machine by machine ---- */

  datatype MachineCoverage = MachineCoverage(machine: string, required: nat, audited: nat, compatible: nat,
                                             covered: nat, remaining: int)

  ghost function Line(keys: set<Key>, audited: set<Key>, compatible: set<Key>, covered: set<Key>, machine: string)
    : MachineCoverage
  {
    var mine := Of(keys, MachineOf, machine);
    MachineCoverage(machine, |mine|, |mine * audited|, |mine * compatible|, |mine * covered|, |mine| - |mine * covered|)
  }

  /** The machines of the relationships, each once. */
  ghost predicate MachinesOf(machines: seq<string>, required: seq<Relationship>)
  {
    && Distinct(machines)
    && (forall m :: m in machines <==> exists r :: r in required && r.machine == m)
  }

  /** The dictionary from a machine to its keys, after the first relationships. */
  ghost predicate Grouped(groups: map<string, set<Key>>, machines: seq<string>, required: seq<Relationship>)
  {
    && MachinesOf(machines, required) && (forall m :: m in groups <==> m in machines)
    && (forall m :: m in groups ==> groups[m] == Of(KeySet(required), MachineOf, m))
  }

  function WithMachine(machines: seq<string>, machine: string): seq<string>
  {
    if machine in machines then machines else machines + [machine]
  }

  lemma OneMoreMachine(machines: seq<string>, done: seq<Relationship>, r: Relationship)
    requires MachinesOf(machines, done)
    ensures MachinesOf(WithMachine(machines, r.machine), done + [r])
  {
    hide KeyOf, Relationship.Key;
    assert (done + [r])[|done|] == r;
    assert forall s :: s in done ==> s in done + [r];
  }

  lemma GroupOne(groups: map<string, set<Key>>, machines: seq<string>, required: seq<Relationship>, i: nat)
    requires i < |required| && Sound(required) && Grouped(groups, machines, required[..i])
    ensures var r := required[i];
      Grouped(groups[r.machine := (if r.machine in groups then groups[r.machine] else {}) + {r.Key()}],
              if r.machine in groups then machines else machines + [r.machine], required[..i + 1])
  {
    hide KeyOf, Sound, Of, KeySet, Distinct, Relationship.Key;
    var r, done := required[i], required[..i];
    MachineIsKey(required, i);
    assert required[..i + 1] == done + [r];
    MoreKeys(done, r);
    OneMoreMachine(machines, done, r);
    if r.machine !in groups {
      NoneYet(required, i);
    }
    hide MachinesOf;
  }

  /** A machine that has not come up has no keys so far. */
  lemma NoneYet(required: seq<Relationship>, i: nat)
    requires i < |required| && Sound(required)
    requires !exists r :: r in required[..i] && r.machine == required[i].machine
    ensures Of(KeySet(required[..i]), MachineOf, required[i].machine) == {}
  {
    hide KeyOf, Sound, Relationship.Key;
    var done := required[..i];
    forall key | key in KeySet(done) ensures key.0 != required[i].machine {
      var s :| s in done && s.Key() == key;
      var j :| 0 <= j < i && done[j] == s;
      MachineIsKey(required, j);
    }
  }

  lemma MoreKeys(done: seq<Relationship>, r: Relationship)
    requires r.Key().0 == r.machine
    ensures forall m :: Of(KeySet(done + [r]), MachineOf, m)
                     == Of(KeySet(done), MachineOf, m) + if m == r.machine then {r.Key()} else {}
  {
    hide KeyOf;
    assert KeySet(done + [r]) == KeySet(done) + {r.Key()};
  }

  /** A loaded relationship names its machine as its key does. */
  lemma MachineIsKey(required: seq<Relationship>, i: nat)
    requires Sound(required) && i < |required|
    ensures required[i].Key().0 == required[i].machine
  {
    hide Token;
    assert SoundOne(required[i]);
  }

  /** `_machine_coverage`, in the order in which the machines come up. */
  method CoverMachines(required: seq<Relationship>, audited: set<Key>, compatible: set<Key>, covered: set<Key>)
    returns (lines: seq<MachineCoverage>)
    requires Sound(required)
    ensures Reported(lines, required, audited, compatible, covered)
  {
    hide Grouped, Sound, KeyOf, KeySet, Of, Relationship.Key;
    var groups: map<string, set<Key>> := map[];
    var machines: seq<string> := [];
    NoGroups();
    for i := 0 to |required|
      invariant Grouped(groups, machines, required[..i])
    {
      var r := required[i];
      GroupOne(groups, machines, required, i);
      ghost var after := groups[r.machine := (if r.machine in groups then groups[r.machine] else {}) + {r.Key()}];
      if r.machine !in groups {
        machines := machines + [r.machine];
        groups := groups[r.machine := {}];
      }
      groups := groups[r.machine := groups[r.machine] + {r.Key()}];
      assert groups == after;
    }
    assert required[..|required|] == required;
    lines := [];
    GroupsFound(groups, machines, required);
    for i := 0 to |machines|
      invariant |lines| == i
      invariant forall k :: 0 <= k < i ==> lines[k] == Line(KeySet(required), audited, compatible, covered, machines[k])
    {
      var mine := groups[machines[i]];
      lines := lines + [MachineCoverage(machines[i], |mine|, |mine * audited|, |mine * compatible|, |mine * covered|,
                                        |mine| - |mine * covered|)];
    }
    assert Named(lines) == machines;
  }

  lemma NoGroups()
    ensures Grouped(map[], [], [])
  {
  }

  lemma GroupsFound(groups: map<string, set<Key>>, machines: seq<string>, required: seq<Relationship>)
    requires Sound(required) && Grouped(groups, machines, required)
    ensures Distinct(machines) && forall key :: key in KeySet(required) ==> key.0 in machines
    ensures forall i :: 0 <= i < |machines| ==>
      machines[i] in groups && groups[machines[i]] == Of(KeySet(required), MachineOf, machines[i]) != {}
  {
    hide Sound, KeyOf;
    forall key | key in KeySet(required) ensures key.0 in machines {
      var r :| r in required && r.Key() == key;
      var j :| 0 <= j < |required| && required[j] == r;
      MachineIsKey(required, j);
    }
    forall i | 0 <= i < |machines| ensures Of(KeySet(required), MachineOf, machines[i]) != {} {
      assert machines[i] in machines;
      var r :| r in required && r.machine == machines[i];
      var j :| 0 <= j < |required| && required[j] == r;
      MachineIsKey(required, j);
      assert r.Key() in Of(KeySet(required), MachineOf, machines[i]);
    }
  }

  ghost function Named(lines: seq<MachineCoverage>): seq<string>
  {
    seq(|lines|, i requires 0 <= i < |lines| => lines[i].machine)
  }

  /** One line for each machine that is required to hold a tool, with the counts of its keys. */
  ghost predicate Reported(lines: seq<MachineCoverage>, required: seq<Relationship>,
                           audited: set<Key>, compatible: set<Key>, covered: set<Key>)
  {
    var keys := KeySet(required);
    && Distinct(Named(lines)) && (forall key :: key in keys ==> key.0 in Named(lines))
    && forall i :: 0 <= i < |lines| ==>
         lines[i] == Line(keys, audited, compatible, covered, lines[i].machine) && lines[i].required > 0
  }

  function TotalRequired(lines: seq<MachineCoverage>): nat
  {
    if lines == [] then 0 else lines[0].required + TotalRequired(lines[1..])
  }

  function TotalCovered(lines: seq<MachineCoverage>): nat
  {
    if lines == [] then 0 else lines[0].covered + TotalCovered(lines[1..])
  }

  function TotalRemaining(lines: seq<MachineCoverage>): int
  {
    if lines == [] then 0 else lines[0].remaining + TotalRemaining(lines[1..])
  }

  function TotalAudited(lines: seq<MachineCoverage>): nat
  {
    if lines == [] then 0 else lines[0].audited + TotalAudited(lines[1..])
  }

  function TotalCompatible(lines: seq<MachineCoverage>): nat
  {
    if lines == [] then 0 else lines[0].compatible + TotalCompatible(lines[1..])
  }

  lemma {:induction false} TotalsAre(lines: seq<MachineCoverage>, keys: set<Key>,
                                     audited: set<Key>, compatible: set<Key>, covered: set<Key>)
    requires forall i :: 0 <= i < |lines| ==> lines[i] == Line(keys, audited, compatible, covered, lines[i].machine)
    ensures TotalRequired(lines) == Sizes(keys, MachineOf, Named(lines))
    ensures TotalCovered(lines) == Sizes(keys * covered, MachineOf, Named(lines))
    ensures TotalAudited(lines) == Sizes(keys * audited, MachineOf, Named(lines))
    ensures TotalCompatible(lines) == Sizes(keys * compatible, MachineOf, Named(lines))
    ensures TotalRemaining(lines) == TotalRequired(lines) - TotalCovered(lines)
  {
    if lines != [] {
      TotalsAre(lines[1..], keys, audited, compatible, covered);
      assert Named(lines)[1..] == Named(lines[1..]);
      var m := lines[0].machine;
      assert Of(keys * covered, MachineOf, m) == Of(keys, MachineOf, m) * covered;
      assert Of(keys * audited, MachineOf, m) == Of(keys, MachineOf, m) * audited;
      assert Of(keys * compatible, MachineOf, m) == Of(keys, MachineOf, m) * compatible;
      assert lines[0] == Line(keys, audited, compatible, covered, m);
    }
  }

  lemma KeysWithin(required: seq<Relationship>, rows: seq<Row>)
    ensures Keys(required, rows, Audited) <= KeySet(required) && Keys(required, rows, Compatible) <= KeySet(required)
    ensures Covered(required, rows) <= KeySet(required)
  {
    hide Linked, KeySet;
  }

  lemma GroupsWithin(keys: set<Key>, some: set<Key>, names: seq<string>)
    requires some <= keys && Distinct(names) && forall key :: key in keys ==> key.0 in names
    ensures Sizes(keys * some, MachineOf, names) == |some|
  {
    assert keys * some == some;
    GroupsAddUp(some, MachineOf, names);
  }

  /** The lines add up to the totals: required, audited, compatible, covered and remaining. */
  lemma MachinesAddUp(lines: seq<MachineCoverage>, required: seq<Relationship>, rows: seq<Row>)
    requires Reported(lines, required, Keys(required, rows, Audited), Keys(required, rows, Compatible),
                      Covered(required, rows))
    ensures TotalRequired(lines) == |KeySet(required)|
    ensures TotalAudited(lines) == |Keys(required, rows, Audited)|
    ensures TotalCompatible(lines) == |Keys(required, rows, Compatible)|
    ensures TotalCovered(lines) == |Covered(required, rows)|
    ensures TotalRemaining(lines) == |Uncovered(required, rows)|
  {
    hide KeySet, Keys, Line, Sizes, Distinct, Covered, Uncovered;
    var keys, covered := KeySet(required), Covered(required, rows);
    KeysWithin(required, rows);
    TotalsAre(lines, keys, Keys(required, rows, Audited), Keys(required, rows, Compatible), covered);
    assert keys * keys == keys;
    GroupsWithin(keys, keys, Named(lines));
    GroupsWithin(keys, covered, Named(lines));
    GroupsWithin(keys, Keys(required, rows, Audited), Named(lines));
    GroupsWithin(keys, Keys(required, rows, Compatible), Named(lines));
    CoverageAddsUp(required, rows);
  }

  /** The required keys of a machine that have a row of the kind. */
  ghost function KeysOn(machine: string, required: seq<Relationship>, rows: seq<Row>, kind: Kind): set<Key>
  {
    set key | key in KeySet(required) && key.0 == machine && Linked(rows, key, kind)
  }

  /** Each line tells of its machine how many keys are required, have an audited row, have a compatible row, have
      one or the other, and have none. */
  lemma LineTells(lines: seq<MachineCoverage>, required: seq<Relationship>, rows: seq<Row>, i: nat)
    requires Reported(lines, required, Keys(required, rows, Audited), Keys(required, rows, Compatible),
                      Covered(required, rows))
    requires i < |lines|
    ensures var m := lines[i].machine;
      var audited, compatible := KeysOn(m, required, rows, Audited), KeysOn(m, required, rows, Compatible);
      && lines[i].required == |set key | key in KeySet(required) && key.0 == m|
      && lines[i].audited == |audited| && lines[i].compatible == |compatible|
      && lines[i].covered == |audited + compatible|
      && lines[i].remaining == |(set key | key in KeySet(required) && key.0 == m) - audited - compatible|
  {
    hide Linked, KeySet, KeysOn, Keys, Of, Distinct;
    var m := lines[i].machine;
    var mine := Of(KeySet(required), MachineOf, m);
    OnMachine(m, required, rows, Audited);
    OnMachine(m, required, rows, Compatible);
    LineParts(mine, Keys(required, rows, Audited), Keys(required, rows, Compatible));
    MineAre(KeySet(required), m);
  }

  lemma MineAre(keys: set<Key>, machine: string)
    ensures Of(keys, MachineOf, machine) == set key | key in keys && key.0 == machine
  {
  }

  lemma OnMachine(machine: string, required: seq<Relationship>, rows: seq<Row>, kind: Kind)
    ensures Of(KeySet(required), MachineOf, machine) * Keys(required, rows, kind)
         == KeysOn(machine, required, rows, kind)
  {
    hide Linked, KeySet;
  }

  lemma LineParts(mine: set<Key>, audited: set<Key>, compatible: set<Key>)
    ensures mine * (audited + compatible) == mine * audited + mine * compatible
    ensures |mine| - |mine * (audited + compatible)| == |mine - mine * audited - mine * compatible|
  {
    var covered := mine * (audited + compatible);
    assert covered == mine * audited + mine * compatible;
    assert mine - covered == mine - mine * audited - mine * compatible;
    assert mine == covered + (mine - covered);
  }

  /* ---- Full, partial, none ---- */

  predicate Full(line: MachineCoverage) { line.remaining == 0 && line.required > 0 }
  predicate Partial(line: MachineCoverage) { 0 < line.covered < line.required }
  predicate None(line: MachineCoverage) { line.covered == 0 && line.required > 0 }

  function Count(lines: seq<MachineCoverage>, which: MachineCoverage -> bool): nat
  {
    if lines == [] then 0 else (if which(lines[0]) then 1 else 0) + Count(lines[1..], which)
  }

  lemma {:induction false} CountEach(lines: seq<MachineCoverage>)
    requires forall i :: 0 <= i < |lines| ==>
      lines[i].required > 0 && lines[i].covered <= lines[i].required
              && lines[i].remaining == lines[i].required - lines[i].covered
    ensures Count(lines, Full) + Count(lines, Partial) + Count(lines, None) == |lines|
  {
    if lines != [] {
      assert lines[0].required > 0;
      CountEach(lines[1..]);
    }
  }

  lemma LineBounds(keys: set<Key>, audited: set<Key>, compatible: set<Key>, covered: set<Key>, machine: string)
    ensures var line := Line(keys, audited, compatible, covered, machine);
      line.covered <= line.required && line.remaining == line.required - line.covered
  {
    var mine := Of(keys, MachineOf, machine);
    assert mine == mine * covered + (mine - covered);
  }

  /** Every machine of the report is covered in full, in part or not at all, and only one of these. */
  lemma MachinesPartition(lines: seq<MachineCoverage>, required: seq<Relationship>,
                          audited: set<Key>, compatible: set<Key>, covered: set<Key>)
    requires Reported(lines, required, audited, compatible, covered)
    ensures Count(lines, Full) + Count(lines, Partial) + Count(lines, None) == |lines|
  {
    hide KeySet, Full, Partial, None, Line;
    forall i | 0 <= i < |lines|
      ensures lines[i].covered <= lines[i].required && lines[i].remaining == lines[i].required - lines[i].covered
    {
      LineBounds(KeySet(required), audited, compatible, covered, lines[i].machine);
    }
    CountEach(lines);
  }

  /* ---- Opportunities ---- */

  /** The rows of the missing report, each with whether the part has an audited source. */
  method ReportMissing(missing: set<Key>, sources: set<string>) returns (available: nat)
    ensures available == |set key | key in missing && key.1 in sources|
  {
    available := 0;
    var rest, counted := missing, {};
    while rest != {}
      invariant rest <= missing && counted == (set key | key in missing - rest && key.1 in sources)
      invariant available == |counted|
      decreases |rest|
    {
      var key :| key in rest;
      rest := rest - {key};
      if key.1 in sources {
        counted := counted + {key};
        available := available + 1;
      }
    }
    assert missing - rest == missing;
  }

  /** One line for a part: the machines that could take it over from an audited one. */
  datatype Opportunity = Opportunity(part: string, machines: seq<string>)

  /** `_compatibility_opportunity_rows`: the missing keys of the parts with a source, grouped by part. */
  method ReportOpportunities(missing: set<Key>, sources: set<string>)
    returns (groups: map<string, seq<string>>, parts: seq<string>)
    ensures Offered(groups, parts, set key | key in missing && key.1 in sources)
  {
    hide Offered;
    groups, parts := map[], [];
    ghost var done: set<Key> := {};
    NothingOffered();
    var rest := missing;
    while rest != {}
      invariant rest <= missing && done == (set key | key in missing - rest && key.1 in sources)
      invariant Offered(groups, parts, done)
      decreases |rest|
    {
      var key :| key in rest;
      rest := rest - {key};
      if key.1 in sources {
        OfferOne(groups, parts, done, key);
        ghost var before := groups;
        done := done + {key};
        if key.1 !in groups {
          parts := parts + [key.1];
          groups := groups[key.1 := []];
        }
        groups := groups[key.1 := groups[key.1] + [key.0]];
        assert groups == before[key.1 := (if key.1 in before then before[key.1] else []) + [key.0]];
      }
    }
    assert missing - rest == missing;
  }

  /** The lists hold each key of `keys` once, under its part. */
  ghost predicate Offered(groups: map<string, seq<string>>, parts: seq<string>, keys: set<Key>)
  {
    && Distinct(parts) && (forall p :: p in groups <==> p in parts)
    && (forall key :: key in keys ==> key.1 in parts)
    && (forall p :: p in groups ==> Distinct(groups[p]))
    && (forall p :: p in groups ==> forall m :: m in groups[p] <==> (m, p) in keys)
  }

  lemma NothingOffered()
    ensures Offered(map[], [], {})
  {
  }

  lemma OfferOne(groups: map<string, seq<string>>, parts: seq<string>, keys: set<Key>, key: Key)
    requires Offered(groups, parts, keys) && key !in keys
    ensures var before := if key.1 in groups then groups[key.1] else [];
      Offered(groups[key.1 := before + [key.0]], if key.1 in groups then parts else parts + [key.1], keys + {key})
  {
  }

  function Listed(groups: map<string, seq<string>>, parts: seq<string>): nat
    requires forall p :: p in parts ==> p in groups
  {
    if parts == [] then 0 else |groups[parts[0]]| + Listed(groups, parts[1..])
  }

  lemma {:induction false} ListSize(machines: seq<string>, part: string, keys: set<Key>)
    requires Distinct(machines) && forall key :: key in keys <==> key.1 == part && key.0 in machines
    ensures |machines| == |keys|
  {
    if machines == [] {
      assert keys == {};
    } else {
      var key := (machines[0], part);
      forall k ensures k in keys - {key} <==> k.1 == part && k.0 in machines[1..] {
        assert k.0 in machines <==> k.0 == machines[0] || k.0 in machines[1..];
      }
      ListSize(machines[1..], part, keys - {key});
    }
  }

  lemma {:induction false} ListedSizes(groups: map<string, seq<string>>, parts: seq<string>, all: seq<string>,
                                       keys: set<Key>)
    requires Offered(groups, all, keys) && forall p :: p in parts ==> p in groups
    ensures Listed(groups, parts) == Sizes(keys, PartOf, parts)
  {
    if parts != [] {
      ListedSizes(groups, parts[1..], all, keys);
      ListSize(groups[parts[0]], parts[0], Of(keys, PartOf, parts[0]));
    }
  }

  /** The machines listed over all opportunities are as many as the opportunities said to be available. */
  lemma OpportunitiesAddUp(groups: map<string, seq<string>>, parts: seq<string>, keys: set<Key>)
    requires Offered(groups, parts, keys)
    ensures Listed(groups, parts) == |keys|
  {
    ListedSizes(groups, parts, parts, keys);
    GroupsAddUp(keys, PartOf, parts);
  }
}
