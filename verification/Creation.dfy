/** Deriving compatibility rows from an audited row, and what that does to the coverage
    (core/audit_compatibility.py, core/audit_progress.py). */
module Creation {
  import opened Text
  import opened Wrappers
  import opened Tokens
  import opened Relationships
  import opened Coverage
  import AuditIds

  /** What a candidate calls for. */
  datatype Action = Create | AlreadyAudited | LinkedHere | LinkedElsewhere | Review

  function Descriptions(rows: seq<Row>): set<string>
  {
    set r | r in rows && FirstText(r.descriptions) != "" :: FirstText(r.descriptions)
  }

  function Lowered(texts: set<string>): set<string>
  {
    set t | t in texts :: Lower(t)
  }

  function EoatTypes(rows: seq<Row>): set<string>
  {
    set r | r in rows && TextValue(r.eoatType) != "" :: Lower(TextValue(r.eoatType))
  }

  /** `relationship_has_conflict`. */
  predicate Conflicts(rows: seq<Row>, wanted: string)
  {
    && rows != []
    && (|| (wanted != "" && Descriptions(rows) != {} && wanted !in Descriptions(rows))
        || |EoatTypes(rows)| > 1
        || |Lowered(Descriptions(rows))| > 1)
  }

  function SourcesOf(rows: seq<Row>): set<string>
  {
    set r | r in rows && KindOf(r) == Compatible :: TextValue(r.sourceId)
  }

  /** The action for a relationship, from the rows under its key. */
  function ActionFor(rows: seq<Row>, wanted: string, sourceId: string): Action
  {
    if Conflicts(rows, wanted) then Review
    else if HasKind(rows, Audited) then AlreadyAudited
    else if HasKind(rows, Compatible) then
      if SourcesOf(rows) != {} && SourcesOf(rows) <= {sourceId} then LinkedHere else LinkedElsewhere
    else if rows != [] then Review
    else Create
  }

  /** An entry is created exactly when no row has the key. */
  lemma CreateWhen(rows: seq<Row>, wanted: string, sourceId: string)
    ensures ActionFor(rows, wanted, sourceId) == Create <==> rows == []
  {
    hide KindOf, Descriptions, EoatTypes, SourcesOf;
    if rows != [] {
      assert rows[0] in rows && (KindOf(rows[0]) == Audited || KindOf(rows[0]) == Compatible);
    }
  }

  ghost predicate KeysDiffer(rs: seq<Relationship>)
  {
    forall i, j :: 0 <= i < j < |rs| ==> rs[i].Key() != rs[j].Key()
  }

  lemma {:induction false} ForPartDiffer(required: seq<Relationship>, part: string)
    requires KeysDiffer(required)
    ensures KeysDiffer(ForPart(required, part))
  {
    hide KeyOf, ToolKey;
    if required != [] {
      ForPartDiffer(required[..|required| - 1], part);
      var before := ForPart(required[..|required| - 1], part);
      assert forall i :: 0 <= i < |before| ==> before[i] in required[..|required| - 1];
    }
  }

  lemma {:induction false} ChosenDiffer(candidates: seq<Relationship>, machines: seq<string>)
    requires KeysDiffer(candidates)
    ensures KeysDiffer(Chosen(candidates, machines))
  {
    hide KeyOf, ToolKey;
    if candidates != [] {
      ChosenDiffer(candidates[..|candidates| - 1], machines);
      var before := Chosen(candidates[..|candidates| - 1], machines);
      assert forall i :: 0 <= i < |before| ==> before[i] in candidates[..|candidates| - 1];
    }
  }

  lemma {:induction false} ThoseDiffer(candidates: seq<Relationship>, rows: seq<Row>, sourceId: string, action: Action)
    requires KeysDiffer(candidates)
    ensures KeysDiffer(Those(candidates, rows, sourceId, action))
  {
    hide KeyOf, ToolKey, ActionOf;
    if candidates != [] {
      ThoseDiffer(candidates[..|candidates| - 1], rows, sourceId, action);
      var before := Those(candidates[..|candidates| - 1], rows, sourceId, action);
      assert forall i :: 0 <= i < |before| ==> before[i] in candidates[..|candidates| - 1];
    }
  }

  /** The relationships of a part. */
  function ForPart(required: seq<Relationship>, part: string): (r: seq<Relationship>)
    ensures forall x :: x in r <==> x in required && x.Key().1 == ToolKey(part)
  {
    if required == [] then []
    else ForPart(required[..|required| - 1], part) +
         if required[|required| - 1].Key().1 == ToolKey(part) then [required[|required| - 1]] else []
  }

  /** The relationships of the chosen machines. */
  function Chosen(candidates: seq<Relationship>, machines: seq<string>): (r: seq<Relationship>)
    ensures forall x :: x in r <==> x in candidates && x.machine in machines
  {
    if candidates == [] then []
    else Chosen(candidates[..|candidates| - 1], machines) +
         if candidates[|candidates| - 1].machine in machines then [candidates[|candidates| - 1]] else []
  }

  function ActionOf(rows: seq<Row>, r: Relationship, sourceId: string): Action
  {
    ActionFor(Under(rows, r.Key()), r.description, sourceId)
  }

  /** The candidates with an action. */
  function Those(candidates: seq<Relationship>, rows: seq<Row>, sourceId: string,
                 action: Action): (r: seq<Relationship>)
    ensures forall x :: x in r <==> x in candidates && ActionOf(rows, x, sourceId) == action
  {
    if candidates == [] then []
    else Those(candidates[..|candidates| - 1], rows, sourceId, action) +
         if ActionOf(rows, candidates[|candidates| - 1], sourceId) == action then [candidates[|candidates| - 1]] else []
  }

  lemma {:induction false} ActionsAddUp(candidates: seq<Relationship>, rows: seq<Row>, sourceId: string)
    ensures |Those(candidates, rows, sourceId, Create)| + |Those(candidates, rows, sourceId, AlreadyAudited)|
          + |Those(candidates, rows, sourceId, LinkedHere)| + |Those(candidates, rows, sourceId, LinkedElsewhere)|
          + |Those(candidates, rows, sourceId, Review)| == |candidates|
  {
    hide ActionOf;
    if candidates != [] { ActionsAddUp(candidates[..|candidates| - 1], rows, sourceId); }
  }

  /* ---- The rows that are written ---- */

  function CellAt(cells: seq<string>, i: nat): string
  {
    if i < |cells| then cells[i] else ""
  }

  function Marked(v: string): string
  {
    if Strip(v) == "" then "N/A" else v
  }

  /** The row that is written for a relationship, with the columns that the schema does not have left blank. */
  function Derived(source: Row, r: Relationship, id: string, sourceId: string): Row
  {
    Row(id, r.machine, ["", "", r.part, "", "", ""],
        ["", "", Marked(if r.description != "" then r.description else CellAt(source.descriptions, 2)),
         Marked(CellAt(source.descriptions, 3))],
        "Compatible", sourceId, Marked(source.eoatType))
  }

  function AllDerived(source: Row, rs: seq<Relationship>, ids: seq<string>, sourceId: string): (rows: seq<Row>)
    requires |ids| == |rs|
    ensures |rows| == |rs|
  {
    seq(|rs|, i requires 0 <= i < |rs| => Derived(source, rs[i], ids[i], sourceId))
  }

  lemma PartIsText(part: string)
    requires Strip(part) == part && Tool(part) != ""
    ensures TextValue(part) == part && part != ""
  {
    hide Strip, Lower;
  }

  lemma CompatibleIsCompatible()
    ensures Lower(TextValue("Compatible")) == CompatibleText()
  {
    hide Strip;
    StripFixed("Compatible");
    assert Lower("Compatible") == "compatible";
  }

  /** A derived row has the key of its relationship, and no other, and is a compatible one. */
  lemma DerivedKey(source: Row, r: Relationship, id: string, sourceId: string)
    requires SoundOne(r)
    ensures KeysIn(Derived(source, r, id, sourceId)) == [r.Key()]
    ensures KindOf(Derived(source, r, id, sourceId)) == Compatible
  {
    hide TextValue, Machines, KeyOf, FirstText, Canonical, Lower, CompatibleText, Marked, CellAt, Strip, Tool;
    PartIsText(r.part);
    ThirdText(["", "", r.part, "", "", ""], r.part);
    MachinesOfOne(r.machine);
    CompatibleIsCompatible();
  }

  /* ---- What creating does ---- */

  /** The state after the entries were created for `creates`. */
  function After(rows: seq<Row>, source: Row, creates: seq<Relationship>, ids: seq<string>, sourceId: string): seq<Row>
    requires |ids| == |creates|
  {
    rows + AllDerived(source, creates, ids, sourceId)
  }

  /** A row for the relationship, with its own ID and the source it was derived from. */
  ghost predicate Made(row: Row, r: Relationship, id: string, sourceId: string)
  {
    && row.auditId == id && row.sourceId == sourceId && row.press == r.machine
    && Lower(TextValue(row.entryType)) == "compatible" && FirstText(row.parts) == TextValue(r.part)
  }

  ghost predicate AllMade(made: seq<Row>, creates: seq<Relationship>, ids: seq<string>, sourceId: string)
  {
    && |made| == |creates| == |ids|
    && forall i :: 0 <= i < |made| ==> Made(made[i], creates[i], ids[i], sourceId)
  }

  /** Each row that is added is a compatible one, has its new ID, and gives the source asked for. */
  lemma RowsAreMade(rows: seq<Row>, source: Row, creates: seq<Relationship>, ids: seq<string>, sourceId: string)
    requires |ids| == |creates|
    ensures AllMade(After(rows, source, creates, ids, sourceId)[|rows|..], creates, ids, sourceId)
    ensures After(rows, source, creates, ids, sourceId)[..|rows|] == rows
  {
    hide TextValue, Lower, FirstText, Marked;
    var after := After(rows, source, creates, ids, sourceId);
    CompatibleIsCompatible();
    forall i | 0 <= i < |creates| ensures Made(after[|rows|..][i], creates[i], ids[i], sourceId) {
      ThirdText(["", "", creates[i].part, "", "", ""], creates[i].part);
    }
  }

  lemma LinkedAfter(rows: seq<Row>, source: Row, creates: seq<Relationship>, ids: seq<string>, sourceId: string,
                    key: Key, kind: Kind)
    requires |ids| == |creates| && forall r :: r in creates ==> SoundOne(r)
    ensures Linked(After(rows, source, creates, ids, sourceId), key, kind) <==>
            Linked(rows, key, kind) || (kind == Compatible && key in KeySet(creates))
  {
    hide KeysIn, KindOf, Derived, SoundOne, KeyOf;
    var made := AllDerived(source, creates, ids, sourceId);
    forall i | 0 <= i < |creates|
      ensures LinkedBy(made[i], key, kind) <==> kind == Compatible && key == creates[i].Key()
    {
      DerivedKey(source, creates[i], ids[i], sourceId);
    }
    if Linked(rows, key, kind) {
      var r :| r in rows && LinkedBy(r, key, kind);
      assert r in rows + made;
    }
    if kind == Compatible && key in KeySet(creates) {
      var r :| r in creates && r.Key() == key;
      var i :| 0 <= i < |creates| && creates[i] == r;
      assert made[i] in rows + made;
    }
    if Linked(rows + made, key, kind) {
      var r :| r in rows + made && LinkedBy(r, key, kind);
      if r !in rows {
        var i :| 0 <= i < |made| && made[i] == r;
        assert creates[i] in creates;
      }
    }
  }

  lemma {:induction false} KeySetSize(rs: seq<Relationship>)
    requires KeysDiffer(rs)
    ensures |KeySet(rs)| == |rs|
  {
    hide KeyOf;
    if rs == [] {
      assert KeySet(rs) == {};
    } else {
      var last := rs[|rs| - 1];
      KeySetSize(rs[..|rs| - 1]);
      assert rs == rs[..|rs| - 1] + [last];
      assert KeySet(rs) == KeySet(rs[..|rs| - 1]) + {last.Key()};
    }
  }

  /** `creates` are required relationships that no row has. */
  ghost predicate Fresh(creates: seq<Relationship>, required: seq<Relationship>, rows: seq<Row>)
  {
    && KeysDiffer(creates)
    && (forall r :: r in creates ==> r in required && SoundOne(r) && Under(rows, r.Key()) == [])
  }

  lemma NothingUnder(rows: seq<Row>, key: Key, kind: Kind)
    requires Under(rows, key) == []
    ensures !Linked(rows, key, kind)
  {
    hide Under, KeysIn;
    UnderAre(rows, key);
    forall r | r in rows ensures !LinkedBy(r, key, kind) {
      assert r !in Under(rows, key);
    }
  }

  /** Creating the entries covers exactly their keys, as compatible ones: the audited keys stay what they were,
      the compatible ones grow and the missing ones shrink by as many as were created. */
  lemma CreatingCovers(required: seq<Relationship>, rows: seq<Row>, source: Row, creates: seq<Relationship>,
                       ids: seq<string>, sourceId: string)
    requires Fresh(creates, required, rows) && |ids| == |creates|
    ensures var after := After(rows, source, creates, ids, sourceId);
      && Keys(required, after, Audited) == Keys(required, rows, Audited)
      && Keys(required, after, Compatible) == Keys(required, rows, Compatible) + KeySet(creates)
      && Uncovered(required, after) == Uncovered(required, rows) - KeySet(creates)
      && |Keys(required, after, Compatible)| == |Keys(required, rows, Compatible)| + |creates|
      && |Uncovered(required, after)| == |Uncovered(required, rows)| - |creates|
  {
    hide Linked, KeyOf, After, Under, SoundOne;
    var after := After(rows, source, creates, ids, sourceId);
    forall key, kind: Kind
      ensures Linked(after, key, kind) <==> Linked(rows, key, kind) || (kind == Compatible && key in KeySet(creates))
    {
      LinkedAfter(rows, source, creates, ids, sourceId, key, kind);
    }
    forall key, kind: Kind | key in KeySet(creates) ensures key in KeySet(required) && !Linked(rows, key, kind) {
      var r :| r in creates && r.Key() == key;
      NothingUnder(rows, key, kind);
    }
    KeySetSize(creates);
    assert Keys(required, after, Audited) == Keys(required, rows, Audited);
    assert Keys(required, after, Compatible) == Keys(required, rows, Compatible) + KeySet(creates);
    assert Uncovered(required, after) == Uncovered(required, rows) - KeySet(creates);
    assert KeySet(creates) <= Uncovered(required, rows);
  }

  /* ---- The whole request ---- */

  /** The first row with the Audit ID. */
  function RowWith(rows: seq<Row>, auditId: string): (r: Option<Row>)
  {
    if rows == [] then None
    else if TextValue(rows[0].auditId) == auditId then Some(rows[0])
    else RowWith(rows[1..], auditId)
  }

  lemma {:induction false} StillFirst(rows: seq<Row>, more: seq<Row>, auditId: string)
    requires RowWith(rows, auditId).Some?
    ensures RowWith(rows + more, auditId) == RowWith(rows, auditId)
  {
    hide TextValue;
    if TextValue(rows[0].auditId) != auditId {
      assert (rows + more)[1..] == rows[1..] + more;
      StillFirst(rows[1..], more, auditId);
    }
  }

  datatype Failure = NoMachines | SourceMissing | SourceNotAudited | SourceWithoutPart

  /** The source and the candidates on the machines asked for. */
  function Request(rows: seq<Row>, required: seq<Relationship>, sourceId: string, numbers: seq<string>)
    : Result<(Row, seq<Relationship>), Failure>
  {
    var machines := Machines(Join(numbers, ','));
    if machines == [] then Err(NoMachines)
    else
      match RowWith(rows, sourceId)
      case None => Err(SourceMissing)
      case Some(source) =>
        if KindOf(source) != Audited then Err(SourceNotAudited)
        else if FirstText(source.parts) == "" then Err(SourceWithoutPart)
        else Ok((source, Chosen(ForPart(required, FirstText(source.parts)), machines)))
  }

  function ToCreate(rows: seq<Row>, required: seq<Relationship>, sourceId: string,
                    numbers: seq<string>): seq<Relationship>
    requires Request(rows, required, sourceId, numbers).Ok?
  {
    Those(Request(rows, required, sourceId, numbers).value.1, rows, sourceId, Create)
  }

  lemma ToCreateFresh(rows: seq<Row>, required: seq<Relationship>, sourceId: string, numbers: seq<string>)
    requires Sound(required)
    ensures Request(rows, required, sourceId, numbers).Ok? ==>
              Fresh(ToCreate(rows, required, sourceId, numbers), required, rows)
  {
    hide Machines, ForPart, Chosen, Those, KeyOf, Under, SoundOne, ActionFor;
    if Request(rows, required, sourceId, numbers).Err? { return; }
    var source := RowWith(rows, sourceId).value;
    var machines := Machines(Join(numbers, ','));
    var candidates := ForPart(required, FirstText(source.parts));
    ForPartDiffer(required, FirstText(source.parts));
    ChosenDiffer(candidates, machines);
    ThoseDiffer(Chosen(candidates, machines), rows, sourceId, Create);
    forall r | r in ToCreate(rows, required, sourceId, numbers)
      ensures r in required && SoundOne(r) && Under(rows, r.Key()) == []
    {
      assert r in required;
      var i :| 0 <= i < |required| && required[i] == r;
      CreateWhen(Under(rows, r.Key()), r.description, sourceId);
    }
  }

  /** Asking again for the same creates nothing: each relationship asked for has a row by then. */
  lemma CreatingAgain(rows: seq<Row>, required: seq<Relationship>, sourceId: string, numbers: seq<string>,
                      ids: seq<string>)
    requires Sound(required) && Request(rows, required, sourceId, numbers).Ok?
    requires |ids| == |ToCreate(rows, required, sourceId, numbers)|
    ensures var (source, asked) := Request(rows, required, sourceId, numbers).value;
            var after := After(rows, source, ToCreate(rows, required, sourceId, numbers), ids, sourceId);
      && Request(after, required, sourceId, numbers) == Request(rows, required, sourceId, numbers)
      && ToCreate(after, required, sourceId, numbers) == []
  {
    hide Machines, ForPart, Chosen, Those, KeyOf, Under, SoundOne, ActionFor, AllDerived, KindOf, Linked, RowWith;
    var (source, asked) := Request(rows, required, sourceId, numbers).value;
    var creates := ToCreate(rows, required, sourceId, numbers);
    var after := After(rows, source, creates, ids, sourceId);
    ToCreateFresh(rows, required, sourceId, numbers);
    StillFirst(rows, AllDerived(source, creates, ids, sourceId), sourceId);
    forall r | r in asked ensures ActionOf(after, r, sourceId) != Create {
      CreateWhen(Under(rows, r.Key()), r.description, sourceId);
      CreateWhen(Under(after, r.Key()), r.description, sourceId);
      HasRow(rows, source, creates, ids, sourceId, r);
    }
    NoneThere(asked, after, sourceId);
  }

  lemma {:induction false} NoneThere(asked: seq<Relationship>, rows: seq<Row>, sourceId: string)
    requires forall r :: r in asked ==> ActionOf(rows, r, sourceId) != Create
    ensures Those(asked, rows, sourceId, Create) == []
  {
    hide ActionOf;
    if asked != [] {
      NoneThere(asked[..|asked| - 1], rows, sourceId);
    }
  }

  lemma HasRow(rows: seq<Row>, source: Row, creates: seq<Relationship>, ids: seq<string>, sourceId: string,
               r: Relationship)
    requires |ids| == |creates| && forall x :: x in creates ==> SoundOne(x)
    requires Under(rows, r.Key()) == [] ==> r in creates
    ensures Under(After(rows, source, creates, ids, sourceId), r.Key()) != []
  {
    hide Under, KeysIn, KindOf, SoundOne, KeyOf, Derived, AllDerived;
    var after, key := After(rows, source, creates, ids, sourceId), r.Key();
    UnderAre(rows, key);
    UnderAre(after, key);
    if Under(rows, key) == [] {
      assert key in KeySet(creates);
      LinkedAfter(rows, source, creates, ids, sourceId, key, Compatible);
      var x :| x in after && LinkedBy(x, key, Compatible);
      assert x in Under(after, key);
    } else {
      var x := Under(rows, key)[0];
      assert x in Under(rows, key) && x in after;
      assert x in Under(after, key);
    }
  }

  datatype Outcome = Failed(why: Failure) | Done(created: nat, audited: nat, compatible: nat, conflicts: nat)

  function IdsOf(rows: seq<Row>): set<string>
  {
    set r | r in rows :: TextValue(r.auditId)
  }

  /** The inventory sheet, by the rows that hold something. */
  class Inventory {
    var rows: seq<Row>

    /** `create_compatibility_entries`. */
    method CreateEntries(required: seq<Relationship>, sourceId: string, numbers: seq<string>,
                         prefix: string, number: string -> Option<int>)
      returns (outcome: Outcome)
      modifies this
      ensures Request(old(rows), required, sourceId, numbers).Err? ==>
        rows == old(rows) && outcome == Failed(Request(old(rows), required, sourceId, numbers).error)
      ensures Request(old(rows), required, sourceId, numbers).Ok? ==>
        var (source, asked) := Request(old(rows), required, sourceId, numbers).value;
        var creates := ToCreate(old(rows), required, sourceId, numbers);
        && outcome.Done? && outcome.created == |creates|
        && outcome.created + outcome.audited + outcome.compatible + outcome.conflicts == |asked|
        && outcome.audited == |Those(asked, old(rows), sourceId, AlreadyAudited)|
        && outcome.conflicts == |Those(asked, old(rows), sourceId, Review)|
        && exists ids: seq<string> :: |ids| == |creates| && AuditIds.NewIds(ids, IdsOf(old(rows)))
             && rows == After(old(rows), source, creates, ids, sourceId)
             && AllMade(rows[|old(rows)|..], creates, ids, sourceId)
    {
      hide *;
      var request := Request(rows, required, sourceId, numbers);
      if request.Err? {
        return Failed(request.error);
      }
      var (source, asked) := request.value;
      var creates, audited, compatible, conflicts := Tally(rows, asked, sourceId);
      outcome := Done(|creates|, audited, compatible, conflicts);
      CreatesAre(rows, required, sourceId, numbers);
      var ids := NewAuditIds(prefix, number, |creates|);
      WriteDerived(source, creates, ids, sourceId);
      RowsAreMade(old(rows), source, creates, ids, sourceId);
    }

    method NewAuditIds(prefix: string, number: string -> Option<int>, count: nat) returns (ids: seq<string>)
      ensures |ids| == count && AuditIds.NewIds(ids, IdsOf(rows))
    {
      ids := AuditIds.GenerateAuditIds(IdsOf(rows), prefix, number, count);
    }

    method WriteDerived(source: Row, creates: seq<Relationship>, ids: seq<string>, sourceId: string)
      requires |ids| == |creates|
      modifies this
      ensures rows == After(old(rows), source, creates, ids, sourceId)
    {
      hide Derived;
      for i := 0 to |creates|
        invariant rows == old(rows) + AllDerived(source, creates, ids, sourceId)[..i]
      {
        rows := rows + [Derived(source, creates[i], ids[i], sourceId)];
      }
    }
  }

  lemma CreatesAre(rows: seq<Row>, required: seq<Relationship>, sourceId: string, numbers: seq<string>)
    requires Request(rows, required, sourceId, numbers).Ok?
    ensures ToCreate(rows, required, sourceId, numbers)
         == Those(Request(rows, required, sourceId, numbers).value.1, rows, sourceId, Create)
  {
    hide Request, Those;
  }

  lemma NoThose(rows: seq<Row>, sourceId: string)
    ensures forall action: Action :: Those([], rows, sourceId, action) == []
  {
  }

  lemma ThoseNext(asked: seq<Relationship>, i: nat, rows: seq<Row>, sourceId: string, action: Action)
    requires i < |asked|
    ensures Those(asked[..i + 1], rows, sourceId, action)
         == Those(asked[..i], rows, sourceId, action)
            + if ActionOf(rows, asked[i], sourceId) == action then [asked[i]] else []
  {
    hide ActionOf;
    assert asked[..i + 1][..i] == asked[..i];
  }

  /** The candidates by their actions, counted one by one. */
  method Tally(rows: seq<Row>, asked: seq<Relationship>, sourceId: string)
    returns (creates: seq<Relationship>, audited: nat, compatible: nat, conflicts: nat)
    ensures creates == Those(asked, rows, sourceId, Create)
    ensures audited == |Those(asked, rows, sourceId, AlreadyAudited)|
    ensures conflicts == |Those(asked, rows, sourceId, Review)|
    ensures |creates| + audited + compatible + conflicts == |asked|
  {
    hide Under, ActionFor, Summarizes, KeyOf, Those;
    var summary := Summarize(rows);
    NoThose(rows, sourceId);
    creates, audited, compatible, conflicts := [], 0, 0, 0;
    for i := 0 to |asked|
      invariant creates == Those(asked[..i], rows, sourceId, Create)
      invariant audited == |Those(asked[..i], rows, sourceId, AlreadyAudited)|
      invariant conflicts == |Those(asked[..i], rows, sourceId, Review)|
      invariant |creates| + audited + compatible + conflicts == i
    {
      ThoseNext(asked, i, rows, sourceId, Create);
      ThoseNext(asked, i, rows, sourceId, AlreadyAudited);
      ThoseNext(asked, i, rows, sourceId, Review);
      var items := EntryOf(summary, rows, asked[i].Key());
      match ActionFor(items, asked[i].description, sourceId)
      case Create => creates := creates + [asked[i]];
      case AlreadyAudited => audited := audited + 1;
      case LinkedHere => compatible := compatible + 1;
      case LinkedElsewhere => compatible := compatible + 1;
      case Review => conflicts := conflicts + 1;
    }
    assert asked[..|asked|] == asked;
  }

  function EntryOf(summary: map<Key, seq<Row>>, rows: seq<Row>, key: Key): (items: seq<Row>)
    requires Summarizes(summary, rows)
    ensures items == Under(rows, key)
  {
    assert SummarizedAt(summary, rows, key);
    if key in summary then summary[key] else []
  }
}
