/** What creating compatibility rows comes to, told from the rows: which relationships call for a row, what the rows
    that are written say, and that they are linked to their source afterwards (core/audit_compatibility.py). */
module CreationEffects {
  import opened Text
  import opened Wrappers
  import opened Tokens
  import opened Relationships
  import opened Coverage
  import opened Creation
  import AuditIds

  /* ---- Which action ---- */

  /** Two of the rows have this text, and differ in it beyond case. */
  ghost predicate Disagree(rows: seq<Row>, text: Row -> string)
  {
    exists r, s :: r in rows && s in rows && text(r) != "" && text(s) != "" && Lower(text(r)) != Lower(text(s))
  }

  ghost function Description(row: Row): string { FirstText(row.descriptions) }
  ghost function EoatType(row: Row): string { TextValue(row.eoatType) }

  /** None of the descriptions there are is the one wanted. */
  ghost predicate Unlike(rows: seq<Row>, wanted: string)
  {
    && wanted != "" && (exists r :: r in rows && Description(r) != "")
    && forall r :: r in rows ==> Description(r) != wanted
  }

  ghost predicate InConflict(rows: seq<Row>, wanted: string)
  {
    Unlike(rows, wanted) || Disagree(rows, EoatType) || Disagree(rows, Description)
  }

  ghost predicate SaysCompatible(row: Row)
  {
    Lower(TextValue(row.entryType)) == "compatible"
  }

  lemma TwoOf(s: set<string>, a: string, b: string)
    requires a in s && b in s && a != b
    ensures |s| > 1
  {
    assert |s - {a}| > 0 by { assert b in s - {a}; }
  }

  lemma OneOf(s: set<string>)
    requires |s| > 1
    ensures exists a, b :: a in s && b in s && a != b
  {
    var a :| a in s;
    assert |s - {a}| > 0;
    var b :| b in s - {a};
  }

  lemma DisagreeWhen(rows: seq<Row>, text: Row -> string, texts: set<string>)
    requires forall t :: t in texts <==> exists r :: r in rows && text(r) != "" && Lower(text(r)) == t
    ensures |texts| > 1 <==> Disagree(rows, text)
  {
    hide Lower;
    if |texts| > 1 {
      OneOf(texts);
      var a, b :| a in texts && b in texts && a != b;
      var r :| r in rows && text(r) != "" && Lower(text(r)) == a;
      var s :| s in rows && text(s) != "" && Lower(text(s)) == b;
    }
    if Disagree(rows, text) {
      var r, s :| r in rows && s in rows && text(r) != "" && text(s) != "" && Lower(text(r)) != Lower(text(s));
      assert Lower(text(r)) in texts && Lower(text(s)) in texts;
      TwoOf(texts, Lower(text(r)), Lower(text(s)));
    }
  }

  lemma ConflictWhen(rows: seq<Row>, wanted: string)
    ensures Conflicts(rows, wanted) <==> InConflict(rows, wanted)
  {
    hide FirstText, TextValue, Lower, Disagree;
    DisagreeWhen(rows, EoatType, EoatTypes(rows));
    forall t ensures t in Lowered(Descriptions(rows)) <==>
      exists r :: r in rows && Description(r) != "" && Lower(Description(r)) == t
    {
      if t in Lowered(Descriptions(rows)) {
        var d :| d in Descriptions(rows) && Lower(d) == t;
      }
      if r :| r in rows && Description(r) != "" && Lower(Description(r)) == t {
        assert Description(r) in Descriptions(rows);
      }
    }
    DisagreeWhen(rows, Description, Lowered(Descriptions(rows)));
    UnlikeWhen(rows, wanted);
    assert Disagree([], EoatType) == Disagree([], Description) == false by { NoneDisagree(); }
  }

  lemma NoneDisagree()
    ensures !Disagree([], EoatType) && !Disagree([], Description)
  {
  }

  lemma UnlikeWhen(rows: seq<Row>, wanted: string)
    ensures Unlike(rows, wanted) <==> wanted != "" && Descriptions(rows) != {} && wanted !in Descriptions(rows)
  {
    hide FirstText;
    if Descriptions(rows) != {} {
      var d :| d in Descriptions(rows);
    }
    if r :| r in rows && Description(r) != "" {
      assert Description(r) in Descriptions(rows);
    }
  }

  lemma NothingConflicts(wanted: string)
    ensures !InConflict([], wanted)
  {
  }

  lemma KindsTold(rows: seq<Row>)
    ensures HasKind(rows, Audited) <==> exists r :: r in rows && !SaysCompatible(r)
    ensures HasKind(rows, Compatible) <==> exists r :: r in rows && SaysCompatible(r)
  {
    hide TextValue, Lower;
    if HasKind(rows, Audited) {
      var r :| r in rows && KindOf(r) == Audited;
      assert !SaysCompatible(r);
    }
    if r :| r in rows && !SaysCompatible(r) {
      assert KindOf(r) == Audited;
    }
    if HasKind(rows, Compatible) {
      var r :| r in rows && KindOf(r) == Compatible;
      assert SaysCompatible(r);
    }
    if r :| r in rows && SaysCompatible(r) {
      assert KindOf(r) == Compatible;
    }
  }

  lemma SourcesTold(rows: seq<Row>, sourceId: string)
    requires rows != [] && forall r :: r in rows ==> SaysCompatible(r)
    ensures SourcesOf(rows) != {} && SourcesOf(rows) <= {sourceId} <==>
      forall r :: r in rows ==> TextValue(r.sourceId) == sourceId
  {
    hide TextValue, Lower;
    assert rows[0] in rows;
    assert forall r :: r in rows ==> KindOf(r) == Compatible && TextValue(r.sourceId) in SourcesOf(rows);
  }

  /** The action for a relationship, from the rows that have its key: without rows it is to be created; rows that
      contradict each other or the description wanted are to be reviewed; then an audited row counts, then
      whether all the rows give this source. */
  lemma ActionTold(rows: seq<Row>, wanted: string, sourceId: string)
    ensures var action := ActionFor(rows, wanted, sourceId);
      && (action == Create <==> rows == [])
      && (action == Review <==> InConflict(rows, wanted))
      && (action == AlreadyAudited <==>
          !InConflict(rows, wanted) && exists r :: r in rows && !SaysCompatible(r))
      && (action == LinkedHere <==>
          !InConflict(rows, wanted) && rows != []
          && forall r :: r in rows ==> SaysCompatible(r) && TextValue(r.sourceId) == sourceId)
      && (action == LinkedElsewhere <==>
          !InConflict(rows, wanted) && (forall r :: r in rows ==> SaysCompatible(r))
          && exists r :: r in rows && TextValue(r.sourceId) != sourceId)
  {
    hide FirstText, TextValue, Lower, Conflicts, InConflict, SaysCompatible, HasKind, SourcesOf;
    ConflictWhen(rows, wanted);
    CreateWhen(rows, wanted, sourceId);
    NothingConflicts(wanted);
    KindsTold(rows);
    if rows != [] {
      assert rows[0] in rows;
      if forall r :: r in rows ==> SaysCompatible(r) { SourcesTold(rows, sourceId); }
    }
  }

  /* ---- Asking again ---- */

  /** A text is what reading it once more gives, as for the descriptions that were loaded. */
  ghost predicate IsText(v: string)
  {
    TextValue(v) == v
  }

  lemma TextTwice(v: string)
    ensures IsText(TextValue(v))
  {
    hide Strip, Lower;
    StripTwice(v);
    StripEmpty();
  }

  lemma {:induction false} JoinedDescribed(before: seq<Relationship>, part: string, description: string,
                                           machines: seq<string>)
    requires IsText(description) && forall r :: r in before ==> IsText(r.description)
    ensures forall r :: r in Joined(before, part, description, machines) ==> IsText(r.description)
  {
    hide IsText, Tool, KeyOf, HasKey;
    if machines != [] { JoinedDescribed(before, part, description, machines[..|machines| - 1]); }
  }

  lemma {:induction false} RequiredDescribed(cells: seq<Capacity>)
    ensures forall r :: r in Required(cells) ==> IsText(r.description)
  {
    hide IsText, Joined, TextValue, Strip, Machines;
    if cells != [] {
      var last := cells[|cells| - 1];
      RequiredDescribed(cells[..|cells| - 1]);
      TextTwice(last.description);
      JoinedDescribed(Required(cells[..|cells| - 1]), Strip(last.part), TextValue(last.description),
                      Machines(last.machines));
    }
  }

  /** The mark says as little as the blank it stands for. */
  lemma MarkedText(v: string)
    ensures TextValue(Creation.Marked(v)) == TextValue(v) && Strip(Creation.Marked(v)) != ""
  {
    hide Strip, Lower;
    StripFixed("N/A");
    StripFixed("n/a");
    assert Lower("N/A") == "n/a" && Lower("n/a") == "n/a";
    assert Lower("") == "";
  }

  /** The first text of four cells of which the first two are empty. */
  lemma LastTwo(a: string, b: string)
    ensures FirstText(["", "", a, b]) == if TextValue(a) != "" then TextValue(a) else TextValue(b)
  {
    hide TextValue;
    EmptyText();
    var cells := ["", "", a, b];
    PassOver(cells);
    PassOver(cells[1..]);
    var rest := cells[1..][1..];
    assert rest == [a, b];
    if TextValue(a) == "" {
      PassOver(rest);
      assert rest[1..] == [b];
      if TextValue(b) == "" { PassOver([b]); }
    }
  }

  /** The description of a derived row is that of its relationship, or else the source's. */
  lemma DerivedDescription(source: Row, r: Relationship, id: string, sourceId: string)
    requires IsText(r.description) && |source.descriptions| == 4
    ensures var row := Derived(source, r, id, sourceId);
      Description(row) ==
        if r.description != "" then r.description
        else FirstText(["", "", source.descriptions[2], source.descriptions[3]])
  {
    hide TextValue, Creation.Marked, Strip, FirstText;
    var third := if r.description != "" then r.description else source.descriptions[2];
    MarkedText(third);
    MarkedText(source.descriptions[3]);
    LastTwo(Creation.Marked(third), Creation.Marked(source.descriptions[3]));
    LastTwo(source.descriptions[2], source.descriptions[3]);
  }

  /** With a description asked for, that is the derived row's. */
  lemma DerivedWanted(source: Row, r: Relationship, id: string, sourceId: string)
    requires IsText(r.description) && r.description != ""
    ensures Description(Derived(source, r, id, sourceId)) == r.description
  {
    hide TextValue, Creation.Marked, Strip, FirstText;
    MarkedText(r.description);
    LastTwo(Creation.Marked(r.description), Creation.Marked(CellAt(source.descriptions, 3)));
  }

  /** The EOAT type of a derived row is the source's, and a cell that would be blank is marked. */
  lemma DerivedMarks(source: Row, r: Relationship, id: string, sourceId: string)
    ensures var row := Derived(source, r, id, sourceId);
      && EoatType(row) == EoatType(source) && Strip(row.eoatType) != ""
      && |row.descriptions| == 4 && Strip(row.descriptions[2]) != "" && Strip(row.descriptions[3]) != ""
  {
    hide TextValue, Creation.Marked, Strip;
    MarkedText(source.eoatType);
    MarkedText(if r.description != "" then r.description else CellAt(source.descriptions, 2));
    MarkedText(CellAt(source.descriptions, 3));
  }

  /** The rows under the key of a relationship that was created: the row written for it, and no other. */
  lemma OnlyItsRow(required: seq<Relationship>, rows: seq<Row>, source: Row, creates: seq<Relationship>,
                   ids: seq<string>, sourceId: string, i: nat)
    requires Fresh(creates, required, rows) && |ids| == |creates| && i < |creates|
    ensures var after := After(rows, source, creates, ids, sourceId);
      && Under(after, creates[i].Key()) != []
      && forall x :: x in Under(after, creates[i].Key()) ==> x == Derived(source, creates[i], ids[i], sourceId)
  {
    hide KeysIn, KindOf, SoundOne, KeyOf, Derived, Under;
    var after, key := After(rows, source, creates, ids, sourceId), creates[i].Key();
    var made := AllDerived(source, creates, ids, sourceId);
    UnderAre(rows, key);
    UnderAre(after, key);
    forall j | 0 <= j < |creates| ensures KeysIn(made[j]) == [creates[j].Key()] {
      DerivedKey(source, creates[j], ids[j], sourceId);
    }
    assert made[i] in after && made[i] in Under(after, key);
    forall x | x in Under(after, key) ensures x == made[i] {
      assert x !in rows;
      var j :| 0 <= j < |made| && made[j] == x;
      assert key == creates[j].Key();
    }
  }

  /** A relationship that was created is linked to this source when one asks again. */
  lemma LinkedHereAfter(required: seq<Relationship>, rows: seq<Row>, source: Row, creates: seq<Relationship>,
                        ids: seq<string>, sourceId: string, r: Relationship)
    requires Fresh(creates, required, rows) && |ids| == |creates| && IsText(sourceId)
    requires r in creates && IsText(r.description)
    ensures ActionOf(After(rows, source, creates, ids, sourceId), r, sourceId) == LinkedHere
  {
    hide Fresh, After, Derived, Under, FirstText, TextValue, KeyOf, Lower, Description, EoatType;
    var i :| 0 <= i < |creates| && creates[i] == r;
    var after := After(rows, source, creates, ids, sourceId);
    OnlyItsRow(required, rows, source, creates, ids, sourceId, i);
    var row := Derived(source, r, ids[i], sourceId);
    if r.description != "" { DerivedWanted(source, r, ids[i], sourceId); }
    DerivedLinks(source, r, ids[i], sourceId);
    ActionTold(Under(after, r.Key()), r.description, sourceId);
    Agreed(Under(after, r.Key()), row, r.description);
  }

  lemma DerivedLinks(source: Row, r: Relationship, id: string, sourceId: string)
    ensures var row := Derived(source, r, id, sourceId);
      SaysCompatible(row) && row.sourceId == sourceId && row.auditId == id && row.press == r.machine
  {
    hide TextValue, Creation.Marked, Lower;
    CompatibleIsCompatible();
  }

  /** Copies of one row contradict nothing that the row does not. */
  lemma Agreed(rows: seq<Row>, row: Row, wanted: string)
    requires rows != [] && forall x :: x in rows ==> x == row
    requires wanted == "" || Description(row) == wanted
    ensures !InConflict(rows, wanted)
  {
    hide Description, EoatType, Lower;
    assert rows[0] in rows;
  }

  /* ---- The other candidates ---- */

  lemma {:induction false} NotRepeated(row: Row, keys: seq<Key>, key: Key)
    requires key !in keys
    ensures Repeated(row, keys, key) == []
  {
    if keys != [] { NotRepeated(row, keys[..|keys| - 1], key); }
  }

  lemma {:induction false} UnderMore(rows: seq<Row>, made: seq<Row>, key: Key)
    requires forall x :: x in made ==> key !in KeysIn(x)
    ensures Under(rows + made, key) == Under(rows, key)
  {
    hide KeysIn;
    if made == [] {
      assert rows + made == rows;
    } else {
      var last := made[|made| - 1];
      assert (rows + made)[..|rows + made| - 1] == rows + made[..|made| - 1];
      UnderMore(rows, made[..|made| - 1], key);
      NotRepeated(last, KeysIn(last), key);
    }
  }

  /** The rows under any other key are what they were. */
  lemma OthersStay(required: seq<Relationship>, rows: seq<Row>, source: Row, creates: seq<Relationship>,
                   ids: seq<string>, sourceId: string, key: Key)
    requires Fresh(creates, required, rows) && |ids| == |creates| && key !in KeySet(creates)
    ensures Under(After(rows, source, creates, ids, sourceId), key) == Under(rows, key)
  {
    hide KeysIn, SoundOne, KeyOf, Derived, Under;
    var made := AllDerived(source, creates, ids, sourceId);
    forall x | x in made ensures key !in KeysIn(x) {
      var j :| 0 <= j < |made| && made[j] == x;
      DerivedKey(source, creates[j], ids[j], sourceId);
      assert creates[j].Key() in KeySet(creates);
    }
    UnderMore(rows, made, key);
  }

  /** Each candidate that called for a row is linked here by then, and every other calls for what it did. */
  ghost predicate Moved(before: Creation.Action, after: Creation.Action)
  {
    after == if before == Create then LinkedHere else before
  }

  lemma {:induction false} MovedCounts(asked: seq<Relationship>, before: seq<Row>, after: seq<Row>, sourceId: string)
    requires forall r :: r in asked ==> Moved(ActionOf(before, r, sourceId), ActionOf(after, r, sourceId))
    ensures Those(asked, after, sourceId, Create) == []
    ensures Those(asked, after, sourceId, AlreadyAudited) == Those(asked, before, sourceId, AlreadyAudited)
    ensures Those(asked, after, sourceId, LinkedElsewhere) == Those(asked, before, sourceId, LinkedElsewhere)
    ensures Those(asked, after, sourceId, Review) == Those(asked, before, sourceId, Review)
    ensures |Those(asked, after, sourceId, LinkedHere)|
         == |Those(asked, before, sourceId, LinkedHere)| + |Those(asked, before, sourceId, Create)|
  {
    hide ActionOf;
    if asked != [] {
      assert asked[|asked| - 1] in asked;
      MovedCounts(asked[..|asked| - 1], before, after, sourceId);
    }
  }

  /** Asking again after the entries were created, every relationship just created is linked to this source, and
      every other candidate calls for what it called for before. */
  lemma AskedAgain(cells: seq<Capacity>, rows: seq<Row>, sourceId: string, numbers: seq<string>, ids: seq<string>)
    requires Request(rows, Required(cells), sourceId, numbers).Ok?
    requires |ids| == |ToCreate(rows, Required(cells), sourceId, numbers)|
    ensures var required := Required(cells);
            var (source, asked) := Request(rows, required, sourceId, numbers).value;
            var after := After(rows, source, ToCreate(rows, required, sourceId, numbers), ids, sourceId);
      && Those(asked, after, sourceId, Create) == []
      && |Those(asked, after, sourceId, LinkedHere)|
         == |Those(asked, rows, sourceId, LinkedHere)| + |Those(asked, rows, sourceId, Create)|
      && (forall r :: r in asked ==> Moved(ActionOf(rows, r, sourceId), ActionOf(after, r, sourceId)))
  {
    hide Required, Request, After, ActionOf, Those, Under, Moved, IsText, Sound;
    var required := Required(cells);
    RequiredSound(cells);
    var (source, asked) := Request(rows, required, sourceId, numbers).value;
    var after := After(rows, source, ToCreate(rows, required, sourceId, numbers), ids, sourceId);
    forall r | r in asked
      ensures Moved(ActionOf(rows, r, sourceId), ActionOf(after, r, sourceId))
    {
      CandidateMoves(cells, rows, sourceId, numbers, ids, r);
    }
    MovedCounts(asked, rows, after, sourceId);
    CreatesAre(rows, required, sourceId, numbers);
  }

  lemma CandidateMoves(cells: seq<Capacity>, rows: seq<Row>, sourceId: string, numbers: seq<string>,
                       ids: seq<string>, r: Relationship)
    requires Request(rows, Required(cells), sourceId, numbers).Ok?
    requires |ids| == |ToCreate(rows, Required(cells), sourceId, numbers)|
    requires r in Request(rows, Required(cells), sourceId, numbers).value.1
    ensures var required := Required(cells);
            var source := Request(rows, required, sourceId, numbers).value.0;
            var after := After(rows, source, ToCreate(rows, required, sourceId, numbers), ids, sourceId);
      Moved(ActionOf(rows, r, sourceId), ActionOf(after, r, sourceId))
  {
    hide Required, Request, After, Under, IsText, Sound, ActionFor, KeyOf, Fresh;
    var required := Required(cells);
    var source := Request(rows, required, sourceId, numbers).value.0;
    var creates := ToCreate(rows, required, sourceId, numbers);
    RequiredSound(cells);
    RequiredDescribed(cells);
    ToCreateFresh(rows, required, sourceId, numbers);
    SourceIsText(rows, required, sourceId, numbers);
    AskedAreRequired(rows, required, sourceId, numbers, r);
    if ActionOf(rows, r, sourceId) == Create {
      LinkedHereAfter(required, rows, source, creates, ids, sourceId, r);
    } else {
      NotAmong(required, rows, creates, sourceId, r);
      OthersStay(required, rows, source, creates, ids, sourceId, r.Key());
    }
  }

  lemma NotAmong(required: seq<Relationship>, rows: seq<Row>, creates: seq<Relationship>, sourceId: string,
                 r: Relationship)
    requires Fresh(creates, required, rows) && ActionOf(rows, r, sourceId) != Create
    ensures r.Key() !in KeySet(creates)
  {
    hide Under, ActionFor, KeyOf, SoundOne;
    CreateWhen(Under(rows, r.Key()), r.description, sourceId);
  }

  lemma SourceIsText(rows: seq<Row>, required: seq<Relationship>, sourceId: string, numbers: seq<string>)
    requires Request(rows, required, sourceId, numbers).Ok?
    ensures IsText(sourceId)
  {
    hide Machines, KindOf, FirstText, ForPart, Chosen, TextValue, IsText, RowWith, FirstWith;
    RowWithIsFirst(rows, sourceId);
    FirstIsThere(rows, RowWith(rows, sourceId).value, sourceId);
    TextTwice(RowWith(rows, sourceId).value.auditId);
  }

  lemma AskedAreRequired(rows: seq<Row>, required: seq<Relationship>, sourceId: string, numbers: seq<string>,
                         r: Relationship)
    requires Request(rows, required, sourceId, numbers).Ok?
    requires r in Request(rows, required, sourceId, numbers).value.1
    ensures r in required
    ensures ActionOf(rows, r, sourceId) == Create ==> r in ToCreate(rows, required, sourceId, numbers)
  {
    hide Machines, KindOf, FirstText, RowWith, ActionOf, KeyOf, ToolKey;
  }

  /* ---- The request ---- */

  /** The row is the first with the Audit ID. */
  ghost predicate FirstWith(rows: seq<Row>, row: Row, auditId: string)
  {
    exists i :: 0 <= i < |rows| && rows[i] == row && OnlyFrom(rows, auditId, i)
  }

  ghost predicate OnlyFrom(rows: seq<Row>, auditId: string, i: nat)
    requires i < |rows|
  {
    TextValue(rows[i].auditId) == auditId && forall j :: 0 <= j < i ==> TextValue(rows[j].auditId) != auditId
  }

  lemma {:induction false} RowWithIsFirst(rows: seq<Row>, auditId: string)
    ensures match RowWith(rows, auditId)
      case None => forall row :: row in rows ==> TextValue(row.auditId) != auditId
      case Some(row) => FirstWith(rows, row, auditId) && forall x :: FirstWith(rows, x, auditId) ==> x == row
  {
    hide TextValue;
    if rows != [] {
      if TextValue(rows[0].auditId) == auditId {
        assert OnlyFrom(rows, auditId, 0);
      } else {
        RowWithIsFirst(rows[1..], auditId);
        if RowWith(rows, auditId).Some? {
          var i :| 0 <= i < |rows[1..]| && rows[1..][i] == RowWith(rows, auditId).value
                   && OnlyFrom(rows[1..], auditId, i);
          LaterFirst(rows, auditId, i);
        }
        forall x | FirstWith(rows, x, auditId) ensures FirstWith(rows[1..], x, auditId) {
          var i :| 0 <= i < |rows| && rows[i] == x && OnlyFrom(rows, auditId, i);
          assert rows[1..][i - 1] == x && OnlyFrom(rows[1..], auditId, i - 1);
        }
      }
    }
  }

  lemma LaterFirst(rows: seq<Row>, auditId: string, i: nat)
    requires i < |rows| - 1 && OnlyFrom(rows[1..], auditId, i) && TextValue(rows[0].auditId) != auditId
    ensures OnlyFrom(rows, auditId, i + 1) && FirstWith(rows, rows[i + 1], auditId)
  {
    hide TextValue;
    forall j | 0 <= j < i + 1 ensures TextValue(rows[j].auditId) != auditId {
      if j > 0 { assert rows[1..][j - 1] == rows[j]; }
    }
  }

  /** When a request is refused, and what it asks for otherwise: the required relationships of the source's part on
      the machines chosen. The first row with the ID counts. */
  lemma RequestTold(rows: seq<Row>, required: seq<Relationship>, sourceId: string, numbers: seq<string>)
    ensures var machines, request := Machines(Join(numbers, ',')), Request(rows, required, sourceId, numbers);
      && (request == Err(NoMachines) <==> machines == [])
      && (request == Err(SourceMissing) <==>
          machines != [] && forall row :: row in rows ==> TextValue(row.auditId) != sourceId)
      && (request == Err(SourceNotAudited) <==>
          machines != [] && exists row :: FirstWith(rows, row, sourceId) && SaysCompatible(row))
      && (request == Err(SourceWithoutPart) <==>
          machines != []
          && exists row :: FirstWith(rows, row, sourceId) && !SaysCompatible(row) && FirstText(row.parts) == "")
      && (request.Ok? ==>
          var (source, asked) := request.value;
          && FirstWith(rows, source, sourceId) && !SaysCompatible(source) && FirstText(source.parts) != ""
          && forall r :: r in asked <==>
               r in required && ToolKey(r.part) == ToolKey(FirstText(source.parts)) && r.machine in machines)
  {
    hide Machines, FirstText, TextValue, Lower, RowWith, Token, ToolKey, Tool, FirstWith;
    RowWithIsFirst(rows, sourceId);
    if RowWith(rows, sourceId).None? {
      forall row ensures !FirstWith(rows, row, sourceId) {
        FirstIsThere(rows, row, sourceId);
      }
    } else {
      var row := RowWith(rows, sourceId).value;
      FirstIsThere(rows, row, sourceId);
      assert KindOf(row) == Audited <==> !SaysCompatible(row);
      hide KindOf, SaysCompatible;
      AskedAre(rows, required, sourceId, numbers);
    }
  }

  lemma AskedAre(rows: seq<Row>, required: seq<Relationship>, sourceId: string, numbers: seq<string>)
    ensures var machines, request := Machines(Join(numbers, ',')), Request(rows, required, sourceId, numbers);
      request.Ok? ==>
        var (source, asked) := request.value;
        forall r :: r in asked <==>
          r in required && ToolKey(r.part) == ToolKey(FirstText(source.parts)) && r.machine in machines
  {
    hide Machines, FirstText, TextValue, Lower, RowWith, Token, ToolKey, Tool, KindOf;
  }

  lemma FirstIsThere(rows: seq<Row>, row: Row, auditId: string)
    ensures FirstWith(rows, row, auditId) ==> row in rows && TextValue(row.auditId) == auditId
  {
    hide TextValue;
  }

  /** New IDs are those of no row that was there. */
  lemma NewIdsAreNew(rows: seq<Row>, ids: seq<string>, i: nat)
    requires AuditIds.NewIds(ids, IdsOf(rows)) && i < |ids|
    ensures forall row :: row in rows ==> TextValue(row.auditId) != ids[i]
    ensures forall j :: 0 <= j < |ids| && j != i ==> ids[j] != ids[i]
  {
    hide TextValue;
    forall row | row in rows ensures TextValue(row.auditId) in IdsOf(rows) {}
  }
}
