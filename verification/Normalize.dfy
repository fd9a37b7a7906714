/** How an audit entry is cleared, defaulted and filled before it is saved (core/audit_entries.py). */
module Normalization {
  import opened Wrappers
  import opened Vocabulary
  import opened FieldRules

  /** `audit_field_default`. */
  function Default(w: Words, f: Field): Option<string>
  {
    match f
    case VacuumConfirmation | QuickPresent => Some(w.yes)
    case PartPresent | SpareParts | Drawing | Bom | Binder | PhotosTaken | CompletionOverride => Some(w.no)
    case VacuumGenerator => Some(w.venturi)
    case Architecture => Some(w.robotOnly)
    case EoatInterchangeable => Some(w.zero)
    case ExternalVacuum | ExternalPressure | ExternalInterchangeable => Some(w.na)
    case _ => None
  }

  /** The fields that stay empty rather than marked not applicable. */
  predicate MayBeEmpty(f: Field)
  {
    f.SourceAuditId? || f.CompatibilitySource? || f.EoatMoves? || f.AssemblyId?
  }

  /** The fields that the inventory schema must have for the stages to write to. */
  predicate Complete(headers: set<Field>)
  {
    && Architecture in headers && CylinderType in headers && CupMaterial in headers && PartPresent in headers
    && SensorType in headers && SensorBrand in headers && Changeover in headers
  }

  function Members(headers: seq<Field>): set<Field>
  {
    set f | f in headers
  }

  /* ---- What the stages come to ---- */

  /** Every field that does not apply is marked so, all at once. */
  function Cleared(w: Words, e: Entry, headers: set<Field>): Entry
  {
    map f | f in e.Keys :: if f in headers && !Applies(w, e, f) then w.na else e[f]
  }

  /** What clearing leaves of a field. */
  function Kept(w: Words, e: Entry, f: Field): string
  {
    if Applies(w, e, f) then Get(e, f) else w.na
  }

  function Marked(w: Words, f: Field, v: string): string
  {
    if !w.blank(v) then v else if MayBeEmpty(f) then "" else w.na
  }

  function Filled(w: Words, f: Field, v: string): string
  {
    if w.blank(v) && Default(w, f).Some? then Default(w, f).value else Marked(w, f, v)
  }

  predicate TakesSilicone(kind: Kind)
  {
    kind.Unset? || kind.Vacuum? || kind.Hybrid? || kind.Unknown?
  }

  function CylinderText(w: Words, count: string, v: string): string
  {
    if w.isMeaningful(count) then (if w.blank(v) || w.isNA(v) then w.linear else v) else if w.isLinear(v) then "" else v
  }

  function CupText(w: Words, kind: Kind, v: string): string
  {
    var u := if w.blank(v) && TakesSilicone(kind) then w.silicone else v;
    if kind.Gripper? && w.isSilicone(u) then "" else u
  }

  function SensorText(w: Words, present: string, usual: string, v: string): string
  {
    if w.isYes(present) && w.allows(v, usual) then usual else v
  }

  function ChangeoverText(w: Words, connection: string, v: string): string
  {
    if w.undecided(v) && w.difficulty(connection).Some? then w.difficulty(connection).value else v
  }

  /** What becomes of one field, read off the entry as it came. */
  function Value(w: Words, e: Entry, f: Field): string
  {
    var v := Kept(w, e, f);
    match f
    case CylinderType => Marked(w, f, CylinderText(w, Get(e, CylinderCount), v))
    case CupMaterial => Marked(w, f, CupText(w, w.kindOf(Get(e, EoatType)), v))
    case SensorType => Marked(w, f, SensorText(w, Kept(w, e, PartPresent), w.reedSwitch, v))
    case SensorBrand => Marked(w, f, SensorText(w, Kept(w, e, PartPresent), w.smc, v))
    case Changeover => Marked(w, f, ChangeoverText(w, Get(e, ConnectionType), v))
    case _ => Filled(w, f, v)
  }

  function Stage(w: Words, e: Entry): (r: Entry)
    ensures r.Keys == e.Keys
  {
    map f | f in e.Keys :: Value(w, e, f)
  }

  /* ---- Clearing ---- */

  /** The clearing loop changes the entry as it goes, and yet does what clearing all at once would: the
      result does not depend on the order of the headers, and no controlling field is touched. */
  method Clear(w: Words, e: Entry, headers: seq<Field>) returns (r: Entry)
    requires Lawful(w) && forall f :: f in headers ==> f in e
    ensures r == Cleared(w, e, Members(headers)) && SameControls(e, r)
  {
    hide Applies, Controls, Cleared, Lawful;
    r := e;
    assert r == Cleared(w, e, Members(headers[..0])) by { NothingCleared(w, e); }
    for i := 0 to |headers|
      invariant r.Keys == e.Keys && r == Cleared(w, e, Members(headers[..i])) && SameControls(e, r)
    {
      ClearStep(w, e, r, headers, i);
      if !Applies(w, r, headers[i]) {
        r := r[headers[i] := w.na];
      }
    }
    assert headers[..|headers|] == headers;
  }

  lemma NothingCleared(w: Words, e: Entry)
    ensures e == Cleared(w, e, Members([]))
  {
  }

  lemma ClearStep(w: Words, e: Entry, r: Entry, headers: seq<Field>, i: nat)
    requires Lawful(w) && i < |headers| && headers[i] in e
    requires r == Cleared(w, e, Members(headers[..i])) && SameControls(e, r)
    ensures var u := if Applies(w, r, headers[i]) then r else r[headers[i] := w.na];
      u == Cleared(w, e, Members(headers[..i + 1])) && SameControls(e, u)
  {
    hide Applies, Controls, Lawful, SameControls, Cleared;
    var f := headers[i];
    assert headers[..i + 1] == headers[..i] + [f];
    assert Members(headers[..i + 1]) == Members(headers[..i]) + {f};
    ClearOne(w, e, Members(headers[..i]), f);
    StillApplies(w, e, r, f);
    ControlsApply(w, r, f);
    if !Controls(f) { KeepsControls(e, r, f, w.na); }
  }

  lemma ClearOne(w: Words, e: Entry, headers: set<Field>, f: Field)
    requires f in e
    ensures Cleared(w, e, headers + {f}) ==
      if Applies(w, e, f) then Cleared(w, e, headers) else Cleared(w, e, headers)[f := w.na]
    ensures f in Cleared(w, e, headers)
    ensures var v := Cleared(w, e, headers)[f]; v == e[f] || (!Applies(w, e, f) && v == w.na)
  {
    hide Applies;
  }

  lemma KeepsControls(e: Entry, r: Entry, f: Field, v: string)
    requires SameControls(e, r) && !Controls(f) && f in r
    ensures SameControls(e, r[f := v])
  {
    hide Controls;
    assert f != ElectricalPresent by { ElectricalControls(); }
  }

  lemma ElectricalControls()
    ensures Controls(ElectricalPresent)
  {
  }

  lemma StillApplies(w: Words, e: Entry, r: Entry, f: Field)
    requires Lawful(w) && SameControls(e, r) && f in e && f in r
    requires r[f] == e[f] || (!Applies(w, e, f) && r[f] == w.na)
    ensures Applies(w, r, f) == Applies(w, e, f)
  {
    hide RulesOf, Allowed, Lawful;
    SameRules(w, e, r);
    if !Applies(w, e, f) { MarkedStays(w, RulesOf(w, e), f, Get(e, f)); }
  }

  /* ---- Defaults ---- */

  /** The default loop after its first `k` headers: whether a field applies is judged on the entry as it is by then. */
  function DefaultTo(w: Words, e: Entry, headers: seq<Field>, k: nat): (d: Entry)
    requires k <= |headers|
    ensures d.Keys == e.Keys
  {
    if k == 0 then e else SetDefault(w, DefaultTo(w, e, headers, k - 1), headers[k - 1])
  }

  function SetDefault(w: Words, e: Entry, f: Field): (d: Entry)
    ensures d.Keys == e.Keys
  {
    if f in e && Applies(w, e, f) && w.blank(e[f]) && Default(w, f).Some? then e[f := Default(w, f).value] else e
  }

  method SetDefaults(w: Words, e: Entry, headers: seq<Field>) returns (r: Entry)
    ensures r == DefaultTo(w, e, headers, |headers|)
  {
    hide Applies, Default;
    r := e;
    for i := 0 to |headers|
      invariant r == DefaultTo(w, e, headers, i)
    {
      var f := headers[i];
      if f in r && Applies(w, r, f) && w.blank(r[f]) && Default(w, f).Some? {
        r := r[f := Default(w, f).value];
      }
    }
  }

  /** What the default loop makes of the cleared entry: a blank field that applies takes its default. For the
      external circuits that depends on whether the architecture took its default first; either way they end
      marked. */
  predicate DefaultedAt(w: Words, e: Entry, f: Field, v: string)
  {
    DefaultedText(w, f, Kept(w, e, f), v)
  }

  predicate DefaultedText(w: Words, f: Field, c: string, v: string)
  {
    if !w.blank(c) || Default(w, f).None? then v == c
    else if IsExternal(f) then v == c || v == w.na
    else v == Default(w, f).value
  }

  predicate Between(w: Words, e: Entry, f: Field, v: string)
  {
    v == Kept(w, e, f) || DefaultedAt(w, e, f, v)
  }

  ghost predicate AllBetween(w: Words, e: Entry, d: Entry)
  {
    d.Keys == e.Keys && forall f :: f in e ==> Between(w, e, f, d[f])
  }

  /** Defaults change nothing that the rules look at, but for hiding the external circuits. */
  lemma DefaultRules(w: Words, e: Entry, r: Entry)
    requires Lawful(w) && AllBetween(w, e, r)
    ensures RulesOf(w, r) == RulesOf(w, e).(hidesExternal := RulesOf(w, r).hidesExternal)
  {
    hide Between, Default, Get;
    AfterDefault(w, e, r, EntryType);
    AfterDefault(w, e, r, EoatType);
    AfterDefault(w, e, r, SensorsPresent);
    AfterDefault(w, e, r, ElectricalPresent);
    AfterDefault(w, e, r, QuickPresent);
    AfterDefault(w, e, r, Architecture);
    ControlDefaults(w);
  }

  lemma ControlDefaults(w: Words)
    ensures Default(w, EntryType) == Default(w, EoatType) == None
    ensures Default(w, SensorsPresent) == Default(w, ElectricalPresent) == None
    ensures Default(w, QuickPresent) == Some(w.yes) && Default(w, Architecture) == Some(w.robotOnly)
  {
  }

  lemma AfterDefault(w: Words, e: Entry, r: Entry, f: Field)
    requires Controls(f) && r.Keys == e.Keys && (f in e ==> Between(w, e, f, r[f]))
    ensures Get(r, f) == Get(e, f) || (w.blank(Get(e, f)) && Default(w, f).Some? && Get(r, f) == Default(w, f).value)
  {
    hide Applies;
    ControlsApply(w, e, f);
  }

  /** Every default says something. */
  lemma DefaultSays(w: Words, f: Field)
    requires Lawful(w)
    ensures Default(w, f).Some? ==> !w.blank(Default(w, f).value)
    ensures IsExternal(f) ==> Default(w, f) == Some(w.na)
  {
  }

  lemma DefaultStep(w: Words, e: Entry, r: Entry, f: Field)
    requires Lawful(w) && AllBetween(w, e, r) && f in e
    ensures DefaultedAt(w, e, f, SetDefault(w, r, f)[f])
  {
    hide RulesOf, Default, Allowed, AllBetween;
    BetweenAt(w, e, r, f);
    DefaultSays(w, f);
    if w.blank(r[f]) && Default(w, f).Some? {
      DefaultRules(w, e, r);
      if !IsExternal(f) { HidingMatters(w, RulesOf(w, e), RulesOf(w, r).hidesExternal, f, r[f]); }
    }
  }

  lemma BetweenAt(w: Words, e: Entry, r: Entry, f: Field)
    requires AllBetween(w, e, r) && f in e
    ensures r.Keys == e.Keys && Between(w, e, f, r[f])
  {
  }

  /** Whether the external circuits are hidden only matters to the external circuits. */
  lemma HidingMatters(w: Words, rules: Rules, hides: bool, f: Field, own: string)
    requires !IsExternal(f)
    ensures Allowed(w, rules.(hidesExternal := hides), f, own) == Allowed(w, rules, f, own)
  {
  }

  /** The entry while it is being defaulted: fields whose turn is over have their default. */
  ghost predicate Defaulting(w: Words, e: Entry, d: Entry, done: seq<Field>)
  {
    && AllBetween(w, e, d)
    && (forall f :: f in e && f in done ==> DefaultedAt(w, e, f, d[f]))
  }

  lemma {:induction false} Defaulted(w: Words, e: Entry, headers: seq<Field>, k: nat)
    requires Lawful(w) && k <= |headers|
    ensures Defaulting(w, e, DefaultTo(w, Cleared(w, e, e.Keys), headers, k), headers[..k])
  {
    hide SetDefault, Defaulting, Cleared;
    if k > 0 {
      Defaulted(w, e, headers, k - 1);
      assert headers[..k] == headers[..k - 1] + [headers[k - 1]];
      NextDefault(w, e, DefaultTo(w, Cleared(w, e, e.Keys), headers, k - 1), headers[..k - 1], headers[k - 1]);
    } else {
      ClearedIsKept(w, e);
    }
  }

  lemma NextDefault(w: Words, e: Entry, d: Entry, done: seq<Field>, f: Field)
    requires Lawful(w) && Defaulting(w, e, d, done)
    ensures Defaulting(w, e, SetDefault(w, d, f), done + [f])
  {
    hide Between, DefaultedAt, Applies, Default, Lawful;
    if f in e {
      DefaultStep(w, e, d, f);
      assert Between(w, e, f, SetDefault(w, d, f)[f]) by { NowBetween(w, e, f, SetDefault(w, d, f)[f]); }
    }
  }

  lemma NowBetween(w: Words, e: Entry, f: Field, v: string)
    requires DefaultedAt(w, e, f, v)
    ensures Between(w, e, f, v)
  {
  }

  lemma ClearedIsKept(w: Words, e: Entry)
    ensures Defaulting(w, e, Cleared(w, e, e.Keys), [])
  {
    hide Applies, DefaultedAt;
  }

  /* ---- The rest ---- */

  /** `normalize_cylinder_fields`. */
  function NormalizeCylinder(w: Words, e: Entry): (r: Entry)
    ensures Get(r, CylinderType) == CylinderText(w, Get(e, CylinderCount), Get(e, CylinderType))
    ensures forall f: Field {:trigger Get(r, f)} :: !f.CylinderType? ==> Get(r, f) == Get(e, f)
    ensures CylinderType in e ==> r.Keys == e.Keys
  {
    var kind := Get(e, CylinderType);
    if w.isMeaningful(Get(e, CylinderCount)) then
      if w.blank(kind) || w.isNA(kind) then e[CylinderType := w.linear] else e
    else
      if w.isLinear(kind) then e[CylinderType := ""] else e
  }

  /** The cup material: silicone by default, but not for a gripper. */
  function SetCups(w: Words, e: Entry, kind: Kind): (r: Entry)
    ensures Get(r, CupMaterial) == CupText(w, kind, Get(e, CupMaterial))
    ensures forall f: Field {:trigger Get(r, f)} :: !f.CupMaterial? ==> Get(r, f) == Get(e, f)
    ensures CupMaterial in e ==> r.Keys == e.Keys
  {
    var e1 := if w.blank(Get(e, CupMaterial)) && TakesSilicone(kind) then e[CupMaterial := w.silicone] else e;
    if kind.Gripper? && w.isSilicone(Get(e1, CupMaterial)) then e1[CupMaterial := ""] else e1
  }

  /** `apply_part_present_sensor_defaults`. */
  function SenseParts(w: Words, e: Entry): (r: Entry)
    ensures Get(r, SensorType) == SensorText(w, Get(e, PartPresent), w.reedSwitch, Get(e, SensorType))
    ensures Get(r, SensorBrand) == SensorText(w, Get(e, PartPresent), w.smc, Get(e, SensorBrand))
    ensures forall f: Field {:trigger Get(r, f)} :: !f.SensorType? && !f.SensorBrand? ==> Get(r, f) == Get(e, f)
    ensures SensorType in e && SensorBrand in e ==> r.Keys == e.Keys
  {
    if !w.isYes(Get(e, PartPresent)) then e
    else
      var e1 := if w.allows(Get(e, SensorType), w.reedSwitch) then e[SensorType := w.reedSwitch] else e;
      if w.allows(Get(e1, SensorBrand), w.smc) then e1[SensorBrand := w.smc] else e1
  }

  function SetChangeover(w: Words, e: Entry): (r: Entry)
    ensures Get(r, Changeover) == ChangeoverText(w, Get(e, ConnectionType), Get(e, Changeover))
    ensures forall f: Field {:trigger Get(r, f)} :: !f.Changeover? ==> Get(r, f) == Get(e, f)
    ensures Changeover in e ==> r.Keys == e.Keys
  {
    var difficulty := w.difficulty(Get(e, ConnectionType));
    if w.undecided(Get(e, Changeover)) && difficulty.Some? then e[Changeover := difficulty.value] else e
  }

  /** The last loop: what is still blank is marked not applicable. */
  method FillBlanks(w: Words, e: Entry, headers: seq<Field>) returns (r: Entry)
    requires Lawful(w) && forall f :: f in headers <==> f in e
    ensures r.Keys == e.Keys && forall f :: f in e ==> r[f] == Marked(w, f, e[f])
  {
    r := e;
    for i := 0 to |headers|
      invariant r.Keys == e.Keys
      invariant forall f :: f in headers[..i] ==> r[f] == Marked(w, f, e[f])
      invariant forall f :: f in e && f !in headers[..i] ==> r[f] == e[f]
    {
      var f := headers[i];
      assert headers[..i + 1] == headers[..i] + [f];
      if w.blank(r[f]) {
        r := r[f := if MayBeEmpty(f) then "" else w.na];
      }
    }
    assert headers[..|headers|] == headers;
  }

  /** The steps between the defaults and the last loop. */
  function Adjusted(w: Words, e: Entry, kind: Kind): Entry
  {
    SetChangeover(w, SenseParts(w, SetCups(w, NormalizeCylinder(w, e), kind)))
  }

  /** The text the adjustments leave in a field. */
  function AdjustedText(w: Words, d: Entry, kind: Kind, f: Field): string
  {
    match f
    case CylinderType => CylinderText(w, Get(d, CylinderCount), Get(d, f))
    case CupMaterial => CupText(w, kind, Get(d, f))
    case SensorType => SensorText(w, Get(d, PartPresent), w.reedSwitch, Get(d, f))
    case SensorBrand => SensorText(w, Get(d, PartPresent), w.smc, Get(d, f))
    case Changeover => ChangeoverText(w, Get(d, ConnectionType), Get(d, f))
    case _ => Get(d, f)
  }

  lemma AdjustedAt(w: Words, d: Entry, kind: Kind, f: Field)
    requires Complete(d.Keys) && f in d
    ensures Adjusted(w, d, kind).Keys == d.Keys && Adjusted(w, d, kind)[f] == AdjustedText(w, d, kind, f)
  {
    hide Adjusted, AdjustedText, Get;
    AdjustedKeys(w, d, kind);
    AdjustedGet(w, d, kind, f);
    IsThere(Adjusted(w, d, kind), f);
  }

  lemma AdjustedKeys(w: Words, d: Entry, kind: Kind)
    requires Complete(d.Keys)
    ensures Adjusted(w, d, kind).Keys == d.Keys
  {
    hide NormalizeCylinder, SetCups, SenseParts, SetChangeover, Get, CylinderText, CupText, SensorText, ChangeoverText;
  }

  lemma AdjustedGet(w: Words, d: Entry, kind: Kind, f: Field)
    ensures Get(Adjusted(w, d, kind), f) == AdjustedText(w, d, kind, f)
  {
    hide Adjusted, Get, CylinderText, CupText, SensorText, ChangeoverText;
    AdjustedFive(w, d, kind);
    if !IsAdjusted(f) { AdjustedOther(w, d, kind, f); }
  }

  predicate IsAdjusted(f: Field)
  {
    f.CylinderType? || f.CupMaterial? || f.SensorType? || f.SensorBrand? || f.Changeover?
  }

  lemma AdjustedFive(w: Words, d: Entry, kind: Kind)
    ensures var r := Adjusted(w, d, kind);
      && Get(r, CylinderType) == CylinderText(w, Get(d, CylinderCount), Get(d, CylinderType))
      && Get(r, CupMaterial) == CupText(w, kind, Get(d, CupMaterial))
      && Get(r, SensorType) == SensorText(w, Get(d, PartPresent), w.reedSwitch, Get(d, SensorType))
      && Get(r, SensorBrand) == SensorText(w, Get(d, PartPresent), w.smc, Get(d, SensorBrand))
      && Get(r, Changeover) == ChangeoverText(w, Get(d, ConnectionType), Get(d, Changeover))
  {
    hide NormalizeCylinder, SetCups, SenseParts, SetChangeover, Get, CylinderText, CupText, SensorText, ChangeoverText;
  }

  lemma AdjustedOther(w: Words, d: Entry, kind: Kind, f: Field)
    requires !IsAdjusted(f)
    ensures Get(Adjusted(w, d, kind), f) == Get(d, f)
  {
    hide NormalizeCylinder, SetCups, SenseParts, SetChangeover, Get, CylinderText, CupText, SensorText, ChangeoverText;
  }

  lemma IsThere(e: Entry, f: Field)
    ensures f in e ==> Get(e, f) == e[f]
  {
  }

  /** Defaulting, adjusting and marking give a field the value told from the entry as it came. */
  lemma PipelineField(w: Words, e: Entry, d: Entry, f: Field)
    requires Lawful(w) && Complete(e.Keys) && d.Keys == e.Keys && f in e
    requires TookDefault(w, e, d, f) && TookDefault(w, e, d, CylinderCount) && TookDefault(w, e, d, ConnectionType)
    requires TookDefault(w, e, d, PartPresent)
    ensures Marked(w, f, AdjustedText(w, d, w.kindOf(Get(e, EoatType)), f)) == Value(w, e, f)
  {
    hide CylinderText, CupText, SensorText, ChangeoverText, Marked, Kept, Filled, Lawful, TookDefault, Default;
    if f.CylinderType? || f.CupMaterial? || f.SensorType? || f.SensorBrand? || f.Changeover? {
      Undefaulted(w, e, d, f);
      UnruledStays(w, e, d, CylinderCount);
      UnruledStays(w, e, d, ConnectionType);
      PartsSensed(w, e, d);
    } else {
      MarkedIsFilled(w, e, d, f);
    }
  }

  /** A field that the entry has came out of the default loop with its default. */
  predicate TookDefault(w: Words, e: Entry, d: Entry, f: Field)
    requires d.Keys == e.Keys
  {
    f in e ==> DefaultedAt(w, e, f, d[f])
  }

  lemma MarkedIsFilled(w: Words, e: Entry, d: Entry, f: Field)
    requires Lawful(w) && d.Keys == e.Keys && f in e && TookDefault(w, e, d, f)
    ensures Marked(w, f, d[f]) == Filled(w, f, Kept(w, e, f))
  {
    hide Default, MayBeEmpty, Kept;
    DefaultSays(w, f);
    assert IsExternal(f) ==> !MayBeEmpty(f) by { ExternalMarked(f); }
  }

  lemma ExternalMarked(f: Field)
    ensures IsExternal(f) ==> !MayBeEmpty(f)
  {
  }

  /** A field without a default comes out of the default loop as it was cleared. */
  lemma Undefaulted(w: Words, e: Entry, d: Entry, f: Field)
    requires f.CylinderType? || f.CupMaterial? || f.SensorType? || f.SensorBrand? || f.Changeover?
    requires d.Keys == e.Keys && f in e && TookDefault(w, e, d, f)
    ensures Get(d, f) == Kept(w, e, f)
  {
    hide Kept;
  }

  lemma PartsSensed(w: Words, e: Entry, d: Entry)
    requires Lawful(w) && d.Keys == e.Keys && PartPresent in e && TookDefault(w, e, d, PartPresent)
    ensures forall usual, v ::
              SensorText(w, Get(d, PartPresent), usual, v) == SensorText(w, Kept(w, e, PartPresent), usual, v)
  {
    hide Kept;
  }

  /** A gripper never has silicone cups to reset: its cup material was marked before the reset could see it. */
  lemma GripperClears(w: Words, e: Entry)
    requires Lawful(w)
    ensures var kind, v := w.kindOf(Get(e, EoatType)), Kept(w, e, CupMaterial);
      CupText(w, kind, v) == if w.blank(v) && TakesSilicone(kind) then w.silicone else v
  {
  }

  /** The counts and the connection always apply. */
  lemma Unruled(w: Words, e: Entry, f: Field)
    requires f.CylinderCount? || f.ConnectionType?
    ensures Kept(w, e, f) == Get(e, f)
  {
    hide RulesOf;
  }

  lemma UnruledStays(w: Words, e: Entry, d: Entry, f: Field)
    requires f.CylinderCount? || f.ConnectionType?
    requires d.Keys == e.Keys && TookDefault(w, e, d, f)
    ensures Get(d, f) == Get(e, f)
  {
    hide Kept;
    Unruled(w, e, f);
  }

  /** The stages of normalisation from the clearing on. What comes out is told field by field by `Value`, from
      the entry as it came: the order of the headers does not matter. */
  method Normalize(w: Words, e: Entry, headers: seq<Field>) returns (r: Entry)
    requires Lawful(w) && (forall f :: f in headers <==> f in e) && Complete(e.Keys)
    ensures r == Stage(w, e)
  {
    hide Value, Adjusted, AdjustedText, DefaultedAt, Between, Applies, Marked, Cleared, Lawful, DefaultTo;
    r := Clear(w, e, headers);
    assert Members(headers) == e.Keys;
    r := SetDefaults(w, r, headers);
    Defaulted(w, e, headers, |headers|);
    assert headers[..|headers|] == headers;
    ghost var d := r;
    var kind := w.kindOf(Get(e, EoatType));
    r := Adjusted(w, r, kind);
    forall f | f in e ensures r.Keys == e.Keys && Marked(w, f, r[f]) == Value(w, e, f) {
      AdjustedAt(w, d, kind, f);
      assert TookDefault(w, e, d, f) && TookDefault(w, e, d, PartPresent);
      PipelineField(w, e, d, f);
    }
    assert Architecture in e;
    r := FillBlanks(w, r, headers);
  }
}
