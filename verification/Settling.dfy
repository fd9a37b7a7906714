/** Normalising what has been normalised already (core/audit_entries.py). */
module Settling {
  import opened Text
  import opened Vocabulary
  import opened FieldRules
  import opened Normalization

  /** What a pass leaves in a field that another one looks at. */
  lemma ControlAfter(w: Words, e: Entry, c: Field)
    requires Controls(c) || c.CylinderCount? || c.ConnectionType?
    ensures Get(Stage(w, e), c) == if c in e then Filled(w, c, e[c]) else ""
  {
    hide Applies, Filled;
    if Controls(c) { ControlsApply(w, e, c); } else { Unruled(w, e, c); }
  }

  /** Filling in says nothing new, but for the defaults. */
  lemma FilledSays(w: Words, f: Field, v: string)
    requires Lawful(w)
    ensures var u := Filled(w, f, v);
      && (Default(w, f).None? ==>
            && w.isNo(u) == w.isNo(v) && w.isCompatible(u) == w.isCompatible(v) && w.kindOf(u) == w.kindOf(v)
            && w.isMeaningful(u) == w.isMeaningful(v) && w.difficulty(u) == w.difficulty(v))
      && (f.QuickPresent? ==> w.isNo(u) == w.isNo(v))
      && (f.PartPresent? ==> w.isYes(u) == w.isYes(v))
      && (f.Architecture? ==> w.hidesRobot(u) == w.hidesRobot(v)
                              && w.hidesExternal(u) == (w.hidesExternal(v) || w.blank(v)))
  {
  }

  /** A pass changes nothing that the rules look at, but that a blank architecture hides the external circuits. */
  lemma RulesAfter(w: Words, e: Entry)
    requires Lawful(w) && Architecture in e
    ensures RulesOf(w, Stage(w, e)) ==
      RulesOf(w, e).(hidesExternal := RulesOf(w, e).hidesExternal || w.blank(e[Architecture]))
  {
    hide Stage, Lawful, Filled, Default;
    ControlAfter(w, e, EntryType);
    ControlAfter(w, e, EoatType);
    ControlAfter(w, e, SensorsPresent);
    ControlAfter(w, e, ElectricalPresent);
    ControlAfter(w, e, QuickPresent);
    ControlAfter(w, e, Architecture);
    ControlDefaults(w);
    FilledSays(w, EntryType, Get(e, EntryType));
    FilledSays(w, EoatType, Get(e, EoatType));
    FilledSays(w, SensorsPresent, Get(e, SensorsPresent));
    FilledSays(w, ElectricalPresent, Get(e, ElectricalPresent));
    FilledSays(w, QuickPresent, Get(e, QuickPresent));
    FilledSays(w, Architecture, Get(e, Architecture));
  }

  /** A field that does not apply is marked so. */
  lemma MarkedValue(w: Words, e: Entry, f: Field)
    requires Lawful(w) && !Applies(w, e, f)
    ensures Value(w, e, f) == w.na
  {
    hide Applies, Lawful, Get;
    NeverOut(w, e, f);
    MarkIsKept(w, f, w.kindOf(Get(e, EoatType)));
  }

  /** The mark comes through filling and adjusting. */
  lemma MarkIsKept(w: Words, f: Field, kind: Kind)
    requires Lawful(w)
    ensures Filled(w, f, w.na) == Marked(w, f, w.na) == CupText(w, kind, w.na) == w.na
    ensures forall usual, v :: SensorText(w, w.na, usual, v) == v
  {
    hide Default;
  }

  /** The cylinder type and the changeover always apply, and the two sensor fields as the part sensor does. */
  lemma NeverOut(w: Words, e: Entry, f: Field)
    ensures f.CylinderType? || f.Changeover? ==> Applies(w, e, f)
    ensures f.SensorType? || f.SensorBrand? ==> Applies(w, e, f) == Applies(w, e, PartPresent)
  {
    hide RulesOf;
  }

  /** What a pass leaves in a field that applies still applies, or is the mark. */
  lemma StillAllowed(w: Words, e: Entry, f: Field)
    requires Lawful(w) && Applies(w, e, f)
    ensures Allowed(w, RulesOf(w, e), f, Value(w, e, f)) || Value(w, e, f) == w.na
  {
    hide RulesOf;
  }

  /** The external circuits are hidden after a pass as they were before: the architecture was given. */
  ghost predicate SameView(w: Words, e: Entry, f: Field)
  {
    Complete(e.Keys) && f in e && (IsExternal(f) ==> !w.blank(e[Architecture]))
  }

  /** On a second pass a field comes in as the first pass left it. */
  lemma SecondKept(w: Words, e: Entry, f: Field)
    requires Lawful(w) && SameView(w, e, f)
    ensures Kept(w, Stage(w, e), f) == Value(w, e, f)
  {
    hide RulesOf, Allowed, Value, Lawful;
    RulesAfter(w, e);
    if !IsExternal(f) { HidingMatters(w, RulesOf(w, e), RulesOf(w, Stage(w, e)).hidesExternal, f, Value(w, e, f)); }
    if Applies(w, e, f) { StillAllowed(w, e, f); } else { MarkedValue(w, e, f); }
  }

  /** A text does not change once it is written. */
  lemma TextSettles(w: Words, f: Field, v: string, count: string, kind: Kind, connection: string)
    requires Lawful(w) && !MayBeEmpty(f)
    ensures var t := Marked(w, f, CylinderText(w, count, v)); Marked(w, f, CylinderText(w, count, t)) == t
    ensures var t := Marked(w, f, CupText(w, kind, v)); Marked(w, f, CupText(w, kind, t)) == t
    ensures var t := Marked(w, f, ChangeoverText(w, connection, v)); Marked(w, f, ChangeoverText(w, connection, t)) == t
  {
    hide MayBeEmpty;
  }

  lemma SensorSettles(w: Words, f: Field, present: string, again: string, usual: string, v: string)
    requires Lawful(w) && !MayBeEmpty(f) && w.isYes(again) == w.isYes(present)
    requires usual == w.reedSwitch || usual == w.smc
    ensures var t := Marked(w, f, SensorText(w, present, usual, v)); Marked(w, f, SensorText(w, again, usual, t)) == t
  {
    hide MayBeEmpty;
  }

  lemma FillingSettles(w: Words, f: Field, v: string)
    requires Lawful(w)
    ensures Filled(w, f, Filled(w, f, v)) == Filled(w, f, v)
  {
    DefaultSays(w, f);
  }

  /* A second pass keeps the fields that are adjusted. */

  lemma CylinderSettles(w: Words, e: Entry)
    requires Lawful(w) && Complete(e.Keys)
    ensures Value(w, Stage(w, e), CylinderType) == Value(w, e, CylinderType)
  {
    hide Kept, Stage, Filled, Lawful, Marked;
    SecondKept(w, e, CylinderType);
    ControlAfter(w, e, CylinderCount);
    FilledSays(w, CylinderCount, Get(e, CylinderCount));
    TextSettles(w, CylinderType, Kept(w, e, CylinderType), Get(e, CylinderCount), Unset, "");
  }

  lemma CupsSettle(w: Words, e: Entry)
    requires Lawful(w) && Complete(e.Keys)
    ensures Value(w, Stage(w, e), CupMaterial) == Value(w, e, CupMaterial)
  {
    hide Kept, Stage, Filled, Lawful, Marked, CupText;
    SecondKept(w, e, CupMaterial);
    ControlAfter(w, e, EoatType);
    FilledSays(w, EoatType, Get(e, EoatType));
    TextSettles(w, CupMaterial, Kept(w, e, CupMaterial), "", w.kindOf(Get(e, EoatType)), "");
  }

  lemma SensorsSettle(w: Words, e: Entry)
    requires Lawful(w) && Complete(e.Keys)
    ensures Value(w, Stage(w, e), SensorType) == Value(w, e, SensorType)
    ensures Value(w, Stage(w, e), SensorBrand) == Value(w, e, SensorBrand)
  {
    hide Kept, Stage, Filled, Marked, SensorText;
    SecondKept(w, e, SensorType);
    SecondKept(w, e, SensorBrand);
    SecondKept(w, e, PartPresent);
    var present := Kept(w, e, PartPresent);
    FilledSays(w, PartPresent, present);
    SensorSettles(w, SensorType, present, Filled(w, PartPresent, present), w.reedSwitch, Kept(w, e, SensorType));
    SensorSettles(w, SensorBrand, present, Filled(w, PartPresent, present), w.smc, Kept(w, e, SensorBrand));
  }

  lemma ChangeoverSettles(w: Words, e: Entry)
    requires Lawful(w) && Complete(e.Keys)
    ensures Value(w, Stage(w, e), Changeover) == Value(w, e, Changeover)
  {
    hide Kept, Stage, Filled, Lawful, Marked;
    SecondKept(w, e, Changeover);
    ControlAfter(w, e, ConnectionType);
    FilledSays(w, ConnectionType, Get(e, ConnectionType));
    TextSettles(w, Changeover, Kept(w, e, Changeover), "", Unset, Get(e, ConnectionType));
  }

  /** A second pass keeps each field, the external circuits when the architecture was given. */
  lemma FieldSettles(w: Words, e: Entry, f: Field)
    requires Lawful(w) && SameView(w, e, f)
    ensures Value(w, Stage(w, e), f) == Value(w, e, f)
  {
    hide Kept, Stage, Filled, CylinderText, CupText, SensorText, ChangeoverText, Lawful;
    if IsAdjusted(f) {
      hide Value;
      CylinderSettles(w, e);
      CupsSettle(w, e);
      SensorsSettle(w, e);
      ChangeoverSettles(w, e);
    } else {
      SecondKept(w, e, f);
      FillingSettles(w, f, Kept(w, e, f));
    }
  }

  /** Without an architecture the second pass hides the external circuits that the first pass let through. */
  lemma ExternalAfter(w: Words, e: Entry, f: Field)
    requires Lawful(w) && Complete(e.Keys) && f in e && IsExternal(f) && w.blank(e[Architecture])
    ensures Value(w, Stage(w, e), f) == w.na
    ensures Value(w, e, f) == w.na <==> w.blank(e[f]) || e[f] == w.na
  {
    hide Stage;
    RulesAfter(w, e);
    MarkedValue(w, Stage(w, e), f);
  }

  /* ---- When normalising again changes nothing ---- */

  /** The external circuits are blank or marked already. */
  predicate NoExternalCircuits(w: Words, e: Entry)
  {
    forall f :: f in e && IsExternal(f) ==> w.blank(e[f]) || e[f] == w.na
  }

  /** Normalising once more changes nothing exactly when the air circuit architecture was given, or no external
      circuit was; a third pass never changes anything. */
  lemma SettlesWhen(w: Words, e: Entry)
    requires Lawful(w) && Complete(e.Keys)
    ensures Stage(w, Stage(w, e)) == Stage(w, e) <==> !w.blank(e[Architecture]) || NoExternalCircuits(w, e)
    ensures Stage(w, Stage(w, Stage(w, e))) == Stage(w, Stage(w, e))
  {
    hide Value, IsExternal, Lawful, Stage;
    SettlesOnce(w, e);
    ControlAfter(w, e, Architecture);
    ArchitectureGiven(w, e);
    SettlesOnce(w, Stage(w, e));
  }

  lemma ArchitectureGiven(w: Words, e: Entry)
    requires Lawful(w) && Complete(e.Keys)
    ensures !w.blank(Stage(w, e)[Architecture])
  {
    hide RulesOf;
  }

  lemma SettlesOnce(w: Words, e: Entry)
    requires Lawful(w) && Complete(e.Keys)
    ensures Stage(w, Stage(w, e)) == Stage(w, e) <==> !w.blank(e[Architecture]) || NoExternalCircuits(w, e)
  {
    hide Value, Lawful, IsExternal;
    var again := Stage(w, Stage(w, e));
    forall f | f in e && (!IsExternal(f) || !w.blank(e[Architecture])) ensures again[f] == Stage(w, e)[f] {
      FieldSettles(w, e, f);
    }
    forall f | f in e && IsExternal(f) && w.blank(e[Architecture])
      ensures again[f] == Stage(w, e)[f] <==> w.blank(e[f]) || e[f] == w.na
    {
      ExternalAfter(w, e, f);
    }
  }

  /** In the words of the application. */
  lemma SettlesInPractice(e: Entry)
    requires Complete(e.Keys)
    ensures var w := Spoken();
      && (Stage(w, Stage(w, e)) == Stage(w, e) <==> !Blank(e[Architecture]) || NoExternalCircuits(w, e))
      && Stage(w, Stage(w, Stage(w, e))) == Stage(w, Stage(w, e))
  {
    hide Stage, NoExternalCircuits, Lawful;
    SpokenIsLawful();
    SettlesWhen(Spoken(), e);
  }

  /** An entry with an external vacuum circuit and no architecture. */
  function Unsettled(): Entry
  {
    map[Architecture := "", CylinderType := "", CupMaterial := "", PartPresent := "", SensorType := "",
        SensorBrand := "", Changeover := "", ExternalVacuum := "2"]
  }

  /** Normalising it once more changes it. */
  lemma UnsettledChanges()
    ensures Complete(Unsettled().Keys) && Stage(Spoken(), Stage(Spoken(), Unsettled())) != Stage(Spoken(), Unsettled())
  {
    hide Stage, Unsettled, Spoken, NoExternalCircuits, Blank;
    UnsettledParts();
    CircuitSpeaks();
    SettlesInPractice(Unsettled());
    OneCircuit(Spoken(), Unsettled());
  }

  lemma UnsettledParts()
    ensures var e := Unsettled();
      Complete(e.Keys) && e[Architecture] == "" && ExternalVacuum in e && e[ExternalVacuum] == "2"
  {
  }

  lemma CircuitSpeaks()
    ensures Blank("") && !Spoken().blank("2") && Spoken().na != "2"
  {
    hide Strip, Lower;
    StripEmpty();
    SaysSomething("2");
  }

  lemma OneCircuit(w: Words, e: Entry)
    requires ExternalVacuum in e && !w.blank(e[ExternalVacuum]) && e[ExternalVacuum] != w.na
    ensures !NoExternalCircuits(w, e)
  {
  }
}
