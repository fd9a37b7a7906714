/** What becomes of each cell of an audit when it is normalised, told from the texts alone
    (core/audit_field_rules.py, core/audit_entries.py). */
module Outcomes {
  import opened Text
  import opened Wrappers
  import opened Vocabulary
  import opened FieldRules
  import opened Normalization

  /* ---- What a text says ---- */

  /** The cell in lower case, without the spaces at its ends; a missing cell is empty. */
  ghost function Said(e: Entry, f: Field): string
  {
    if f in e then Lower(Strip(e[f])) else ""
  }

  ghost predicate NamesNothing(t: string) { t == "" || t == "n/a" || t == "na" || t == "not applicable" }
  ghost predicate SaysHybrid(t: string) { Contains(t, "hybrid") }
  ghost predicate SaysGripper(t: string) { Contains(t, "mechanical") || Contains(t, "gripper") }
  ghost predicate SaysUnknown(t: string) { "unknown" <= t || Contains(t, "needs review") }

  /** Types with grippers: hybrid, mechanical or gripper ones, and any named type that is neither vacuum nor
      left open. */
  ghost predicate TakesGrippers(t: string)
  {
    SaysHybrid(t) || SaysGripper(t) || (!NamesNothing(t) && t != "vacuum" && !SaysUnknown(t))
  }

  /** A pure gripper has no cups. */
  ghost predicate TakesCups(t: string)
  {
    SaysHybrid(t) || !SaysGripper(t)
  }

  lemma ContainsChar(s: string, part: string, c: char)
    requires Contains(s, part) && c in part
    ensures c in s
  {
    var i :| 0 <= i <= |s| && HoldsAt(s, part, i);
    var k :| 0 <= k < |part| && part[k] == c;
    assert s[i..i + |part|][k] == c;
  }

  lemma PrefixChar(s: string, part: string, c: char)
    requires part <= s && c in part
    ensures c in s
  {
  }

  /** A text without these letters names no kind of EOAT. */
  lemma LacksLetters(t: string)
    requires 'y' !in t && 'g' !in t && 'h' !in t && 'r' !in t && 'k' !in t
    ensures !SaysHybrid(t) && !SaysGripper(t) && !SaysUnknown(t)
  {
    hide Contains;
    assert "hybrid"[1] == 'y' && "mechanical"[3] == 'h' && "gripper"[0] == 'g';
    assert "needs review"[6] == 'r' && "unknown"[2] == 'k';
    if SaysHybrid(t) { ContainsChar(t, "hybrid", 'y'); }
    if Contains(t, "mechanical") { ContainsChar(t, "mechanical", 'h'); }
    if Contains(t, "gripper") { ContainsChar(t, "gripper", 'g'); }
    if Contains(t, "needs review") { ContainsChar(t, "needs review", 'r'); }
    if "unknown" <= t { PrefixChar(t, "unknown", 'k'); }
  }

  lemma FixedTexts(t: string)
    requires NamesNothing(t) || t == "vacuum"
    ensures !SaysHybrid(t) && !SaysGripper(t) && !SaysUnknown(t)
  {
    hide SaysHybrid, SaysGripper, SaysUnknown;
    LacksLetters(t);
  }

  lemma KeyTwice(v: string)
    ensures Key(Key(v)) == Key(v)
  {
    hide Strip;
    StripFixed(Key(v));
    LowerTwice(Strip(v));
  }

  /** The kind of an EOAT type, from its text: each kind has its own condition, in whatever order one asks. */
  lemma KindTold(v: string)
    ensures var t := Lower(Strip(v));
      && (KindOf(v).Unset? <==> NamesNothing(t))
      && (KindOf(v).Vacuum? <==> t == "vacuum")
      && (KindOf(v).Hybrid? <==> SaysHybrid(t))
      && (KindOf(v).Gripper? <==> SaysGripper(t) && !SaysHybrid(t))
      && (KindOf(v).Unknown? <==> SaysUnknown(t) && !SaysHybrid(t) && !SaysGripper(t))
  {
    hide Strip, Lower, Contains;
    var t := Lower(Strip(v));
    KeyTwice(v);
    if NamesNothing(t) || t == "vacuum" { FixedTexts(t); }
  }

  /* ---- The rules, as the application's words answer them ---- */

  lemma Heard(e: Entry)
    ensures var rules := RulesOf(Spoken(), e);
      && (rules.compatible <==> Said(e, EntryType) == "compatible")
      && (rules.kind.Gripper? <==> !TakesCups(Said(e, EoatType)))
      && (rules.kind.Gripper? || rules.kind.Hybrid? || rules.kind.Miscellaneous? <==>
          TakesGrippers(Said(e, EoatType)))
      && (rules.noSensors <==> Said(e, SensorsPresent) == "no")
      && (rules.wiring.NoColumn? <==> ElectricalPresent !in e)
      && (rules.wiring.NoWiring? <==> Said(e, ElectricalPresent) == "no")
      && (rules.noQuick <==> Said(e, QuickPresent) == "no")
  {
    hide Strip, Lower, Contains, SaysHybrid, SaysGripper, SaysUnknown;
    EmptyKey();
    KindTold(Get(e, EoatType));
    if TakesGrippers(Said(e, EoatType)) {
      if NamesNothing(Said(e, EoatType)) || Said(e, EoatType) == "vacuum" { FixedTexts(Said(e, EoatType)); }
    }
  }

  lemma AirHeard(e: Entry)
    ensures RulesOf(Spoken(), e).hidesRobot <==>
      Architecture in e && Strip(e[Architecture]) == "External Peripheral Only"
    ensures RulesOf(Spoken(), e).hidesExternal <==> Architecture in e && Strip(e[Architecture]) == "Robot Only"
  {
    hide Strip, KindOf, Key;
    StripEmpty();
  }

  lemma EmptyKey()
    ensures Lower(Strip("")) == ""
  {
  }

  /* ---- Filled cells ---- */

  /** What normalising an entry with the application's words leaves in a cell. */
  ghost function Outcome(e: Entry, f: Field): string
    requires f in e
  {
    Stage(Spoken(), e)[f]
  }

  /** A filled cell that no later step looks at stays when its field applies, and is marked otherwise. */
  lemma FilledCell(e: Entry, f: Field)
    requires f in e && !Blank(e[f]) && !IsAdjusted(f)
    ensures Outcome(e, f) == if Allowed(Spoken(), RulesOf(Spoken(), e), f, e[f]) then e[f] else "N/A"
  {
    hide RulesOf, Allowed, Strip, Value;
    MarkSaysNothing();
    FilledField(Spoken(), e, f);
  }

  lemma FilledField(w: Words, e: Entry, f: Field)
    requires f in e && !w.blank(e[f]) && !w.blank(w.na) && !IsAdjusted(f)
    ensures Value(w, e, f) == if Allowed(w, RulesOf(w, e), f, e[f]) then e[f] else w.na
  {
    hide RulesOf, Allowed, Default;
  }

  /** A filled gripper cell stays exactly when the EOAT type has grippers. */
  lemma GripperCells(e: Entry, f: Field)
    requires f.GripperCount? || f.GripperType? || f.GripperModel?
    requires f in e && !Blank(e[f])
    ensures Outcome(e, f) == if TakesGrippers(Said(e, EoatType)) then e[f] else "N/A"
  {
    hide RulesOf, Outcome, Blank, TakesGrippers, Said;
    Heard(e);
    FilledCell(e, f);
  }

  /** A filled cup cell stays for every type other than a pure gripper. */
  lemma CupCells(e: Entry, f: Field)
    requires f.CupCount? || f.CupDiameter? || f.VacuumGenerator?
    requires f in e && !Blank(e[f])
    ensures Outcome(e, f) == if TakesCups(Said(e, EoatType)) then e[f] else "N/A"
  {
    hide RulesOf, Outcome, Blank, TakesCups, Said;
    Heard(e);
    FilledCell(e, f);
  }

  /** The robot's circuits stay unless the air comes from the peripheral alone. */
  lemma RobotCells(e: Entry, f: Field)
    requires f.RobotVacuum? || f.RobotPressure? || f.RobotInterchangeable?
    requires f in e && !Blank(e[f])
    ensures Outcome(e, f) ==
      if Architecture in e && Strip(e[Architecture]) == "External Peripheral Only" then "N/A" else e[f]
  {
    hide RulesOf, Outcome, Blank, Strip;
    AirHeard(e);
    FilledCell(e, f);
  }

  /** The peripheral's circuits stay unless the air comes from the robot alone. */
  lemma ExternalCells(e: Entry, f: Field)
    requires f.ExternalVacuum? || f.ExternalPressure? || f.ExternalInterchangeable?
    requires f in e && !Blank(e[f])
    ensures Outcome(e, f) == if Architecture in e && Strip(e[Architecture]) == "Robot Only" then "N/A" else e[f]
  {
    hide RulesOf, Outcome, Blank, Strip;
    AirHeard(e);
    FilledCell(e, f);
  }

  /** Date and auditor stay unless the row is a compatible one. */
  lemma AuditCells(e: Entry, f: Field)
    requires f.AuditDate? || f.Auditor?
    requires f in e && !Blank(e[f])
    ensures Outcome(e, f) == if Said(e, EntryType) == "compatible" then "N/A" else e[f]
  {
    hide RulesOf, Outcome, Blank, Said;
    Heard(e);
    FilledCell(e, f);
  }

  /** The sensor details stay unless there are no sensors; the vacuum confirmation takes cups as well. */
  lemma SensorCells(e: Entry, f: Field)
    requires f.PartPresent? || f.VacuumConfirmation?
    requires f in e && !Blank(e[f])
    ensures Outcome(e, f) ==
      if Said(e, SensorsPresent) == "no" || (f.VacuumConfirmation? && !TakesCups(Said(e, EoatType))) then "N/A"
      else e[f]
  {
    hide RulesOf, Outcome, Blank, TakesCups, Said;
    Heard(e);
    FilledCell(e, f);
  }

  /** The electrical details stay unless the wiring is denied; without that column they stay when they mean
      something. The electrical disconnect also goes with the quick disconnects, but only where that column is. */
  lemma ElectricalCells(e: Entry, f: Field)
    requires f.CableManagement? || f.ElectricalDisconnect?
    requires f in e && !Blank(e[f])
    ensures Outcome(e, f) ==
      if ElectricalPresent !in e then (if Means(Said(e, f)) then e[f] else "N/A")
      else if Said(e, ElectricalPresent) == "no" || (f.ElectricalDisconnect? && Said(e, QuickPresent) == "no")
      then "N/A" else e[f]
  {
    hide RulesOf, Outcome, Blank, Said, IsMeaningful, Means;
    Heard(e);
    FilledCell(e, f);
    MeaningTold(e, f);
  }

  /** The pneumatic disconnect stays unless there are no quick disconnects. */
  lemma PneumaticCells(e: Entry, f: Field)
    requires f.PneumaticDisconnect? && f in e && !Blank(e[f])
    ensures Outcome(e, f) == if Said(e, QuickPresent) == "no" then "N/A" else e[f]
  {
    hide RulesOf, Outcome, Blank, Said;
    Heard(e);
    FilledCell(e, f);
  }

  /** A field that only counts under some condition. */
  ghost predicate Conditional(f: Field)
  {
    || f.GripperCount? || f.GripperType? || f.GripperModel?
    || f.CupCount? || f.CupMaterial? || f.CupDiameter? || f.VacuumGenerator?
    || f.RobotVacuum? || f.RobotPressure? || f.RobotInterchangeable?
    || f.ExternalVacuum? || f.ExternalPressure? || f.ExternalInterchangeable?
    || f.AuditDate? || f.Auditor? || f.SensorType? || f.SensorBrand? || f.VacuumConfirmation? || f.PartPresent?
    || f.CableManagement? || f.ElectricalDisconnect? || f.PneumaticDisconnect?
  }

  /** Every other filled cell stays, but for the two that are worked out. */
  lemma OtherCells(e: Entry, f: Field)
    requires !Conditional(f) && !f.CylinderType? && !f.Changeover?
    requires f in e && !Blank(e[f])
    ensures Outcome(e, f) == e[f]
  {
    hide RulesOf, Outcome, Blank;
    FilledCell(e, f);
  }

  /** A text that says something: neither empty, nor not applicable, nor left open. */
  ghost predicate Means(t: string)
  {
    && !NamesNothing(t) && t != "unknown / not checked" && t != "unknown" && t != "not checked"
    && t != "not observable" && t != "follow-up required" && t != "follow up required"
  }

  lemma MeaningTold(e: Entry, f: Field)
    ensures IsMeaningful(Get(e, f)) <==> Means(Said(e, f))
  {
    hide Strip;
    EmptyKey();
  }

  /* ---- The cells that are worked out ---- */

  /** What may give way to the usual sensor. */
  ghost predicate GivesWay(t: string, usual: string)
  {
    || NamesNothing(t) || t == "unknown / not checked" || t == "unknown" || t == "not checked" || t == usual
  }

  /** Where parts are sensed the open sensor details take their usual text. */
  lemma SensorTypes(e: Entry)
    requires SensorType in e && !Blank(e[SensorType])
    ensures Outcome(e, SensorType) ==
      if Said(e, SensorsPresent) == "no" then "N/A"
      else if Said(e, PartPresent) == "yes" && GivesWay(Said(e, SensorType), "reed switch") then "Reed Switch"
      else e[SensorType]
  {
    hide Outcome, Said, GivesWay, Blank;
    SensorDetails(e, SensorType, "Reed Switch");
    assert Lower("Reed Switch") == "reed switch";
  }

  lemma SensorBrands(e: Entry)
    requires SensorBrand in e && !Blank(e[SensorBrand])
    ensures Outcome(e, SensorBrand) ==
      if Said(e, SensorsPresent) == "no" then "N/A"
      else if Said(e, PartPresent) == "yes" && GivesWay(Said(e, SensorBrand), "smc") then "SMC"
      else e[SensorBrand]
  {
    hide Outcome, Said, GivesWay, Blank;
    SensorDetails(e, SensorBrand, "SMC");
    assert Lower("SMC") == "smc";
  }

  lemma SensorDetails(e: Entry, f: Field, usual: string)
    requires f in e && !Blank(e[f])
    requires (f.SensorType? && usual == Spoken().reedSwitch) || (f.SensorBrand? && usual == Spoken().smc)
    ensures Outcome(e, f) ==
      if Said(e, SensorsPresent) == "no" then "N/A"
      else if Said(e, PartPresent) == "yes" && GivesWay(Said(e, f), Lower(usual)) then usual else e[f]
  {
    hide RulesOf, Value, Said, Strip, Lower, GivesWay, Allows;
    Heard(e);
    MarkSaysNothing();
    WordsMakeSense();
    SensorField(Spoken(), e, f, usual);
    YesTold(e, PartPresent);
    AllowsTold(e, f, usual);
  }

  lemma SensorField(w: Words, e: Entry, f: Field, usual: string)
    requires MarksNothing(w) && f in e && !w.blank(e[f]) && !w.blank(usual)
    requires (f.SensorType? && usual == w.reedSwitch) || (f.SensorBrand? && usual == w.smc)
    ensures Value(w, e, f) ==
      if RulesOf(w, e).noSensors then w.na
      else if w.isYes(Get(e, PartPresent)) && w.allows(e[f], usual) then usual else e[f]
  {
    hide RulesOf;
  }

  lemma YesTold(e: Entry, f: Field)
    ensures IsYes(Get(e, f)) <==> Said(e, f) == "yes"
  {
    hide Strip, Lower;
    EmptyKey();
  }

  lemma AllowsTold(e: Entry, f: Field, usual: string)
    requires f in e
    ensures Allows(e[f], usual) <==> GivesWay(Said(e, f), Lower(usual))
  {
    hide Strip, Lower;
  }

  /** The cup material is a cup cell like the others. */
  lemma CupMaterials(e: Entry)
    requires CupMaterial in e && !Blank(e[CupMaterial])
    ensures Outcome(e, CupMaterial) == if TakesCups(Said(e, EoatType)) then e[CupMaterial] else "N/A"
  {
    hide RulesOf, Value, Said, Strip, TakesCups;
    Heard(e);
    MarkSaysNothing();
    MaterialField(Spoken(), e);
  }

  lemma MaterialField(w: Words, e: Entry)
    requires MarksNothing(w) && CupMaterial in e && !w.blank(e[CupMaterial])
    ensures Value(w, e, CupMaterial) == if RulesOf(w, e).kind.Gripper? then w.na else e[CupMaterial]
  {
  }

  /** Without cylinders the preset type goes; with cylinders an open type becomes linear. */
  lemma CylinderTypes(e: Entry)
    requires CylinderType in e
    ensures Outcome(e, CylinderType) ==
      if Means(Said(e, CylinderCount)) then
        if NamesNothing(Said(e, CylinderType)) then "Linear" else e[CylinderType]
      else if Said(e, CylinderType) in ["", "linear"] then "N/A" else e[CylinderType]
  {
    hide Value, Strip, Lower, Means;
    MeaningTold(e, CylinderCount);
    BlankTold(e, CylinderType);
    WordsMakeSense();
    StripEmpty();
    CylinderField(Spoken(), e);
  }

  lemma CylinderField(w: Words, e: Entry)
    requires CylinderType in e && w.blank("") && !w.blank(w.linear)
    ensures Value(w, e, CylinderType) ==
      if w.isMeaningful(Get(e, CylinderCount)) then
        if w.blank(e[CylinderType]) || w.isNA(e[CylinderType]) then w.linear else e[CylinderType]
      else if w.blank(e[CylinderType]) || w.isLinear(e[CylinderType]) then w.na else e[CylinderType]
  {
    hide RulesOf;
  }

  lemma BlankTold(e: Entry, f: Field)
    requires f in e
    ensures Blank(e[f]) <==> Said(e, f) == ""
  {
    hide Strip;
  }

  /** An open difficulty follows from the connection: low for ATI, medium for a dovetail. */
  lemma Changeovers(e: Entry)
    requires Changeover in e
    ensures var t, connection := Said(e, Changeover), Said(e, ConnectionType);
      Outcome(e, Changeover) ==
        if t in ["", "n/a", "unknown / not checked", "not applicable"] && Contains(connection, "ati") then "Low"
        else if t in ["", "n/a", "unknown / not checked", "not applicable"] &&
                (Contains(connection, "dovetail") || Contains(connection, "dove tail")) then "Medium"
        else if t == "" then "N/A" else e[Changeover]
  {
    hide Value, Strip, Lower, Contains;
    EmptyKey();
    BlankTold(e, Changeover);
    DifficultyTold(e);
    ChangeoverField(Spoken(), e);
  }

  lemma DifficultyTold(e: Entry)
    ensures var connection := Said(e, ConnectionType);
      Difficulty(Get(e, ConnectionType)) ==
        if Contains(connection, "ati") then Some("Low")
        else if Contains(connection, "dovetail") || Contains(connection, "dove tail") then Some("Medium") else None
    ensures Difficulty(Get(e, ConnectionType)).Some? ==> !Blank(Difficulty(Get(e, ConnectionType)).value)
  {
    hide Strip, Lower, Contains;
    EmptyKey();
    if Difficulty(Get(e, ConnectionType)).Some? { DifficultiesFilled(Get(e, ConnectionType)); }
  }

  lemma ChangeoverField(w: Words, e: Entry)
    requires Changeover in e
    ensures var difficulty := w.difficulty(Get(e, ConnectionType));
      (difficulty.Some? ==> !w.blank(difficulty.value)) ==>
      Value(w, e, Changeover) ==
        if w.undecided(e[Changeover]) && difficulty.Some? then difficulty.value
        else if w.blank(e[Changeover]) then w.na else e[Changeover]
  {
    hide RulesOf;
  }

  /* ---- Blank cells ---- */

  lemma BlankField(w: Words, e: Entry, f: Field)
    requires Lawful(w) && f in e && w.blank(e[f]) && !IsAdjusted(f)
    ensures Value(w, e, f) ==
      if !Allowed(w, RulesOf(w, e), f, e[f]) then w.na
      else if Default(w, f).Some? then Default(w, f).value
      else if MayBeEmpty(f) then "" else w.na
  {
    hide RulesOf, Allowed, Default;
    DefaultSays(w, f);
  }

  lemma BlankCell(e: Entry, f: Field)
    requires f in e && Blank(e[f]) && !IsAdjusted(f)
    ensures Outcome(e, f) ==
      if !Allowed(Spoken(), RulesOf(Spoken(), e), f, e[f]) then "N/A"
      else if Default(Spoken(), f).Some? then Default(Spoken(), f).value
      else if MayBeEmpty(f) then "" else "N/A"
  {
    hide RulesOf, Allowed, Default, Strip, Value, Lawful;
    SpokenIsLawful();
    BlankField(Spoken(), e, f);
  }

  /** A field with a text of its own for when it is blank. */
  ghost predicate Preset(f: Field)
  {
    || f.QuickPresent? || f.SpareParts? || f.Drawing? || f.Bom? || f.Binder? || f.PhotosTaken?
    || f.CompletionOverride? || f.Architecture? || f.EoatInterchangeable?
    || f.SourceAuditId? || f.CompatibilitySource? || f.EoatMoves? || f.AssemblyId?
    || f.PartPresent? || f.VacuumConfirmation? || f.VacuumGenerator?
  }

  /** Blank cells that take a text whatever the rest of the entry says. */
  lemma PresetCells(e: Entry, f: Field)
    requires f in e && Blank(e[f])
    ensures f.QuickPresent? ==> Outcome(e, f) == "Yes"
    ensures f.SpareParts? || f.Drawing? || f.Bom? || f.Binder? || f.PhotosTaken? || f.CompletionOverride?
      ==> Outcome(e, f) == "No"
    ensures f.Architecture? ==> Outcome(e, f) == "Robot Only"
    ensures f.EoatInterchangeable? ==> Outcome(e, f) == "0"
    ensures f.SourceAuditId? || f.CompatibilitySource? || f.EoatMoves? || f.AssemblyId? ==> Outcome(e, f) == ""
  {
    hide RulesOf, Outcome, Blank;
    if !IsAdjusted(f) { BlankCell(e, f); }
  }

  /** Blank cells that take a text where their field applies. */
  lemma SensedCells(e: Entry, f: Field)
    requires f in e && Blank(e[f])
    ensures f.PartPresent? ==> Outcome(e, f) == if Said(e, SensorsPresent) == "no" then "N/A" else "No"
    ensures f.VacuumConfirmation? ==>
      Outcome(e, f) == if Said(e, SensorsPresent) == "no" || !TakesCups(Said(e, EoatType)) then "N/A" else "Yes"
    ensures f.VacuumGenerator? ==> Outcome(e, f) == if TakesCups(Said(e, EoatType)) then "Venturi" else "N/A"
  {
    hide RulesOf, Outcome, Blank, TakesCups, Said;
    Heard(e);
    if !IsAdjusted(f) { BlankCell(e, f); }
  }

  /** Every other blank cell is marked, whether or not its field applies. */
  lemma MarkedCells(e: Entry, f: Field)
    requires f in e && Blank(e[f]) && !Preset(f) && !IsAdjusted(f)
    ensures Outcome(e, f) == "N/A"
  {
    hide RulesOf, Outcome, Blank, Allowed;
    BlankCell(e, f);
  }

  /** A blank cup material becomes silicone for vacuum, hybrid and open types. */
  lemma BlankCups(e: Entry)
    requires CupMaterial in e && Blank(e[CupMaterial])
    ensures var t := Said(e, EoatType);
      Outcome(e, CupMaterial) ==
        if NamesNothing(t) || t == "vacuum" || SaysHybrid(t) || (SaysUnknown(t) && !SaysGripper(t)) then "Silicone"
        else "N/A"
  {
    hide RulesOf, Value, Strip, Contains, SaysHybrid, SaysGripper, SaysUnknown, Lower, NamesNothing, KindOf;
    var t := Said(e, EoatType);
    EmptyKey();
    KindTold(Get(e, EoatType));
    if NamesNothing(t) || t == "vacuum" { FixedTexts(t); }
    MarkSaysNothing();
    WordsMakeSense();
    BlankMaterial(Spoken(), e);
  }

  lemma BlankMaterial(w: Words, e: Entry)
    requires MarksNothing(w) && WritesSense(w) && CupMaterial in e && w.blank(e[CupMaterial])
    ensures Value(w, e, CupMaterial) == if TakesSilicone(w.kindOf(Get(e, EoatType))) then w.silicone else w.na
  {
  }

  /** A blank sensor detail takes its usual text where parts are sensed. */
  lemma BlankSensors(e: Entry, f: Field)
    requires f in e && Blank(e[f])
    ensures f.SensorType? ==>
      Outcome(e, f) ==
        if Said(e, SensorsPresent) != "no" && Said(e, PartPresent) == "yes" then "Reed Switch" else "N/A"
    ensures f.SensorBrand? ==>
      Outcome(e, f) == if Said(e, SensorsPresent) != "no" && Said(e, PartPresent) == "yes" then "SMC" else "N/A"
  {
    hide RulesOf, Value, Said, Strip, Lower, SaysNothing;
    if f.SensorType? || f.SensorBrand? {
      Heard(e);
      MarkSaysNothing();
      WordsMakeSense();
      BlankSaysNothing(e[f]);
      YesTold(e, PartPresent);
      BlankSensor(Spoken(), e, f);
    }
  }

  lemma BlankSensor(w: Words, e: Entry, f: Field)
    requires MarksNothing(w) && WritesSense(w) && (f.SensorType? || f.SensorBrand?)
    requires f in e && w.blank(e[f]) && SaysNothing(w, e[f])
    ensures Value(w, e, f) ==
      if RulesOf(w, e).noSensors || !w.isYes(Get(e, PartPresent)) then w.na
      else if f.SensorType? then w.reedSwitch else w.smc
  {
    hide RulesOf;
  }
}
