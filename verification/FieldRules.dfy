/** Which fields of an audit apply (core/audit_field_rules.py). */
module FieldRules {
  import opened Vocabulary

  /** The columns of the inventory. The ones that the rules name are told apart; the rest go by name. */
  datatype Field =
    | AuditId | EntryType | AuditDate | Auditor | SourceAuditId | CompatibilitySource | AssemblyId
    | EoatType | EoatMoves | ConnectionType | CylinderCount | CylinderType
    | GripperCount | GripperType | GripperModel
    | CupCount | CupMaterial | CupDiameter | VacuumGenerator
    | Architecture | EoatInterchangeable
    | RobotVacuum | RobotPressure | RobotInterchangeable
    | ExternalVacuum | ExternalPressure | ExternalInterchangeable
    | SensorsPresent | SensorType | SensorBrand | VacuumConfirmation | PartPresent
    | ElectricalPresent | ElectricalDisconnect | CableManagement
    | QuickPresent | PneumaticDisconnect
    | Changeover | SpareParts | Drawing | Bom | Binder | PhotosTaken | CompletionOverride
    | Other(name: string)

  type Entry = map<Field, string>

  /** `entry.get(field)`, with nothing and the empty text taken for one. */
  function Get(e: Entry, f: Field): string
  {
    if f in e then e[f] else ""
  }

  predicate IsExternal(f: Field)
  {
    f.ExternalVacuum? || f.ExternalPressure? || f.ExternalInterchangeable?
  }

  /** What the controlling fields say. */
  datatype Rules = Rules(compatible: bool, hidesRobot: bool, hidesExternal: bool, kind: Kind,
                         noSensors: bool, wiring: Wiring, noQuick: bool)

  /** The electrical column may be missing, or say no. */
  datatype Wiring = NoColumn | NoWiring | MayBeWired

  function RulesOf(w: Words, e: Entry): Rules
  {
    Rules(w.isCompatible(Get(e, EntryType)), w.hidesRobot(Get(e, Architecture)), w.hidesExternal(Get(e, Architecture)),
          w.kindOf(Get(e, EoatType)), w.isNo(Get(e, SensorsPresent)),
          if ElectricalPresent !in e then NoColumn
          else if w.isNo(Get(e, ElectricalPresent)) then NoWiring else MayBeWired,
          w.isNo(Get(e, QuickPresent)))
  }

  /** `field_applies`: the entry only counts through its controlling fields and, without the electrical
      column, through the field's own value. */
  predicate Applies(w: Words, e: Entry, f: Field)
  {
    Allowed(w, RulesOf(w, e), f, Get(e, f))
  }

  predicate Allowed(w: Words, rules: Rules, f: Field, own: string)
  {
    match f
    case AuditDate | Auditor => !rules.compatible
    case RobotVacuum | RobotPressure | RobotInterchangeable => !rules.hidesRobot
    case ExternalVacuum | ExternalPressure | ExternalInterchangeable => !rules.hidesExternal
    case CupCount | CupMaterial | CupDiameter | VacuumGenerator => !rules.kind.Gripper?
    case GripperCount | GripperType | GripperModel =>
      rules.kind.Gripper? || rules.kind.Hybrid? || rules.kind.Miscellaneous?
    case SensorType | SensorBrand | PartPresent => !rules.noSensors
    case VacuumConfirmation => !rules.noSensors && !rules.kind.Gripper?
    case CableManagement => Wired(w, rules, own)
    case ElectricalDisconnect => Wired(w, rules, own) && (rules.wiring.NoColumn? || !rules.noQuick)
    case PneumaticDisconnect => !rules.noQuick
    case _ => true
  }

  predicate Wired(w: Words, rules: Rules, own: string)
  {
    if rules.wiring.NoColumn? then w.isMeaningful(own) else !rules.wiring.NoWiring?
  }

  /** The fields that the rules look at. */
  predicate Controls(f: Field)
  {
    f.EntryType? || f.Architecture? || f.EoatType? || f.SensorsPresent? || f.ElectricalPresent? || f.QuickPresent?
  }

  /** Two entries with the same controlling values. */
  ghost predicate SameControls(e: Entry, g: Entry)
  {
    && (ElectricalPresent in g <==> ElectricalPresent in e)
    && forall c :: Controls(c) ==> Get(g, c) == Get(e, c)
  }

  /** The controlling fields settle which fields apply; only without an electrical column does the field's own
      value matter as well. */
  lemma ControlsDecide(w: Words, e: Entry, g: Entry, f: Field)
    requires SameControls(e, g) && (Get(g, f) == Get(e, f) || ElectricalPresent in e)
    ensures Applies(w, g, f) == Applies(w, e, f)
  {
    SameRules(w, e, g);
  }

  lemma SameRules(w: Words, e: Entry, g: Entry)
    requires SameControls(e, g)
    ensures RulesOf(w, g) == RulesOf(w, e)
  {
    assert Controls(EntryType) && Controls(Architecture) && Controls(EoatType);
    assert Controls(SensorsPresent) && Controls(ElectricalPresent) && Controls(QuickPresent);
  }

  /** A controlling field always applies. */
  lemma ControlsApply(w: Words, e: Entry, f: Field)
    ensures Controls(f) ==> Applies(w, e, f)
  {
    hide RulesOf;
  }

  /** Marking a field not applicable does not make it apply. */
  lemma MarkedStays(w: Words, rules: Rules, f: Field, own: string)
    requires Lawful(w) && !Allowed(w, rules, f, own)
    ensures !Allowed(w, rules, f, w.na)
  {
  }
}
