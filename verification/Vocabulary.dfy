/** How the text of a cell is read by the field rules (core/audit_field_rules.py, core/audit_entries.py). */
module Vocabulary {
  import opened Text
  import opened Wrappers

  /** What `normalized_eoat_type` tells apart. */
  datatype Kind = Vacuum | Gripper | Hybrid | Unknown | Miscellaneous | Unset

  /** The questions the rules ask about a text, and the texts they write. */
  datatype Words = Words(
    blank: string -> bool,
    isNo: string -> bool,
    isYes: string -> bool,
    isNA: string -> bool,
    isMeaningful: string -> bool,
    isCompatible: string -> bool,
    hidesRobot: string -> bool,
    hidesExternal: string -> bool,
    isLinear: string -> bool,
    isSilicone: string -> bool,
    undecided: string -> bool,
    allows: (string, string) -> bool,
    kindOf: string -> Kind,
    difficulty: string -> Option<string>,
    na: string, yes: string, no: string, robotOnly: string, linear: string, silicone: string,
    reedSwitch: string, smc: string, venturi: string, zero: string)

  /** A blank text says nothing. */
  ghost predicate SaysNothing(w: Words, v: string)
  {
    && !w.isNo(v) && !w.isYes(v) && !w.isMeaningful(v) && !w.isCompatible(v) && !w.hidesRobot(v) && !w.hidesExternal(v)
    && !w.isLinear(v) && !w.isSilicone(v) && w.undecided(v) && w.kindOf(v) == Unset && w.difficulty(v) == None
    && w.allows(v, w.reedSwitch) && w.allows(v, w.smc)
  }

  /** The mark N/A is not blank, and says as little. */
  ghost predicate MarksNothing(w: Words)
  {
    && !w.blank(w.na) && w.isNA(w.na)
    && !w.isNo(w.na) && !w.isYes(w.na) && !w.isMeaningful(w.na) && !w.isCompatible(w.na)
    && !w.isLinear(w.na) && !w.isSilicone(w.na) && w.kindOf(w.na) == Unset && w.difficulty(w.na) == None
  }

  /** The texts written are not blank, and say what they should. */
  ghost predicate WritesSense(w: Words)
  {
    && w.blank("") && !w.blank(w.yes) && !w.isNo(w.yes) && !w.blank(w.no) && !w.isYes(w.no)
    && !w.blank(w.robotOnly) && w.hidesExternal(w.robotOnly) && !w.hidesRobot(w.robotOnly)
    && !w.blank(w.linear) && !w.isNA(w.linear) && !w.blank(w.silicone) && !w.blank(w.reedSwitch) && !w.blank(w.smc)
    && !w.blank(w.venturi) && !w.blank(w.zero)
  }

  ghost predicate Lawful(w: Words)
  {
    && (forall v :: w.blank(v) ==> SaysNothing(w, v))
    && (forall v :: w.difficulty(v).Some? ==> !w.blank(w.difficulty(v).value))
    && MarksNothing(w) && WritesSense(w)
  }

  /* ---- The words of the application ---- */

  function Key(v: string): string
  {
    Lower(Strip(v))
  }

  predicate IsNo(v: string) { Key(v) == "no" }
  predicate IsYes(v: string) { Key(v) == "yes" }
  predicate IsNA(v: string) { Key(v) in ["n/a", "na", "not applicable"] }
  predicate IsCompatible(v: string) { Key(v) == "compatible" }
  predicate IsLinear(v: string) { Key(v) == "linear" }
  predicate IsRobotOnly(v: string) { Strip(v) == "Robot Only" }
  predicate IsExternalOnly(v: string) { Strip(v) == "External Peripheral Only" }
  predicate IsSilicone(v: string) { Strip(v) == "Silicone" }
  predicate Undecided(v: string) { Key(v) in ["", "n/a", "unknown / not checked", "not applicable"] }

  predicate IsMeaningful(v: string)
  {
    && !Blank(v) && !IsNA(v)
    && Key(v) !in ["unknown / not checked", "unknown", "not checked", "not observable",
                   "follow-up required", "follow up required"]
  }

  /** `part_present_sensor_value_allows_default`. */
  predicate Allows(v: string, usual: string)
  {
    Key(v) in ["", "n/a", "na", "not applicable", "unknown / not checked", "unknown", "not checked", Lower(usual)]
  }

  /** `normalized_eoat_type`. */
  function KindOf(v: string): Kind
  {
    var text := Key(v);
    if text == "" || IsNA(text) then Unset
    else if text == "vacuum" then Vacuum
    else if Contains(text, "hybrid") then Hybrid
    else if Contains(text, "mechanical") || Contains(text, "gripper") then Gripper
    else if "unknown" <= text || Contains(text, "needs review") then Unknown
    else Miscellaneous
  }

  /** The changeover difficulty that a connection type stands for. */
  function Difficulty(connection: string): Option<string>
  {
    var text := Key(connection);
    if Contains(text, "ati") then Some("Low")
    else if Contains(text, "dovetail") || Contains(text, "dove tail") then Some("Medium")
    else None
  }

  /** The vocabulary of the application. */
  function Spoken(): Words
  {
    Words(Blank, IsNo, IsYes, IsNA, IsMeaningful, IsCompatible, IsExternalOnly, IsRobotOnly, IsLinear, IsSilicone,
          Undecided, Allows, KindOf, Difficulty,
          "N/A", "Yes", "No", "Robot Only", "Linear", "Silicone", "Reed Switch", "SMC", "Venturi", "0")
  }

  /** A text without spaces at its ends is its own key, in lower case. */
  lemma KeyOf(v: string)
    requires v != "" && !IsSpace(v[0]) && !IsSpace(v[|v| - 1])
    ensures Strip(v) == v && Key(v) == Lower(v) && |Key(v)| == |v|
  {
    hide Strip, Lower;
    StripFixed(v);
  }

  lemma BlankSaysNothing(v: string)
    requires Blank(v)
    ensures SaysNothing(Spoken(), v)
  {
    assert Lower("") == "" && Key(v) == "";
  }

  lemma MarkSaysNothing()
    ensures MarksNothing(Spoken())
  {
    hide Strip;
    KeyOf("N/A");
    KeyOf("n/a");
    assert Lower("N/A") == "n/a" && Lower("n/a") == "n/a";
  }

  lemma WordsMakeSense()
    ensures WritesSense(Spoken())
  {
    hide Strip, Key, Lower;
    SaysSomething("Yes");
    SaysSomething("No");
    SaysSomething("Robot Only");
    SaysSomething("Linear");
    SaysSomething("Silicone");
    SaysSomething("Reed Switch");
    SaysSomething("SMC");
    SaysSomething("Venturi");
    SaysSomething("0");
    StripEmpty();
  }

  lemma SaysSomething(v: string)
    requires v != "" && !IsSpace(v[0]) && !IsSpace(v[|v| - 1])
    ensures Strip(v) == v && !Blank(v) && |Key(v)| == |v|
  {
    hide Strip, Lower, Key;
    KeyOf(v);
  }

  lemma DifficultiesFilled(v: string)
    requires Difficulty(v).Some?
    ensures !Blank(Difficulty(v).value)
  {
    hide Strip, Contains, Key;
    KeyOf("Low");
    KeyOf("Medium");
  }

  /** The application's own vocabulary obeys the laws that everything below rests on. */
  lemma SpokenIsLawful()
    ensures Lawful(Spoken())
  {
    hide Strip, Key, SaysNothing, MarksNothing, WritesSense, Contains;
    forall v | Blank(v) ensures SaysNothing(Spoken(), v) { BlankSaysNothing(v); }
    forall v | Difficulty(v).Some? ensures !Blank(Difficulty(v).value) { DifficultiesFilled(v); }
    MarkSaysNothing();
    WordsMakeSense();
  }
}
