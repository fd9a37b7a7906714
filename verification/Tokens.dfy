/** Machine and tool names, and the keys that inventory and capacity rows are joined by
    (core/audit_compatibility.py). */
module Tokens {
  import opened Text
  import opened Wrappers

  predicate IsDigit(c: char)
  {
    '0' <= c <= '9'
  }

  predicate AllDigits(s: string)
  {
    s != "" && forall i :: 0 <= i < |s| ==> IsDigit(s[i])
  }

  predicate AllZeros(s: string)
  {
    s != "" && forall i :: 0 <= i < |s| ==> s[i] == '0'
  }

  /** `str(int(digits))`. */
  function Trim(s: string): (r: string)
    requires AllDigits(s)
    ensures AllDigits(r) && (r[0] != '0' || r == "0")
  {
    if |s| > 1 && s[0] == '0' then Trim(s[1..]) else s
  }

  lemma TrimFixed(s: string)
    requires AllDigits(s)
    ensures Trim(s) == s <==> s[0] != '0' || s == "0"
  {
  }

  function NoneText(): string { "n/a" }

  /** `text_value`. */
  function TextValue(v: string): (r: string)
  {
    var text := Strip(v);
    if Lower(text) == NoneText() then "" else text
  }

  lemma EmptyText()
    ensures TextValue("") == ""
  {
  }

  /** The digits of a whole number, with or without a zero fraction. */
  function WholePart(s: string): (r: Option<string>)
    ensures r.Some? ==> AllDigits(r.value)
  {
    var i := Find(s, '.');
    if AllDigits(s[..i]) && (i == |s| || AllZeros(s[i + 1..])) then Some(s[..i]) else None
  }

  function SkipSpaces(s: string): (r: string)
    ensures |r| <= |s|
  {
    if s != "" && IsSpace(s[0]) then SkipSpaces(s[1..]) else s
  }

  /** What follows `press`, `machine`, `p` or `m`: spaces, a dash or a hash if there is one, spaces, digits. */
  function NumberBehind(s: string): (r: Option<string>)
    ensures r.Some? ==> AllDigits(r.value)
  {
    var t := SkipSpaces(s);
    var u := SkipSpaces(if t != "" && (t[0] == '-' || t[0] == '#') then t[1..] else t);
    if AllDigits(u) then Some(u) else None
  }

  function Behind(s: string, prefix: string): (r: Option<string>)
    ensures r.Some? ==> AllDigits(r.value)
  {
    if prefix <= Lower(s) then NumberBehind(s[|prefix|..]) else None
  }

  function Prefixed(s: string): (r: Option<string>)
    ensures r.Some? ==> AllDigits(r.value)
  {
    if Behind(s, "press").Some? then Behind(s, "press")
    else if Behind(s, "machine").Some? then Behind(s, "machine")
    else if Behind(s, "p").Some? then Behind(s, "p")
    else Behind(s, "m")
  }

  /** `normalize_machine_token` on a text. */
  function Token(v: string): string
  {
    var text := TextValue(v);
    if text == "" then ""
    else if WholePart(text).Some? then Trim(WholePart(text).value)
    else if Prefixed(text).Some? then Prefixed(text).value
    else text
  }

  lemma DigitsAreText(s: string)
    requires AllDigits(s)
    ensures TextValue(s) == s && WholePart(s) == Some(s)
  {
    hide Strip;
    StripFixed(s);
    assert !IsSpace(s[0]) && !IsSpace(s[|s| - 1]);
    assert Lower(s)[0] == LowerChar(s[0]);
    assert '.' !in s;
    FindAt(s, '.', |s|);
    assert s[..|s|] == s;
  }

  /** Digits lose their leading zeros. */
  lemma DigitsToken(s: string)
    requires AllDigits(s)
    ensures Token(s) == Trim(s)
  {
    hide TextValue, WholePart, Prefixed, Trim;
    DigitsAreText(s);
  }

  /** One application settles everything but the number behind a prefix, which keeps its leading zeros. */
  lemma TokenTwice(v: string)
    ensures var text := TextValue(v);
      Token(Token(v)) == if text != "" && WholePart(text).None? && Prefixed(text).Some?
                         then Trim(Prefixed(text).value) else Token(v)
  {
    hide WholePart, Prefixed, Trim;
    var text := TextValue(v);
    if text == "" {
      assert TextValue("") == "";
    } else if WholePart(text).Some? {
      DigitsToken(Trim(WholePart(text).value));
      TrimFixed(Trim(WholePart(text).value));
    } else if Prefixed(text).Some? {
      DigitsToken(Prefixed(text).value);
    }
  }

  /** Normalising a machine name twice is stable; normalising it once is, unless a prefixed number has leading
      zeros, as in "press 07". */
  lemma TokenSettles(v: string)
    ensures Token(Token(Token(v))) == Token(Token(v))
    ensures var text := TextValue(v);
      Token(Token(v)) == Token(v) <==>
      !(text != "" && WholePart(text).None? && Prefixed(text).Some?
        && Prefixed(text).value[0] == '0' && Prefixed(text).value != "0")
  {
    hide WholePart, Prefixed, Trim, Token, TextValue;
    TokenTwice(v);
    TokenTwice(Token(v));
    var text := TextValue(v);
    if text != "" && WholePart(text).None? && Prefixed(text).Some? {
      var d := Prefixed(text).value;
      TokenPrefixed(v);
      TrimFixed(d);
      DigitsToken(Trim(d));
      TrimFixed(Trim(d));
      DigitsToken(d);
    }
  }

  /** A prefixed number keeps its leading zeros once, and then loses them. */
  lemma PressKeepsZeros()
    ensures Token("press 07") == "07" && Token("07") == "7"
  {
    hide Strip, Lower, NumberBehind, Find;
    StripFixed("press 07");
    FindAt("press 07", '.', 8);
    assert Lower("press 07")[0] == 'p' && |Lower("press 07")| == 8;
    PressIsPrefix();
    NumberBehindPress();
    assert "press 07"[5..] == " 07";
    DigitsToken("07");
  }

  lemma PressIsPrefix()
    ensures "press" <= Lower("press 07")
  {
  }

  lemma NumberBehindPress()
    ensures NumberBehind(" 07") == Some("07")
  {
    assert " 07"[1..] == "07";
    assert SkipSpaces("07") == "07";
  }

  lemma TokenPrefixed(v: string)
    requires var text := TextValue(v); text != "" && WholePart(text).None? && Prefixed(text).Some?
    ensures Token(v) == Prefixed(TextValue(v)).value
  {
    hide WholePart, Prefixed, Trim, TextValue;
  }

  /** A machine name that normalisation leaves alone. */
  predicate Canonical(m: string)
  {
    m != "" && Token(m) == m
  }

  /* ---- Lists of machines ---- */

  /** The distinct non-empty tokens, in the order they come in. */
  function Collected(parts: seq<string>): (r: seq<string>)
    ensures "" !in r
  {
    if parts == [] then []
    else
      var before := Collected(parts[..|parts| - 1]);
      var t := Token(parts[|parts| - 1]);
      if t == "" || t in before then before else before + [t]
  }

  /** `parse_machine_tokens` on a text, in reading order. */
  function Machines(cell: string): (r: seq<string>)
    ensures "" !in r
  {
    Collected(Split(cell, ','))
  }

  lemma {:induction false} CollectedDistinct(parts: seq<string>)
    ensures forall i, j :: 0 <= i < j < |Collected(parts)| ==> Collected(parts)[i] != Collected(parts)[j]
    ensures forall t :: t in Collected(parts) ==> exists i :: 0 <= i < |parts| && t == Token(parts[i])
  {
    hide Token;
    if parts != [] {
      CollectedDistinct(parts[..|parts| - 1]);
    }
  }

  /** A canonical name without a comma stands for itself alone. */
  lemma MachinesOfOne(m: string)
    requires Canonical(m) && ',' !in m
    ensures Machines(m) == [m]
  {
    hide Token;
    FindAt(m, ',', |m|);
    assert m[..|m|] == m;
    assert Split(m, ',') == [m];
    assert Collected([m][..0]) == [];
  }

  /* ---- Tools ---- */

  predicate MeansNone(key: string)
  {
    key in ["", "n/a", "na", "none", "null", "not applicable"]
  }

  /** `normalize_tool_identifier` on a text. */
  function Tool(v: string): string
  {
    var text := Strip(v);
    if MeansNone(Lower(text)) then ""
    else if Find(text, '.') < |text| && WholePart(text).Some? then WholePart(text).value
    else text
  }

  /** `tool_identifier_key`. */
  function ToolKey(v: string): string
  {
    Lower(Tool(v))
  }

  /** `relationship_key`. */
  type Key = (string, string)

  function KeyOf(machine: string, part: string): Key
  {
    (Token(machine), ToolKey(part))
  }

  /** The key of a machine that was read from a list is canonical: normalising it again changes nothing. */
  lemma KeysAreCanonical(cell: string, m: string, part: string)
    requires m in Machines(cell)
    ensures KeyOf(KeyOf(m, part).0, part) == KeyOf(m, part) && Canonical(KeyOf(m, part).0)
  {
    hide Token, ToolKey;
    CollectedDistinct(Split(cell, ','));
    var i :| 0 <= i < |Split(cell, ',')| && m == Token(Split(cell, ',')[i]);
    TokenSettles(Split(cell, ',')[i]);
    TokenStays(Split(cell, ',')[i]);
  }

  /** A token that is not empty does not become empty. */
  lemma TokenStays(v: string)
    requires Token(v) != ""
    ensures Token(Token(v)) != ""
  {
    hide WholePart, Prefixed, TextValue, Trim;
    TokenTwice(v);
  }

  lemma {:induction false} SplitParts(s: string, sep: char, i: nat)
    requires i < |Split(s, sep)|
    ensures sep !in Split(s, sep)[i]
    decreases |s|
  {
    var at := Find(s, sep);
    if at < |s| && i > 0 {
      SplitParts(s[at + 1..], sep, i - 1);
    } else {
      assert s[..|s|] == s;
    }
  }

  lemma StripComma(v: string)
    requires ',' !in v
    ensures ',' !in Strip(v)
  {
    hide StripLeft, StripRight;
    var l := StripLeft(v);
    assert forall i :: 0 <= i < |l| ==> l[i] == v[|v| - |l| + i];
    assert forall i :: 0 <= i < |Strip(v)| ==> Strip(v)[i] == l[i];
  }

  /** A token has no comma that was not there. */
  lemma TokenComma(v: string)
    requires ',' !in v
    ensures ',' !in Token(v)
  {
    hide WholePart, Prefixed, Trim, Strip, Lower, NoneText;
    StripComma(v);
  }

  /** The machines read from a list have canonical keys without a comma. */
  lemma MachineKey(cell: string, m: string)
    requires m in Machines(cell)
    ensures Canonical(Token(m)) && ',' !in Token(m)
  {
    hide Token;
    KeysAreCanonical(cell, m, "");
    CollectedDistinct(Split(cell, ','));
    var i :| 0 <= i < |Split(cell, ',')| && m == Token(Split(cell, ',')[i]);
    SplitParts(cell, ',', i);
    TokenComma(Split(cell, ',')[i]);
    TokenComma(m);
  }
}
