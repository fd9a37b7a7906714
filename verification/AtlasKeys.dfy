/** The lookup keys of tools, machines and EOATs, and why they can be trusted (core/atlas_utils.py). */
module AtlasKeys {
  import opened Text
  import opened Wrappers
  import opened Tokens
  import Atlas

  predicate IsKeyChar(c: char)
  {
    'a' <= c <= 'z' || '0' <= c <= '9'
  }

  /** The letters and digits of a text. */
  function KeyChars(s: string): string
  {
    if s == "" then "" else (if IsKeyChar(s[0]) then [s[0]] else "") + KeyChars(s[1..])
  }

  /** `normalized_lookup_key`. */
  function LookupKey(v: string): string
  {
    KeyChars(Lower(Atlas.Display(v)))
  }

  /** `normalized_tool_key`. */
  function ToolLookup(v: string): string
  {
    LookupKey(Tool(v))
  }

  /** `normalized_machine_key`. */
  function MachineLookup(v: string): string
  {
    LookupKey(Token(v))
  }

  /** `P4-EOAT-` or `CL-EOAT-`, in any case, and four digits. */
  predicate IsAssemblyId(text: string)
  {
    |text| == 12 && Lower(text)[..8] in ["p4-eoat-", "cl-eoat-"] && AllDigits(text[8..])
  }

  /** `normalize_eoat_assembly_id`. */
  function AssemblyId(v: string): string
  {
    var text := Strip(v);
    if !IsAssemblyId(text) then text
    else if Lower(text)[..8] == "p4-eoat-" then "P4-EOAT-" + text[8..]
    else "CL-EOAT-" + text[8..]
  }

  /** `normalized_eoat_key`. */
  function EoatLookup(v: string): string
  {
    LookupKey(AssemblyId(v))
  }

  /* ---- Case ---- */

  lemma LowerDrop(s: string, n: nat)
    requires n <= |s|
    ensures Lower(s[n..]) == Lower(s)[n..]
  {
  }

  lemma LowerTake(s: string, n: nat)
    requires n <= |s|
    ensures Lower(s[..n]) == Lower(s)[..n]
  {
  }

  lemma LowerKinds(c: char)
    ensures IsSpace(LowerChar(c)) == IsSpace(c) && IsDigit(LowerChar(c)) == IsDigit(c)
    ensures (LowerChar(c) == '-' <==> c == '-') && (LowerChar(c) == '#' <==> c == '#')
    ensures (LowerChar(c) == '.' <==> c == '.')
  {
  }

  lemma {:induction false} StripLeftLower(s: string)
    ensures StripLeft(Lower(s)) == Lower(StripLeft(s))
  {
    if s != "" { LowerKinds(s[0]); }
    if s != "" && IsSpace(s[0]) {
      LowerDrop(s, 1);
      StripLeftLower(s[1..]);
    }
  }

  lemma {:induction false} StripRightLower(s: string)
    ensures StripRight(Lower(s)) == Lower(StripRight(s))
  {
    if s != "" { LowerKinds(s[|s| - 1]); }
    if s != "" && IsSpace(s[|s| - 1]) {
      LowerTake(s, |s| - 1);
      StripRightLower(s[..|s| - 1]);
    }
  }

  lemma StripLower(s: string)
    ensures Strip(Lower(s)) == Lower(Strip(s))
  {
    hide StripLeft, StripRight, Lower;
    StripLeftLower(s);
    StripRightLower(StripLeft(s));
  }

  lemma DisplayLower(v: string)
    ensures Atlas.Display(Lower(v)) == Lower(Atlas.Display(v))
  {
    hide Strip;
    StripLower(v);
    LowerTwice(Strip(v));
    assert Lower("") == "";
  }

  lemma DisplayTwice(v: string)
    ensures Atlas.Display(Atlas.Display(v)) == Atlas.Display(v)
  {
    hide Strip;
    StripTwice(v);
    StripEmpty();
  }

  lemma LookupLower(v: string)
    ensures LookupKey(Lower(v)) == LookupKey(v)
  {
    hide Atlas.Display, KeyChars;
    DisplayLower(v);
    LowerTwice(Atlas.Display(v));
  }

  lemma DigitsLower(s: string)
    ensures AllDigits(Lower(s)) == AllDigits(s) && AllZeros(Lower(s)) == AllZeros(s)
    ensures AllDigits(s) ==> Lower(s) == s
  {
    assert forall i :: 0 <= i < |s| ==>
             (IsDigit(Lower(s)[i]) <==> IsDigit(s[i])) && (Lower(s)[i] == '0' <==> s[i] == '0');
    if AllDigits(s) { assert forall i :: 0 <= i < |s| ==> Lower(s)[i] == s[i]; }
  }

  lemma WholePartLower(s: string)
    ensures WholePart(Lower(s)) == WholePart(s)
  {
    hide AllDigits, AllZeros, Lower;
    var i := Find(s, '.');
    LowerTake(s, i);
    DigitsLower(s[..i]);
    if i < |s| {
      LowerDrop(s, i + 1);
      DigitsLower(s[i + 1..]);
    }
  }

  lemma ToolLower(v: string)
    ensures Tool(Lower(v)) == Lower(Tool(v))
  {
    hide Strip, WholePart, MeansNone;
    var text := Strip(v);
    StripLower(v);
    LowerTwice(text);
    WholePartLower(text);
    if WholePart(text).Some? { DigitsLower(WholePart(text).value); }
    assert Lower("") == "";
  }

  lemma {:induction false} SkipLower(s: string)
    ensures SkipSpaces(Lower(s)) == Lower(SkipSpaces(s))
  {
    if s != "" { LowerKinds(s[0]); }
    if s != "" && IsSpace(s[0]) {
      LowerDrop(s, 1);
      SkipLower(s[1..]);
    }
  }

  lemma NumberLower(s: string)
    ensures NumberBehind(Lower(s)) == NumberBehind(s)
  {
    hide SkipSpaces, AllDigits;
    var t := SkipSpaces(s);
    SkipLower(s);
    var t1 := if t != "" && (t[0] == '-' || t[0] == '#') then t[1..] else t;
    if t != "" { LowerDrop(t, 1); LowerKinds(t[0]); }
    SkipLower(t1);
    DigitsLower(SkipSpaces(t1));
  }

  lemma BehindLower(s: string, prefix: string)
    ensures Behind(Lower(s), prefix) == Behind(s, prefix)
  {
    hide NumberBehind;
    LowerTwice(s);
    if prefix <= Lower(s) {
      LowerDrop(s, |prefix|);
      NumberLower(s[|prefix|..]);
    }
  }

  lemma TokenLower(v: string)
    ensures Token(Lower(v)) == Lower(Token(v))
  {
    hide Strip, WholePart, Behind, NoneText, Trim;
    var text := TextValue(v);
    StripLower(v);
    LowerTwice(Strip(v));
    assert Lower("") == "";
    assert TextValue(Lower(v)) == Lower(text);
    WholePartLower(text);
    BehindLower(text, "press");
    BehindLower(text, "machine");
    BehindLower(text, "p");
    BehindLower(text, "m");
    if WholePart(text).Some? { DigitsLower(Trim(WholePart(text).value)); }
    if Prefixed(text).Some? { DigitsLower(Prefixed(text).value); }
  }

  /* ---- Display ---- */

  lemma StrippedTool(v: string)
    ensures Tool(Strip(v)) == Tool(v)
  {
    hide Find, WholePart, Strip, Lower, MeansNone;
    StripTwice(v);
  }

  lemma StrippedToken(v: string)
    ensures Token(Strip(v)) == Token(v)
  {
    hide WholePart, Prefixed, Strip, Lower, NoneText, Trim;
    StripTwice(v);
  }

  predicate Nothing(key: string)
  {
    key in ["n/a", "na", "none", "null"]
  }

  lemma NothingHasNoTool(v: string)
    requires Nothing(Lower(Strip(v)))
    ensures Tool(v) == "" && Tool("") == ""
  {
    hide Find, WholePart, Strip;
    StripEmpty();
    assert Lower("") == "";
  }

  lemma NothingIsNoMachine(v: string)
    requires Nothing(Lower(Strip(v)))
    ensures LookupKey(Token(v)) == "" && LookupKey(Token("")) == ""
  {
    hide WholePart, Prefixed, Strip, Trim, KeyChars;
    StripEmpty();
    StripTwice(v);
    assert Lower("") == "" && KeyChars("") == "" by { NoChars(); }
    WordsAreNoNumbers(Strip(v));
  }

  lemma NoChars()
    ensures Lower("") == "" && KeyChars("") == ""
  {
  }

  /** None of these words is read as a number. */
  lemma WordsAreNoNumbers(text: string)
    requires Nothing(Lower(text))
    ensures WholePart(text).None? && Prefixed(text).None?
  {
    hide NumberBehind;
    var low := Lower(text);
    assert low[0] == 'n';
    WholePartLower(text);
  }

  /* ---- The keys are lawful ---- */

  /** The lookup keys do not depend on the case, nor on what displaying does to a text. */
  lemma KeysAreLawful()
    ensures Atlas.Lawful(ToolLookup) && Atlas.Lawful(MachineLookup) && Atlas.Lawful(EoatLookup)
  {
    hide LookupKey, ToolLookup, MachineLookup, EoatLookup, Lower, Atlas.Display;
    forall v
      ensures ToolLookup(Atlas.Display(v)) == ToolLookup(v) && MachineLookup(Atlas.Display(v)) == MachineLookup(v)
      ensures EoatLookup(Atlas.Display(v)) == EoatLookup(v)
    {
      LookupDisplay(v);
      EoatIsPlain(v);
      EoatIsPlain(Atlas.Display(v));
    }
    forall v, w | Lower(v) == Lower(w)
      ensures ToolLookup(v) == ToolLookup(w) && MachineLookup(v) == MachineLookup(w) && EoatLookup(v) == EoatLookup(w)
    {
      LookupCase(v, w);
      EoatIsPlain(v);
      EoatIsPlain(w);
    }
  }

  /** Normalising an EOAT ID changes nothing that its key looks at. */
  lemma EoatIsPlain(v: string)
    ensures EoatLookup(v) == LookupKey(v)
  {
    hide LookupKey, Strip;
    AssemblyCase(v);
    LookupCase(AssemblyId(v), Strip(v));
    StrippedLookup(v);
  }

  lemma AssemblyCase(v: string)
    ensures Lower(AssemblyId(v)) == Lower(Strip(v))
  {
    hide Strip, AllDigits;
    var text := Strip(v);
    if IsAssemblyId(text) {
      assert Lower(text)[..8] == Lower(text[..8]) by { LowerTake(text, 8); }
      assert Lower("P4-EOAT-") == "p4-eoat-" && Lower("CL-EOAT-") == "cl-eoat-";
      assert text == text[..8] + text[8..];
    }
  }

  lemma StrippedLookup(v: string)
    ensures LookupKey(Strip(v)) == LookupKey(v)
  {
    hide KeyChars, Strip, Lower;
    StripTwice(v);
  }

  lemma LookupDisplay(v: string)
    ensures ToolLookup(Atlas.Display(v)) == ToolLookup(v) && MachineLookup(Atlas.Display(v)) == MachineLookup(v)
    ensures LookupKey(Atlas.Display(v)) == LookupKey(v)
  {
    hide Tool, Token, Strip, Lower, KeyChars;
    assert LookupKey(Atlas.Display(v)) == LookupKey(v) by { hide Atlas.Display; DisplayTwice(v); }
    hide LookupKey;
    if Nothing(Lower(Strip(v))) {
      NothingHasNoTool(v);
      NothingIsNoMachine(v);
    } else {
      StrippedTool(v);
      StrippedToken(v);
    }
  }

  lemma LookupCase(v: string, w: string)
    requires Lower(v) == Lower(w)
    ensures ToolLookup(v) == ToolLookup(w) && MachineLookup(v) == MachineLookup(w) && LookupKey(v) == LookupKey(w)
  {
    hide LookupKey, Tool, Token, Lower, Atlas.Display;
    ToolLower(v);
    ToolLower(w);
    TokenLower(v);
    TokenLower(w);
    LookupLower(Tool(v));
    LookupLower(Tool(w));
    LookupLower(Token(v));
    LookupLower(Token(w));
    LookupLower(v);
    LookupLower(w);
  }
}
