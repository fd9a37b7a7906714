/** What texts, machine names and tool names come to, told from their characters (core/audit_compatibility.py). */
module TokenLaws {
  import opened Text
  import opened Wrappers
  import opened Tokens

  /* ---- Characters ---- */

  ghost const SPACES := {0x9, 0xA, 0xB, 0xC, 0xD, 0x1C, 0x1D, 0x1E, 0x1F, 0x20, 0x85, 0xA0, 0x1680,
                         0x2000, 0x2001, 0x2002, 0x2003, 0x2004, 0x2005, 0x2006, 0x2007, 0x2008, 0x2009, 0x200A,
                         0x2028, 0x2029, 0x202F, 0x205F, 0x3000}

  /** The characters that stripping removes. */
  lemma SpacesAre(c: char)
    ensures IsSpace(c) <==> c as int in SPACES
  {
  }

  ghost function Capitals(): string { "ABCDEFGHIJKLMNOPQRSTUVWXYZ" }
  ghost function SmallLetters(): string { "abcdefghijklmnopqrstuvwxyz" }

  /** The capitals become the small letters, one by one, and nothing else changes. */
  lemma LowerIsAlphabetic(c: char)
    ensures forall i :: 0 <= i < 26 && Capitals()[i] == c ==> LowerChar(c) == SmallLetters()[i]
    ensures !('A' <= c <= 'Z') ==> LowerChar(c) == c
  {
  }

  /** A text contains another exactly when it can be put together around it. */
  lemma ContainsWhen(s: string, part: string)
    ensures Contains(s, part) <==> exists front, back :: s == front + part + back
  {
    if Contains(s, part) {
      var i :| 0 <= i <= |s| && HoldsAt(s, part, i);
      assert s == s[..i] + part + s[i + |part|..];
    }
    if front, back :| s == front + part + back {
      assert HoldsAt(s, part, |front|);
    }
  }

  /* ---- Texts and tools ---- */

  /** A cell holds no text when it is blank or says N/A, and otherwise what is left without the spaces around it. */
  lemma TextTold(v: string)
    ensures TextValue(v) == "" <==> Strip(v) == "" || Lower(Strip(v)) == "n/a"
    ensures TextValue(v) != "" ==> TextValue(v) == Strip(v)
  {
    hide Strip, Lower;
  }

  ghost predicate NoTool(t: string)
  {
    t == "" || t == "n/a" || t == "na" || t == "none" || t == "null" || t == "not applicable"
  }

  /** Zeros behind a point. */
  ghost predicate ZeroFraction(s: string)
  {
    |s| > 1 && s[0] == '.' && forall i :: 1 <= i < |s| ==> s[i] == '0'
  }

  lemma WholeWhen(s: string, digits: string)
    ensures WholePart(s) == Some(digits) <==>
      AllDigits(digits) && (s == digits || exists zeros :: ZeroFraction(zeros) && s == digits + zeros)
  {
    var i := Find(s, '.');
    if WholePart(s) == Some(digits) {
      assert s == s[..i] + s[i..];
      if i < |s| { assert ZeroFraction(s[i..]); } else { assert s[..i] == s; }
    }
    if AllDigits(digits) && s == digits {
      NoPoint(digits);
      FindAt(s, '.', |s|);
      assert s[..|s|] == s;
    }
    if zeros :| ZeroFraction(zeros) && s == digits + zeros && AllDigits(digits) {
      NoPoint(digits);
      assert s[..|digits|] == digits && s[|digits| + 1..] == zeros[1..];
      FindAt(s, '.', |digits|);
    }
  }

  lemma NoPoint(digits: string)
    requires AllDigits(digits)
    ensures '.' !in digits
  {
  }

  /** A tool that means none has no name; a number loses a zero fraction; any other name stays. */
  lemma ToolTold(v: string)
    ensures NoTool(Lower(Strip(v))) ==> Tool(v) == ""
    ensures !NoTool(Lower(Strip(v))) ==>
      forall digits, zeros :: AllDigits(digits) && ZeroFraction(zeros) && Strip(v) == digits + zeros ==>
        Tool(v) == digits
    ensures !NoTool(Lower(Strip(v))) ==>
      (exists digits, zeros :: AllDigits(digits) && ZeroFraction(zeros) && Strip(v) == digits + zeros)
      || Tool(v) == Strip(v)
  {
    hide Strip, Lower, WholePart, AllDigits, ZeroFraction;
    var text := Strip(v);
    forall digits, zeros | AllDigits(digits) && ZeroFraction(zeros) && text == digits + zeros
      ensures WholePart(text) == Some(digits) && Find(text, '.') < |text|
    {
      WholeWhen(text, digits);
      HasPoint(digits, zeros);
    }
    if WholePart(text).Some? {
      var digits := WholePart(text).value;
      WholeWhen(text, digits);
      if text == digits {
        NoPoint(digits);
        FindAt(text, '.', |text|);
      }
    }
  }

  lemma HasPoint(digits: string, zeros: string)
    requires AllDigits(digits) && ZeroFraction(zeros)
    ensures Find(digits + zeros, '.') < |digits + zeros|
  {
    NoPoint(digits);
    assert (digits + zeros)[..|digits|] == digits;
    FindAt(digits + zeros, '.', |digits|);
  }

  /* ---- Machine names ---- */

  ghost predicate AllSpaces(s: string)
  {
    forall i :: 0 <= i < |s| ==> IsSpace(s[i])
  }

  lemma {:induction false} SkipsSpaces(front: string, back: string)
    requires AllSpaces(front) && (back == "" || !IsSpace(back[0]))
    ensures SkipSpaces(front + back) == back
  {
    hide IsSpace;
    if front == "" {
      assert front + back == back;
    } else {
      assert (front + back)[1..] == front[1..] + back;
      SkipsSpaces(front[1..], back);
    }
  }

  lemma {:induction false} SkippedSpaces(s: string) returns (front: string)
    ensures AllSpaces(front) && s == front + SkipSpaces(s)
    ensures SkipSpaces(s) == "" || !IsSpace(SkipSpaces(s)[0])
  {
    hide IsSpace;
    if s != "" && IsSpace(s[0]) {
      var rest := SkippedSpaces(s[1..]);
      front := [s[0]] + rest;
      assert s == [s[0]] + s[1..];
    } else {
      front := "";
    }
  }

  /** What may stand between the word and the number. */
  ghost predicate Joint(s: string)
  {
    exists a, b :: AllSpaces(a) && AllSpaces(b) && (s == a + b || s == a + "-" + b || s == a + "#" + b)
  }

  /** A number stands behind spaces, a dash or a hash if there is one, and spaces. */
  lemma NumberWhen(s: string, digits: string)
    ensures NumberBehind(s) == Some(digits) <==>
      AllDigits(digits) && exists joint :: Joint(joint) && s == joint + digits
  {
    hide IsSpace, SkipSpaces;
    if NumberBehind(s) == Some(digits) {
      NumberTaken(s, digits);
    }
    if joint :| Joint(joint) && s == joint + digits && AllDigits(digits) {
      NumberFound(joint, digits);
    }
  }

  lemma NumberTaken(s: string, digits: string)
    requires NumberBehind(s) == Some(digits)
    ensures exists joint :: Joint(joint) && s == joint + digits
  {
    hide IsSpace, SkipSpaces, AllDigits;
    var a := SkippedSpaces(s);
    var t := SkipSpaces(s);
    if t != "" && (t[0] == '-' || t[0] == '#') {
      var b := SkippedSpaces(t[1..]);
      assert t == [t[0]] + t[1..];
      assert s == (a + [t[0]] + b) + digits;
      assert Joint(a + [t[0]] + b);
    } else {
      var b := SkippedSpaces(t);
      assert s == (a + b) + digits;
      assert Joint(a + b);
    }
  }

  lemma DigitIsNoSpace(digits: string)
    requires AllDigits(digits)
    ensures !IsSpace(digits[0]) && digits[0] != '-' && digits[0] != '#'
  {
  }

  lemma NumberFound(joint: string, digits: string)
    requires Joint(joint) && AllDigits(digits)
    ensures NumberBehind(joint + digits) == Some(digits)
  {
    hide IsSpace, SkipSpaces, AllDigits, NumberBehind;
    var a, b :| AllSpaces(a) && AllSpaces(b) && (joint == a + b || joint == a + "-" + b || joint == a + "#" + b);
    DigitIsNoSpace(digits);
    if joint == a + b {
      assert AllSpaces(a + b);
      PlainNumber(a + b, digits);
    } else if joint == a + "-" + b {
      SignedNumber(a, '-', b, digits);
      assert joint + digits == a + ['-'] + b + digits;
    } else {
      SignedNumber(a, '#', b, digits);
      assert joint + digits == a + ['#'] + b + digits;
    }
  }

  lemma PlainNumber(a: string, digits: string)
    requires AllSpaces(a) && AllDigits(digits)
    ensures NumberBehind(a + digits) == Some(digits)
  {
    hide IsSpace, SkipSpaces, AllDigits, AllSpaces;
    DigitIsNoSpace(digits);
    SkipsSpaces(a, digits);
    assert AllSpaces("") by { NoSpaces(); }
    SkipsSpaces("", digits);
    assert "" + digits == digits;
  }

  lemma NoSpaces()
    ensures AllSpaces("")
  {
  }

  lemma SignedNumber(a: string, c: char, b: string, digits: string)
    requires AllSpaces(a) && AllSpaces(b) && (c == '-' || c == '#') && AllDigits(digits)
    ensures NumberBehind(a + [c] + b + digits) == Some(digits)
  {
    hide IsSpace, SkipSpaces, AllDigits, AllSpaces;
    DigitIsNoSpace(digits);
    SignIsNoSpace();
    var rest := [c] + (b + digits);
    assert a + [c] + b + digits == a + rest;
    SkipsSpaces(a, rest);
    assert rest[1..] == b + digits;
    SkipsSpaces(b, digits);
  }

  lemma SignIsNoSpace()
    ensures !IsSpace('-') && !IsSpace('#')
  {
  }

  ghost predicate MachineWord(w: string)
  {
    w == "press" || w == "machine" || w == "p" || w == "m"
  }

  /** A number behind a word for a machine, in whatever case. */
  ghost predicate Numbered(s: string, w: string, digits: string)
  {
    MachineWord(w) && |w| <= |s| && Lower(s[..|w|]) == w && NumberBehind(s[|w|..]) == Some(digits)
  }

  lemma BehindWhen(s: string, w: string)
    ensures Behind(s, w) == if |w| <= |s| && Lower(s[..|w|]) == w then NumberBehind(s[|w|..]) else None
  {
    hide NumberBehind;
    if |w| <= |s| { assert Lower(s[..|w|]) == Lower(s)[..|w|]; }
  }

  /** A number does not begin with a letter. */
  lemma NoLetter(s: string)
    requires s != "" && 'a' <= LowerChar(s[0]) <= 'z'
    ensures NumberBehind(s).None?
  {
    assert !IsSpace(s[0]);
    assert SkipSpaces(s) == s;
  }

  lemma PrefixedWhen(s: string, digits: string)
    ensures Prefixed(s) == Some(digits) <==> exists w :: Numbered(s, w, digits)
  {
    hide NumberBehind, Lower;
    BehindWhen(s, "press");
    BehindWhen(s, "machine");
    BehindWhen(s, "p");
    BehindWhen(s, "m");
    if 5 <= |s| && Lower(s[..5]) == "press" { OneWord(s, "press", "p"); }
    if 7 <= |s| && Lower(s[..7]) == "machine" { OneWord(s, "machine", "m"); }
    assert Prefixed(s) == Some(digits) ==>
      Numbered(s, "press", digits) || Numbered(s, "machine", digits) || Numbered(s, "p", digits)
      || Numbered(s, "m", digits);
  }

  /** A name that begins with the long word has no number behind the short one. */
  lemma OneWord(s: string, long: string, short: string)
    requires (long == "press" && short == "p") || (long == "machine" && short == "m")
    requires |long| <= |s| && Lower(s[..|long|]) == long
    ensures NumberBehind(s[1..]).None?
  {
    hide NumberBehind;
    assert LowerChar(s[1]) == Lower(s[..|long|])[1];
    NoLetter(s[1..]);
  }

  /** Digits without the zeros in front of them. */
  ghost predicate Trimmed(digits: string, r: string)
  {
    && r != "" && (r[0] != '0' || r == "0")
    && exists zeros :: digits == zeros + r && (zeros == "" || AllZeros(zeros))
  }

  lemma {:induction false} TrimTold(digits: string)
    requires AllDigits(digits)
    ensures Trimmed(digits, Trim(digits))
  {
    hide AllZeros;
    if |digits| > 1 && digits[0] == '0' {
      TrimTold(digits[1..]);
      var r := Trim(digits);
      var zeros :| digits[1..] == zeros + r && (zeros == "" || AllZeros(zeros));
      OneMoreZero(digits, zeros, r);
    } else {
      assert digits == "" + digits;
    }
  }

  lemma OneMoreZero(digits: string, zeros: string, r: string)
    requires digits != "" && digits[0] == '0' && digits[1..] == zeros + r && (zeros == "" || AllZeros(zeros))
    ensures digits == ("0" + zeros) + r && AllZeros("0" + zeros)
  {
    assert digits == [digits[0]] + digits[1..];
  }

  /** A machine name: whole numbers lose their leading zeros and a zero fraction, a number behind a word for a
      machine stands for itself, and any other name stays. */
  lemma TokenTold(v: string)
    ensures var text, token := TextValue(v), Token(v);
      && (text == "" ==> token == "")
      && (forall digits :: WholePart(text) == Some(digits) ==> Trimmed(digits, token))
      && (forall w, digits :: WholePart(text).None? && Numbered(text, w, digits) ==> token == digits)
      && (text != "" && WholePart(text).None? && !(exists w, digits :: Numbered(text, w, digits)) ==> token == text)
  {
    hide TextValue, WholePart, Prefixed, Trim, Numbered, Trimmed;
    var text := TextValue(v);
    if text == "" { EmptyNames(); }
    if WholePart(text).Some? { TrimTold(WholePart(text).value); }
    if Prefixed(text).Some? { PrefixedWhen(text, Prefixed(text).value); }
    forall w, digits | Numbered(text, w, digits) ensures Prefixed(text) == Some(digits) {
      PrefixedWhen(text, digits);
    }
  }

  lemma EmptyNames()
    ensures WholePart("").None? && Prefixed("").None?
  {
  }

  /* ---- Lists of machines ---- */

  /** Putting the parts together again gives the text, and no part has a separator. */
  lemma {:induction false} JoinSplit(s: string, sep: char)
    ensures Join(Split(s, sep), sep) == s
    ensures forall i :: 0 <= i < |Split(s, sep)| ==> sep !in Split(s, sep)[i]
    decreases |s|
  {
    var at := Find(s, sep);
    if at < |s| {
      JoinSplit(s[at + 1..], sep);
      var rest := Split(s[at + 1..], sep);
      assert s == s[..at] + [sep] + s[at + 1..];
      assert Split(s, sep)[1..] == rest;
      forall i | 0 <= i < |Split(s, sep)| ensures sep !in Split(s, sep)[i] {
        if i > 0 { assert Split(s, sep)[i] == rest[i - 1]; }
      }
    } else {
      assert s[..|s|] == s;
    }
  }

  /** The machines of a list are the names between the commas, each once, as they are normalised. */
  lemma MachinesTold(cell: string, t: string)
    ensures var parts := Split(cell, ',');
      t in Machines(cell) <==> t != "" && exists i :: 0 <= i < |parts| && Token(parts[i]) == t
    ensures Distinct(Machines(cell))
  {
    hide Token, Collected;
    var parts := Split(cell, ',');
    CollectedAre(parts, t);
    CollectedDistinct(parts);
    if t in Machines(cell) {
      assert t in Collected(parts);
    } else {
      assert t !in Collected(parts);
    }
  }

  lemma {:induction false} CollectedAre(parts: seq<string>, t: string)
    ensures t in Collected(parts) <==> t != "" && exists i :: 0 <= i < |parts| && Token(parts[i]) == t
  {
    hide Token;
    if parts != [] {
      var n := |parts| - 1;
      CollectedAre(parts[..n], t);
      assert forall i :: 0 <= i < n ==> parts[..n][i] == parts[i];
    }
  }
}
