/** What decoding makes of any bytes, well formed or not (RFC 3629), and which characters are quoted (section 2.3 of
    RFC 3986). */
module PercentLaws {
  import opened Percent

  /* ---- Bytes ---- */

  /** The bytes begin with the encoding of the character. */
  ghost predicate StartsWith(bytes: seq<Byte>, c: char)
  {
    EncodeChar(c) <= bytes
  }

  /** The bytes are the beginning of the encoding of some character. */
  ghost predicate Begins(bytes: seq<Byte>)
  {
    exists c :: bytes <= EncodeChar(c)
  }

  /** A well-formed beginning is decoded to its character. */
  lemma WellFormedFirst(bytes: seq<Byte>, c: char)
    requires StartsWith(bytes, c)
    ensures DecodeFirst(bytes) == (c, |EncodeChar(c)|)
  {
    FirstOfEncoded(c, bytes[|EncodeChar(c)|..]);
    assert EncodeChar(c) + bytes[|EncodeChar(c)|..] == bytes;
  }

  /** Two, three and four bytes that fit together are the encoding of a character. */
  lemma TwoBytes(b: int, x: int)
    requires 0xC2 <= b < 0xE0 && 0 <= x < 64
    ensures EncodeChar(((b - 0xC0) * 64 + x) as char) == [b, 0x80 + x]
  {
  }

  lemma ThreeBytes(b: int, x: int, y: int)
    requires 0xE0 <= b < 0xF0 && 0 <= x < 64 && 0 <= y < 64 && (b == 0xE0 ==> x >= 0x20) && (b == 0xED ==> x < 0x20)
    ensures EncodeChar(((b - 0xE0) * 4096 + x * 64 + y) as char) == [b, 0x80 + x, 0x80 + y]
  {
    var n := (b - 0xE0) * 4096 + x * 64 + y;
    assert n / 64 == (b - 0xE0) * 64 + x;
    assert n / 4096 == b - 0xE0;
  }

  lemma FourBytes(b: int, x: int, y: int, z: int)
    requires 0xF0 <= b < 0xF5 && 0 <= x < 64 && 0 <= y < 64 && 0 <= z < 64
    requires (b == 0xF0 ==> x >= 0x10) && (b == 0xF4 ==> x < 0x10)
    ensures EncodeChar(((b - 0xF0) * 262144 + x * 4096 + y * 64 + z) as char) == [b, 0x80 + x, 0x80 + y, 0x80 + z]
  {
    var n := (b - 0xF0) * 262144 + x * 4096 + y * 64 + z;
    assert n / 64 == (b - 0xF0) * 4096 + x * 64 + y;
    assert n / 4096 == (b - 0xF0) * 64 + x;
    assert n / 262144 == b - 0xF0;
  }

  /** What the bytes of a character look like. */
  ghost predicate Encoded(e: seq<Byte>)
  {
    && 1 <= |e| <= 4 && (forall i :: 1 <= i < |e| ==> 0x80 <= e[i] < 0xC0)
    && (|e| == 1 <==> e[0] < 0x80) && (|e| == 2 <==> 0xC2 <= e[0] < 0xE0)
    && (|e| == 3 <==> 0xE0 <= e[0] < 0xF0) && (|e| == 4 <==> 0xF0 <= e[0] < 0xF5)
    && (e[0] == 0xE0 ==> 0xA0 <= e[1]) && (e[0] == 0xED ==> e[1] < 0xA0)
    && (e[0] == 0xF0 ==> 0x90 <= e[1]) && (e[0] == 0xF4 ==> e[1] < 0x90)
  }

  lemma EncodedShape(c: char)
    ensures Encoded(EncodeChar(c))
  {
    var n := c as int;
    if 0x800 <= n {
      assert n / 64 == n / 4096 * 64 + n / 64 % 64;
      if 0x10000 <= n { assert n / 4096 == n / 262144 * 64 + n / 4096 % 64; }
    }
  }

  /** The first `n` bytes are as much of a character as there is. */
  ghost predicate Stops(bytes: seq<Byte>, n: nat)
    requires 1 <= n <= |bytes|
  {
    (n == 1 || Begins(bytes[..n])) && (n < |bytes| ==> !Begins(bytes[..n + 1]))
  }

  /** Nothing begins like this. */
  lemma NoBeginning(bytes: seq<Byte>)
    requires |bytes| > 1
    requires forall e :: Encoded(e) ==> !(bytes <= e)
    ensures !Begins(bytes)
  {
    if c :| bytes <= EncodeChar(c) { EncodedShape(c); }
  }

  lemma PrefixAt(a: seq<Byte>, e: seq<Byte>)
    requires a <= e
    ensures |a| <= |e| && forall i :: 0 <= i < |a| ==> e[i] == a[i]
  {
  }

  lemma OneByte(bytes: seq<Byte>)
    requires |bytes| > 0 && 0x80 <= bytes[0]
    requires !(0xC2 <= bytes[0] < 0xF5) || !Tail(bytes, 1) || (0xE0 <= bytes[0] && !Second(bytes))
    ensures Stops(bytes, 1)
  {
    if |bytes| > 1 {
      var two := bytes[..2];
      forall e | Encoded(e) ensures !(two <= e) {
        if two <= e { PrefixAt(two, e); }
      }
      NoBeginning(two);
    }
  }

  lemma TwoOfThree(bytes: seq<Byte>)
    requires |bytes| > 1 && 0xE0 <= bytes[0] < 0xF0 && Second(bytes) && !Tail(bytes, 2)
    ensures Stops(bytes, 2)
  {
    var b, x := bytes[0], Low(bytes, 1);
    ThreeBytes(b, x, 0);
    assert bytes[..2] <= EncodeChar(((b - 0xE0) * 4096 + x * 64 + 0) as char);
    ShortOfThird(bytes);
  }

  lemma TwoOfFour(bytes: seq<Byte>)
    requires |bytes| > 1 && 0xF0 <= bytes[0] < 0xF5 && Second(bytes) && !Tail(bytes, 2)
    ensures Stops(bytes, 2)
  {
    var b, x := bytes[0], Low(bytes, 1);
    FourBytes(b, x, 0, 0);
    assert bytes[..2] <= EncodeChar(((b - 0xF0) * 262144 + x * 4096 + 0 * 64 + 0) as char);
    ShortOfThird(bytes);
  }

  lemma ShortOfThird(bytes: seq<Byte>)
    requires |bytes| > 1 && !Tail(bytes, 2)
    ensures |bytes| > 2 ==> !Begins(bytes[..3])
  {
    if |bytes| > 2 {
      var three := bytes[..3];
      forall e | Encoded(e) ensures !(three <= e) {
        if three <= e { PrefixAt(three, e); }
      }
      NoBeginning(three);
    }
  }

  lemma ThreeOfFour(bytes: seq<Byte>)
    requires |bytes| > 1 && 0xF0 <= bytes[0] < 0xF5 && Second(bytes) && Tail(bytes, 2) && !Tail(bytes, 3)
    ensures Stops(bytes, 3)
  {
    var b, x, y := bytes[0], Low(bytes, 1), Low(bytes, 2);
    FourBytes(b, x, y, 0);
    assert bytes[..3] <= EncodeChar(((b - 0xF0) * 262144 + x * 4096 + y * 64 + 0) as char);
    if |bytes| > 3 {
      var four := bytes[..4];
      forall e | Encoded(e) ensures !(four <= e) {
        if four <= e { PrefixAt(four, e); }
      }
      NoBeginning(four);
    }
  }

  /** The first step of decoding either takes the bytes of one character, or replaces as many bytes as could have
      belonged to one. */
  lemma FirstTaken(bytes: seq<Byte>)
    requires bytes != []
    ensures var (c, n) := DecodeFirst(bytes);
      || (StartsWith(bytes, c) && n == |EncodeChar(c)|)
      || (c == REPLACEMENT && Stops(bytes, n))
  {
    hide EncodeChar, Stops;
    var b := bytes[0];
    if b < 0x80 {
      Ascii(bytes);
    } else if 0xC2 <= b < 0xE0 {
      if !Tail(bytes, 1) { OneByte(bytes); } else { TwoBytes(b, Low(bytes, 1)); }
    } else if 0xE0 <= b < 0xF0 {
      if !Second(bytes) { OneByte(bytes); }
      else if !Tail(bytes, 2) { TwoOfThree(bytes); }
      else { ThreeBytes(b, Low(bytes, 1), Low(bytes, 2)); }
    } else if 0xF0 <= b < 0xF5 {
      if !Second(bytes) { OneByte(bytes); }
      else if !Tail(bytes, 2) { TwoOfFour(bytes); }
      else if !Tail(bytes, 3) { ThreeOfFour(bytes); }
      else { FourBytes(b, Low(bytes, 1), Low(bytes, 2), Low(bytes, 3)); }
    } else {
      OneByte(bytes);
    }
  }

  lemma Ascii(bytes: seq<Byte>)
    requires bytes != [] && bytes[0] < 0x80
    ensures StartsWith(bytes, bytes[0] as char) && |EncodeChar(bytes[0] as char)| == 1
  {
  }

  /** Where no character begins, the replacement character stands for the longest run of bytes that begins one, or
      for one byte. */
  lemma MalformedFirst(bytes: seq<Byte>)
    requires bytes != [] && forall c :: !StartsWith(bytes, c)
    ensures var (c, n) := DecodeFirst(bytes);
      c == REPLACEMENT && Stops(bytes, n)
  {
    hide StartsWith, Stops, DecodeFirst;
    FirstTaken(bytes);
  }

  /* ---- Characters ---- */

  /** Letters, digits and four marks are not quoted. */
  lemma PlainAre(b: Byte)
    ensures Unreserved(b) <==>
      || IsOneOf(b, "ABCDEFGHIJKLMNOPQRSTUVWXYZ") || IsOneOf(b, "abcdefghijklmnopqrstuvwxyz")
      || IsOneOf(b, "0123456789") || IsOneOf(b, "_.-~")
  {
    hide IsOneOf;
    InCapitals(b);
    InSmallLetters(b);
    InDigits(b);
    InMarks(b);
  }

  ghost predicate IsOneOf(b: Byte, chars: string)
  {
    b < 0x80 && b as char in chars
  }

  lemma InCapitals(b: Byte)
    ensures IsOneOf(b, "ABCDEFGHIJKLMNOPQRSTUVWXYZ") <==> 0x41 <= b <= 0x5A
  {
  }

  lemma InSmallLetters(b: Byte)
    ensures IsOneOf(b, "abcdefghijklmnopqrstuvwxyz") <==> 0x61 <= b <= 0x7A
  {
  }

  lemma InDigits(b: Byte)
    ensures IsOneOf(b, "0123456789") <==> 0x30 <= b <= 0x39
  {
  }

  lemma InMarks(b: Byte)
    ensures IsOneOf(b, "_.-~") <==> b == 0x5F || b == 0x2E || b == 0x2D || b == 0x7E
  {
  }

  ghost function HexDigits(): string { "0123456789ABCDEF" }

  /** Digits are written in capitals and read in either case. */
  lemma HexTold(d: nat)
    requires d < 16
    ensures HexDigit(d) == HexDigits()[d] && HexValue(HexDigits()[d]) == d
    ensures HexValue("0123456789abcdef"[d]) == d
  {
  }

  ghost predicate IsHex(c: char)
  {
    c in "0123456789" || c in "ABCDEF" || c in "abcdef"
  }

  lemma HexWhen(c: char)
    ensures HexValue(c) >= 0 <==> IsHex(c)
  {
  }

  /** A percent sign and two hexadecimal digits are one byte; any other character stands for itself. */
  lemma UnquotedBytes(s: string)
    requires s != "" && IsAscii(s)
    ensures |s| > 2 && s[0] == '%' && IsHex(s[1]) && IsHex(s[2]) ==>
      UnquoteBytes(s) == [HexValue(s[1]) * 16 + HexValue(s[2])] + UnquoteBytes(s[3..])
    ensures !(|s| > 2 && s[0] == '%' && IsHex(s[1]) && IsHex(s[2])) ==>
      UnquoteBytes(s) == [s[0] as int] + UnquoteBytes(s[1..])
  {
    hide IsHex;
    if |s| > 2 {
      HexWhen(s[1]);
      HexWhen(s[2]);
    }
  }

  lemma {:induction false} RunEnds(run: string, rest: string)
    requires IsAscii(run) && (rest == "" || rest[0] as int >= 0x80)
    ensures AsciiRun(run + rest) == |run|
  {
    if run == "" {
      assert run + rest == rest;
    } else {
      assert (run + rest)[1..] == run[1..] + rest;
      RunEnds(run[1..], rest);
    }
  }

  /** A run of ASCII is unquoted and decoded by itself, and any other character stays where it is. */
  lemma UnquoteTold(run: string, c: char, rest: string)
    requires IsAscii(run) && c as int >= 0x80
    ensures Unquote(run) == Decode(UnquoteBytes(run))
    ensures Unquote(run + [c] + rest) == Decode(UnquoteBytes(run)) + [c] + Unquote(rest)
  {
    hide Decode, UnquoteBytes;
    Nothing();
    var s := run + [c] + rest;
    RunEnds(run, "");
    assert run + "" == run && run[..|run|] == run && run[|run|..] == "";
    assert s == run + ([c] + rest);
    RunEnds(run, [c] + rest);
    assert s[..|run|] == run && s[|run|..] == [c] + rest;
    RunEnds("", [c] + rest);
    assert "" + ([c] + rest) == [c] + rest && ([c] + rest)[1..] == rest;
    assert Unquote([c] + rest) == [c] + Unquote(rest);
    if run == "" { assert s == [c] + rest; }
  }

  lemma Nothing()
    ensures Unquote("") == "" && Decode(UnquoteBytes("")) == ""
  {
  }
}
