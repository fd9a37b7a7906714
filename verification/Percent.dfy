/** UTF-8 (RFC 3629) and percent-encoding (sections 2.1 and 2.3 of RFC 3986), as `urllib.parse.quote` with no
    safe characters and `unquote` use them. */
module Percent {
  type Byte = b: int | 0 <= b < 256

  const REPLACEMENT: char := '\U{FFFD}'

  function EncodeChar(c: char): (bytes: seq<Byte>)
    ensures 1 <= |bytes| <= 4
  {
    var n := c as int;
    if n < 0x80 then [n]
    else if n < 0x800 then [0xC0 + n / 64, 0x80 + n % 64]
    else if n < 0x10000 then [0xE0 + n / 4096, 0x80 + n / 64 % 64, 0x80 + n % 64]
    else [0xF0 + n / 262144, 0x80 + n / 4096 % 64, 0x80 + n / 64 % 64, 0x80 + n % 64]
  }

  function Encode(s: string): seq<Byte>
  {
    if s == "" then [] else EncodeChar(s[0]) + Encode(s[1..])
  }

  predicate Tail(bytes: seq<Byte>, i: nat)
  {
    i < |bytes| && 0x80 <= bytes[i] < 0xC0
  }

  /** A second byte that can follow the first one of a three or four byte sequence. */
  predicate Second(bytes: seq<Byte>)
  {
    |bytes| > 1 && match bytes[0]
      case 0xE0 => 0xA0 <= bytes[1] < 0xC0
      case 0xED => 0x80 <= bytes[1] < 0xA0
      case 0xF0 => 0x90 <= bytes[1] < 0xC0
      case 0xF4 => 0x80 <= bytes[1] < 0x90
      case _ => 0x80 <= bytes[1] < 0xC0
  }

  /** The payload of a continuation byte. */
  function Low(bytes: seq<Byte>, i: nat): (v: int)
    requires Tail(bytes, i)
    ensures 0 <= v < 64
  {
    var b: int := bytes[i];
    b - 0x80
  }

  /** The first character and the bytes it takes; a malformed start becomes one replacement character. */
  function DecodeFirst(bytes: seq<Byte>): (r: (char, nat))
    requires bytes != []
    ensures 1 <= r.1 <= |bytes|
  {
    var b: int := bytes[0];
    if b < 0x80 then (b as char, 1)
    else if 0xC2 <= b < 0xE0 then
      if !Tail(bytes, 1) then (REPLACEMENT, 1)
      else (((b - 0xC0) * 64 + Low(bytes, 1)) as char, 2)
    else if 0xE0 <= b < 0xF0 then
      if !Second(bytes) then (REPLACEMENT, 1)
      else if !Tail(bytes, 2) then (REPLACEMENT, 2)
      else (((b - 0xE0) * 4096 + Low(bytes, 1) * 64 + Low(bytes, 2)) as char, 3)
    else if 0xF0 <= b < 0xF5 then
      if !Second(bytes) then (REPLACEMENT, 1)
      else if !Tail(bytes, 2) then (REPLACEMENT, 2)
      else if !Tail(bytes, 3) then (REPLACEMENT, 3)
      else (((b - 0xF0) * 262144 + Low(bytes, 1) * 4096 + Low(bytes, 2) * 64 + Low(bytes, 3)) as char, 4)
    else (REPLACEMENT, 1)
  }

  /** `bytes.decode("utf-8", "replace")`. */
  function Decode(bytes: seq<Byte>): string
  {
    if bytes == [] then ""
    else
      var (c, used) := DecodeFirst(bytes);
      [c] + Decode(bytes[used..])
  }

  lemma FirstOfEncoded(c: char, rest: seq<Byte>)
    ensures DecodeFirst(EncodeChar(c) + rest) == (c, |EncodeChar(c)|)
  {
    var n := c as int;
    var bytes := EncodeChar(c) + rest;
    assert bytes[..|EncodeChar(c)|] == EncodeChar(c);
    if n < 0x80 {
    } else if n < 0x800 {
      assert n == n / 64 * 64 + n % 64;
    } else if n < 0x10000 {
      assert n / 64 == n / 4096 * 64 + n / 64 % 64 && n == n / 64 * 64 + n % 64;
    } else {
      assert n / 4096 == n / 262144 * 64 + n / 4096 % 64;
      assert n / 64 == n / 4096 * 64 + n / 64 % 64 && n == n / 64 * 64 + n % 64;
    }
  }

  /** Decoding undoes encoding for every text. */
  lemma {:induction false} DecodeEncode(s: string)
    ensures Decode(Encode(s)) == s
  {
    if s != "" {
      FirstOfEncoded(s[0], Encode(s[1..]));
      assert Encode(s)[|EncodeChar(s[0])|..] == Encode(s[1..]);
      DecodeEncode(s[1..]);
    }
  }

  /** ASCII letters, digits, underscore, full stop, hyphen and tilde. */
  predicate Unreserved(b: int)
  {
    || 0x41 <= b <= 0x5A || 0x61 <= b <= 0x7A || 0x30 <= b <= 0x39 || b == 0x5F || b == 0x2E || b == 0x2D || b == 0x7E
  }

  function HexDigit(d: int): char
    requires 0 <= d < 16
  {
    if d < 10 then (0x30 + d) as char else (0x37 + d) as char
  }

  /** The value of a hexadecimal digit of either case, or -1. */
  function HexValue(c: char): (v: int)
    ensures -1 <= v < 16
  {
    var n := c as int;
    if 0x30 <= n <= 0x39 then n - 0x30
    else if 0x41 <= n <= 0x46 then n - 0x37
    else if 0x61 <= n <= 0x66 then n - 0x57
    else -1
  }

  function QuoteByte(b: Byte): string
  {
    if Unreserved(b) then [b as char] else ['%', HexDigit(b / 16), HexDigit(b % 16)]
  }

  function QuoteBytes(bytes: seq<Byte>): string
  {
    if bytes == [] then "" else QuoteByte(bytes[0]) + QuoteBytes(bytes[1..])
  }

  /** `quote(text, safe="")`. */
  function Quote(s: string): string
  {
    QuoteBytes(Encode(s))
  }

  predicate IsAscii(s: string)
  {
    forall i :: 0 <= i < |s| ==> s[i] as int < 0x80
  }

  /** `unquote_to_bytes` on ASCII text; a stray percent sign stands for itself. */
  function UnquoteBytes(s: string): seq<Byte>
    requires IsAscii(s)
  {
    if s == "" then []
    else if |s| > 2 && s[0] == '%' && HexValue(s[1]) >= 0 && HexValue(s[2]) >= 0 then
      [HexValue(s[1]) * 16 + HexValue(s[2])] + UnquoteBytes(s[3..])
    else [s[0] as int] + UnquoteBytes(s[1..])
  }

  /** How many leading characters are ASCII. */
  function AsciiRun(s: string): (n: nat)
    ensures n <= |s| && IsAscii(s[..n])
    ensures n == |s| || s[n] as int >= 0x80
  {
    if s == "" || s[0] as int >= 0x80 then 0
    else
      var n := AsciiRun(s[1..]) + 1;
      assert s[..n] == [s[0]] + s[1..][..n - 1];
      n
  }

  /** `unquote(text)`: runs of ASCII are unquoted and decoded, other characters stay. */
  function Unquote(s: string): string
    decreases |s|
  {
    if s == "" then ""
    else
      var n := AsciiRun(s);
      if n == 0 then [s[0]] + Unquote(s[1..])
      else Decode(UnquoteBytes(s[..n])) + Unquote(s[n..])
  }

  /** Quoted text holds nothing but unreserved characters and percent signs. */
  lemma {:induction false} QuotedChars(bytes: seq<Byte>)
    ensures forall i :: 0 <= i < |QuoteBytes(bytes)| ==>
              Unreserved(QuoteBytes(bytes)[i] as int) || QuoteBytes(bytes)[i] == '%'
    ensures QuoteBytes(bytes) == "" <==> bytes == []
  {
    if bytes != [] { QuotedChars(bytes[1..]); }
  }

  lemma {:induction false} UnquoteQuotedBytes(bytes: seq<Byte>)
    ensures IsAscii(QuoteBytes(bytes))
    ensures UnquoteBytes(QuoteBytes(bytes)) == bytes
  {
    QuotedChars(bytes);
    if bytes != [] {
      var b := bytes[0];
      var s := QuoteBytes(bytes);
      UnquoteQuotedBytes(bytes[1..]);
      if Unreserved(b) {
        assert s[1..] == QuoteBytes(bytes[1..]);
      } else {
        assert s[1] == HexDigit(b / 16) && s[2] == HexDigit(b % 16);
        assert HexValue(HexDigit(b / 16)) == b / 16 && HexValue(HexDigit(b % 16)) == b % 16;
        assert s[3..] == QuoteBytes(bytes[1..]);
      }
      assert bytes == [b] + bytes[1..];
    }
  }

  /** Unquoting undoes quoting for every text. */
  lemma UnquoteQuote(s: string)
    ensures Unquote(Quote(s)) == s
  {
    var bytes := Encode(s);
    var quoted := Quote(s);
    UnquoteQuotedBytes(bytes);
    DecodeEncode(s);
    if quoted != "" {
      var n := AsciiRun(quoted);
      assert n == |quoted|;
      assert quoted[..n] == quoted && quoted[n..] == "";
      assert Unquote(quoted[n..]) == "";
    } else {
      QuotedChars(bytes);
    }
  }
}
