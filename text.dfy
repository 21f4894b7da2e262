/**
 * Bytes, Latin-1 text and decimal numerals.
 *
 * Header lines are built as text and encoded with Latin-1 before they reach
 * the socket, and integers reach the wire as Python's `str(int)` renders
 * them; this module holds both conversions and their inverses.
 */
module Text {
  import opened Wrappers

  newtype byte = x: int | 0 <= x < 256

  /** Every character of `s` has a one-byte Latin-1 encoding. */
  predicate IsLatin1(s: string) {
    forall i :: 0 <= i < |s| ==> s[i] as int < 256
  }

  /** `s.encode('latin-1')`: one byte per character, the byte being the code point. */
  function Latin1(s: string): (b: seq<byte>)
    requires IsLatin1(s)
    ensures |b| == |s|
    ensures forall i :: 0 <= i < |s| ==> b[i] as int == s[i] as int
  {
    seq(|s|, i requires 0 <= i < |s| => s[i] as int as byte)
  }

  /** `b.decode('latin-1')`: total, one character per byte. */
  function Latin1Decode(b: seq<byte>): (s: string)
    ensures |s| == |b|
    ensures forall i :: 0 <= i < |b| ==> s[i] as int == b[i] as int
    ensures IsLatin1(s)
  {
    seq(|b|, i requires 0 <= i < |b| => b[i] as int as char)
  }

  lemma Latin1Append(s: string, t: string)
    requires IsLatin1(s) && IsLatin1(t)
    ensures IsLatin1(s + t)
    ensures Latin1(s + t) == Latin1(s) + Latin1(t)
  {
  }

  lemma Latin1DecodeAppend(a: seq<byte>, b: seq<byte>)
    ensures Latin1Decode(a + b) == Latin1Decode(a) + Latin1Decode(b)
  {
  }

  /** Decoding undoes encoding. */
  lemma Latin1RoundTrip(s: string)
    requires IsLatin1(s)
    ensures Latin1Decode(Latin1(s)) == s
  {
  }

  /** A Latin-1 text is the decoding of the bytes it encodes to, and nothing else is. */
  lemma Latin1PrefixOfDecode(d: string, b: seq<byte>)
    requires IsLatin1(d)
    requires d <= Latin1Decode(b)
    ensures Latin1(d) <= b
  {
  }

  predicate IsDigit(c: char) {
    '0' <= c <= '9'
  }

  predicate AllDigits(s: string) {
    forall i :: 0 <= i < |s| ==> IsDigit(s[i])
  }

  function DigitChar(d: nat): char
    requires d < 10
  {
    ('0' as int + d) as char
  }

  /** Python's `str(n)` for a non-negative integer: its shortest decimal numeral. */
  function FormatNat(n: nat): (s: string)
    ensures 1 <= |s| && AllDigits(s) && IsLatin1(s)
    ensures s[0] == '0' ==> n == 0
    decreases n
  {
    if n < 10 then [DigitChar(n)] else FormatNat(n / 10) + [DigitChar(n % 10)]
  }

  /** Python's `str(x)` for any integer: a minus sign before the digits of a negative one. */
  function FormatInt(x: int): (s: string)
    ensures IsLatin1(s)
  {
    if x < 0 then "-" + FormatNat(-x) else FormatNat(x)
  }

  /** The value of a decimal numeral (leading zeros allowed). */
  function DigitsValue(s: string): nat
    requires AllDigits(s)
  {
    if s == [] then 0 else DigitsValue(s[..|s| - 1]) * 10 + (s[|s| - 1] as int - '0' as int)
  }

  /** Reading a formatted numeral gives the number back. */
  lemma {:induction false} DigitsValueOfFormat(n: nat)
    ensures DigitsValue(FormatNat(n)) == n
    decreases n
  {
    if n >= 10 {
      var s := FormatNat(n);
      assert s[..|s| - 1] == FormatNat(n / 10);
      DigitsValueOfFormat(n / 10);
    }
  }

  /** The longest prefix of `s` made of digits. */
  function LeadingDigits(s: string): (d: string)
    ensures d <= s && AllDigits(d)
    ensures |d| < |s| ==> !IsDigit(s[|d|])
  {
    if s == [] || !IsDigit(s[0]) then [] else [s[0]] + LeadingDigits(s[1..])
  }

  /** A numeral followed by a non-digit is exactly what LeadingDigits picks out. */
  lemma LeadingDigitsOfNumeral(d: string, rest: string)
    requires AllDigits(d)
    requires rest == [] || !IsDigit(rest[0])
    ensures LeadingDigits(d + rest) == d
  {
    var s := d + rest;
    var l := LeadingDigits(s);
    assert l == s[..|l|] && d == s[..|d|];
  }

  /** Reads a canonical numeral (no leading zeros) off the front of `s`. */
  function ParseNat(s: string): Option<(nat, string)>
  {
    var d := LeadingDigits(s);
    var n := DigitsValue(d);
    if d != [] && d == FormatNat(n) then Some((n, s[|d|..])) else None
  }

  /** Parses `str(x)` back: an optional minus sign and a canonical numeral. */
  function ParseInt(s: string): Option<(int, string)>
  {
    if |s| > 0 && s[0] == '-' then
      match ParseNat(s[1..])
      case Some((n, rest)) => if n == 0 then None else Some((-(n as int), rest))
      case None => None
    else
      match ParseNat(s)
      case Some((n, rest)) => Some((n as int, rest))
      case None => None
  }

  /** A formatted natural number followed by a non-digit reads back as that number. */
  lemma {:induction false} ParseNatOfFormat(n: nat, rest: string)
    requires rest == [] || !IsDigit(rest[0])
    ensures ParseNat(FormatNat(n) + rest) == Some((n, rest))
  {
    var d := FormatNat(n);
    LeadingDigitsOfNumeral(d, rest);
    DigitsValueOfFormat(n);
    assert (d + rest)[|d|..] == rest;
  }

  /** The integer parser recovers every formatted integer and leaves the rest untouched. */
  lemma ParseIntOfFormat(x: int, rest: string)
    requires rest == [] || !IsDigit(rest[0])
    ensures ParseInt(FormatInt(x) + rest) == Some((x, rest))
  {
    var n: nat := if x < 0 then -x else x;
    var t := FormatNat(n) + rest;
    ParseNatOfFormat(n, rest);
    var s := FormatInt(x) + rest;
    if x < 0 {
      assert s == ['-'] + t;
      assert s[0] == '-' && s[1..] == t;
    } else {
      assert s == t;
      assert s[0] != '-';
    }
  }
}
