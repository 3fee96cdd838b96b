/** The textual encodings the application produces: decimal numbers (`Number.prototype.toString()`),
    lower-case hexadecimal of random bytes (`Buffer.toString("hex")`, section 8 of RFC 4648) and
    the percent-encoding of `encodeURIComponent` (section 2.1 of RFC 3986), with the decoding
    `URLSearchParams.get` applies to it. */
module Encoding {
  import opened Common

  type byte = b: int | 0 <= b < 256

  // ---------------------------------------------------------------- decimal

  predicate IsDigit(c: char)
  {
    '0' <= c <= '9'
  }

  predicate AllDigits(s: string)
  {
    forall i :: 0 <= i < |s| ==> IsDigit(s[i])
  }

  function DigitChar(d: int): (c: char)
    requires 0 <= d < 10
    ensures IsDigit(c) && c as int - '0' as int == d
  {
    ('0' as int + d) as char
  }

  /** `n.toString()` for a non-negative integer: no sign and no leading zero. */
  function NatToDecimal(n: nat): (s: string)
    ensures |s| >= 1 && AllDigits(s)
    ensures n > 0 ==> s[0] != '0'
    decreases n
  {
    if n < 10 then [DigitChar(n)] else NatToDecimal(n / 10) + [DigitChar(n % 10)]
  }

  /** The number a string of decimal digits denotes. */
  function DecimalValue(s: string): nat
    requires AllDigits(s)
  {
    if s == [] then 0 else DecimalValue(s[..|s| - 1]) * 10 + (s[|s| - 1] as int - '0' as int)
  }

  /** Reading back a printed number gives the number. */
  lemma {:induction false} DecimalRoundTrip(n: nat)
    ensures DecimalValue(NatToDecimal(n)) == n
    decreases n
  {
    if n >= 10 {
      DecimalRoundTrip(n / 10);
      var s := NatToDecimal(n);
      assert s[..|s| - 1] == NatToDecimal(n / 10);
    }
  }

  /** Printing is one-to-one. */
  lemma DecimalInjective(a: nat, b: nat)
    requires NatToDecimal(a) == NatToDecimal(b)
    ensures a == b
  {
    DecimalRoundTrip(a);
    DecimalRoundTrip(b);
  }

  function Pow10(k: nat): (p: nat)
    ensures p >= 1
  {
    if k == 0 then 1 else 10 * Pow10(k - 1)
  }

  /** A number with k digits prints as exactly k characters. */
  lemma {:induction false} DecimalLength(n: nat, k: nat)
    requires 1 <= k && Pow10(k - 1) <= n < Pow10(k)
    ensures |NatToDecimal(n)| == k
    decreases k
  {
    if k > 1 {
      assert Pow10(k - 1) == 10 * Pow10(k - 2);
      DecimalLength(n / 10, k - 1);
    }
  }

  /** The canonical decimal strings: exactly the ones `NatToDecimal` prints. */
  function ParseDecimal(s: string): (r: Option<nat>)
    ensures r.Some? ==> NatToDecimal(r.value) == s
  {
    if s != "" && AllDigits(s) && NatToDecimal(DecimalValue(s)) == s then Some(DecimalValue(s)) else None
  }

  lemma ParseDecimalRoundTrip(n: nat)
    ensures ParseDecimal(NatToDecimal(n)) == Some(n)
  {
    DecimalRoundTrip(n);
  }

  // ---------------------------------------------------------------- hexadecimal

  const LowerHexDigits := "0123456789abcdef"

  predicate IsLowerHex(c: char)
  {
    IsDigit(c) || 'a' <= c <= 'f'
  }

  function HexChar(d: int): (c: char)
    requires 0 <= d < 16
    ensures IsLowerHex(c)
  {
    LowerHexDigits[d]
  }

  /** The value of one hexadecimal digit, either case; -1 for anything else. */
  function HexValue(c: char): int
  {
    if IsDigit(c) then c as int - '0' as int
    else if 'a' <= c <= 'f' then c as int - 'a' as int + 10
    else if 'A' <= c <= 'F' then c as int - 'A' as int + 10
    else -1
  }

  lemma HexCharValue(d: int)
    requires 0 <= d < 16
    ensures HexValue(HexChar(d)) == d
  {
  }

  /** `buffer.toString("hex")`: two lower-case digits per byte, high nibble first. */
  function HexEncode(bs: seq<byte>): (s: string)
    ensures |s| == 2 * |bs|
    ensures forall i :: 0 <= i < |s| ==> IsLowerHex(s[i])
  {
    if bs == [] then [] else [HexChar(bs[0] / 16), HexChar(bs[0] % 16)] + HexEncode(bs[1..])
  }

  function HexDecode(s: string): seq<byte>
    requires |s| % 2 == 0
    requires forall i :: 0 <= i < |s| ==> IsLowerHex(s[i])
  {
    if s == [] then []
    else
      assert IsLowerHex(s[0]) && IsLowerHex(s[1]);
      var b: byte := HexValue(s[0]) * 16 + HexValue(s[1]);
      [b] + HexDecode(s[2..])
  }

  /** Decoding the hexadecimal text gives back the random bytes. */
  lemma {:induction false} HexRoundTrip(bs: seq<byte>)
    ensures HexDecode(HexEncode(bs)) == bs
  {
    if bs != [] {
      var s := HexEncode(bs);
      HexCharValue(bs[0] / 16);
      HexCharValue(bs[0] % 16);
      assert s[2..] == HexEncode(bs[1..]);
      HexRoundTrip(bs[1..]);
    }
  }

  // ---------------------------------------------------------------- URI components

  /** The characters `encodeURIComponent` leaves alone. */
  predicate Unreserved(c: char)
  {
    'A' <= c <= 'Z' || 'a' <= c <= 'z' || IsDigit(c)
    || c == '-' || c == '_' || c == '.' || c == '!' || c == '~' || c == '*' || c == '\'' || c == '(' || c == ')'
  }

  const UpperHexDigits := "0123456789ABCDEF"

  /** One character of `encodeURIComponent`: unreserved ASCII and non-ASCII characters are kept,
      every other ASCII character becomes `%XY` with upper-case hexadecimal. */
  function EncodeChar(c: char): string
  {
    if Unreserved(c) || c as int >= 128 then [c]
    else ['%', UpperHexDigits[c as int / 16], UpperHexDigits[c as int % 16]]
  }

  function EncodeURIComponent(s: string): (r: string)
    ensures forall i :: 0 <= i < |r| ==> r[i] != '+' && r[i] != '&' && r[i] != ' '
  {
    if s == [] then [] else EncodeChar(s[0]) + EncodeURIComponent(s[1..])
  }

  /** The form decoding of a query value: `+` is a space and `%XY` with two hexadecimal digits is
      the character with that code; anything else stands for itself. */
  function DecodeQueryValue(s: string): string
  {
    if s == [] then []
    else if s[0] == '+' then " " + DecodeQueryValue(s[1..])
    else if s[0] == '%' && |s| >= 3 && HexValue(s[1]) >= 0 && HexValue(s[2]) >= 0 then
      [(HexValue(s[1]) * 16 + HexValue(s[2])) as char] + DecodeQueryValue(s[3..])
    else [s[0]] + DecodeQueryValue(s[1..])
  }

  lemma DecodeEncodedChar(c: char, rest: string)
    ensures DecodeQueryValue(EncodeChar(c) + rest) == [c] + DecodeQueryValue(rest)
  {
    var e := EncodeChar(c);
    if !(Unreserved(c) || c as int >= 128) {
      assert HexValue(UpperHexDigits[c as int / 16]) == c as int / 16;
      assert HexValue(UpperHexDigits[c as int % 16]) == c as int % 16;
      assert (e + rest)[3..] == rest;
    } else {
      assert (e + rest)[1..] == rest;
    }
  }

  /** What `encodeURIComponent` writes into a query string, the query parser reads back. */
  lemma {:induction false} QueryValueRoundTrip(s: string)
    ensures DecodeQueryValue(EncodeURIComponent(s)) == s
  {
    if s != [] {
      DecodeEncodedChar(s[0], EncodeURIComponent(s[1..]));
      QueryValueRoundTrip(s[1..]);
    }
  }
}
