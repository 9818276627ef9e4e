/** Bytes and their text encodings as Node's `Buffer` produces and parses them:
    lower-case hex (`buf.toString("hex")`), hex parsing (`Buffer.from(s, "hex")`),
    ASCII upper-casing and decimal rendering of naturals. */
module Hex {

  newtype byte = x: int | 0 <= x < 256

  /** The lower-case hex digit of a nibble, as `toString("hex")` writes it. */
  function HexDigit(n: int): (c: char)
    requires 0 <= n < 16
  {
    if n < 10 then ('0' as int + n) as char else ('a' as int + n - 10) as char
  }

  /** Characters `Buffer.from(s, "hex")` accepts, in either case. */
  predicate IsHexChar(c: char) {
    ('0' <= c <= '9') || ('a' <= c <= 'f') || ('A' <= c <= 'F')
  }

  predicate IsUpperHexChar(c: char) {
    ('0' <= c <= '9') || ('A' <= c <= 'F')
  }

  predicate IsLowerHexChar(c: char) {
    ('0' <= c <= '9') || ('a' <= c <= 'f')
  }

  function HexValue(c: char): (n: int)
    requires IsHexChar(c)
    ensures 0 <= n < 16
  {
    if '0' <= c <= '9' then c as int - '0' as int
    else if 'a' <= c <= 'f' then c as int - 'a' as int + 10
    else c as int - 'A' as int + 10
  }

  function ByteToHex(b: byte): string {
    [HexDigit(b as int / 16), HexDigit(b as int % 16)]
  }

  /** `buf.toString("hex")`: two lower-case digits per byte, high nibble first. */
  function ToHex(bytes: seq<byte>): (s: string)
    ensures |s| == 2 * |bytes|
    ensures forall i :: 0 <= i < |s| ==> IsLowerHexChar(s[i])
  {
    if bytes == [] then [] else ByteToHex(bytes[0]) + ToHex(bytes[1..])
  }

  /** `Buffer.from(s, "hex")`: decodes digit pairs from the start and stops at the
      first pair holding a non-hex character; a trailing odd digit is dropped. */
  function FromHex(s: string): (bytes: seq<byte>)
    ensures |bytes| <= |s| / 2
  {
    if |s| < 2 || !IsHexChar(s[0]) || !IsHexChar(s[1]) then []
    else [(HexValue(s[0]) * 16 + HexValue(s[1])) as byte] + FromHex(s[2..])
  }

  /** ASCII upper-casing; on the hex strings it is applied to, this is what
      JavaScript's `toUpperCase` does. */
  function UpperChar(c: char): char {
    if 'a' <= c <= 'z' then (c as int - 'a' as int + 'A' as int) as char else c
  }

  function ToUpper(s: string): (r: string)
    ensures |r| == |s|
    ensures forall i :: 0 <= i < |s| ==> r[i] == UpperChar(s[i])
  {
    if s == [] then [] else [UpperChar(s[0])] + ToUpper(s[1..])
  }

  predicate IsDecimalChar(c: char) {
    '0' <= c <= '9'
  }

  /** The natural a string of decimal digits denotes, most significant digit first. */
  function DigitsValue(s: string): nat
    requires forall i :: 0 <= i < |s| ==> IsDecimalChar(s[i])
  {
    if s == [] then 0
    else
      assert IsDecimalChar(s[|s| - 1]);
      10 * DigitsValue(s[..|s| - 1]) + (s[|s| - 1] as int - '0' as int)
  }

  /** Decimal rendering of a natural, as template literals and `toString()` write it:
      digits without leading zeros that denote `n`. */
  function Decimal(n: nat): (s: string)
    ensures |s| >= 1
    ensures forall i :: 0 <= i < |s| ==> IsDecimalChar(s[i])
    ensures DigitsValue(s) == n
    ensures |s| > 1 ==> s[0] != '0'
  {
    if n < 10 then [('0' as int + n) as char]
    else
      var prefix := Decimal(n / 10);
      var s := prefix + [('0' as int + n % 10) as char];
      assert s[..|s| - 1] == prefix;
      s
  }

  lemma HexDigitValue(n: int)
    requires 0 <= n < 16
    ensures IsHexChar(HexDigit(n)) && HexValue(HexDigit(n)) == n
    ensures IsHexChar(UpperChar(HexDigit(n))) && HexValue(UpperChar(HexDigit(n))) == n
  {
  }

  /** Parsing undoes encoding: `Buffer.from(buf.toString("hex"), "hex")` is `buf`. */
  lemma {:induction false} FromHexToHex(bytes: seq<byte>)
    ensures FromHex(ToHex(bytes)) == bytes
  {
    if bytes != [] {
      var s := ToHex(bytes);
      HexDigitValue(bytes[0] as int / 16);
      HexDigitValue(bytes[0] as int % 16);
      assert s[2..] == ToHex(bytes[1..]);
      FromHexToHex(bytes[1..]);
    }
  }

  /** Parsing is insensitive to upper-casing the encoding. */
  lemma {:induction false} FromHexUpperToHex(bytes: seq<byte>)
    ensures FromHex(ToUpper(ToHex(bytes))) == bytes
  {
    if bytes != [] {
      var s := ToHex(bytes);
      var u := ToUpper(s);
      HexDigitValue(bytes[0] as int / 16);
      HexDigitValue(bytes[0] as int % 16);
      assert u[2..] == ToUpper(ToHex(bytes[1..])) by {
        assert s[2..] == ToHex(bytes[1..]);
      }
      FromHexUpperToHex(bytes[1..]);
    }
  }
}
