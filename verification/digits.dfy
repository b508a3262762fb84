/** Decimal and hexadecimal digit strings, as written by Python's `str(int)`
    and by the `\uXXXX` escapes of its JSON encoder, and read back by its
    JSON decoder. */
module Digits {
  import opened Results

  const HexAlphabet: string := "0123456789abcdef"

  /** The lower-case digit for `d` (Python writes hex escapes in lower case). */
  function DigitChar(d: nat): (c: char)
    requires d < 16
    ensures c as int < 128
  {
    HexAlphabet[d]
  }

  predicate IsDecDigit(c: char) {
    '0' <= c <= '9'
  }

  predicate AllDecDigits(s: string) {
    forall i :: 0 <= i < |s| ==> IsDecDigit(s[i])
  }

  function DecVal(c: char): (d: nat)
    requires IsDecDigit(c)
    ensures d < 10
  {
    c as int - '0' as int
  }

  /** The value of a hex digit in either case, as the JSON decoder accepts. */
  function HexVal(c: char): (r: Option<nat>)
    ensures r.Some? ==> r.value < 16
  {
    if '0' <= c <= '9' then Some(c as int - '0' as int)
    else if 'a' <= c <= 'f' then Some(c as int - 'a' as int + 10)
    else if 'A' <= c <= 'F' then Some(c as int - 'A' as int + 10)
    else None
  }

  /** `str(n)` for a non-negative integer: no leading zero except for 0 itself. */
  function NatText(n: nat): (s: string)
    ensures |s| >= 1 && AllDecDigits(s)
    ensures s[0] == '0' <==> n == 0
    ensures forall i :: 0 <= i < |s| ==> s[i] as int < 128
  {
    if n < 10 then [DigitChar(n)] else NatText(n / 10) + [DigitChar(n % 10)]
  }

  /** `str(n)` for any integer. */
  function IntText(n: int): string
  {
    if n < 0 then "-" + NatText(-n) else NatText(n)
  }

  /** The number a string of decimal digits denotes, most significant first. */
  function DecValue(ds: string): nat
    requires AllDecDigits(ds)
  {
    if |ds| == 0 then 0 else DecValue(ds[..|ds| - 1]) * 10 + DecVal(ds[|ds| - 1])
  }

  lemma DigitCharDecVal(d: nat)
    requires d < 10
    ensures IsDecDigit(DigitChar(d)) && DecVal(DigitChar(d)) == d
  {
  }

  /** Reading back `str(n)` yields `n`. */
  lemma {:induction false} NatTextValue(n: nat)
    ensures DecValue(NatText(n)) == n
  {
    DigitCharDecVal(n % 10);
    if n >= 10 {
      var s := NatText(n / 10);
      assert NatText(n) == s + [DigitChar(n % 10)];
      assert (s + [DigitChar(n % 10)])[..|s|] == s;
      NatTextValue(n / 10);
    }
  }

  /** The longest prefix of `s` made of decimal digits. */
  function DigitPrefix(s: string): (p: string)
    ensures |p| <= |s| && p == s[..|p|] && AllDecDigits(p)
    ensures |p| < |s| ==> !IsDecDigit(s[|p|])
  {
    if |s| == 0 || !IsDecDigit(s[0]) then [] else [s[0]] + DigitPrefix(s[1..])
  }

  /** The digit prefix of `str(n)` followed by a non-digit is `str(n)` itself. */
  lemma {:induction false} DigitPrefixOfDigits(ds: string, rest: string)
    requires AllDecDigits(ds)
    requires |rest| == 0 || !IsDecDigit(rest[0])
    ensures DigitPrefix(ds + rest) == ds
  {
    if |ds| > 0 {
      assert (ds + rest)[1..] == ds[1..] + rest;
      DigitPrefixOfDigits(ds[1..], rest);
    } else {
      assert ds + rest == rest;
    }
  }

  function Pow16(k: nat): (p: nat)
    ensures p >= 1
  {
    if k == 0 then 1 else 16 * Pow16(k - 1)
  }

  /** `n` written with exactly `width` lower-case hex digits, zero-padded. */
  function HexPad(n: nat, width: nat): (s: string)
    requires n < Pow16(width)
    ensures |s| == width
    ensures forall i :: 0 <= i < |s| ==> HexVal(s[i]).Some? && s[i] as int < 128
  {
    if width == 0 then [] else HexPad(n / 16, width - 1) + [DigitChar(n % 16)]
  }

  /** The number a string of hex digits denotes, or None if one is not a hex digit. */
  function HexValue(s: string): (r: Option<nat>)
    ensures r.Some? ==> r.value < Pow16(|s|)
  {
    if |s| == 0 then Some(0)
    else match (HexValue(s[..|s| - 1]), HexVal(s[|s| - 1]))
      case (Some(hi), Some(lo)) => Some(hi * 16 + lo)
      case _ => None
  }

  lemma DigitCharHexVal(d: nat)
    requires d < 16
    ensures HexVal(DigitChar(d)) == Some(d)
  {
  }

  /** Reading back a padded hex string yields the number written. */
  lemma {:induction false} HexPadValue(n: nat, width: nat)
    requires n < Pow16(width)
    ensures HexValue(HexPad(n, width)) == Some(n)
  {
    if width > 0 {
      var s := HexPad(n / 16, width - 1);
      DigitCharHexVal(n % 16);
      assert HexPad(n, width) == s + [DigitChar(n % 16)];
      assert (s + [DigitChar(n % 16)])[..|s|] == s;
      HexPadValue(n / 16, width - 1);
    }
  }
}
