/** Bytes and the text encodings the library leans on: lower-case hex
    (`hex.encode` / `hex.decode` of @scure/base), and decimal strings
    (`String(n)`, `bigint.toString()` and `BigInt(s)` for non-negative integers). */
module Encoding {
  import opened Wrappers

  type byte = x: int | 0 <= x < 256

  function HexDigit(d: nat): char
    requires d < 16
  {
    if d < 10 then ('0' as int + d) as char else ('a' as int + d - 10) as char
  }

  /** Value of one hex digit, either case; `None` for any other character. */
  function HexValue(c: char): Option<nat>
  {
    if '0' <= c <= '9' then Some(c as int - '0' as int)
    else if 'a' <= c <= 'f' then Some(c as int - 'a' as int + 10)
    else if 'A' <= c <= 'F' then Some(c as int - 'A' as int + 10)
    else None
  }

  function HexEncode(bs: seq<byte>): string
  {
    if bs == [] then [] else [HexDigit(bs[0] / 16), HexDigit(bs[0] % 16)] + HexEncode(bs[1..])
  }

  /** Decodes pairs of hex digits; odd length or a non-hex character is an error. */
  function HexDecode(s: string): Option<seq<byte>>
    decreases |s|
  {
    if s == [] then Some([])
    else if |s| == 1 then None
    else
      var hi :- HexValue(s[0]);
      var lo :- HexValue(s[1]);
      var rest :- HexDecode(s[2..]);
      Some([hi * 16 + lo] + rest)
  }

  lemma HexDigitValue(d: nat)
    requires d < 16
    ensures HexValue(HexDigit(d)) == Some(d)
  {
  }

  lemma {:induction false} HexEncodeLength(bs: seq<byte>)
    ensures |HexEncode(bs)| == 2 * |bs|
  {
    if bs != [] {
      HexEncodeLength(bs[1..]);
    }
  }

  /** `hex.decode(hex.encode(b)) == b`. */
  lemma {:induction false} HexRoundTrip(bs: seq<byte>)
    ensures HexDecode(HexEncode(bs)) == Some(bs)
  {
    if bs != [] {
      HexRoundTrip(bs[1..]);
      var s := HexEncode(bs);
      HexDigitValue(bs[0] / 16);
      HexDigitValue(bs[0] % 16);
      assert s[2..] == HexEncode(bs[1..]);
      assert bs == [bs[0]] + bs[1..];
    }
  }

  function DecimalDigit(d: nat): char
    requires d < 10
  {
    ('0' as int + d) as char
  }

  /** The shortest decimal spelling of `n`, as `String(n)` writes it. */
  function Decimal(n: nat): string
  {
    if n < 10 then [DecimalDigit(n)] else Decimal(n / 10) + [DecimalDigit(n % 10)]
  }

  predicate IsDigit(c: char) { '0' as int <= c as int <= '9' as int }

  function DigitsValue(s: string): nat
    requires forall i :: 0 <= i < |s| ==> IsDigit(s[i])
  {
    if s == [] then 0
    else
      assert IsDigit(s[|s| - 1]);
      DigitsValue(s[..|s| - 1]) * 10 + (s[|s| - 1] as int - '0' as int)
  }

  /** A non-empty run of decimal digits read back as a number; anything else is an error. */
  function ParseDecimal(s: string): Option<nat>
  {
    if s != [] && forall i :: 0 <= i < |s| ==> IsDigit(s[i]) then Some(DigitsValue(s)) else None
  }

  lemma {:induction false} DecimalDigits(n: nat)
    ensures |Decimal(n)| > 0
    ensures forall i :: 0 <= i < |Decimal(n)| ==> IsDigit(Decimal(n)[i])
    ensures DigitsValue(Decimal(n)) == n
  {
    if n >= 10 {
      DecimalDigits(n / 10);
      var s := Decimal(n);
      assert s[..|s| - 1] == Decimal(n / 10);
    }
  }

  /** `BigInt(n.toString()) == n`. */
  lemma DecimalRoundTrip(n: nat)
    ensures ParseDecimal(Decimal(n)) == Some(n)
  {
    DecimalDigits(n);
  }

  /** No colon in a decimal spelling, so `txid + ":" + Decimal(vout)` splits back uniquely. */
  lemma DecimalHasNoColon(n: nat)
    ensures ':' !in Decimal(n)
  {
    DecimalDigits(n);
  }

  /** Hex text has no colon either. */
  lemma {:induction false} HexEncodeHasNoColon(bs: seq<byte>)
    ensures ':' !in HexEncode(bs)
  {
    if bs != [] {
      HexEncodeHasNoColon(bs[1..]);
      var s := HexEncode(bs);
      assert s == [HexDigit(bs[0] / 16), HexDigit(bs[0] % 16)] + HexEncode(bs[1..]);
    }
  }
}
