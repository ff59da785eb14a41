/** Integers as decimal text: what `JSON.stringify` writes for an integral
    number, and a reader that recovers the number from such text. */
module Decimal {
  import opened Wrappers

  predicate IsDigit(c: char) {
    '0' <= c <= '9'
  }

  function DigitChar(d: int): char
    requires 0 <= d < 10
  {
    ('0' as int + d) as char
  }

  /** The shortest decimal text of a natural number. */
  function NatText(n: nat): (s: string)
    ensures |s| >= 1
    ensures forall i :: 0 <= i < |s| ==> IsDigit(s[i])
  {
    if n < 10 then [DigitChar(n)] else NatText(n / 10) + [DigitChar(n % 10)]
  }

  /** An integer as JavaScript prints it (below 10^21 in magnitude, where it
      switches to exponent notation): a `-` for negatives, then the digits. */
  function IntText(n: int): string {
    if n < 0 then "-" + NatText(-n) else NatText(n)
  }

  /** The value of a run of digits. */
  function DigitsValue(ds: string): nat
    requires forall i :: 0 <= i < |ds| ==> IsDigit(ds[i])
  {
    if ds == [] then 0
    else
      var last := ds[|ds| - 1];
      assert IsDigit(last);
      DigitsValue(ds[..|ds| - 1]) * 10 + (last as int - '0' as int)
  }

  /** How many digits `s` starts with. */
  function DigitSpan(s: string): (k: nat)
    ensures k <= |s|
    ensures forall i :: 0 <= i < k ==> IsDigit(s[i])
    ensures k < |s| ==> !IsDigit(s[k])
  {
    if s != [] && IsDigit(s[0]) then 1 + DigitSpan(s[1..]) else 0
  }

  /** Reads a natural number from the front of `s`: the longest run of digits,
      none if `s` does not start with a digit. */
  function ReadNat(s: string): Option<(nat, string)> {
    var k := DigitSpan(s);
    if k == 0 then None else Some((DigitsValue(s[..k]), s[k..]))
  }

  /** Reads an integer, with an optional leading `-`. */
  function ReadInt(s: string): Option<(int, string)> {
    if s != [] && s[0] == '-' then
      match ReadNat(s[1..])
      case None => None
      case Some((n, rest)) => Some((-(n as int), rest))
    else
      match ReadNat(s)
      case None => None
      case Some((n, rest)) => Some((n as int, rest))
  }

  lemma {:induction false} NatTextValue(n: nat)
    ensures DigitsValue(NatText(n)) == n
  {
    if n >= 10 {
      NatTextValue(n / 10);
      var s := NatText(n);
      assert s[..|s| - 1] == NatText(n / 10);
    }
  }

  lemma {:induction false} DigitSpanAfterDigits(ds: string, rest: string)
    requires forall i :: 0 <= i < |ds| ==> IsDigit(ds[i])
    requires rest == [] || !IsDigit(rest[0])
    ensures DigitSpan(ds + rest) == |ds|
  {
    if ds != [] {
      assert (ds + rest)[1..] == ds[1..] + rest;
      DigitSpanAfterDigits(ds[1..], rest);
    } else {
      assert ds + rest == rest;
    }
  }

  /** Reading back the text of a number gives the number and the rest of the
      input, provided the text is not followed by another digit. */
  lemma ReadNatText(n: nat, rest: string)
    requires rest == [] || !IsDigit(rest[0])
    ensures ReadNat(NatText(n) + rest) == Some((n, rest))
  {
    var ds := NatText(n);
    DigitSpanAfterDigits(ds, rest);
    assert (ds + rest)[..|ds|] == ds;
    assert (ds + rest)[|ds|..] == rest;
    NatTextValue(n);
  }

  lemma ReadIntText(n: int, rest: string)
    requires rest == [] || !IsDigit(rest[0])
    ensures ReadInt(IntText(n) + rest) == Some((n, rest))
  {
    if n < 0 {
      ReadNegativeText(-n, rest);
      assert IntText(n) == "-" + NatText(-n);
      assert IntText(n) + rest == "-" + (NatText(-n) + rest);
    } else {
      ReadNonNegativeText(n, rest);
    }
  }

  lemma ReadNonNegativeText(n: nat, rest: string)
    requires rest == [] || !IsDigit(rest[0])
    ensures ReadInt(NatText(n) + rest) == Some((n as int, rest))
  {
    ReadNatText(n, rest);
    assert IsDigit(NatText(n)[0]);
    assert (NatText(n) + rest)[0] == NatText(n)[0];
  }

  lemma ReadNegativeText(m: nat, rest: string)
    requires rest == [] || !IsDigit(rest[0])
    ensures ReadInt("-" + (NatText(m) + rest)) == Some((-(m as int), rest))
  {
    var t := NatText(m) + rest;
    ReadNatText(m, rest);
    assert ("-" + t)[0] == '-' && ("-" + t)[1..] == t;
  }
}
