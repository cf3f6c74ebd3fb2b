/** Decimal rendering of numbers inside f-strings, and strings joined with colons. */
module Decimals {

  const DIGITS: string := "0123456789"

  function Decimal(n: nat): (s: string)
    ensures s != [] && forall i :: 0 <= i < |s| ==> s[i] in DIGITS
  {
    if n < 10 then [DIGITS[n]] else Decimal(n / 10) + [DIGITS[n % 10]]
  }

  /** Decimal notation: the digits in order, the most significant first. */
  lemma {:induction false} DecimalNotation(n: nat)
    ensures n < 10 ==> Decimal(n) == ["0123456789"[n]]
    ensures n >= 10 ==> Decimal(n) == Decimal(n / 10) + Decimal(n % 10)
  {
  }

  function DigitValue(c: char): (v: nat)
    requires c in DIGITS
    ensures v < 10 && DIGITS[v] == c
  {
    if c == '0' then 0 else if c == '1' then 1 else if c == '2' then 2 else if c == '3' then 3
    else if c == '4' then 4 else if c == '5' then 5 else if c == '6' then 6 else if c == '7' then 7
    else if c == '8' then 8 else 9
  }

  function Parse(s: string): nat
    requires forall i :: 0 <= i < |s| ==> s[i] in DIGITS
  {
    if s == [] then 0 else Parse(s[..|s| - 1]) * 10 + DigitValue(s[|s| - 1])
  }

  lemma {:induction false} ParseDecimal(n: nat)
    ensures Parse(Decimal(n)) == n
  {
    var s := Decimal(n);
    if n < 10 {
      assert s[..0] == [];
    } else {
      ParseDecimal(n / 10);
      assert s[..|s| - 1] == Decimal(n / 10);
    }
  }

  lemma DecimalInjective(m: nat, n: nat)
    requires Decimal(m) == Decimal(n)
    ensures m == n
  {
    ParseDecimal(m);
    ParseDecimal(n);
  }

  predicate NoColon(s: string) { ':' !in s }

  lemma AfterColon(x: string, y: string)
    requires NoColon(y)
    ensures forall k :: |x| < k < |x + ":" + y| ==> (x + ":" + y)[k] != ':'
  {
    forall k | |x| < k < |x + ":" + y| ensures (x + ":" + y)[k] != ':' {
      assert (x + ":" + y)[k] == y[k - |x| - 1];
    }
  }

  /** A string splits at its last colon in only one way. */
  lemma LastColon(x: string, y: string, x': string, y': string)
    requires NoColon(y) && NoColon(y') && x + ":" + y == x' + ":" + y'
    ensures x == x' && y == y'
  {
    var s := x + ":" + y;
    AfterColon(x, y);
    AfterColon(x', y');
    assert s[|x|] == ':' && s[|x'|] == ':';
    assert x == s[..|x|] && x' == s[..|x|];
    assert y == s[|x| + 1..] && y' == s[|x| + 1..];
  }
}
