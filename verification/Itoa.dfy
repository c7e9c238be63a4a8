/** Decimal printing in a fixed buffer, as the load harness does it. */
module Itoa {
  import opened Int64
  import opened Protocol

  function Digit(d: nat): char
    requires d < 10
  {
    '0' + d as char
  }

  /** The digits of n, most significant first. */
  function Digits(n: nat): string {
    if n == 0 then "" else Digits(n / 10) + [Digit(n % 10)]
  }

  /** The usual decimal form. */
  function Decimal(n: nat): string {
    if n == 0 then "0" else Digits(n)
  }

  function Pow10(e: nat): nat {
    if e == 0 then 1 else 10 * Pow10(e - 1)
  }

  /** What a string of digits reads as. */
  function Value(s: string): int {
    if s == "" then 0 else 10 * Value(s[..|s| - 1]) + (s[|s| - 1] as int - '0' as int)
  }

  predicate AllDigits(s: string) {
    forall i :: 0 <= i < |s| ==> '0' <= s[i] <= '9'
  }

  lemma {:induction false} DigitsValue(n: nat)
    ensures AllDigits(Digits(n)) && Value(Digits(n)) == n
    ensures n > 0 ==> Digits(n) != "" && Digits(n)[0] != '0'
  {
    if n > 0 {
      DigitsValue(n / 10);
      assert Digits(n)[..|Digits(n)| - 1] == Digits(n / 10);
    }
  }

  lemma {:induction false} DigitsLength(n: nat, e: nat)
    requires n < Pow10(e)
    ensures |Digits(n)| <= e
  {
    if n > 0 { DigitsLength(n / 10, e - 1); }
  }

  /** Canonical: digits only, no leading zero except for zero itself, and it reads back as n. */
  lemma DecimalIsCanonical(n: nat)
    ensures AllDigits(Decimal(n)) && Decimal(n) != ""
    ensures Decimal(n)[0] == '0' ==> n == 0
    ensures Value(Decimal(n)) == n
  {
    DigitsValue(n);
  }

  lemma DecimalIsInjective(m: nat, n: nat)
    requires Decimal(m) == Decimal(n)
    ensures m == n
  {
    DecimalIsCanonical(m);
    DecimalIsCanonical(n);
  }

  /** Nineteen digits are enough for every 64-bit int, so the buffer of twenty always has room. */
  lemma FitsBuffer(n: nat)
    requires n < TWO63
    ensures |Decimal(n)| <= 19
  {
    assert Pow10(19) == 10_000_000_000_000_000_000 by {
      assert Pow10(5) == 100000;
      assert Pow10(10) == 10_000_000_000;
      assert Pow10(15) == 1_000_000_000_000_000;
    }
    DigitsLength(n, 19);
  }

  /** Prints n; a negative n, which no caller passes, prints as nothing. */
  method Itoa(n: int) returns (s: string)
    requires -TWO63 <= n < TWO63
    ensures n >= 0 ==> s == Decimal(n)
    ensures n < 0 ==> s == ""
  {
    if n == 0 { return "0"; }
    var b := new char[20];
    var i := b.Length;
    var rest := n;
    if n > 0 { FitsBuffer(n); }
    while rest > 0
      invariant 0 <= i <= 20
      invariant n > 0 ==> rest >= 0 && Digits(rest) + b[i..] == Digits(n)
      invariant n < 0 ==> rest == n && i == 20
    {
      assert |Digits(rest)| > 0;
      i := i - 1;
      b[i] := Digit(rest % 10);
      assert b[i..] == [Digit(rest % 10)] + b[i + 1..];
      rest := rest / 10;
    }
    return b[i..];
  }

  // ----- the keys of the harness -----

  function HarnessKey(i: nat): string {
    "key" + Decimal(i)
  }

  lemma KeyIsCanonical(i: nat)
    ensures Canonical(Get(HarnessKey(i))) && HarnessKey(i) != ""
    ensures NoSpace(HarnessKey(i))
  {
    DecimalIsCanonical(i);
    var k := HarnessKey(i);
    assert k[|k| - 1] == Decimal(i)[|Decimal(i)| - 1];
  }

  lemma KeysAreDistinct(i: nat, j: nat)
    requires HarnessKey(i) == HarnessKey(j)
    ensures i == j
  {
    assert HarnessKey(i)[3..] == Decimal(i) && HarnessKey(j)[3..] == Decimal(j);
    DecimalIsInjective(i, j);
  }
}
