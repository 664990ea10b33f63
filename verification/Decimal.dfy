// Decimal text of natural numbers, as printed by the %v verb and read by strconv.Atoi.
module Decimal {
  predicate IsDigit(c: char) { '0' <= c <= '9' }

  predicate AllDigits(s: string) { forall i :: 0 <= i < |s| ==> IsDigit(s[i]) }

  function DigitChar(d: nat): char
    requires d < 10
  { '0' + d as char }

  function DigitValue(c: char): nat
    requires IsDigit(c)
  { c as int - '0' as int }

  // The digits of n, most significant first, without leading zeros.
  function Print(n: nat): string
    decreases n
  {
    if n < 10 then [DigitChar(n)] else Print(n / 10) + [DigitChar(n % 10)]
  }

  // The number that a digit string denotes.
  function Value(s: string): nat
    requires AllDigits(s)
    decreases |s|
  {
    if s == [] then 0 else Value(s[..|s|-1]) * 10 + DigitValue(s[|s|-1])
  }

  // Reading back what was printed gives the same number.
  lemma {:induction false} PrintThenValue(n: nat)
    ensures Print(n) != [] && AllDigits(Print(n)) && Value(Print(n)) == n
    decreases n
  {
    if n >= 10 {
      PrintThenValue(n / 10);
      assert Print(n)[..|Print(n)|-1] == Print(n / 10);
    }
  }

  lemma PrintInjective(m: nat, n: nat)
    requires Print(m) == Print(n)
    ensures m == n
  {
    PrintThenValue(m);
    PrintThenValue(n);
  }

  function Pow10(n: nat): nat { if n == 0 then 1 else 10 * Pow10(n - 1) }

  lemma {:induction false} ValueBound(s: string)
    requires AllDigits(s)
    ensures Value(s) < Pow10(|s|)
    decreases |s|
  {
    if s != [] {
      ValueBound(s[..|s|-1]);
    }
  }

  // The leading digit weighs a power of ten.
  lemma {:induction false} ValueCons(s: string)
    requires AllDigits(s) && s != []
    ensures Value(s) == DigitValue(s[0]) * Pow10(|s| - 1) + Value(s[1..])
    decreases |s|
  {
    if |s| > 1 {
      var init := s[..|s|-1];
      ValueCons(init);
      assert init[1..] == s[1..][..|s|-2];
      assert Value(s[1..]) == Value(init[1..]) * 10 + DigitValue(s[|s|-1]);
      assert Value(s) == Value(init) * 10 + DigitValue(s[|s|-1]);
      TenTimes(DigitValue(s[0]), Pow10(|s| - 2), Value(init[1..]), DigitValue(s[|s|-1]));
    }
  }

  lemma TenTimes(d: nat, p: nat, v: nat, e: nat)
    ensures (d * p + v) * 10 + e == d * (10 * p) + (v * 10 + e)
  {
  }

  // The leading digits of a text and the rest.
  lemma {:induction false} ValueSplit(s: string, k: nat)
    requires AllDigits(s) && k <= |s|
    ensures Value(s) == Value(s[..k]) * Pow10(|s| - k) + Value(s[k..])
    decreases |s|
  {
    if k == |s| {
      assert s[..k] == s && s[k..] == [];
    } else {
      var init, n := s[..|s|-1], |s| - 1;
      ValueSplit(init, k);
      assert init[..k] == s[..k] && s[k..][..|s[k..]|-1] == init[k..];
      assert Value(s[k..]) == Value(init[k..]) * 10 + DigitValue(s[n]);
      TenTimes(Value(s[..k]), Pow10(n - k), Value(init[k..]), DigitValue(s[n]));
    }
  }

  lemma {:induction false} PrintLengths(m: nat, n: nat)
    requires m <= n
    ensures |Print(m)| <= |Print(n)|
    decreases n
  {
    if m >= 10 { PrintLengths(m / 10, n / 10); }
  }
}
