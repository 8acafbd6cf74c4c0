/** Canonical decimal text: no sign, no leading zero, no separators. */
module Decimal {
  predicate IsDigit(c: char) {
    '0' <= c <= '9'
  }

  predicate AllDigits(s: string) {
    forall i :: 0 <= i < |s| ==> IsDigit(s[i])
  }

  /** Matches `^(0|[1-9][0-9]*)$`. */
  predicate Canonical(s: string) {
    |s| > 0 && AllDigits(s) && (|s| > 1 ==> s[0] != '0')
  }

  function DigitChar(d: nat): (c: char)
    requires d < 10
    ensures IsDigit(c)
  {
    '0' + d as char
  }

  function DigitValue(c: char): nat
    requires IsDigit(c)
  {
    (c - '0') as nat
  }

  function Print(n: nat): (s: string) {
    if n < 10 then [DigitChar(n)] else Print(n / 10) + [DigitChar(n % 10)]
  }

  function Value(s: string): nat
    requires AllDigits(s)
  {
    if s == [] then 0 else 10 * Value(s[..|s| - 1]) + DigitValue(s[|s| - 1])
  }

  lemma {:induction false} PrintIsCanonical(n: nat)
    ensures Canonical(Print(n))
    ensures Value(Print(n)) == n
    ensures n > 0 ==> Print(n)[0] != '0'
  {
    if n >= 10 {
      PrintIsCanonical(n / 10);
      var head := Print(n / 10);
      assert (head + [DigitChar(n % 10)])[..|head|] == head;
    }
  }

  /** Digits stand for their values, the last one first to come off. */
  lemma PrintIsSpelled(n: nat)
    ensures Print(n) == (if n < 10 then "" else Print(n / 10)) + ["0123456789"[n % 10]]
  {
    assert forall d :: 0 <= d < 10 ==> DigitChar(d) == "0123456789"[d];
  }

  lemma {:induction false} ValuePrints(s: string)
    requires Canonical(s)
    ensures Print(Value(s)) == s
    ensures s[0] != '0' ==> Value(s) > 0
  {
    if |s| > 1 {
      var head := s[..|s| - 1];
      ValuePrints(head);
      assert s == head + [s[|s| - 1]];
      assert Value(s) / 10 == Value(head) && Value(s) % 10 == DigitValue(s[|s| - 1]);
    }
  }

  function Pow10(k: nat): nat {
    if k == 0 then 1 else 10 * Pow10(k - 1)
  }

  /** A text of k digits is worth less than 10^k, and a canonical one at least 10^(k-1). */
  lemma {:induction false} ValueBounds(s: string)
    requires AllDigits(s)
    ensures Value(s) < Pow10(|s|)
    ensures |s| > 0 && s[0] != '0' ==> Pow10(|s| - 1) <= Value(s)
  {
    if |s| > 0 {
      ValueBounds(s[..|s| - 1]);
    }
  }
}
