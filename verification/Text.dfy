/** Decimal text, as `String(n)` prints it and as a digits-only pattern reads it back. */
module Text {
  import opened Wrappers

  const DIGITS: string := "0123456789"

  predicate IsDigit(c: char) {
    '0' <= c <= '9'
  }

  predicate AllDigits(s: string) {
    forall i :: 0 <= i < |s| ==> IsDigit(s[i])
  }

  /** `^(0|[1-9][0-9]*)$` */
  predicate CanonicalNatural(s: string) {
    s != [] && AllDigits(s) && (|s| > 1 ==> s[0] != '0')
  }

  function Decimal(n: nat): string {
    if n < 10 then [DIGITS[n]] else Decimal(n / 10) + [DIGITS[n % 10]]
  }

  function DigitsValue(s: string): nat
    requires AllDigits(s)
  {
    if s == [] then 0
    else 10 * DigitsValue(s[..|s| - 1]) + (s[|s| - 1] as int - '0' as int)
  }

  function ParseNatural(s: string): Option<nat> {
    if CanonicalNatural(s) then Some(DigitsValue(s)) else None
  }

  lemma {:induction false} DecimalRoundTrip(n: nat)
    ensures CanonicalNatural(Decimal(n)) && DigitsValue(Decimal(n)) == n
    ensures n > 0 ==> Decimal(n)[0] != '0'
  {
    if n >= 10 {
      DecimalRoundTrip(n / 10);
      var s := Decimal(n);
      assert s[..|s| - 1] == Decimal(n / 10);
      assert forall i :: 0 <= i < |s| - 1 ==> s[i] == Decimal(n / 10)[i];
    } else {
      assert Decimal(n)[..0] == [];
    }
  }

  /** Printing undoes reading on every canonical text, so text and number determine each other. */
  lemma {:induction false} ParsedPrints(s: string)
    requires CanonicalNatural(s)
    ensures Decimal(DigitsValue(s)) == s
    ensures |s| > 1 ==> DigitsValue(s) >= 10
  {
    if |s| > 1 {
      var head := s[..|s| - 1];
      assert head[0] == s[0] && CanonicalNatural(head);
      ParsedPrints(head);
      if |head| == 1 { assert head[..0] == []; }
      assert s == head + [s[|s| - 1]];
    } else {
      assert s[..0] == [];
      assert s == [s[0]];
    }
  }
}
