/** Decimal text of numbers, without leading zeros, and reading it back. */
module Decimals {

  predicate AllDigits(s: string) { forall i :: 0 <= i < |s| ==> '0' <= s[i] <= '9' }

  /** `strconv.FormatInt` of a non-negative number. */
  function Decimal(n: nat): string {
    (if n < 10 then [] else Decimal(n / 10)) + ['0' + (n % 10) as char]
  }

  function Value(s: string): nat
    requires AllDigits(s)
  {
    if s == [] then 0 else 10 * Value(s[..|s| - 1]) + (s[|s| - 1] as nat - '0' as nat)
  }

  lemma {:induction false} DecimalValue(n: nat)
    ensures AllDigits(Decimal(n)) && Decimal(n) != []
    ensures Value(Decimal(n)) == n
    ensures n > 0 ==> Decimal(n)[0] != '0'
  {
    if n >= 10 { DecimalValue(n / 10); }
    var front, last := if n < 10 then [] else Decimal(n / 10), '0' + (n % 10) as char;
    assert Decimal(n)[..|Decimal(n)| - 1] == front;
  }

  /** Digits without a leading zero are the decimal form of their positive value. */
  lemma {:induction false} ValueDecimal(s: string)
    requires AllDigits(s) && s != [] && s[0] != '0'
    ensures Value(s) > 0 && Decimal(Value(s)) == s
  {
    var front, last := s[..|s| - 1], s[|s| - 1];
    assert s == front + [last];
    if front == [] {
      assert Value(front) == 0;
    } else {
      ValueDecimal(front);
      assert Value(s) / 10 == Value(front);
    }
    assert '0' + (Value(s) % 10) as char == last;
  }
}
