/** Decimal printing of naturals, as Python's f-strings print them, with its inverse. */
module Decimal {
  predicate IsDigit(c: char) {
    '0' <= c <= '9'
  }

  predicate AllDigits(s: string) {
    forall i :: 0 <= i < |s| ==> IsDigit(s[i])
  }

  function ToText(n: nat): (s: string)
    ensures s != "" && AllDigits(s)
  {
    var digit := ('0' as int + n % 10) as char;
    if n < 10 then [digit] else ToText(n / 10) + [digit]
  }

  function FromText(s: string): nat
    requires AllDigits(s)
  {
    if s == "" then 0
    else 10 * FromText(s[..|s| - 1]) + (s[|s| - 1] as int - '0' as int)
  }

  lemma {:induction false} RoundTrip(n: nat)
    ensures FromText(ToText(n)) == n
  {
    var s := ToText(n);
    if n < 10 {
      assert s[..|s| - 1] == "";
    } else {
      RoundTrip(n / 10);
      assert s[..|s| - 1] == ToText(n / 10);
    }
  }
}
