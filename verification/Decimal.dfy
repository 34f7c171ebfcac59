/** Decimal notation of natural numbers. */
module Decimal {
  function Digit(d: nat): (c: char)
    requires d < 10
    ensures c as int == '0' as int + d
  {
    '0' + d as char
  }

  function Itoa(n: nat): (s: string)
    ensures s != []
  {
    if n < 10 then [Digit(n)] else Itoa(n / 10) + [Digit(n % 10)]
  }

  lemma {:induction false} ItoaInjective(a: nat, b: nat)
    requires Itoa(a) == Itoa(b)
    ensures a == b
  {
    var s, t := Itoa(a), Itoa(b);
    assert s[|s| - 1] == t[|t| - 1];
    assert (a >= 10 <==> |s| > 1) && (b >= 10 <==> |t| > 1);
    if a >= 10 {
      assert s[..|s| - 1] == Itoa(a / 10) && t[..|t| - 1] == Itoa(b / 10);
      ItoaInjective(a / 10, b / 10);
    }
  }
}
