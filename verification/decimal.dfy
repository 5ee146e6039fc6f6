/** The `%zu` rendering of a size as decimal digits, and its inverse. */
module Decimal {

  predicate IsDigit(c: char) {
    '0' <= c <= '9'
  }

  predicate AllDigits(s: string) {
    forall i | 0 <= i < |s| :: IsDigit(s[i])
  }

  function DigitChar(d: nat): (c: char)
    requires d < 10
    ensures IsDigit(c) && c as int - '0' as int == d
  {
    (d + '0' as int) as char
  }

  /** Decimal digits of `n`, most significant first, without leading zeros. */
  function Show(n: nat): (s: string)
    ensures |s| > 0
    ensures AllDigits(s)
    ensures n >= 10 ==> s[0] != '0'
    decreases n
  {
    if n < 10 then [DigitChar(n)] else Show(n / 10) + [DigitChar(n % 10)]
  }

  /** The number a string of decimal digits denotes. */
  function Value(s: string): nat
    requires AllDigits(s)
    decreases |s|
  {
    if s == [] then 0 else Value(s[..|s| - 1]) * 10 + (s[|s| - 1] as int - '0' as int)
  }

  /** Reading the digits back gives the number that was rendered. */
  lemma {:induction false} ValueOfShow(n: nat)
    ensures Value(Show(n)) == n
    decreases n
  {
    if n >= 10 {
      var s := Show(n);
      assert s[..|s| - 1] == Show(n / 10);
      ValueOfShow(n / 10);
    }
  }

  lemma ShowInjective(m: nat, n: nat)
    ensures Show(m) == Show(n) ==> m == n
  {
    ValueOfShow(m);
    ValueOfShow(n);
  }

  /**
   Two digit runs each followed by a non-digit cannot be split differently:
   if they make up the same text, the runs and the rests are equal.
   */
  lemma {:induction false} DigitRunsAgree(a: string, t: string, b: string, u: string)
    requires AllDigits(a) && AllDigits(b)
    requires |t| > 0 && !IsDigit(t[0])
    requires |u| > 0 && !IsDigit(u[0])
    requires a + t == b + u
    ensures a == b && t == u
  {
    // The shorter run ends where both texts must show a non-digit.
    var k := if |a| < |b| then |a| else |b|;
    assert (a + t)[k] == (b + u)[k];
    assert |a| == |b|;
    assert a == (a + t)[..|a|];
    assert b == (b + u)[..|b|];
    assert t == (a + t)[|a|..];
    assert u == (b + u)[|b|..];
  }
}
