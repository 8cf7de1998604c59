/** Decimal numerals: how amounts, lengths and operation indices are written, and read back. */
module Decimal {

  predicate IsDigit(c: char) {
    '0' <= c <= '9'
  }

  /** `/^\d+$/` */
  predicate IsNumeral(s: string) {
    s != "" && forall c :: c in s ==> IsDigit(c)
  }

  function DigitOf(n: nat): (c: char)
    requires n < 10
    ensures IsDigit(c) && c as int == '0' as int + n
  {
    ('0' as int + n) as char
  }

  /** `n.toString()`: no leading zeros. */
  function Dec(n: nat): (s: string)
    ensures IsNumeral(s)
    ensures s[0] == '0' ==> n == 0
  {
    if n < 10 then [DigitOf(n)] else Dec(n / 10) + [DigitOf(n % 10)]
  }

  /** The number a numeral denotes; leading zeros are allowed, as in `parseInt`. */
  function Value(s: string): nat
    requires forall c :: c in s ==> IsDigit(c)
  {
    if s == "" then 0
    else
      assert IsDigit(s[|s| - 1]);
      Value(s[..|s| - 1]) * 10 + (s[|s| - 1] as int - '0' as int)
  }

  lemma {:induction false} ValueOfDec(n: nat)
    ensures Value(Dec(n)) == n
  {
    if n < 10 {
      assert Dec(n)[..0] == "";
    } else {
      ValueOfDec(n / 10);
      assert Dec(n)[..|Dec(n)| - 1] == Dec(n / 10);
    }
  }

  lemma OneDigit(s: string)
    requires IsNumeral(s) && |s| == 1
    ensures Value(s) == s[0] as int - '0' as int && Value(s) < 10 && Dec(Value(s)) == s
  {
    assert s[0] in s && IsDigit(s[0]);
    assert s[..0] == "" && Value(s[..0]) == 0;
    assert Value(s) == s[0] as int - '0' as int;
    assert DigitOf(Value(s)) == s[0];
  }

  /** Writing what was read gives the numeral again, if it has no leading zero. */
  lemma {:induction false} DecOfValue(s: string)
    requires IsNumeral(s) && (s[0] == '0' ==> |s| == 1)
    ensures Dec(Value(s)) == s && (|s| > 1 ==> Value(s) >= 10)
  {
    if |s| == 1 {
      OneDigit(s);
    } else {
      var front, last := s[..|s| - 1], s[|s| - 1];
      assert last in s && front[0] == s[0] && forall c :: c in front ==> c in s;
      DecOfValue(front);
      if |front| == 1 {
        OneDigit(front);
      }
      assert DigitOf(last as int - '0' as int) == last;
      assert s == front + [last];
    }
  }

  lemma DecInjective(m: nat, n: nat)
    requires Dec(m) == Dec(n)
    ensures m == n
  {
    ValueOfDec(m);
    ValueOfDec(n);
  }

  /** A numeral ends where the first other character stands. */
  lemma NumeralThenOther(a: string, x: string, b: string, y: string)
    requires IsNumeral(a) && IsNumeral(b) && a + x == b + y
    requires x == "" || !IsDigit(x[0])
    requires y == "" || !IsDigit(y[0])
    ensures a == b && x == y
  {
    assert forall i :: 0 <= i < |a| ==> IsDigit((a + x)[i]);
    assert forall i :: 0 <= i < |b| ==> IsDigit((b + y)[i]);
    assert x != "" ==> !IsDigit((a + x)[|a|]);
    assert y != "" ==> !IsDigit((b + y)[|b|]);
    assert |a| == |b|;
    assert a == (a + x)[..|a|] && b == (b + y)[..|b|];
    assert x == (a + x)[|a|..] && y == (b + y)[|b|..];
  }

  /** And begins after the last one. */
  lemma OtherThenNumeral(x: string, a: string, y: string, b: string, c: char)
    requires IsNumeral(a) && IsNumeral(b) && !IsDigit(c) && x + [c] + a == y + [c] + b
    ensures x == y && a == b
  {
    var s, t := x + [c] + a, y + [c] + b;
    assert s[|x|] == c && t[|y|] == c;
    assert forall i :: |x| < i < |s| ==> s[i] == a[i - |x| - 1] && IsDigit(s[i]);
    assert forall i :: |y| < i < |t| ==> t[i] == b[i - |y| - 1] && IsDigit(t[i]);
    assert |x| == |y|;
    assert x == s[..|x|] && y == t[..|y|];
    assert a == s[|x| + 1..] && b == t[|y| + 1..];
  }
}
