/** The decimal rendering of a natural number that a template literal `${n}` produces, and the
    facts that make the identifiers built from it unique. */
module Decimal {

  predicate IsDigit(c: char) {
    '0' <= c <= '9'
  }

  function DigitChar(d: nat): (c: char)
    requires d < 10
    ensures IsDigit(c)
  {
    ('0' as int + d) as char
  }

  /** The shortest decimal numeral of `n`, without sign or leading zeros. */
  function Show(n: nat): (s: string)
    ensures |s| >= 1
    ensures forall i :: 0 <= i < |s| ==> IsDigit(s[i])
    ensures n < 10 <==> |s| == 1
  {
    if n < 10 then [DigitChar(n)] else Show(n / 10) + [DigitChar(n % 10)]
  }

  /** Distinct numbers have distinct numerals. */
  lemma {:induction false} ShowInjective(a: nat, b: nat)
    requires Show(a) == Show(b)
    ensures a == b
  {
    if a >= 10 && b >= 10 {
      var sa, sb := Show(a), Show(b);
      assert sa[|sa| - 1] == DigitChar(a % 10) && sb[|sb| - 1] == DigitChar(b % 10);
      assert sa[..|sa| - 1] == Show(a / 10) && sb[..|sb| - 1] == Show(b / 10);
      ShowInjective(a / 10, b / 10);
    } else if a < 10 && b < 10 {
      assert Show(a)[0] == DigitChar(a) && Show(b)[0] == DigitChar(b);
    }
  }

  /** A fixed prefix followed by a numeral determines the number. */
  lemma PrefixedShowInjective(p: string, a: nat, b: nat)
    requires p + Show(a) == p + Show(b)
    ensures a == b
  {
    assert Show(a) == (p + Show(a))[|p|..];
    assert Show(b) == (p + Show(b))[|p|..];
    ShowInjective(a, b);
  }

  /** A numeral followed by a dash can be split off unambiguously: no digit is a dash. */
  lemma ShowDashInjective(a: nat, x: string, b: nat, y: string)
    requires Show(a) + "-" + x == Show(b) + "-" + y
    ensures a == b && x == y
  {
    var sa, sb := Show(a), Show(b);
    var s := sa + "-" + x;
    assert s[|sa|] == '-';
    assert (sb + "-" + y)[|sb|] == '-';
    assert |sa| == |sb|;
    assert sa == s[..|sa|] == sb;
    ShowInjective(a, b);
    assert x == s[|sa| + 1..] == y;
  }
}
