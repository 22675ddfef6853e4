/** Decimal rendering of integers, as Python's f-string `{n}` writes them, and
    Python's `int(x)` on a float, which truncates toward zero. */
module Text {

  predicate IsDigit(ch: char) {
    '0' <= ch <= '9'
  }

  function DigitChar(d: nat): (ch: char)
    requires d < 10
    ensures IsDigit(ch)
  {
    "0123456789"[d]
  }

  /** The decimal digits of `n`, most significant first, without leading zeros. */
  function NatToString(n: nat): (s: string)
    ensures |s| > 0 && forall i :: 0 <= i < |s| ==> IsDigit(s[i])
    ensures n < 10 <==> |s| == 1
  {
    if n < 10 then [DigitChar(n)] else NatToString(n / 10) + [DigitChar(n % 10)]
  }

  /** `str(n)` for an int: a minus sign for negatives, then the digits. */
  function IntToString(n: int): (s: string)
    ensures |s| > 0
    ensures n < 0 <==> s[0] == '-'
  {
    if n < 0 then "-" + NatToString(-n) else NatToString(n)
  }

  lemma DigitCharInjective(a: nat, b: nat)
    requires a < 10 && b < 10
    ensures DigitChar(a) == DigitChar(b) ==> a == b
  {
  }

  /** Distinct naturals are written differently. */
  lemma {:induction false} NatToStringInjective(a: nat, b: nat)
    ensures NatToString(a) == NatToString(b) <==> a == b
  {
    if NatToString(a) == NatToString(b) {
      if a >= 10 && b >= 10 {
        var sa, sb := NatToString(a), NatToString(b);
        assert sa[|sa| - 1] == DigitChar(a % 10) && sb[|sb| - 1] == DigitChar(b % 10);
        DigitCharInjective(a % 10, b % 10);
        assert sa[..|sa| - 1] == NatToString(a / 10);
        assert sb[..|sb| - 1] == NatToString(b / 10);
        NatToStringInjective(a / 10, b / 10);
      } else if a < 10 && b < 10 {
        assert NatToString(a)[0] == DigitChar(a) && NatToString(b)[0] == DigitChar(b);
        DigitCharInjective(a, b);
      }
    }
  }

  /** Distinct integers are written differently. */
  lemma IntToStringInjective(a: int, b: int)
    ensures IntToString(a) == IntToString(b) <==> a == b
  {
    if a < 0 && b < 0 {
      NegativeInjective(a, b);
    } else if a >= 0 && b >= 0 {
      NatToStringInjective(a, b);
    } else {
      assert IntToString(a)[0] != IntToString(b)[0];
    }
  }

  lemma NegativeInjective(a: int, b: int)
    requires a < 0 && b < 0
    ensures IntToString(a) == IntToString(b) <==> a == b
  {
    var sa, sb := "-" + NatToString(-a), "-" + NatToString(-b);
    assert sa[1..] == NatToString(-a) && sb[1..] == NatToString(-b);
    NatToStringInjective(-a, -b);
  }

  /** Python's `int(x)` for a float `x`: truncation toward zero. */
  function Trunc(x: real): (n: int)
    ensures 0.0 <= x ==> n as real <= x < n as real + 1.0
    ensures x < 0.0 ==> n as real - 1.0 < x <= n as real
  {
    if x >= 0.0 then x.Floor else -((-x).Floor)
  }

  /** When two strings share a prefix and a suffix, they are equal exactly when their middles are. */
  lemma MiddleDetermines(p: string, m1: string, m2: string, q: string)
    ensures p + m1 + q == p + m2 + q <==> m1 == m2
  {
    if p + m1 + q == p + m2 + q {
      assert |m1| == |m2|;
      assert m1 == (p + m1 + q)[|p|..|p| + |m1|];
      assert m2 == (p + m2 + q)[|p|..|p| + |m2|];
    }
  }
}
