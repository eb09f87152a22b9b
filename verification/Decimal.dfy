/** Decimal text: how numbers are printed and how the kernel's loops read them back. */
module Decimal {
  import opened Int32

  predicate IsDigit(c: char) { '0' <= c <= '9' }

  function DigitChar(d: int): char
    requires 0 <= d < 10
  {
    '0' + d as char
  }

  function DigitVal(c: char): int
    requires IsDigit(c)
  {
    c as int - '0' as int
  }

  predicate AllDigits(s: string) { forall i :: 0 <= i < |s| ==> IsDigit(s[i]) }

  function Digits(n: nat): (s: string)
    ensures |s| >= 1 && AllDigits(s)
  {
    if n < 10 then [DigitChar(n)] else Digits(n / 10) + [DigitChar(n % 10)]
  }

  /** A number as typed: a minus sign in front of negative ones. */
  function Show(n: int): (s: string)
    ensures |s| >= 1
  {
    if n < 0 then "-" + Digits(-n) else Digits(n)
  }

  /** What the digit loop accumulates from `acc` on, in 32 bits. */
  function Accumulate(acc: int, s: string): int
    requires AllDigits(s)
    decreases |s|
  {
    if s == "" then acc else Accumulate(Wrap(acc * 10 + DigitVal(s[0])), s[1..])
  }

  lemma {:induction false} AccumulateSnoc(acc: int, s: string, c: char)
    requires AllDigits(s) && IsDigit(c)
    ensures AllDigits(s + [c]) && Accumulate(acc, s + [c]) == Wrap(Accumulate(acc, s) * 10 + DigitVal(c))
    decreases |s|
  {
    if s == "" {
      assert s + [c] == [c];
      assert [c][1..] == "";
    } else {
      assert (s + [c])[1..] == s[1..] + [c];
      AccumulateSnoc(Wrap(acc * 10 + DigitVal(s[0])), s[1..], c);
    }
  }

  lemma WrapTimesTen(a: int, d: int)
    ensures Wrap(Wrap(a) * 10 + d) == Wrap(a * 10 + d)
  {
    var k := WrapIs(a);
    assert Wrap(a) * 10 + d == a * 10 + d + (-10 * k) * TWO_32;
    WrapShift(a * 10 + d, -10 * k);
  }

  /** Reading printed digits gives the number, modulo 2^32. */
  lemma {:induction false} AccumulateDigits(n: nat)
    ensures Accumulate(0, Digits(n)) == Wrap(n)
  {
    if n >= 10 {
      AccumulateDigits(n / 10);
      AccumulateSnoc(0, Digits(n / 10), DigitChar(n % 10));
      WrapTimesTen(n / 10, n % 10);
      assert n / 10 * 10 + n % 10 == n;
    } else {
      assert Digits(n)[1..] == "";
    }
  }

  /** 10 to the power `k`. */
  function Ten(k: nat): (p: nat)
    ensures p >= 1
  {
    if k == 0 then 1 else 10 * Ten(k - 1)
  }

  /** Counted from the right, the printed digits are the decimal digits. */
  lemma {:induction false} DigitFromRight(n: nat, k: nat)
    requires k < |Digits(n)|
    ensures Digits(n)[|Digits(n)| - 1 - k] as int == 48 + n / Ten(k) % 10
    decreases k
  {
    if k > 0 {
      DigitFromRight(n / 10, k - 1);
      DivTwice(n, Ten(k - 1));
    }
  }

  lemma DivTwice(n: nat, p: nat)
    requires p >= 1
    ensures n / (10 * p) == n / 10 / p
  {
    var q := n / (10 * p);
    var r := n % (10 * p);
    assert n == 10 * (p * q) + r;
    assert n / 10 == p * q + r / 10 && r / 10 < p;
    Quotient(n / 10, p, q, r / 10);
  }

  lemma Quotient(m: nat, p: nat, q: nat, r: nat)
    requires r < p && m == p * q + r
    ensures m / p == q
  {
    var x, y := m / p, m % p;
    assert p * x - p * q == r - y;
    assert p * (x - q) == r - y && p * (q - x) == y - r;
    if x > q {
      Multiple(p, x - q);
    } else if x < q {
      Multiple(p, q - x);
    }
  }

  lemma Multiple(p: nat, d: nat)
    requires d >= 1
    ensures p * d >= p
  {
    assert p * d == p + p * (d - 1);
  }

  /** There are as many as the number needs: no leading zero. */
  lemma {:induction false} DigitCount(n: nat)
    ensures |Digits(n)| == 1 || Ten(|Digits(n)| - 1) <= n
    ensures n < Ten(|Digits(n)|)
  {
    if n >= 10 {
      DigitCount(n / 10);
    }
  }

  lemma WrapNegate(n: int)
    requires InInt32(n)
    ensures Wrap(-Wrap(-n)) == n
  {
  }
}
