/** Sums, the largest long, and facts about multiplication and division by a variable. */
module Arithmetic {

  const LONG_MAX := 0x7FFF_FFFF_FFFF_FFFF

  function Sum(s: seq<nat>): nat {
    if s == [] then 0 else Sum(s[..|s| - 1]) + s[|s| - 1]
  }

  lemma MulAtLeast(d: nat, k: nat)
    requires k >= 1
    ensures d * k >= d
  {
  }

  lemma MulStep(d: nat, k: nat)
    ensures d * (k + 1) == d * k + d
  {
  }

  lemma MulGrows(d: int, x: int, y: int)
    requires 0 <= d && x <= y
    ensures d * x <= d * y
  {
  }

  lemma MulCancel(d: nat, x: nat, y: nat)
    requires d * x < d * y
    ensures x < y
  {
    if y <= x {
      MulGrows(d, y, x);
    }
  }

  lemma Quotient(d: nat, q: nat, r: nat)
    requires r < d
    ensures (d * q + r) / d == q && (d * q + r) % d == r
  {
    var x := d * q + r;
    var y := x / d;
    assert x == d * y + x % d;
    if y > q {
      assert d * (y - q) == d * y - d * q;
      MulAtLeast(d, y - q);
    } else if y < q {
      assert d * (q - y) == d * q - d * y;
      MulAtLeast(d, q - y);
    }
  }

  lemma QuotientSmaller(n: nat, d: nat)
    requires d > 0
    ensures n >= d >= 2 ==> n / d < n
    ensures n < d ==> n / d == 0
  {
    var q := n / d;
    assert n == d * q + n % d;
    if d >= 2 {
      MulGrows(q, 2, d);
    }
    if q >= 1 {
      MulAtLeast(d, q);
    }
  }
}
