/**
 The number theory behind the Dummy workload: after a prime p there is another
 prime below p * p.

 The proof compares two bounds on a common multiple of 1..m, for m = p * p - 2.
 From below, entries of Leibniz's harmonic triangle show that m * C(m - 1, c)
 divides every common multiple of 1..m.  From above, if no prime lay between p
 and p * p, the product of the largest powers (up to m) of the primes up to p
 would be a common multiple, and it has at most (p + 1) / 2 factors.
 */
module NumberTheory {
  import opened Arithmetic

  predicate Divides(d: nat, n: nat) {
    d != 0 && n % d == 0
  }

  ghost predicate IsPrime(p: nat) {
    2 <= p && forall d :: 2 <= d < p ==> !Divides(d, p)
  }

  // ----- divisibility

  lemma MulDivides(d: nat, k: nat)
    requires d != 0
    ensures Divides(d, d * k)
  {
    Quotient(d, k, 0);
  }

  lemma DividesMul(a: nat, c: nat, b: nat, d: nat)
    requires Divides(a, c) && Divides(b, d)
    ensures Divides(a * b, c * d)
  {
    var k, l := c / a, d / b;
    assert c == a * k && d == b * l;
    assert c * d == (a * b) * (k * l);
    MulDivides(a * b, k * l);
  }

  lemma DividesTransitive(a: nat, b: nat, c: nat)
    requires Divides(a, b) && Divides(b, c)
    ensures Divides(a, c)
  {
    var k, l := b / a, c / b;
    assert c == a * (k * l);
    MulDivides(a, k * l);
  }

  lemma MulAssociates(a: int, b: int, c: int)
    ensures (a * b) * c == a * (b * c)
  {
  }

  lemma DividesAtMost(d: nat, n: nat)
    requires Divides(d, n) && n != 0
    ensures d <= n && 1 <= n / d
  {
    var e := n / d;
    assert n == d * e;
    assert e != 0;
    MulGrows(d, 1, e);
  }

  lemma DividesCofactor(d: nat, e: nat, n: nat)
    requires n == d * e && e != 0
    ensures Divides(e, n)
  {
    MulDivides(e, d);
  }

  lemma SmallDivisor(n: nat) returns (s: nat)
    requires 2 <= n && !IsPrime(n)
    ensures 2 <= s < n && Divides(s, n) && s * s <= n
  {
    var d :| 2 <= d < n && Divides(d, n);
    var e := n / d;
    FactorsInside(d, e, n);
    DividesCofactor(d, e, n);
    s := if d <= e then d else e;
  }

  /** A composite number has a prime factor no larger than its square root. */
  lemma {:induction false} SmallPrimeFactor(n: nat) returns (q: nat)
    requires 2 <= n && !IsPrime(n)
    ensures IsPrime(q) && Divides(q, n) && q * q <= n && q < n
  {
    q := SmallDivisor(n);
    if !IsPrime(q) {
      var s := q;
      q := SmallPrimeFactor(s);
      DividesTransitive(q, s, n);
      MulGrowsBoth(q, q, s, s);
    }
  }

  lemma FactorsInside(d: nat, e: nat, n: nat)
    requires 2 <= d < n && n == d * e
    ensures 2 <= e < n && (d <= e ==> d * d <= n) && (e <= d ==> e * e <= n)
  {
    assert e <= 1 ==> d * e <= d;
    assert e >= 1 ==> d * e >= 2 * e;
    if d <= e {
      MulGrows(d, d, e);
    } else {
      MulGrows(e, e, d);
    }
  }

  lemma SomePrimeFactor(n: nat) returns (q: nat)
    requires 2 <= n
    ensures IsPrime(q) && Divides(q, n) && q <= n
  {
    if IsPrime(n) {
      q := n;
    } else {
      q := SmallPrimeFactor(n);
    }
  }

  // ----- binomial coefficients

  ghost function Choose(n: nat, k: nat): nat {
    if k == 0 then 1
    else if n == 0 then 0
    else Choose(n - 1, k - 1) + Choose(n - 1, k)
  }

  lemma {:induction false} Absorb(n: nat, k: nat)
    requires 1 <= k && 1 <= n
    ensures k * Choose(n, k) == n * Choose(n - 1, k - 1)
  {
    if n == 1 {
      assert k > 1 ==> Choose(0, k - 1) == 0;
      assert Choose(0, k) == 0;
    } else {
      Absorb(n - 1, k);
      var a, b, c := Choose(n - 1, k - 1), Choose(n - 1, k), Choose(n - 2, k - 1);
      if k == 1 {
        assert a == 1 && c == 1;
        AbsorbStep(n, k, a, b, c, 0);
      } else {
        Absorb(n - 1, k - 1);
        AbsorbStep(n, k, a, b, c, Choose(n - 2, k - 2));
      }
    }
  }

  lemma AbsorbStep(n: int, k: int, a: int, b: int, c: int, e: int)
    requires k * b == (n - 1) * c && (k - 1) * a == (n - 1) * e && a == e + c
    ensures k * (a + b) == n * a
  {
    assert (n - 1) * a == (n - 1) * e + (n - 1) * c;
    assert (k - 1) * a == k * a - a && (n - 1) * a == n * a - a;
  }

  lemma Shift(n: nat, k: nat)
    requires 1 <= k <= n
    ensures (n - k + 1) * Choose(n, k - 1) == k * Choose(n, k)
  {
    Absorb(n, k);
    var x, y := Choose(n, k - 1), Choose(n - 1, k - 1);
    if k > 1 {
      Absorb(n, k - 1);
      var z := Choose(n - 1, k - 2);
      Distribute(n, k - 1, x, y, z);
    }
  }

  lemma Distribute(n: int, j: int, x: int, y: int, z: int)
    requires x == z + y && j * x == n * z
    ensures (n - j) * x == n * y
  {
    assert (n - j) * x == n * x - j * x;
    assert n * x == n * z + n * y;
  }

  ghost function Pow(b: nat, e: nat): nat {
    if e == 0 then 1 else b * Pow(b, e - 1)
  }

  lemma {:induction false} CentralChoose(n: nat)
    ensures Choose(2 * n, n) >= Pow(2, n)
  {
    if n > 0 {
      CentralChoose(n - 1);
      var m := 2 * n - 2;
      assert Choose(m + 2, n) == Choose(m + 1, n - 1) + Choose(m + 1, n);
      assert Choose(m + 1, n) == Choose(m, n - 1) + Choose(m, n);
      if n == 1 {
        assert Choose(m + 1, n - 1) == 1 && Choose(m, n - 1) == 1;
      } else {
        assert Choose(m + 1, n - 1) == Choose(m, n - 2) + Choose(m, n - 1);
      }
    }
  }

  // ----- the lower bound

  ghost predicate CommonMultiple(d: nat, m: nat) {
    forall j :: 1 <= j <= m ==> Divides(j, d)
  }

  /** Entry c of row r of Leibniz's harmonic triangle, scaled by d. */
  ghost function Leibniz(d: nat, r: nat, c: nat): int
    requires c <= r
  {
    if c == 0 then d / (r + 1) else Leibniz(d, r - 1, c - 1) - Leibniz(d, r, c - 1)
  }

  lemma CancelFactor(c: nat, a: int, b: int)
    requires c != 0 && c * a == c * b
    ensures a == b
  {
    assert a < b ==> c * (b - a) >= c;
    assert b < a ==> c * (a - b) >= c;
  }

  lemma LeibnizStep(d: int, l1: int, l2: int, s: nat, c: nat, x: int, v: int)
    requires 1 <= c <= s
    requires (s - c) * v == c * x
    requires l1 * (c * x) == d && l2 * (s * v) == d
    ensures (l1 - l2) * (s * x) == d
  {
    var y := c * x;
    assert (s - c) * d == (l2 * s) * y by {
      MulSwap(s - c, l2 * s, v);
      assert l2 * (s * v) == (l2 * s) * v;
    }
    assert l1 * (s * y) == s * d by { MulSwap(s, l1, y); }
    assert l2 * (s * y) == (s - c) * d;
    assert (l1 - l2) * (s * y) == c * d by {
      assert (l1 - l2) * (s * y) == l1 * (s * y) - l2 * (s * y);
      assert s * d - (s - c) * d == c * d;
    }
    assert c * ((l1 - l2) * (s * x)) == (l1 - l2) * (s * y) by {
      MulSwap(c, l1 - l2, s * x);
      MulSwap(c, s, x);
    }
    CancelFactor(c, (l1 - l2) * (s * x), d);
  }

  lemma MulSwap(a: int, b: int, c: int)
    ensures a * (b * c) == b * (a * c)
  {
  }

  /** (r + 1) * C(r, c) divides every common multiple of 1..r+1. */
  lemma {:induction false} LeibnizProduct(d: nat, r: nat, c: nat)
    requires c <= r && CommonMultiple(d, r + 1)
    ensures Leibniz(d, r, c) * ((r + 1) * Choose(r, c)) == d
    decreases r, c
  {
    if c == 0 {
      assert Divides(r + 1, d);
      assert d == (r + 1) * (d / (r + 1));
    } else {
      LeibnizProduct(d, r - 1, c - 1);
      LeibnizProduct(d, r, c - 1);
      Absorb(r, c);
      Shift(r, c);
      LeibnizStep(d, Leibniz(d, r - 1, c - 1), Leibniz(d, r, c - 1), r + 1, c,
                  Choose(r, c), Choose(r, c - 1));
    }
  }

  lemma CommonMultipleIsLarge(d: nat, n: nat)
    requires d != 0 && CommonMultiple(d, 2 * n + 1)
    ensures d >= (2 * n + 1) * Pow(2, n)
  {
    LeibnizProduct(d, 2 * n, n);
    CentralChoose(n);
    MulGrows(2 * n + 1, Pow(2, n), Choose(2 * n, n));
    FactorAtMost(Leibniz(d, 2 * n, n), (2 * n + 1) * Choose(2 * n, n));
  }

  lemma FactorAtMost(l: int, x: nat)
    requires l * x > 0
    ensures x <= l * x
  {
    assert l <= 0 ==> l * x <= 0;
    assert l >= 1 ==> l * x >= x;
  }

  // ----- the upper bound

  /** The largest power of q that is at most m. */
  ghost function LargestPower(q: nat, m: nat): (r: nat)
    requires 2 <= q
    ensures 1 <= r && (1 <= m ==> r <= m)
  {
    if m < q then 1
    else
      QuotientSmaller(q, m);
      var r := LargestPower(q, m / q);
      MulGrows(q, r, m / q);
      q * r
  }

  /** The part of j made of factors q, and what is left. */
  ghost function PowerPart(q: nat, j: nat): (r: nat)
    requires 2 <= q && 1 <= j
    ensures 1 <= r
    decreases j
  {
    if Divides(q, j) then
      DividesAtMost(q, j);
      QuotientSmaller(q, j);
      var r := PowerPart(q, j / q);
      MulGrowsBoth(1, 1, q, r);
      q * r
    else 1
  }

  ghost function Remaining(q: nat, j: nat): (r: nat)
    requires 2 <= q && 1 <= j
    ensures 1 <= r <= j
    decreases j
  {
    if Divides(q, j) then DividesAtMost(q, j); QuotientSmaller(q, j); Remaining(q, j / q) else j
  }

  lemma QuotientSmaller(q: nat, j: nat)
    requires 2 <= q && 1 <= j
    ensures j / q < j && q * (j / q) <= j && (q <= j ==> 1 <= j / q)
  {
    var e := j / q;
    assert q * e <= j < q * e + q;
    if e >= 1 { MulGrows(e, 2, q); }
  }

  lemma {:induction false} PowerPartSplits(q: nat, j: nat)
    requires 2 <= q && 1 <= j
    ensures j == PowerPart(q, j) * Remaining(q, j)
    ensures !Divides(q, Remaining(q, j))
    decreases j
  {
    if Divides(q, j) {
      QuotientExact(q, j);
      PowerPartSplits(q, j / q);
      MulAssociates(q, PowerPart(q, j / q), Remaining(q, j / q));
    }
  }

  lemma QuotientExact(q: nat, j: nat)
    requires 2 <= q && 1 <= j && Divides(q, j)
    ensures j == q * (j / q) && 1 <= j / q < j
  {
    DividesAtMost(q, j);
    QuotientSmaller(q, j);
  }

  lemma DivMonotone(q: nat, j: nat, m: nat)
    requires 1 <= q && j <= m
    ensures j / q <= m / q
  {
    var a, b := j / q, m / q;
    assert a >= b + 1 ==> q * a >= q * (b + 1);
  }

  lemma {:induction false} PowerPartDividesLargest(q: nat, j: nat, m: nat)
    requires 2 <= q && 1 <= j <= m
    ensures Divides(PowerPart(q, j), LargestPower(q, m))
    decreases j
  {
    if Divides(q, j) {
      DividesAtMost(q, j);
      QuotientSmaller(q, j);
      DivMonotone(q, j, m);
      PowerPartDividesLargest(q, j / q, m / q);
      assert Divides(q, q);
      DividesMul(q, q, PowerPart(q, j / q), LargestPower(q, m / q));
    }
  }

  /** The product, over the primes up to q, of their largest powers up to m. */
  ghost function PrimePowers(q: nat, m: nat): (r: nat)
    ensures 1 <= r
  {
    if q < 2 then 1
    else if IsPrime(q) then
      var a, b := LargestPower(q, m), PrimePowers(q - 1, m);
      assert a * b >= 1;
      a * b
    else PrimePowers(q - 1, m)
  }

  ghost predicate PrimeFactorsUpTo(j: nat, q: nat) {
    forall d: nat :: IsPrime(d) && Divides(d, j) ==> d <= q
  }

  lemma {:induction false} DividesPrimePowers(j: nat, q: nat, m: nat)
    requires 1 <= j <= m && PrimeFactorsUpTo(j, q)
    ensures Divides(j, PrimePowers(q, m))
    decreases q
  {
    if q < 2 {
      if j >= 2 {
        var d := SomePrimeFactor(j);
        assert false;
      }
    } else if IsPrime(q) {
      var a, b := PowerPart(q, j), Remaining(q, j);
      PowerPartSplits(q, j);
      PowerPartDividesLargest(q, j, m);
      forall d: nat | IsPrime(d) && Divides(d, b)
        ensures d <= q - 1
      {
        assert Divides(b, j) by { assert j == b * a; MulDivides(b, a); }
        DividesTransitive(d, b, j);
      }
      DividesPrimePowers(b, q - 1, m);
      DividesMul(a, LargestPower(q, m), b, PrimePowers(q - 1, m));
    } else {
      DividesPrimePowers(j, q - 1, m);
    }
  }

  lemma {:induction false} PrimePowersBound(k: nat, m: nat)
    requires 1 <= k && 1 <= m
    ensures PrimePowers(2 * k + 1, m) <= Pow(m, k + 1)
  {
    if k == 1 {
      assert PrimePowers(1, m) == 1;
      assert Pow(m, 1) == m * Pow(m, 0) == m;
      PrimePowersStep(2, m, 1);
      PrimePowersStep(3, m, Pow(m, 1));
    } else {
      PrimePowersBound(k - 1, m);
      assert Divides(2, 2 * k);
      assert PrimePowers(2 * k, m) == PrimePowers(2 * k - 1, m);
      PrimePowersStep(2 * k + 1, m, Pow(m, k));
    }
  }

  lemma PrimePowersStep(q: nat, m: nat, b: nat)
    requires 2 <= q && 1 <= m && PrimePowers(q - 1, m) <= b
    ensures PrimePowers(q, m) <= m * b
  {
    if IsPrime(q) {
      MulGrowsBoth(LargestPower(q, m), PrimePowers(q - 1, m), m, b);
    } else {
      MulGrowsBoth(1, PrimePowers(q - 1, m), m, b);
    }
  }

  lemma MulGrowsBoth(a: nat, b: nat, c: nat, d: nat)
    requires a <= c && b <= d
    ensures a * b <= c * d
  {
    MulGrows(b, a, c);
    MulGrows(c, b, d);
  }

  // ----- the two bounds contradict each other

  lemma {:induction false} PowerGap(m: nat, k: nat)
    requires 1 <= k
    ensures Pow(2 * m + 2, k) > 2 * Pow(m, k)
  {
    var a, b := 2 * m + 2, Pow(m, k - 1);
    if k == 1 {
      assert Pow(a, 1) == a * Pow(a, 0);
      assert Pow(m, 1) == m * Pow(m, 0);
    } else {
      PowerGap(m, k - 1);
      MulGrows(a, 2 * b + 1, Pow(a, k - 1));
      MulGrows(b, m, 2 * m + 2);
      assert a * (2 * b + 1) == 2 * (b * a) + a;
    }
  }

  lemma {:induction false} PowMonotone(a: nat, b: nat, k: nat)
    requires a <= b
    ensures Pow(a, k) <= Pow(b, k)
  {
    if k > 0 {
      PowMonotone(a, b, k - 1);
      MulGrowsBoth(a, Pow(a, k - 1), b, Pow(b, k - 1));
    }
  }

  lemma {:induction false} PowAdd(b: nat, i: nat, j: nat)
    ensures Pow(b, i + j) == Pow(b, i) * Pow(b, j)
  {
    if i > 0 {
      PowAdd(b, i - 1, j);
      MulAssociates(b, Pow(b, i - 1), Pow(b, j));
    }
  }

  lemma {:induction false} PowMul(b: nat, i: nat, j: nat)
    ensures Pow(b, i * j) == Pow(Pow(b, i), j)
  {
    if j > 0 {
      PowMul(b, i, j - 1);
      assert i * j == i + i * (j - 1);
      PowAdd(b, i, i * (j - 1));
    } else {
      assert i * j == 0;
    }
  }

  /** The number of the form p * p - 2 for the k-th odd p. */
  ghost function SquareLess2(k: nat): (m: nat)
    requires 1 <= k
  {
    4 * k * k + 4 * k - 1
  }

  lemma {:induction false} PowersOfTwoOutgrow(k: nat)
    requires 1 <= k
    ensures Pow(2, 2 * k + 2) >= 2 * SquareLess2(k) + 2
  {
    assert Pow(2, 2 * k + 2) == 2 * Pow(2, 2 * k + 1) == 4 * Pow(2, 2 * k);
    if k == 1 {
      assert Pow(2, 2) == 2 * Pow(2, 1) == 4 * Pow(2, 0);
    } else {
      PowersOfTwoOutgrow(k - 1);
      SquareLess2Step(k);
    }
  }

  lemma SquareLess2Step(k: nat)
    requires 2 <= k
    ensures 4 * (2 * SquareLess2(k - 1) + 2) >= 2 * SquareLess2(k) + 2
  {
    assert SquareLess2(k) == SquareLess2(k - 1) + 8 * k;
    assert k * k >= 2 * k;
  }

  lemma PowersClash(m: nat, t: nat, k: nat, e: nat)
    requires 1 <= k && t * k == e + 1 && 2 * m + 2 <= Pow(2, t)
    ensures Pow(m, k) < Pow(2, e)
  {
    PowMonotone(2 * m + 2, Pow(2, t), k);
    PowMul(2, t, k);
    PowerGap(m, k);
    assert Pow(2, e + 1) == 2 * Pow(2, e);
  }

  lemma BoundsClash(k: nat, e: nat)
    requires 1 <= k && (2 * k + 2) * k == e + 1
    ensures SquareLess2(k) * Pow(2, e) > Pow(SquareLess2(k), k + 1)
  {
    PowersOfTwoOutgrow(k);
    PowersClash(SquareLess2(k), 2 * k + 2, k, e);
    MulGrows(SquareLess2(k), Pow(SquareLess2(k), k) + 1, Pow(2, e));
  }

  lemma PrimeAfterOddPrime(k: nat)
    requires 1 <= k
    ensures exists q: nat :: IsPrime(q) && 2 * k + 1 < q < (2 * k + 1) * (2 * k + 1)
  {
    var p, m, n := 2 * k + 1, SquareLess2(k), 2 * k * k + 2 * k - 1;
    assert p * p == m + 2 && m == 2 * n + 1;
    if forall q: nat :: IsPrime(q) && q <= m ==> q <= p {
      PrimePowersCommonMultiple(p, m);
      CommonMultipleIsLarge(PrimePowers(p, m), n);
      PrimePowersBound(k, m);
      BoundsClash(k, n);
      assert false;
    }
  }

  /** There is always a prime between a prime and its square. */
  lemma PrimeBelowSquare(p: nat)
    requires IsPrime(p)
    ensures exists q: nat :: IsPrime(q) && p < q < p * p
  {
    if p == 2 {
      assert !Divides(2, 3);
      assert IsPrime(3);
    } else {
      assert !Divides(2, p);
      PrimeAfterOddPrime((p - 1) / 2);
    }
  }

  lemma PrimePowersCommonMultiple(p: nat, m: nat)
    requires forall q: nat :: IsPrime(q) && q <= m ==> q <= p
    ensures CommonMultiple(PrimePowers(p, m), m)
  {
    forall j | 1 <= j <= m
      ensures Divides(j, PrimePowers(p, m))
    {
      forall f: nat | IsPrime(f) && Divides(f, j)
        ensures f <= p
      {
        DividesAtMost(f, j);
      }
      DividesPrimePowers(j, p, m);
    }
  }
}
