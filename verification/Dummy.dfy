/**
 The Dummy workload (src/Dummy.cpp): an incremental prime finder that divides by
 the primes it has already found, without an explicit bound on the table index.
 */
module DummyWorkload {
  import opened NumberTheory

  // ----- the primes in order

  ghost function LeastPrime(lo: nat, hi: nat): (q: nat)
    requires exists q: nat :: IsPrime(q) && lo <= q < hi
    ensures lo <= q < hi && IsPrime(q)
    ensures forall r: nat :: lo <= r < q ==> !IsPrime(r)
    decreases hi - lo
  {
    if IsPrime(lo) then lo else LeastPrime(lo + 1, hi)
  }

  ghost function PrimeAfter(p: nat): (q: nat)
    requires IsPrime(p)
    ensures p < q && IsPrime(q)
    ensures forall r: nat :: p < r < q ==> !IsPrime(r)
  {
    PrimeBelowSquare(p);
    LeastPrime(p + 1, p * p)
  }

  /** The n-th prime, counting from 0. */
  ghost function NthPrime(n: nat): (p: nat)
    ensures IsPrime(p)
  {
    if n == 0 then assert IsPrime(2); 2 else PrimeAfter(NthPrime(n - 1))
  }

  lemma {:induction false} NthPrimeAscends(i: nat, j: nat)
    requires i < j
    ensures NthPrime(i) < NthPrime(j)
  {
    if i < j - 1 {
      NthPrimeAscends(i, j - 1);
    }
  }

  /** No prime is skipped. */
  lemma {:induction false} PrimeIsNth(q: nat, n: nat) returns (k: nat)
    requires IsPrime(q) && q <= NthPrime(n)
    ensures k <= n && NthPrime(k) == q
  {
    k := n;
    if q != NthPrime(n) && n > 0 {
      var p := NthPrime(n - 1);
      assert NthPrime(n) == PrimeAfter(p);
      k := PrimeIsNth(q, n - 1);
    }
  }

  lemma {:induction false} NthPrimeUnbounded(n: nat)
    ensures NthPrime(n) > n
  {
    if n > 0 {
      NthPrimeUnbounded(n - 1);
    }
  }

  /** The sequence lists every prime and nothing else. */
  lemma NthPrimeComplete(q: nat)
    ensures IsPrime(q) <==> exists k: nat :: NthPrime(k) == q
  {
    if IsPrime(q) {
      NthPrimeUnbounded(q);
      var k := PrimeIsNth(q, q);
    }
  }

  /** The first n primes in ascending order. */
  ghost function FirstPrimes(n: nat): (s: seq<nat>)
    ensures |s| == n
  {
    if n == 0 then [] else FirstPrimes(n - 1) + [NthPrime(n - 1)]
  }

  lemma {:induction false} FirstPrimesAt(n: nat, i: nat)
    requires i < n
    ensures FirstPrimes(n)[i] == NthPrime(i)
  {
    if i < n - 1 {
      FirstPrimesAt(n - 1, i);
    }
  }

  /** The table's last entry is above the square root of every candidate tried next. */
  lemma ScanStopsInTable(n: nat, candidate: nat, lim: nat)
    requires 1 <= n
    ensures lim * lim <= candidate <= NthPrime(n) ==> lim < FirstPrimes(n)[n - 1]
  {
    var p := NthPrime(n - 1);
    PrimeBelowSquare(p);
    assert NthPrime(n) == PrimeAfter(p) == LeastPrime(p + 1, p * p);
    if lim * lim <= candidate <= NthPrime(n) {
      SquareOrder(lim, p, candidate);
    }
  }

  lemma SquareOrder(a: nat, b: nat, c: nat)
    requires a * a <= c < b * b
    ensures a < b
  {
    assert a >= b ==> a * a >= b * a >= b * b;
  }

  /** A candidate is prime when no table entry up to its square root divides it. */
  lemma ScanDecidesPrimality(n: nat, candidate: nat, lim: nat, i: nat)
    requires 1 <= n && FirstPrimes(n)[n - 1] < candidate <= NthPrime(n)
    requires candidate < (lim + 1) * (lim + 1)
    requires i < n && lim < FirstPrimes(n)[i]
    requires forall j :: 0 <= j < i ==> !Divides(FirstPrimes(n)[j], candidate)
    ensures candidate == NthPrime(n)
  {
    if !IsPrime(candidate) {
      var k := FactorInTable(n, candidate, lim, i);
      assert false;
    }
  }

  lemma FactorInTable(n: nat, candidate: nat, lim: nat, i: nat) returns (k: nat)
    requires 2 <= candidate < (lim + 1) * (lim + 1) && !IsPrime(candidate)
    requires i < n && lim < FirstPrimes(n)[i]
    ensures k < i && Divides(FirstPrimes(n)[k], candidate)
  {
    var q := FactorUpToRoot(candidate, lim);
    FirstPrimesAt(n, i);
    k := PrimeIsNth(q, i);
    FirstPrimesAt(n, k);
  }

  lemma FactorUpToRoot(candidate: nat, lim: nat) returns (q: nat)
    requires 2 <= candidate < (lim + 1) * (lim + 1) && !IsPrime(candidate)
    ensures IsPrime(q) && Divides(q, candidate) && q <= lim
  {
    q := SmallPrimeFactor(candidate);
    SquareOrder(q, lim + 1, candidate);
  }

  lemma NonZeroAt(n: nat, i: nat)
    requires i < n
    ensures FirstPrimes(n)[i] != 0
  {
    FirstPrimesAt(n, i);
  }

  lemma DividedIsComposite(n: nat, candidate: nat, i: nat)
    requires i < n && FirstPrimes(n)[n - 1] < candidate
    requires FirstPrimes(n)[i] != 0 && candidate % FirstPrimes(n)[i] == 0
    ensures candidate != NthPrime(n)
  {
    FirstPrimesAt(n, i);
    NthPrimeAtMost(i, n - 1);
    assert Divides(NthPrime(i), candidate);
  }

  // ----- gaps

  ghost function Gap(k: nat): nat
    requires 1 <= k
  {
    NthPrimeAscends(k - 1, k);
    NthPrime(k) - NthPrime(k - 1)
  }

  /** g is the largest gap among the first n primes and k the first index after it. */
  ghost predicate FirstLargestGap(n: nat, g: nat, k: nat) {
    if n < 2 then g == 0 && k == 1
    else
      && 1 <= k < n && g == Gap(k)
      && (forall j :: 1 <= j < n ==> Gap(j) <= g)
      && (forall j :: 1 <= j < k ==> Gap(j) < g)
  }

  lemma FirstLargestGapStep(n: nat, g: nat, k: nat)
    requires 1 <= n && FirstLargestGap(n, g, k)
    ensures if Gap(n) > g then FirstLargestGap(n + 1, Gap(n), n) else FirstLargestGap(n + 1, g, k)
  {
  }

  function SquareRoot(n: nat): (r: nat)
    ensures r * r <= n < (r + 1) * (r + 1)
  {
    if n == 0 then 0
    else
      var r := SquareRoot(n - 1);
      if (r + 1) * (r + 1) <= n then r + 1 else r
  }

  class Dummy {
    var primes: seq<nat>
    var largestGap: nat
    var largestGapIndex: nat
    var iterations: nat

    ghost predicate Holds(n: nat)
      reads this
    {
      && primes == FirstPrimes(n)
      && FirstLargestGap(n, largestGap, largestGapIndex)
    }

    ghost predicate Valid()
      reads this
    {
      Holds(iterations)
    }

    constructor ()
      ensures Valid() && iterations == 0
    {
      primes, largestGap, largestGapIndex, iterations := [], 0, 1, 0;
    }

    method OneIteration()
      requires Valid()
      modifies this`primes, this`largestGap, this`largestGapIndex
      ensures Holds(iterations + 1)
    {
      var numToFind := iterations + 1;
      if numToFind == 1 {
        primes := primes + [2];
        assert FirstPrimes(1) == FirstPrimes(0) + [NthPrime(0)];
      } else {
        NextPrime(numToFind);
      }
    }

    method NextPrime(numToFind: nat)
      requires Valid() && iterations >= 1 && numToFind == iterations + 1
      modifies this`primes, this`largestGap, this`largestGapIndex
      ensures Holds(numToFind)
    {
      hide NthPrime, Gap;
      var candidate := FindNext();
      FirstLargestGapStep(iterations, largestGap, largestGapIndex);
      hide FirstLargestGap;
      var gap := candidate - primes[numToFind - 2];
      primes := primes + [candidate];
      if gap > largestGap {
        largestGap := gap;
        largestGapIndex := numToFind - 1;
      }
    }

    method FindNext() returns (candidate: nat)
      requires Valid() && iterations >= 1
      ensures candidate == NthPrime(iterations)
      ensures candidate == primes[iterations - 1] + Gap(iterations)
    {
      candidate := primes[|primes| - 1] + 1;
      var isPrime := TrialDivision(candidate);
      while !isPrime
        invariant primes[iterations - 1] < candidate <= NthPrime(iterations)
        invariant isPrime <==> candidate == NthPrime(iterations)
        decreases NthPrime(iterations) - candidate
      {
        candidate := candidate + 1;
        isPrime := TrialDivision(candidate);
      }
    }

    /** The scan of the table for one candidate: every read is inside the table. */
    method TrialDivision(candidate: nat) returns (isPrime: bool)
      requires Valid() && iterations >= 1
      requires primes[iterations - 1] < candidate <= NthPrime(iterations)
      ensures isPrime <==> candidate == NthPrime(iterations)
    {
      var lim := SquareRoot(candidate);
      ghost var n := iterations;
      ScanStopsInTable(n, candidate, lim);
      var i := 0;
      while primes[i] <= lim
        invariant i < n
        invariant forall j :: 0 <= j < i ==> !Divides(primes[j], candidate)
        decreases n - i
      {
        NonZeroAt(n, i);
        if candidate % primes[i] == 0 {
          DividedIsComposite(n, candidate, i);
          return false;
        }
        i := i + 1;
      }
      ScanDecidesPrimality(n, candidate, lim, i);
      return true;
    }

    /** Any number of iterations finds exactly that many primes. */
    method Find(n: nat)
      requires Valid() && iterations == 0
      modifies this
      ensures iterations == n && Valid()
    {
      while iterations < n
        invariant Valid() && iterations <= n
      {
        OneIteration();
        iterations := iterations + 1;
      }
    }

    /** The table reads that the closing summary makes. */
    predicate SummaryReadsInTable()
      reads this
    {
      && 0 <= iterations - 1 < |primes|
      && 0 <= largestGapIndex - 1 < |primes|
      && largestGapIndex < |primes|
    }

    /** The summary reads inside the table exactly when two primes have been found. */
    lemma SummaryDefined()
      requires Valid()
      ensures SummaryReadsInTable() <==> iterations >= 2
    {
      if iterations < 2 {
        assert largestGapIndex == 1;
      }
    }

    lemma SummaryFacts()
      requires Valid() && SummaryReadsInTable()
      ensures 1 <= largestGapIndex < iterations && largestGap == Gap(largestGapIndex)
      ensures forall k :: 1 <= k < iterations ==> Gap(k) <= largestGap
      ensures forall k :: 1 <= k < largestGapIndex ==> Gap(k) < largestGap
    {
      SummaryDefined();
      hide NthPrime, Gap;
    }

    method Summary() returns (largest: nat, gap: nat, index: nat, below: nat, above: nat)
      requires Valid() && SummaryReadsInTable()
      ensures largest == NthPrime(iterations - 1)
      ensures 1 <= index < iterations && below == NthPrime(index - 1) && above == NthPrime(index) && gap == Gap(index)
      ensures forall k :: 1 <= k < index ==> Gap(k) < gap
      ensures forall k :: 1 <= k < iterations ==> Gap(k) <= gap
    {
      hide FirstPrimes, FirstLargestGap, NthPrime, Gap;
      SummaryDefined();
      SummaryFacts();
      largest := primes[iterations - 1];
      gap, index := largestGap, largestGapIndex;
      below, above := primes[largestGapIndex - 1], primes[largestGapIndex];
      FirstPrimesAt(iterations, iterations - 1);
      FirstPrimesAt(iterations, largestGapIndex - 1);
      FirstPrimesAt(iterations, largestGapIndex);
    }
  }

  lemma NthPrimeAtMost(i: nat, n: nat)
    requires i <= n
    ensures NthPrime(i) <= NthPrime(n)
  {
    if i < n {
      NthPrimeAscends(i, n);
    }
  }
}
