/**
 Allocation of destinations (src/cphDestinationFactory.c:102-167, 216-221, 301-318):
 completing the range from the options, and handing out numbers in turn.
 */
module Destinations {
  import Arithmetic

  /** What is handed out next; a maximum that is not positive is none. */
  datatype Range = Range(base: int, max: int, next: int)

  function Index(r: Range): int { r.next }

  function Step(r: Range): Range {
    r.(next := if r.next + 1 == r.max + 1 then r.base else r.next + 1)
  }

  function After(r: Range, k: nat): Range {
    if k == 0 then r else Step(After(r, k - 1))
  }

  predicate Bounded(r: Range) { 0 < r.max && r.base <= r.next <= r.max }

  predicate Unbounded(r: Range) { r.max <= 0 < r.next }

  /** How often a destination is among the next k. */
  function Times(r: Range, k: nat, d: int): nat {
    if k == 0 then 0 else Times(r, k - 1, d) + if Index(After(r, k - 1)) == d then 1 else 0
  }

  lemma {:induction false} AfterSum(r: Range, j: nat, k: nat)
    ensures After(After(r, j), k) == After(r, j + k)
  {
    if k > 0 {
      AfterSum(r, j, k - 1);
    }
  }

  lemma {:induction false} TimesSum(r: Range, j: nat, k: nat, d: int)
    ensures Times(r, j + k, d) == Times(r, j, d) + Times(After(r, j), k, d)
  {
    if k > 0 {
      TimesSum(r, j, k - 1, d);
      AfterSum(r, j, k - 1);
    }
  }

  /** Within the range numbers are handed out in order, and the base follows the maximum. */
  lemma {:induction false} Straight(r: Range, k: nat, d: int)
    requires Bounded(r) && r.next + k <= r.max + 1
    ensures After(r, k).base == r.base && After(r, k).max == r.max
    ensures After(r, k).next == if k > 0 && r.next + k == r.max + 1 then r.base else r.next + k
    ensures Times(r, k, d) == if r.next <= d < r.next + k then 1 else 0
  {
    if k > 0 {
      Straight(r, k - 1, d);
    }
  }

  /** A whole cycle comes back to where it began, having handed out each number once. */
  lemma Cycle(r: Range, d: int)
    requires Bounded(r)
    ensures After(r, r.max - r.base + 1) == r
    ensures Times(r, r.max - r.base + 1, d) == if r.base <= d <= r.max then 1 else 0
  {
    var rest, again := r.max - r.next + 1, r.next - r.base;
    Straight(r, rest, d);
    assert After(r, rest) == r.(next := r.base);
    Straight(r.(next := r.base), again, d);
    AfterSum(r, rest, again);
    TimesSum(r, rest, again, d);
  }

  lemma OneMore(size: nat, c: nat)
    ensures (c + 1) * size == c * size + size
  {
  }

  lemma {:induction false} Cycles(r: Range, size: nat, c: nat, d: int)
    requires Bounded(r) && size == r.max - r.base + 1
    ensures After(r, c * size) == r
    ensures Times(r, c * size, d) == if r.base <= d <= r.max then c else 0
  {
    if c > 0 {
      hide Times, After;
      Cycles(r, size, c - 1, d);
      Cycle(r, d);
      OneMore(size, c - 1);
      AfterSum(r, (c - 1) * size, size);
      TimesSum(r, (c - 1) * size, size, d);
    }
  }

  /** Less than a cycle hands out no number twice. */
  lemma WithinCycle(r: Range, k: nat, d: int)
    requires Bounded(r) && k <= r.max - r.base
    ensures After(r, k).next == if r.next + k <= r.max then r.next + k else r.next + k - (r.max - r.base + 1)
    ensures Times(r, k, d) <= 1
  {
    var rest := r.max - r.next + 1;
    if k < rest {
      Straight(r, k, d);
    } else {
      Straight(r, rest, d);
      assert After(r, rest) == r.(next := r.base);
      Straight(r.(next := r.base), k - rest, d);
      AfterSum(r, rest, k - rest);
      TimesSum(r, rest, k - rest, d);
    }
  }

  lemma WholeCycles(k: nat, size: nat) returns (c: nat, t: nat)
    requires size > 0
    ensures k == c * size + t && t < size && t == k % size && c == k / size
  {
    c, t := k / size, k % size;
  }

  lemma Remainder(next: int, base: int, k: nat, size: nat, c: nat, t: nat)
    requires 0 <= next - base < size && k == c * size + t && t < size
    ensures (next - base + k) % size == if next - base + t < size then next - base + t else next - base + t - size
  {
    var x := next - base + k;
    var r := if next - base + t < size then next - base + t else next - base + t - size;
    var q := if next - base + t < size then c else c + 1;
    OneMore(size, c);
    assert x == q * size + r;
    ModOf(q, size, r);
  }

  lemma ModOf(q: nat, size: nat, r: nat)
    requires r < size
    ensures (q * size + r) % size == r
  {
    assert q * size == size * q;
    Arithmetic.Quotient(size, q, r);
  }

  /** With a maximum, the k-th number handed out has a closed form, and stays within the range. */
  lemma KthIndex(r: Range, k: nat)
    requires Bounded(r)
    ensures Index(After(r, k)) == r.base + (r.next - r.base + k) % (r.max - r.base + 1)
    ensures Bounded(After(r, k))
  {
    var size := r.max - r.base + 1;
    var c, t := WholeCycles(k, size);
    Cycles(r, size, c, 0);
    AfterSum(r, c * size, t);
    WithinCycle(r, t, 0);
    Remainder(r.next, r.base, k, size, c, t);
    BaseKept(r, k);
  }

  lemma {:induction false} BaseKept(r: Range, k: nat)
    ensures After(r, k).base == r.base && After(r, k).max == r.max
  {
    if k > 0 {
      BaseKept(r, k - 1);
    }
  }

  lemma TimesOver(r: Range, size: nat, c: nat, t: nat, d: int)
    requires Bounded(r) && size == r.max - r.base + 1 && t < size && r.base <= d <= r.max
    ensures c <= Times(r, c * size + t, d) <= if t == 0 then c else c + 1
  {
    Cycles(r, size, c, d);
    TimesSum(r, c * size, t, d);
    WithinCycle(r, t, d);
  }

  /**
   Any whole number of cycles gives each destination the same count, and no two
   counts ever differ by more than one.
   */
  lemma Fair(r: Range, k: nat, d: int, e: int)
    requires Bounded(r) && r.base <= d <= r.max && r.base <= e <= r.max
    ensures k % (r.max - r.base + 1) == 0 ==> Times(r, k, d) == k / (r.max - r.base + 1)
    ensures -1 <= Times(r, k, d) - Times(r, k, e) <= 1
  {
    hide Times;
    var size := r.max - r.base + 1;
    var c, t := WholeCycles(k, size);
    TimesOver(r, size, c, t, d);
    TimesOver(r, size, c, t, e);
  }

  /** With no maximum, numbers increase for ever. */
  lemma {:induction false} Increasing(r: Range, k: nat)
    requires Unbounded(r)
    ensures Index(After(r, k)) == r.next + k && Unbounded(After(r, k))
  {
    if k > 0 {
      Increasing(r, k - 1);
    }
  }

  // ----- completing the options

  predicate Multiple(db: int, dx: int, dn: int) { db > 0 || dx > 0 || dn > 0 }

  /** The first and last destinations the options ask for; no last one if it is not positive. */
  function FirstOf(db: int, dx: int, dn: int): int {
    if db != 0 || !Multiple(db, dx, dn) then db else if dx > 0 && dn > 0 then dx - dn + 1 else 1
  }

  function LastOf(db: int, dx: int, dn: int): int {
    if dx == 0 && dn > 0 then dn + FirstOf(db, dx, dn) - 1 else dx
  }

  /** Neither before zero nor empty, and if everything is given the start is inside. */
  predicate Accepted(db: int, dx: int, dn: int) {
    && 0 <= FirstOf(db, dx, dn)
    && (LastOf(db, dx, dn) > 0 ==> FirstOf(db, dx, dn) <= LastOf(db, dx, dn))
    && (db > 0 && dx > 0 && dn > 0 ==> db <= dn <= dx)
  }

  /** What the options promise of the range and of the first number handed out. */
  predicate AsAsked(db: int, dx: int, dn: int, r: Range) {
    if db > 0 && dx > 0 && dn > 0 then r == Range(db, dx, dn)
    else
      && r.next == r.base
      && (db > 0 ==> r.base == db)
      && (db == 0 && !(dx > 0 && dn > 0) ==> r.base == 1)
      && (dx > 0 ==> r.max == dx)
      && (dn > 0 && dx >= 0 ==> r.max - r.base + 1 == dn)
      && (dx <= 0 && (dx < 0 || dn <= 0) ==> r.max <= 0)
  }

  lemma RangeAsAsked(db: int, dx: int, dn: int)
    requires Multiple(db, dx, dn) && Accepted(db, dx, dn)
    ensures AsAsked(db, dx, dn, Range(FirstOf(db, dx, dn), LastOf(db, dx, dn),
                                      if db > 0 && dx > 0 && dn > 0 then dn else FirstOf(db, dx, dn)))
  {
  }

  /** The options are refused for a negative base, more destinations than the last one allows, or a start outside. */
  lemma AcceptedIff(db: int, dx: int, dn: int)
    ensures Accepted(db, dx, dn) <==>
      && db >= 0
      && (db > 0 && dx > 0 ==> db <= dx)
      && (db == 0 && dx > 0 && dn > 0 ==> dn <= dx + 1)
      && (db > 0 && dx > 0 && dn > 0 ==> db <= dn <= dx)
  {
  }

  class DestinationFactory {
    var multiple: bool
    var destBase: int
    var destMax: int
    var nextDest: int

    ghost function Abs(): Range
      reads this
    {
      Range(destBase, destMax, nextDest)
    }

    constructor ()
    {
      multiple, destBase, destMax, nextDest := false, 0, 0, 0;
    }

    /**
     Completes the range.  The options are accepted or not as their completed range
     says; several destinations are then handed out within it from the first, or from
     the start given, for ever upwards if there is no maximum.
     */
    method Ini(db: int, dx: int, dn: int) returns (status: bool)
      modifies this
      ensures status <==> Accepted(db, dx, dn)
      ensures status ==> multiple == (db > 0 || dx > 0 || dn > 0)
      ensures status && multiple ==>
        && Abs() == Range(FirstOf(db, dx, dn), LastOf(db, dx, dn),
                          if db > 0 && dx > 0 && dn > 0 then dn else FirstOf(db, dx, dn))
        && AsAsked(db, dx, dn, Abs())
        && (if destMax > 0 then Bounded(Abs()) else Unbounded(Abs()))
    {
      var base, max, number, next := db, dx, dn, 0;
      status, multiple := true, false;
      if base > 0 && max > 0 && number > 0 {
        multiple := true;
        next := number;
        number := max - base + 1;
        if next < base || next > max {
          status := false;
        }
      } else if base > 0 || max > 0 || number > 0 {
        multiple := true;
        if base == 0 {
          if max > 0 && number > 0 {
            base := max - number + 1;
          } else {
            base := 1;
          }
        }
        next := base;
        if max == 0 {
          if number > 0 {
            max := number + base - 1;
          }
        }
        if number == 0 {
          if max > 0 {
            number := max - base + 1;
          }
        }
      }
      if base < 0 || (max > 0 && max < base) {
        status := false;
      }
      destBase, destMax, nextDest := base, max, next;
    }

    /** Under the lock. */
    method GetNextDestination() returns (num: int)
      modifies this
      ensures num == Index(old(Abs())) && Abs() == Step(old(Abs())) && multiple == old(multiple)
    {
      num := nextDest;
      nextDest := nextDest + 1;
      if nextDest == destMax + 1 {
        nextDest := destBase;
      }
    }

    /** A single destination has no number. */
    method GenerateDestinationIndex() returns (num: int)
      modifies this
      ensures multiple == old(multiple)
      ensures multiple ==> num == Index(old(Abs())) && Abs() == Step(old(Abs()))
      ensures !multiple ==> num == -1 && Abs() == old(Abs())
    {
      if multiple {
        num := GetNextDestination();
      } else {
        num := -1;
      }
    }

    /** Numbers for as many workers as are made, one after another. */
    method Allocate(workers: nat) returns (numbers: seq<int>)
      requires multiple && Bounded(Abs())
      modifies this
      ensures |numbers| == workers && Bounded(Abs())
      ensures forall k :: 0 <= k < workers ==>
        numbers[k] == old(destBase) + (old(nextDest) - old(destBase) + k) % (old(destMax) - old(destBase) + 1)
    {
      numbers := [];
      for k := 0 to workers
        invariant |numbers| == k && multiple && Abs() == After(old(Abs()), k)
        invariant forall j :: 0 <= j < k ==> numbers[j] == Index(After(old(Abs()), j))
      {
        var num := GenerateDestinationIndex();
        numbers := numbers + [num];
      }
      forall k: nat | k < workers
        ensures numbers[k] == old(destBase) + (old(nextDest) - old(destBase) + k) % (old(destMax) - old(destBase) + 1)
      {
        KthIndex(old(Abs()), k);
      }
      KthIndex(old(Abs()), workers);
    }
  }
}
