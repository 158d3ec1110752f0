/**
 Interval statistics (src/ControlThread.cpp:123-210, 535-546): the iterations of each
 interval, from two samples of the workers' 32-bit counters that change places.
 */
module Statistics {
  import opened Arithmetic
  import WorkerMachine

  function Shorter(p: seq<nat>, c: seq<nat>): (n: nat)
    ensures n <= |p| && n <= |c| && (n == |p| || n == |c|)
  {
    if |c| < |p| then |c| else |p|
  }

  /** What an interval reports, from the sample before and the sample now. */
  function Total(p: seq<nat>, c: seq<nat>): nat {
    Wrapped(Sum(c) - Sum(p[..Shorter(p, c)]))
  }

  /** The sample before each interval; the first starts from an empty one. */
  function Before(samples: seq<seq<nat>>): seq<nat> {
    if |samples| < 2 then [] else samples[|samples| - 2]
  }

  function Totals(samples: seq<seq<nat>>): nat {
    if samples == [] then 0
    else Totals(samples[..|samples| - 1]) + Total(Before(samples), samples[|samples| - 1])
  }

  /** Counts of workers that an interval no longer sampled. */
  function Dropped(samples: seq<seq<nat>>): nat {
    if samples == [] then 0
    else
      var p, c := Before(samples), samples[|samples| - 1];
      Dropped(samples[..|samples| - 1]) + Sum(p[Shorter(p, c)..])
  }

  function LastSample(samples: seq<seq<nat>>): seq<nat> {
    if samples == [] then [] else samples[|samples| - 1]
  }

  lemma {:induction false} SumSplit(s: seq<nat>, k: nat)
    requires k <= |s|
    ensures Sum(s) == Sum(s[..k]) + Sum(s[k..])
  {
    if k == |s| {
      assert s[..k] == s && s[k..] == [];
    } else {
      SumSplit(s[..|s| - 1], k);
      assert s[..|s| - 1][..k] == s[..k];
      assert s[k..][..|s[k..]| - 1] == s[..|s| - 1][k..];
    }
  }

  /** Unsigned 32-bit arithmetic. */
  function Wrapped(x: int): nat { x % WorkerMachine.U32 }

  lemma WrappedSum(x: int, y: int)
    ensures Wrapped(Wrapped(x) + y) == Wrapped(x + y) == Wrapped(x + Wrapped(y))
  {
  }

  /** Whatever was counted, the reports add up to the last sample and the counts that were dropped. */
  lemma {:induction false} ReportsAddUp(samples: seq<seq<nat>>)
    ensures Wrapped(Totals(samples)) == Wrapped(Sum(LastSample(samples)) + Dropped(samples))
  {
    if samples != [] {
      hide Wrapped, Sum, Total, Shorter;
      var earlier := samples[..|samples| - 1];
      ReportsAddUp(earlier);
      var p, c := Before(samples), samples[|samples| - 1];
      assert LastSample(earlier) == p;
      var gain: int := IntervalGain(p, c);
      OneReport(Totals(earlier), Sum(p) + Dropped(earlier), gain);
    }
  }

  lemma IntervalGain(p: seq<nat>, c: seq<nat>) returns (gain: int)
    ensures gain == Sum(c) + Sum(p[Shorter(p, c)..]) - Sum(p)
    ensures Total(p, c) == Wrapped(gain)
  {
    hide Wrapped, Sum;
    SumSplit(p, Shorter(p, c));
    gain := Sum(c) + Sum(p[Shorter(p, c)..]) - Sum(p);
  }

  lemma OneReport(total: int, expected: int, gain: int)
    requires Wrapped(total) == Wrapped(expected)
    ensures Wrapped(total + Wrapped(gain)) == Wrapped(expected + gain)
  {
    WrappedSum(total, gain);
    WrappedSum(expected, gain);
    hide Wrapped;
  }

  lemma WrappedOnce(x: int)
    ensures Wrapped(Wrapped(x)) == Wrapped(x)
  {
  }

  /** Workers are only ever added. */
  predicate Growing(samples: seq<seq<nat>>) {
    forall i :: 0 < i < |samples| ==> |samples[i - 1]| <= |samples[i]|
  }

  lemma {:induction false} NothingDropped(samples: seq<seq<nat>>)
    requires Growing(samples)
    ensures Dropped(samples) == 0
  {
    if samples != [] {
      NothingDropped(samples[..|samples| - 1]);
      var p, c := Before(samples), samples[|samples| - 1];
      assert p[Shorter(p, c)..] == [];
    }
  }

  /** As workers are only ever added, the reports add up to the last sample, modulo the counters' 32 bits. */
  lemma WorkIsConserved(samples: seq<seq<nat>>)
    requires Growing(samples)
    ensures Wrapped(Totals(samples)) == Wrapped(Sum(LastSample(samples)))
  {
    ReportsAddUp(samples);
    NothingDropped(samples);
  }

  // ----- the stats thread

  class Vector {
    var items: seq<nat>

    constructor ()
      ensures items == []
    {
      items := [];
    }
  }

  class StatsThread {
    var prev: Vector
    var curr: Vector
    ghost var samples: seq<seq<nat>>
    ghost var reported: nat

    ghost predicate Valid()
      reads this, prev, curr
    {
      prev != curr && curr.items == LastSample(samples) && reported == Totals(samples)
    }

    constructor ()
      ensures Valid() && samples == [] && fresh(prev) && fresh(curr)
    {
      prev := new Vector();
      curr := new Vector();
      samples, reported := [], 0;
    }

    /** One sample of every worker's counter. */
    method GetThreadStats(stats: Vector, workers: seq<nat>)
      modifies stats
      ensures stats.items == workers
    {
      stats.items := [];
      var i := 0;
      while i < |workers|
        invariant i <= |workers| && stats.items == workers[..i]
      {
        stats.items := stats.items + [workers[i]];
        i := i + 1;
      }
    }

    /** The vectors change places, the older one is filled anew, and the difference is reported. */
    method Interval(workers: seq<nat>) returns (total: nat)
      requires Valid()
      modifies this, prev, curr
      ensures Valid() && samples == old(samples) + [workers] && prev == old(curr) && curr == old(prev)
      ensures curr.items == workers && total == Total(old(curr.items), workers)
    {
      var temp := prev;
      prev := curr;
      curr := temp;
      GetThreadStats(curr, workers);
      total := Difference(prev.items, curr.items);
      ghost var all := samples + [workers];
      assert all[..|samples|] == samples && Before(all) == LastSample(samples);
      samples, reported := all, reported + total;
    }

    method Difference(p: seq<nat>, c: seq<nat>) returns (total: nat)
      ensures total == Total(p, c)
    {
      var shortest := |p|;
      if |c| < shortest {
        shortest := |c|;
      }
      total := Differences(p, c, shortest);
      hide Wrapped, Sum;
      ghost var before := Sum(p[..shortest]);
      var j := shortest;
      while j < |c|
        invariant shortest <= j <= |c| && total == Wrapped(Sum(c[..j]) - before)
      {
        SumNext(c, j);
        WrappedSum(Sum(c[..j]) - before, c[j]);
        total := Wrapped(total + c[j]);
        j := j + 1;
      }
      assert c[..j] == c;
    }

    /** Over the workers that are in both samples. */
    method Differences(p: seq<nat>, c: seq<nat>, shortest: nat) returns (total: nat)
      requires shortest <= |p| && shortest <= |c|
      ensures total == Wrapped(Sum(c[..shortest]) - Sum(p[..shortest]))
    {
      total := 0;
      var j := 0;
      while j < shortest
        invariant j <= shortest && total == Wrapped(Sum(c[..j]) - Sum(p[..j]))
      {
        hide Wrapped, Sum;
        SumNext(c, j);
        SumNext(p, j);
        var now: int, was: int := c[j], p[j];
        var diff := Wrapped(now - was);
        WrappedOnce(Sum(c[..j]) - Sum(p[..j]));
        OneReport(total, Sum(c[..j]) - Sum(p[..j]), now - was);
        total := Wrapped(total + diff);
        j := j + 1;
      }
    }
  }

  lemma SumNext(s: seq<nat>, j: nat)
    requires j < |s|
    ensures Sum(s[..j + 1]) == Sum(s[..j]) + s[j]
  {
    assert s[..j + 1][..j] == s[..j];
  }
}
