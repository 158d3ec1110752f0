/**
 Latency statistics of a worker (src/WorkerThread.cpp:264-283, 561-569): extremes and
 a running mean kept in whole microseconds since they were last read.
 */
module Latency {
  import opened Arithmetic

  datatype Stats = Stats(avg: nat, max: nat, min: nat, count: nat)

  /** The mean with one more sample, rounded down each time. */
  function Mean(avg: nat, count: nat, latency: nat): nat {
    if count == 0 then latency else (avg * count + latency) / (count + 1)
  }

  function Recorded(s: Stats, latency: nat): Stats {
    Stats(Mean(s.avg, s.count, latency),
          if latency > s.max then latency else s.max,
          if latency < s.min then latency else s.min,
          s.count + 1)
  }

  /** Reading resets all but the mean, which the next sample replaces. */
  function Reset(s: Stats): Stats { Stats(s.avg, 0, LONG_MAX, 0) }

  function After(s: Stats, samples: seq<nat>): Stats {
    if samples == [] then Reset(s)
    else Recorded(After(s, samples[..|samples| - 1]), samples[|samples| - 1])
  }

  /** Dividing rounds down by less than the divisor. */
  lemma MeanStep(avg: nat, count: nat, latency: nat)
    ensures var m := Mean(avg, count, latency);
      && m * (count + 1) <= avg * count + latency <= m * (count + 1) + count
  {
    var x := avg * count + latency;
    if count > 0 {
      assert x == (count + 1) * (x / (count + 1)) + x % (count + 1);
    }
  }

  lemma MeanBetween(avg: nat, count: nat, latency: nat, low: nat, high: nat)
    requires low <= latency <= high && (count > 0 ==> low <= avg <= high)
    ensures low <= Mean(avg, count, latency) <= high
  {
    if count > 0 {
      var m := Mean(avg, count, latency);
      MeanStep(avg, count, latency);
      MulGrows(count, low, avg);
      MulGrows(count, avg, high);
      hide Mean;
      MulStep(low, count);
      MulStep(high, count);
      Cancel(low, m, count + 1);
      Cancel(m, high, count + 1);
    }
  }

  lemma Cancel(a: nat, b: nat, k: nat)
    requires k > 0 && a * k < b * k + k
    ensures a <= b
  {
    if a >= b + 1 {
      MulGrows(k, b + 1, a);
    }
  }

  ghost predicate Extremes(s: Stats, samples: seq<nat>) {
    && (forall i :: 0 <= i < |samples| ==> s.min <= samples[i] <= s.max)
    && (samples != [] ==> s.min in samples && s.max in samples && s.min <= s.avg <= s.max)
  }

  /** The mean of k samples does not exceed the true mean, nor fall short of it by more than (k - 1) / 2. */
  ghost predicate Near(avg: nat, k: nat, sum: nat) {
    k > 0 ==> avg * k <= sum && 2 * (sum - avg * k) <= k * (k - 1)
  }

  lemma NearStep(avg: nat, k: nat, sum: nat, latency: nat)
    requires Near(avg, k, sum) && (k == 0 ==> sum == 0)
    ensures Near(Mean(avg, k, latency), k + 1, sum + latency)
  {
    MeanStep(avg, k, latency);
    if k > 0 {
      hide Mean;
      assert (k + 1) * k == k * (k - 1) + 2 * k;
    }
  }

  lemma {:induction false} AfterIsNear(s: Stats, samples: seq<nat>)
    ensures After(s, samples).count == |samples| && Near(After(s, samples).avg, |samples|, Sum(samples))
  {
    if samples != [] {
      var before, latency := samples[..|samples| - 1], samples[|samples| - 1];
      AfterIsNear(s, before);
      NearStep(After(s, before).avg, |before|, Sum(before), latency);
      hide Near, Mean;
    }
  }

  lemma {:induction false} AfterExtremes(s: Stats, samples: seq<nat>)
    requires forall i :: 0 <= i < |samples| ==> samples[i] <= LONG_MAX
    ensures Extremes(After(s, samples), samples)
  {
    if samples != [] {
      var before, latency := samples[..|samples| - 1], samples[|samples| - 1];
      AfterExtremes(s, before);
      AfterIsNear(s, before);
      ExtremesStep(After(s, before), before, latency);
      assert samples == before + [latency];
    }
  }

  lemma ExtremesStep(t: Stats, before: seq<nat>, latency: nat)
    requires Extremes(t, before) && t.count == |before| && latency <= LONG_MAX
    requires before == [] ==> t.max == 0 && t.min == LONG_MAX
    ensures Extremes(Recorded(t, latency), before + [latency])
  {
    var u, samples := Recorded(t, latency), before + [latency];
    MeanBetween(t.avg, t.count, latency, u.min, u.max);
    hide Mean;
    assert samples[|before|] == latency;
    assert t.max in before ==> t.max in samples;
    assert t.min in before ==> t.min in samples;
  }

  /**
   After k samples since the last reading, the mean lies between the extremes, which
   are those of the samples; it never exceeds the true mean, and falls short of it by
   at most (k - 1) / 2.
   */
  lemma RunningMean(s: Stats, samples: seq<nat>)
    requires samples != [] && forall i :: 0 <= i < |samples| ==> samples[i] <= LONG_MAX
    ensures var t, k := After(s, samples), |samples|;
      && t.min <= t.avg <= t.max && t.min in samples && t.max in samples
      && (forall i :: 0 <= i < k ==> t.min <= samples[i] <= t.max)
      && t.avg as real <= Sum(samples) as real / k as real <= t.avg as real + (k - 1) as real / 2.0
  {
    AfterIsNear(s, samples);
    AfterExtremes(s, samples);
    hide After, Sum;
    Divided(Sum(samples), After(s, samples).avg, |samples|);
  }

  lemma Divided(sum: nat, avg: nat, k: nat)
    requires k > 0 && Near(avg, k, sum)
    ensures avg as real <= sum as real / k as real <= avg as real + (k - 1) as real / 2.0
  {
    var r := k as real;
    assert (avg * k) as real == avg as real * r && (k * (k - 1)) as real == r * (k - 1) as real;
    DividedAtLeast(avg as real, sum as real, r);
    DividedAtMost(avg as real + (k - 1) as real / 2.0, sum as real, r);
  }

  lemma DividedAtLeast(a: real, x: real, r: real)
    requires r > 0.0 && a * r <= x
    ensures a <= x / r
  {
    assert x / r * r == x;
    assert (x / r - a) * r >= 0.0;
  }

  lemma DividedAtMost(a: real, x: real, r: real)
    requires r > 0.0 && x <= a * r
    ensures x / r <= a
  {
    assert x / r * r == x;
    assert (a - x / r) * r >= 0.0;
  }

  /** The samples 0, 1, 2 and so on reach the bound: their recorded mean stays zero. */
  lemma {:induction false} BoundIsReached(s: Stats, k: nat)
    requires k > 0
    ensures var samples := seq(k, i => i);
      After(s, samples).avg == 0 && 2 * Sum(samples) == k * (k - 1)
  {
    var samples := seq(k, i => i);
    if k > 1 {
      BoundIsReached(s, k - 1);
      assert samples[..k - 1] == seq(k - 1, i => i);
      AfterIsNear(s, samples[..k - 1]);
      assert (0 * (k - 1) + (k - 1)) / k == 0;
    }
  }

  lemma AfterOne(s: Stats, samples: seq<nat>, latency: nat)
    ensures After(s, samples + [latency]) == Recorded(After(s, samples), latency)
  {
    assert (samples + [latency])[..|samples|] == samples;
  }

  /** The worker's fields. */
  class LatencyStats {
    var avgLatency: nat
    var maxLatency: nat
    var minLatency: nat
    var latencyIter: nat
    ghost var start: Stats
    ghost var samples: seq<nat>

    ghost predicate Valid()
      reads this
    {
      Stats(avgLatency, maxLatency, minLatency, latencyIter) == After(start, samples)
      && forall i :: 0 <= i < |samples| ==> samples[i] <= LONG_MAX
    }

    constructor ()
      ensures Valid() && samples == []
    {
      avgLatency, maxLatency, minLatency, latencyIter := 0, 0, LONG_MAX, 0;
      start, samples := Stats(0, 0, 0, 0), [];
    }

    method Record(latency: nat)
      requires Valid() && latency <= LONG_MAX
      modifies this
      ensures Valid() && samples == old(samples) + [latency]
    {
      AfterOne(start, samples, latency);
      hide After;
      if latency > maxLatency {
        maxLatency := latency;
      }
      if latency < minLatency {
        minLatency := latency;
      }
      if latencyIter == 0 {
        avgLatency := latency;
      } else {
        avgLatency := ((avgLatency * latencyIter) + latency) / (latencyIter + 1);
      }
      latencyIter := latencyIter + 1;
      samples := samples + [latency];
    }

    /** Reports and resets. */
    method GetLatencyStats() returns (avg: nat, max: nat, min: nat)
      requires Valid()
      modifies this
      ensures Valid() && samples == []
      ensures old(samples) != [] ==> min <= avg <= max
      ensures avg == old(avgLatency) && max == old(maxLatency) && min == old(minLatency)
      ensures avgLatency == old(avgLatency) && maxLatency == 0 && minLatency == LONG_MAX && latencyIter == 0
    {
      if samples != [] {
        RunningMean(start, samples);
      }
      avg, max, min := avgLatency, maxLatency, minLatency;
      start, samples := Stats(avgLatency, maxLatency, minLatency, latencyIter), [];
      minLatency := LONG_MAX;
      maxLatency := 0;
      latencyIter := 0;
    }
  }
}
