/**
 The checks of the ramp phase of WorkerThread::pace (src/WorkerThread.cpp:369-417): when
 they are made, when one of them ends the ramp, and what the clock can make of the
 next interval.  The position of an iteration is a real square root, given as p.
 */
module Ramp {
  import opened Pacing

  /** Intervals are ints. */
  const INT_MAX := 0x7FFF_FFFF

  /** The target rate, the seconds over which to reach it, and the minimum period between sleeps. */
  datatype Plan = Plan(rate: real, rampTime: nat, minPeriod: real) {
    predicate Valid() {
      rate > 0.0 && rampTime >= 1 && (minPeriod == 0.05 || minPeriod == 0.1)
    }

    function Integral(): (i: real)
      requires Valid()
      ensures i > 0.0
    {
      2.0 * rampTime as real / rate
    }

    /** The iteration of the first check. */
    function FirstCheck(): (n: nat)
      requires Valid()
      ensures n >= 1
    {
      PositiveQuotient(minPeriod * minPeriod, Integral());
      Ceil(minPeriod * minPeriod / Integral())
    }

    /** The first iteration whose position is at the end of the ramp. */
    function RampEnds(): (n: nat)
      requires Valid()
      ensures n >= 1
    {
      PositiveProduct(rampTime as real, rate);
      Ceil(rampTime as real * rate / 2.0)
    }

    /** Positions before this one allow an interval of zero. */
    function StallPosition(): real
      requires Valid()
    {
      var a, b := (Integral() / (2.0 * minPeriod) - minPeriod) / 2.0, (499.9995 - Integral()) / 1000.0;
      if a < b then a else b
    }

    /** Checks before this iteration allow an interval of zero, after which no check is made any more. */
    function StallBefore(): nat
      requires Valid()
    {
      var s := StallPosition();
      if s <= 0.0 then 0
      else
        SquareOverPositive(s, Integral());
        Ceil(s * s / Integral())
    }

    /**
     A ramp can meet the message limit: the limit is not after the first check; or the
     first check does not end the ramp, and either may be the last one, or some check
     on the ramp can be followed by an interval that reaches the limit.
     */
    predicate CanMeet(limit: nat)
      requires Valid()
    {
      || limit <= FirstCheck()
      || (FirstCheck() < RampEnds() && (FirstCheck() < StallBefore() || limit < RampEnds() + INT_MAX))
    }

    /** p is the position of an iteration. */
    predicate IsPosition(p: real, its: nat)
      requires Valid()
    {
      p >= 0.0 && p * p == Integral() * its as real
    }

    /** Iterations between checks that are made however early the clock is. */
    function LeastInterval(p: real): int
      requires Valid()
    {
      Round((p * 2.0 + minPeriod) * minPeriod / Integral())
    }

    /** What a check divides by; if it is not positive the ramp is given up. */
    function Denominator(p: real, now: real, windowSleep: nat): real
      requires Valid()
    {
      (Integral() - now + (p - now) * SLEEP_GRANULARITY + windowSleep as real) * SLEEP_GRANULARITY
    }

    function Quotient(p: real, now: real, windowSleep: nat): real
      requires Valid() && Denominator(p, now, windowSleep) > 0.0
    {
      (1.0 / SLEEP_GRANULARITY + now * 2.0 - 1.0) / Denominator(p, now, windowSleep)
    }

    /** Iterations before the next check. */
    function NextInterval(p: real, now: real, windowSleep: nat): int
      requires Valid() && Denominator(p, now, windowSleep) > 0.0
    {
      var n := Truncated(Quotient(p, now, windowSleep)) + 1;
      if n < LeastInterval(p) then LeastInterval(p) else n
    }
  }

  type ValidPlan = c: Plan | c.Valid() witness Plan(1.0, 1, 0.05)

  /** Rounds towards zero, as a cast to int does. */
  function Truncated(x: real): int {
    if x >= 0.0 then x.Floor else -(-x).Floor
  }

  lemma SquareOverPositive(s: real, z: real)
    requires s > 0.0 && z > 0.0
    ensures s * s / z > 0.0
  {
    SquaresInOrder(0.0, s);
    PositiveQuotient(s * s, z);
  }

  lemma SquaresInOrder(a: real, b: real)
    requires a >= 0.0 && b >= 0.0
    ensures a < b <==> a * a < b * b
  {
    assert b * b - a * a == (b - a) * (b + a);
    if a < b {
      PositiveProduct(b - a, b + a);
    } else {
      assert (a - b) * (b + a) >= 0.0;
    }
  }

  lemma BelowQuotient(x: real, y: real, z: real)
    requires z > 0.0
    ensures z * x < y <==> x < y / z
  {
    assert z * (y / z) == y;
    assert y - z * x == z * (y / z - x);
  }

  /** A position is before a place exactly if its iteration is before the square of that place over the integral. */
  lemma Before(c: Plan, p: real, its: nat, place: real)
    requires c.Valid() && c.IsPosition(p, its) && place > 0.0
    ensures p < place <==> its < Ceil(place * place / c.Integral())
  {
    SquaresInOrder(p, place);
    BelowQuotient(its as real, place * place, c.Integral());
  }

  /** The ramp has reached its end exactly from a certain iteration on. */
  lemma PositionTest(c: Plan, p: real, its: nat)
    requires c.Valid() && c.IsPosition(p, its)
    ensures p < c.rampTime as real <==> its < c.RampEnds()
  {
    var t := c.rampTime as real;
    Before(c, p, its, t);
    assert t * t / c.Integral() == t * c.rate / 2.0;
  }

  lemma StallTest(c: Plan, p: real, its: nat)
    requires c.Valid() && c.IsPosition(p, its)
    ensures p < c.StallPosition() <==> its < c.StallBefore()
  {
    if c.StallPosition() > 0.0 {
      Before(c, p, its, c.StallPosition());
    }
  }

  // ----- the ramp is linear

  /** The rate rises linearly: iterations go with the square of the position, up to the target rate at the end. */
  lemma LinearRamp(c: Plan, p: real, a: nat, q: real, b: nat)
    requires c.Valid() && c.IsPosition(p, a) && c.IsPosition(q, b)
    ensures 2.0 * c.rampTime as real * (b as real - a as real) == c.rate * (q * q - p * p)
    ensures 2.0 * c.rampTime as real * a as real == c.rate * (p * p)
  {
    var t, i := 2.0 * c.rampTime as real, c.Integral();
    assert c.rate * i == t;
    assert c.rate * (i * a as real) == t * a as real;
    assert c.rate * (i * b as real) == t * b as real;
  }

  /** The ramp ends once half of the iterations are done that the target rate would do in its time. */
  lemma EndsAtHalf(c: Plan, its: nat)
    requires c.Valid()
    ensures its < c.RampEnds() <==> 2.0 * its as real < c.rate * c.rampTime as real
  {
  }

  /** The first check is the first iteration whose position is not before the minimum period. */
  lemma FirstCheckAt(c: Plan, its: nat)
    requires c.Valid()
    ensures its < c.FirstCheck() <==> 2.0 * c.rampTime as real * its as real < c.rate * c.minPeriod * c.minPeriod
  {
    var t, i, m := 2.0 * c.rampTime as real, c.Integral(), c.minPeriod * c.minPeriod;
    BelowQuotient(its as real, m, i);
    assert c.rate * i == t;
    var d := m - i * its as real;
    assert c.rate * d == c.rate * m - t * its as real;
    Sign(d, c.rate);
    if d > 0.0 {
      PositiveProduct(c.rate, d);
    }
  }

  /** The shortest interval is the number of iterations that the ramp has in the next minimum period, rounded. */
  lemma LeastIntervalIs(c: Plan, p: real)
    requires c.Valid() && p >= 0.0
    ensures var t, work := 2.0 * c.rampTime as real, c.rate * ((p + c.minPeriod) * (p + c.minPeriod) - p * p);
      t * c.LeastInterval(p) as real - t / 2.0 <= work < t * c.LeastInterval(p) as real + t / 2.0
  {
    hide Plan.Integral;
    IntegralIs(c);
    LeastIsRounded(c, p);
    hide Plan.LeastInterval;
    WorkBetween(c.rate, c.Integral(), 2.0 * c.rampTime as real, p, c.minPeriod, c.LeastInterval(p) as real);
  }

  lemma IntegralIs(c: Plan)
    requires c.Valid()
    ensures c.rate * c.Integral() == 2.0 * c.rampTime as real
  {
  }

  lemma LeastIsRounded(c: Plan, p: real)
    requires c.Valid() && p >= 0.0
    ensures var n := c.LeastInterval(p) as real;
      n - 0.5 <= (p * 2.0 + c.minPeriod) * c.minPeriod / c.Integral() < n + 0.5
  {
    hide Plan.Integral;
    assert (p * 2.0 + c.minPeriod) * c.minPeriod >= 0.0;
    AtLeastZero((p * 2.0 + c.minPeriod) * c.minPeriod, c.Integral());
  }

  lemma AtLeastZero(y: real, z: real)
    requires y >= 0.0 && z > 0.0
    ensures y / z >= 0.0
  {
  }

  lemma WorkBetween(rate: real, i: real, t: real, p: real, m: real, n: real)
    requires i > 0.0 && t > 0.0 && rate * i == t && n - 0.5 <= (p * 2.0 + m) * m / i < n + 0.5
    ensures t * n - t / 2.0 <= rate * ((p + m) * (p + m) - p * p) < t * n + t / 2.0
  {
    var y := (p * 2.0 + m) * m;
    var x := y / i;
    assert i * x == y;
    ProductBetween(rate, i, t, n, x, y, rate * ((p + m) * (p + m) - p * p));
  }

  lemma ProductBetween(rate: real, i: real, t: real, n: real, x: real, y: real, z: real)
    requires i > 0.0 && t > 0.0 && rate * i == t && n - 0.5 <= x < n + 0.5 && i * x == y && z == rate * y
    ensures t * n - t / 2.0 <= z < t * n + t / 2.0
  {
    SameProduct(rate, i, t, x, y, z);
    RoundedBetween(t, x, n, z);
  }

  lemma RoundedBetween(t: real, x: real, n: real, z: real)
    requires t > 0.0 && n - 0.5 <= x < n + 0.5 && z == t * x
    ensures t * n - t / 2.0 <= z < t * n + t / 2.0
  {
    var above, below := x - n + 0.5, n + 0.5 - x;
    assert t * above >= 0.0;
    assert t * above == t * x - t * n + t * 0.5;
    assert t * below > 0.0;
    assert t * below == t * n + t * 0.5 - t * x;
  }

  lemma SameProduct(rate: real, i: real, t: real, x: real, y: real, z: real)
    requires rate * i == t && i * x == y && z == rate * y
    ensures z == t * x
  {
    assert rate * (i * x) == rate * i * x;
  }

  /** n is the quotient of x and d without its fraction. */
  predicate WholePart(n: int, x: real, d: real) {
    if x >= 0.0 then d * n as real <= x < d * n as real + d else d * n as real - d < x <= d * n as real
  }

  lemma WholeBetween(d: real, y: real, n: real)
    requires d > 0.0 && n <= y < n + 1.0
    ensures d * n <= d * y < d * n + d
  {
    assert d * (y - n) >= 0.0;
    PositiveProduct(d, n + 1.0 - y);
    assert d * (n + 1.0 - y) == d * n + d - d * y;
  }

  lemma TruncatedIsWholePart(x: real, d: real)
    requires d > 0.0
    ensures WholePart(Truncated(x / d), x, d)
  {
    var y := x / d;
    var n := Truncated(y);
    assert d * y == x;
    if x >= 0.0 {
      assert y >= 0.0;
      WholeBetween(d, y, n as real);
    } else {
      assert y < 0.0;
      WholeBetween(d, -y, -n as real);
    }
  }

  /**
   The interval after a check at position p, as the clock shows now and windowSleep
   milliseconds were asked for before: one more than the whole part of a quotient, but
   no less than the shortest.  The last clause gives the divisor in settings and readings.
   */
  lemma NextIntervalIs(c: Plan, p: real, now: real, windowSleep: nat) returns (n: int)
    requires c.Valid() && c.Denominator(p, now, windowSleep) > 0.0
    ensures WholePart(n, 2.0 * now - 0.999, c.Denominator(p, now, windowSleep))
    ensures c.NextInterval(p, now, windowSleep) == if n + 1 < c.LeastInterval(p) then c.LeastInterval(p) else n + 1
    ensures c.rate * c.Denominator(p, now, windowSleep)
         == 1000.0 * (2.0 * c.rampTime as real + c.rate * ((p - now) * 1000.0 + windowSleep as real - now))
  {
    IntegralIs(c);
    n := Truncated(c.Quotient(p, now, windowSleep));
    TruncatedIsWholePart(2.0 * now - 0.999, c.Denominator(p, now, windowSleep));
  }

  // ----- what the clock can make of the next interval

  /** The denominator, from the time at which it comes to nothing. */
  function GivesUp(c: Plan, p: real, windowSleep: nat): real
    requires c.Valid()
  {
    (c.Integral() + p * SLEEP_GRANULARITY + windowSleep as real) / (SLEEP_GRANULARITY + 1.0)
  }

  lemma DenominatorIs(c: Plan, p: real, now: real, windowSleep: nat)
    requires c.Valid()
    ensures c.Denominator(p, now, windowSleep) == 1001000.0 * (GivesUp(c, p, windowSleep) - now)
  {
  }

  lemma QuotientAbove(x: real, y: real, z: real)
    requires z > 0.0 && x * z < y
    ensures x < y / z
  {
    BelowQuotient(x, y, z);
  }

  lemma QuotientIs(x: real, y: real, z: real)
    requires z > 0.0 && y == x * z
    ensures y / z == x
  {
  }

  /** Whether the least interval is zero. */
  lemma LeastIsZero(c: Plan, p: real)
    requires c.Valid() && p >= 0.0
    ensures c.LeastInterval(p) >= 0
    ensures c.LeastInterval(p) == 0 <==> p < (c.Integral() / (2.0 * c.minPeriod) - c.minPeriod) / 2.0
  {
    var x, m, i := p * 2.0 + c.minPeriod, c.minPeriod, c.Integral();
    assert x * m / i >= 0.0 by {
      assert x * m >= 0.0;
    }
    BelowQuotient(x, i / 2.0, m);
    assert i / 2.0 / m == i / (2.0 * m);
    HalfQuotient(x * m, i);
  }

  lemma HalfQuotient(y: real, z: real)
    requires z > 0.0
    ensures y / z < 0.5 <==> y < z / 2.0
  {
    assert z * (y / z) == y;
  }

  /** From a certain position on, whatever the clock shows, the next check is later. */
  lemma NoStall(c: Plan, p: real, now: real, windowSleep: nat)
    requires c.Valid() && p >= 0.0 && p >= c.StallPosition() && c.Denominator(p, now, windowSleep) > 0.0
    ensures c.NextInterval(p, now, windowSleep) >= 1
  {
    LeastIsZero(c, p);
    if c.LeastInterval(p) == 0 {
      DenominatorIs(c, p, now, windowSleep);
      var d := c.Denominator(p, now, windowSleep);
      assert GivesUp(c, p, windowSleep) >= 0.4995;
      QuotientAbove(-1.0, 1.0 / SLEEP_GRANULARITY + now * 2.0 - 1.0, d);
    }
  }

  /** Before it, there is a time at which the first check is also the last. */
  lemma CanStall(c: Plan, p: real) returns (now: real)
    requires c.Valid() && 0.0 <= p < c.StallPosition()
    ensures now >= 0.0 && c.Denominator(p, now, 0) > 0.0 && c.NextInterval(p, now, 0) == 0
  {
    LeastIsZero(c, p);
    var g := GivesUp(c, p, 0);
    assert 0.0 < g < 0.4995;
    var e := (0.4995 - g) / 500500.0;
    if e > g {
      e := g;
    }
    now := g - e;
    DenominatorIs(c, p, now, 0);
    var d := c.Denominator(p, now, 0);
    assert d == 1001000.0 * e;
    assert 1.0 / SLEEP_GRANULARITY + now * 2.0 - 1.0 <= -1.0 * d;
    QuotientAtMost(-1.0, 1.0 / SLEEP_GRANULARITY + now * 2.0 - 1.0, d);
  }

  lemma QuotientAtMost(x: real, y: real, z: real)
    requires z > 0.0 && y <= x * z
    ensures y / z <= x
  {
    assert z * (y / z) == y;
  }

  /** The time at which a check goes for n iterations: the quotient is then half below n. */
  function JumpTime(c: Plan, p: real, windowSleep: nat, n: nat): real
    requires c.Valid() && n >= 1
  {
    var k := 1001000.0 * (n as real - 0.5);
    (k * GivesUp(c, p, windowSleep) + 0.999) / (k + 2.0)
  }

  /** From half a second on, there is a time for every interval that is not too short. */
  lemma CanJump(c: Plan, p: real, windowSleep: nat, n: nat)
    requires c.Valid() && p >= 0.5 && n >= 1 && n >= c.LeastInterval(p)
    ensures var now := JumpTime(c, p, windowSleep, n);
      now >= 0.4995 && c.Denominator(p, now, windowSleep) > 0.0 && c.NextInterval(p, now, windowSleep) == n
  {
    var g, k, now := GivesUp(c, p, windowSleep), 1001000.0 * (n as real - 0.5), JumpTime(c, p, windowSleep, n);
    assert g > 0.4995;
    Between(g, k, now);
    DenominatorIs(c, p, now, windowSleep);
    var d := c.Denominator(p, now, windowSleep);
    QuotientIs(n as real - 0.5, 1.0 / SLEEP_GRANULARITY + now * 2.0 - 1.0, d);
  }

  lemma Between(g: real, k: real, now: real)
    requires g > 0.4995 && k >= 0.0 && now == (k * g + 0.999) / (k + 2.0)
    ensures 0.4995 <= now < g && 2.0 * now - 0.999 == k * (g - now)
  {
    assert now * (k + 2.0) == k * g + 0.999;
    assert (g - now) * (k + 2.0) == 2.0 * (g - 0.4995);
    assert (now - 0.4995) * (k + 2.0) == k * (g - 0.4995);
    Sign(g - now, k + 2.0);
    Sign(now - 0.4995, k + 2.0);
  }

  lemma Sign(x: real, y: real)
    requires y > 0.0
    ensures x * y > 0.0 ==> x > 0.0
    ensures x * y >= 0.0 ==> x >= 0.0
  {
  }

  /** Before half a second, the shortest step stays within the first second, so a check comes in between. */
  lemma ShortSteps(c: Plan, p: real, its: nat, q: real, n: nat)
    requires c.Valid() && c.IsPosition(p, its) && its >= 1 && p < 0.5
    requires n <= 1 || n <= c.LeastInterval(p)
    requires c.IsPosition(q, its + n)
    ensures q * q < 0.5 && q < 1.0
  {
    if n > 1 {
      LeastStep(c, p, n);
    }
    hide Plan.Integral, Plan.LeastInterval;
    ShortStep(c.Integral(), p, its as real, q, n as real);
  }

  lemma ShortStep(i: real, p: real, its: real, q: real, n: real)
    requires i > 0.0 && p >= 0.0 && p * p == i * its && its >= 1.0 && p < 0.5
    requires q >= 0.0 && q * q == i * (its + n) && (n <= 1.0 || i * n <= 0.22)
    ensures q * q < 0.5 && q < 1.0
  {
    SquaresInOrder(p, 0.5);
    SquaresInOrder(q, 1.0);
    SumOfSteps(i, its, n);
  }

  lemma SumOfSteps(i: real, its: real, n: real)
    requires i > 0.0 && its >= 1.0 && i * its < 0.25
    requires n <= 1.0 || i * n <= 0.22
    ensures i * (its + n) < 0.5
  {
    assert i * (its - 1.0) >= 0.0;
    if n <= 1.0 {
      assert i * (1.0 - n) >= 0.0;
    }
  }

  lemma LeastStep(c: Plan, p: real, n: nat)
    requires c.Valid() && 0.0 <= p < 0.5 && 2 <= n <= c.LeastInterval(p)
    ensures c.Integral() * n as real <= 0.22
  {
    var i, m := c.Integral(), c.minPeriod;
    var x := (p * 2.0 + m) * m;
    assert x <= 0.11;
    RoundedStep(i, x, n);
  }

  lemma RoundedStep(i: real, x: real, n: nat)
    requires i > 0.0 && n >= 2 && n as real <= x / i + 0.5
    ensures i * n as real <= 2.0 * x
  {
    assert i * (x / i) == x;
    var slack := x / i + 0.5 - n as real;
    assert slack * i >= 0.0;
    assert slack * i == x / i * i + 0.5 * i - n as real * i;
    assert 1.5 * i <= x by {
      assert x / i >= 1.5;
      assert i * (x / i - 1.5) >= 0.0;
    }
  }
}
