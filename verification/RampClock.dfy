/**
 Whether a clock can make a ramp meet the message limit (src/WorkerThread.cpp:386-417):
 the checks of one ramp as the code makes them, with what the clock shows at each,
 against the condition on the settings.  A clock may be late, but never runs backwards.
 */
module RampClock {
  import CheckAnswers
  import opened Pacing
  import opened Ramp

  const U32 := 0x1_0000_0000

  /** With at most this many iterations before the first check, no shortest interval is too long for an int. */
  const MANY := 100_000_000

  /** pos gives the position of every iteration. */
  ghost predicate Positions(c: Plan, pos: nat -> real)
    requires c.Valid()
  {
    forall its: nat :: c.IsPosition(pos(its), its)
  }

  /** A check: its iteration, what the clock shows, and the sleep so far. */
  datatype Reading = Reading(its: nat, now: real, windowSleep: nat)

  /** Milliseconds slept at a check. */
  function Slept(p: real, now: real): nat {
    var sleep := (p - now) * SLEEP_GRANULARITY;
    if sleep > 0.5 then Round(sleep) else 0
  }

  lemma SleptToNearest(p: real, now: real)
    ensures CheckAnswers.Sleeps((p - now) * 1000.0, Slept(p, now))
  {
  }

  function Awake(p: real, now: real): real {
    now + Slept(p, now) as real / SLEEP_GRANULARITY
  }

  /** The check neither ends the ramp nor gives it up, and comes to an interval that is an int. */
  predicate StaysOn(c: Plan, p: real, r: Reading)
    requires c.Valid()
  {
    && r.its < c.RampEnds()
    && c.Denominator(p, r.now, r.windowSleep) > 0.0
    && c.NextInterval(p, r.now, r.windowSleep) <= INT_MAX
  }

  /** The check that comes next. */
  predicate Follows(c: Plan, p: real, r: Reading, next: Reading)
    requires c.Valid() && StaysOn(c, p, r)
  {
    && r.its < next.its == r.its + c.NextInterval(p, r.now, r.windowSleep)
    && next.windowSleep == r.windowSleep + Slept(p, r.now)
    && next.now >= Awake(p, r.now)
  }

  /** No check comes after this one before the limit: it is due at the limit or later, or has passed already. */
  predicate NoneFollows(c: Plan, limit: nat, p: real, r: Reading)
    requires c.Valid() && StaysOn(c, p, r)
  {
    var n := c.NextInterval(p, r.now, r.windowSleep);
    n == 0 || r.its + n >= limit
  }

  /** The checks of a ramp from one of them on, up to the limit. */
  predicate Checks(c: Plan, pos: nat -> real, limit: nat, rs: seq<Reading>)
    requires c.Valid()
  {
    && rs != [] && rs[0].its < limit && StaysOn(c, pos(rs[0].its), rs[0])
    && (if |rs| == 1 then NoneFollows(c, limit, pos(rs[0].its), rs[0])
        else Follows(c, pos(rs[0].its), rs[0], rs[1]) && Checks(c, pos, limit, rs[1..]))
  }

  /** The first check, whenever it is. */
  predicate IsFirst(c: Plan, r: Reading)
    requires c.Valid()
  {
    r.its == c.FirstCheck() && r.now >= 0.0 && r.windowSleep == 0
  }

  /** Under some clock, the limit is met in the ramp loop. */
  ghost predicate Met(c: Plan, pos: nat -> real, limit: nat)
    requires c.Valid()
  {
    || limit <= c.FirstCheck()
    || exists rs :: Checks(c, pos, limit, rs) && IsFirst(c, rs[0])
  }

  // ----- a ramp that meets its limit shows that it can

  lemma {:induction false} ChecksCan(c: Plan, pos: nat -> real, limit: nat, rs: seq<Reading>)
    requires c.Valid() && Positions(c, pos) && Checks(c, pos, limit, rs)
    ensures rs[0].its < c.RampEnds()
    ensures rs[0].its < c.StallBefore() || limit < c.RampEnds() + INT_MAX
  {
    if |rs| == 1 {
      var r := rs[0];
      var p := pos(r.its);
      assert c.IsPosition(p, r.its);
      StallTest(c, p, r.its);
      if r.its >= c.StallBefore() {
        NoStall(c, p, r.now, r.windowSleep);
      }
    } else {
      ChecksCan(c, pos, limit, rs[1..]);
    }
  }

  // ----- arithmetic

  lemma LeastFits(c: Plan, p: real, its: nat)
    requires c.Valid() && c.IsPosition(p, its) && its <= U32 && c.FirstCheck() <= MANY
    ensures c.LeastInterval(p) <= INT_MAX
  {
    Fits(c.Integral(), c.minPeriod, p, its as real);
  }

  lemma Fits(i: real, m: real, p: real, its: real)
    requires i > 0.0 && m > 0.0 && p >= 0.0 && p * p == i * its && its <= U32 as real
    requires m * m / i <= MANY as real
    ensures (p * 2.0 + m) * m / i <= 1_500_000_000.0
  {
    var a := m * m / i;
    assert i * a == m * m;
    assert p * m <= i * 700_000_000.0 by {
      assert its >= 0.0 && a >= 0.0;
      Square(i, its, a, p, m);
    }
    AtMostQuotient(1_500_000_000.0, (p * 2.0 + m) * m, i);
  }

  lemma Square(i: real, its: real, a: real, p: real, m: real)
    requires i > 0.0 && 0.0 <= its <= U32 as real && 0.0 <= a <= MANY as real && p >= 0.0 && m >= 0.0
    requires p * p == i * its && m * m == i * a
    ensures p * m <= i * 700_000_000.0
  {
    var n := 700_000_000.0;
    assert its * a <= n * n by {
      assert (U32 as real - its) * a >= 0.0;
    }
    assert (p * m) * (p * m) == (i * i) * (its * a);
    assert (i * n) * (i * n) == (i * i) * (n * n);
    assert (i * i) * (n * n - its * a) >= 0.0;
    SquaresInOrder(i * n, p * m);
  }

  lemma AtMostQuotient(x: real, y: real, z: real)
    requires z > 0.0 && y <= z * x
    ensures y / z <= x
  {
    QuotientAtMost(x, y, z);
  }

  lemma FirstPosition(c: Plan, p: real, its: nat)
    requires c.Valid() && c.IsPosition(p, its) && its >= c.FirstCheck()
    ensures p >= c.minPeriod
  {
    Before(c, p, its, c.minPeriod);
  }

  // ----- short steps, before half a second

  function Early(p: real): real {
    if p <= 0.4995 then p else 0.4995
  }

  /** When a check is made that leads to a short step: on time, but for a first sleep of a millisecond. */
  function ShortTime(p: real, windowSleep: nat): real {
    if windowSleep == 0 then Early(p) - 0.001 else Early(p)
  }

  lemma ShortSleep(p: real, windowSleep: nat)
    requires 0.05 <= p < 0.5 && windowSleep <= 1
    ensures var now := ShortTime(p, windowSleep);
      now >= 0.049 && windowSleep + Slept(p, now) == 1 && Awake(p, now) == Early(p)
  {
  }

  lemma ShortCheck(c: Plan, p: real, windowSleep: nat)
    requires c.Valid() && 0.05 <= p < 0.5 && windowSleep <= 1
    ensures var now := ShortTime(p, windowSleep);
      && c.Denominator(p, now, windowSleep) > 0.0
      && (c.NextInterval(p, now, windowSleep) <= 1 || c.NextInterval(p, now, windowSleep) == c.LeastInterval(p))
  {
    var now := ShortTime(p, windowSleep);
    var d := c.Denominator(p, now, windowSleep);
    hide Plan.Integral, Plan.LeastInterval;
    assert d > 0.0;
    QuotientAtMost(0.0, 1.0 / SLEEP_GRANULARITY + now * 2.0 - 1.0, d);
  }

  // ----- jumps, from half a second on

  lemma JumpsInOrder(g: real, k: real, g': real, k': real)
    requires 0.4995 < g <= g' && 0.0 <= k <= k'
    ensures (k * g + 0.999) / (k + 2.0) <= (k' * g' + 0.999) / (k' + 2.0)
  {
    var x, y := (k * g + 0.999) / (k + 2.0), (k' * g' + 0.999) / (k' + 2.0);
    Between(g, k, x);
    Between(g', k', y);
    if y < x {
      ProductsInOrder(k, g - x, k', g' - y);
      assert false;
    }
  }

  lemma ProductsInOrder(a: real, b: real, c: real, d: real)
    requires 0.0 <= a <= c && 0.0 <= b <= d
    ensures a * b <= c * d
  {
    assert (c - a) * d >= 0.0;
    assert a * (d - b) >= 0.0;
  }

  /** Later checks of longer jumps are later. */
  lemma LaterJump(c: Plan, p: real, q: real, windowSleep: nat, n: nat, n': nat)
    requires c.Valid() && 0.5 <= p <= q && 1 <= n <= n'
    ensures JumpTime(c, p, windowSleep, n) <= JumpTime(c, q, windowSleep, n')
  {
    JumpsInOrder(GivesUp(c, p, windowSleep), 1001000.0 * (n as real - 0.5),
                 GivesUp(c, q, windowSleep), 1001000.0 * (n' as real - 0.5));
  }

  /** A jump so near to the time at which the ramp is given up needs no sleep. */
  lemma NoSleep(c: Plan, p: real, windowSleep: nat, n: nat)
    requires c.Valid() && p >= 0.5 && n >= 1
    requires (n as real - 0.5) * (1000.0 * (c.Integral() + windowSleep as real - p) + 500.5) >= 2.0 * p - 1.0
    ensures Slept(p, JumpTime(c, p, windowSleep, n)) == 0
  {
    var g, h, now := GivesUp(c, p, windowSleep), n as real - 0.5, JumpTime(c, p, windowSleep, n);
    var k := 1001000.0 * h;
    hide Plan.Integral;
    assert 1001.0 * (g - p) == c.Integral() + windowSleep as real - p;
    assert k * (g - p) == 1000.0 * h * (1001.0 * (g - p));
    assert now * (k + 2.0) == k * g + 0.999;
    assert (now - (p - 0.0005)) * (k + 2.0) >= 0.0;
    Sign(now - (p - 0.0005), k + 2.0);
  }

  // ----- a clock under which the limit is met

  /** A check comes up at an iteration of the ramp before the limit. */
  predicate Due(c: Plan, limit: nat, its: nat)
    requires c.Valid()
  {
    && 1 <= its < limit <= U32 && its < c.RampEnds() && limit < c.RampEnds() + INT_MAX
    && c.StallBefore() <= c.FirstCheck() <= its && c.FirstCheck() <= MANY
  }

  /** How far a check jumps: to the limit, or to a check before the end of the ramp that can reach it. */
  function JumpLength(c: Plan, limit: nat, its: nat): (n: nat)
    requires c.Valid() && Due(c, limit, its)
    ensures 1 <= n <= INT_MAX
  {
    if its + INT_MAX >= limit then INT_MAX
    else if its + 2 * INT_MAX < limit then 1
    else if c.RampEnds() - 1 - its < INT_MAX then c.RampEnds() - 1 - its
    else INT_MAX
  }

  function JumpReading(c: Plan, limit: nat, p: real, its: nat, windowSleep: nat): Reading
    requires c.Valid() && Due(c, limit, its)
  {
    Reading(its, JumpTime(c, p, windowSleep, JumpLength(c, limit, its)), windowSleep)
  }

  /** All jumps from here to the limit are long enough, and, but for the last, need no sleep. */
  predicate Jumpable(c: Plan, p: real, limit: nat, its: nat, windowSleep: nat)
    requires c.Valid() && Due(c, limit, its)
  {
    var n := JumpLength(c, limit, its);
    && p >= 0.5 && c.LeastInterval(p) <= n
    && (its + n < limit ==> Slept(p, JumpTime(c, p, windowSleep, n)) == 0)
  }

  lemma JumpStays(c: Plan, p: real, limit: nat, its: nat, windowSleep: nat)
    requires c.Valid() && c.IsPosition(p, its) && Due(c, limit, its) && Jumpable(c, p, limit, its, windowSleep)
    ensures var r := JumpReading(c, limit, p, its, windowSleep);
      && StaysOn(c, p, r) && r.now >= 0.4995
      && c.NextInterval(p, r.now, windowSleep) == JumpLength(c, limit, its)
  {
    CanJump(c, p, windowSleep, JumpLength(c, limit, its));
  }

  lemma LaterPosition(c: Plan, p: real, its: nat, q: real, later: nat)
    requires c.Valid() && c.IsPosition(p, its) && c.IsPosition(q, later) && its <= later
    ensures p <= q
  {
    assert c.Integral() * (later as real - its as real) >= 0.0;
    SquaresInOrder(q, p);
  }

  /** A jump to another check, which jumps as well. */
  lemma JumpFollowed(c: Plan, p: real, q: real, limit: nat, its: nat, windowSleep: nat)
    requires c.Valid() && Due(c, limit, its) && c.IsPosition(p, its) && Jumpable(c, p, limit, its, windowSleep)
    requires its + JumpLength(c, limit, its) < limit && c.IsPosition(q, its + JumpLength(c, limit, its))
    ensures var next := its + JumpLength(c, limit, its);
      && Due(c, limit, next) && q >= 0.5
      && StaysOn(c, p, JumpReading(c, limit, p, its, windowSleep))
      && Follows(c, p, JumpReading(c, limit, p, its, windowSleep), JumpReading(c, limit, q, next, windowSleep))
  {
    var n := JumpLength(c, limit, its);
    hide Plan.Denominator, Plan.NextInterval, Plan.LeastInterval, Plan.Integral;
    JumpStays(c, p, limit, its, windowSleep);
    LaterPosition(c, p, its, q, its + n);
    LaterJump(c, p, q, windowSleep, n, JumpLength(c, limit, its + n));
    hide JumpTime, Slept;
  }

  /** After a jump that is not to the second iteration, the limit is within reach of one more. */
  lemma NextJumpable(c: Plan, q: real, limit: nat, its: nat, windowSleep: nat)
    requires c.Valid() && Due(c, limit, its) && its + JumpLength(c, limit, its) < limit
    requires its + 2 * INT_MAX >= limit && q >= 0.5 && c.IsPosition(q, its + JumpLength(c, limit, its))
    ensures var next := its + JumpLength(c, limit, its);
      Due(c, limit, next) && next + INT_MAX >= limit && Jumpable(c, q, limit, next, windowSleep)
  {
    hide JumpTime, Slept, Plan.Integral, Plan.LeastInterval;
    LeastFits(c, q, its + JumpLength(c, limit, its));
  }

  lemma AddCheck(c: Plan, pos: nat -> real, limit: nat, r: Reading, rest: seq<Reading>)
    requires c.Valid() && Checks(c, pos, limit, rest)
    requires r.its < limit && StaysOn(c, pos(r.its), r) && Follows(c, pos(r.its), r, rest[0])
    ensures Checks(c, pos, limit, [r] + rest)
  {
    assert ([r] + rest)[1..] == rest;
    hide StaysOn, Follows, NoneFollows;
  }

  lemma LastJump(c: Plan, pos: nat -> real, limit: nat, its: nat, windowSleep: nat)
    requires c.Valid() && Positions(c, pos) && Due(c, limit, its) && its + JumpLength(c, limit, its) >= limit
    requires Jumpable(c, pos(its), limit, its, windowSleep)
    ensures Checks(c, pos, limit, [JumpReading(c, limit, pos(its), its, windowSleep)])
  {
    assert c.IsPosition(pos(its), its);
    JumpStays(c, pos(its), limit, its, windowSleep);
    hide JumpTime, Slept, Plan.Denominator, Plan.NextInterval, Plan.LeastInterval, Plan.Integral;
  }

  /** At most two jumps lead to the limit. */
  lemma TwoJumps(c: Plan, pos: nat -> real, limit: nat, its: nat, windowSleep: nat) returns (rs: seq<Reading>)
    requires c.Valid() && Positions(c, pos) && Due(c, limit, its) && its + 2 * INT_MAX >= limit
    requires Jumpable(c, pos(its), limit, its, windowSleep)
    ensures Checks(c, pos, limit, rs) && rs[0] == JumpReading(c, limit, pos(its), its, windowSleep)
  {
    var p, n := pos(its), JumpLength(c, limit, its);
    if its + n >= limit {
      LastJump(c, pos, limit, its, windowSleep);
      return [JumpReading(c, limit, p, its, windowSleep)];
    }
    var q := pos(its + n);
    assert c.IsPosition(p, its) && c.IsPosition(q, its + n);
    hide Jumpable, JumpTime, Slept, StaysOn, Follows, Checks, Plan.IsPosition, Plan.LeastInterval, Plan.Integral;
    JumpFollowed(c, p, q, limit, its, windowSleep);
    NextJumpable(c, q, limit, its, windowSleep);
    LastJump(c, pos, limit, its + n, windowSleep);
    rs := [JumpReading(c, limit, q, its + n, windowSleep)];
    AddCheck(c, pos, limit, JumpReading(c, limit, p, its, windowSleep), rs);
    rs := [JumpReading(c, limit, p, its, windowSleep)] + rs;
  }

  /** From the very first iteration to the largest limit it takes a third. */
  lemma ThreeJumps(c: Plan, pos: nat -> real, limit: nat, windowSleep: nat) returns (rs: seq<Reading>)
    requires c.Valid() && Positions(c, pos) && Due(c, limit, 1) && 1 + 2 * INT_MAX < limit
    requires Due(c, limit, 2) ==> Jumpable(c, pos(2), limit, 2, windowSleep)
    requires Jumpable(c, pos(1), limit, 1, windowSleep)
    ensures Checks(c, pos, limit, rs) && rs[0] == JumpReading(c, limit, pos(1), 1, windowSleep)
  {
    var p, q := pos(1), pos(2);
    assert c.IsPosition(p, 1) && c.IsPosition(q, 2);
    hide Jumpable, JumpTime, Slept, StaysOn, Follows, Checks, Plan.IsPosition, Plan.LeastInterval, Plan.Integral;
    JumpFollowed(c, p, q, limit, 1, windowSleep);
    rs := TwoJumps(c, pos, limit, 2, windowSleep);
    AddCheck(c, pos, limit, JumpReading(c, limit, p, 1, windowSleep), rs);
    rs := [JumpReading(c, limit, p, 1, windowSleep)] + rs;
  }

  // ----- the jumps after short steps

  lemma EndIsFar(c: Plan)
    requires c.Valid()
    ensures c.Integral() * c.RampEnds() as real >= 1.0
  {
    var t := c.rampTime as real;
    assert c.Integral() * (t * c.rate / 2.0) == t * t;
    assert c.Integral() * (c.RampEnds() as real - t * c.rate / 2.0) >= 0.0;
    assert t * t >= 1.0;
  }

  lemma LeastIsShort(i: real, m: real, p: real, least: int)
    requires i > 0.0 && 0.0 < m <= 0.1 && 0.0 <= p && p * p < 0.5
    requires 2 <= least && least as real <= (p * 2.0 + m) * m / i + 0.5
    ensures i * least as real <= 0.304
  {
    SquaresInOrder(0.7072, p);
    ProductsInOrder(p * 2.0 + m, m, 1.5144, 0.1);
    RoundedStep(i, (p * 2.0 + m) * m, least);
  }

  lemma LeastRoom(i: real, its: real, e: real, least: real)
    requires i > 0.0 && i * its < 0.5 && i * e >= 1.0 && least >= 2.0 && i * least <= 0.304
    ensures least <= e - 1.0 - its
  {
    var a, b, l := i * its, i * e, i * least;
    assert i <= 0.152 by {
      assert i * (least - 2.0) >= 0.0;
    }
    var room := e - 1.0 - its - least;
    assert room * i == b - i - a - l;
    assert room * i >= 0.0;
    Sign(room, i);
    assert room >= 0.0;
  }

  lemma LeastOf(c: Plan, p: real)
    requires c.Valid()
    ensures c.LeastInterval(p) as real <= (p * 2.0 + c.minPeriod) * c.minPeriod / c.Integral() + 0.5
  {
    hide Plan.Integral;
  }

  /** After short steps, the end of the ramp is farther than the shortest interval. */
  lemma RoomForLeast(c: Plan, p: real, its: nat)
    requires c.Valid() && c.IsPosition(p, its) && p * p < 0.5 && its < c.RampEnds() - 1
    ensures c.LeastInterval(p) <= c.RampEnds() - 1 - its
  {
    hide Plan.Integral, Plan.LeastInterval, Plan.RampEnds;
    EndIsFar(c);
    LeastOf(c, p);
    Room(c.Integral(), c.minPeriod, p, its as real, c.RampEnds() as real, c.LeastInterval(p));
  }

  lemma Room(i: real, m: real, p: real, its: real, e: real, least: int)
    requires i > 0.0 && 0.0 < m <= 0.1 && 0.0 <= p && p * p == i * its && p * p < 0.5 && i * e >= 1.0
    requires its + 1.0 <= e - 1.0 && least as real <= (p * 2.0 + m) * m / i + 0.5
    ensures least as real <= e - 1.0 - its
  {
    if least >= 2 {
      LeastIsShort(i, m, p, least);
      LeastRoom(i, its, e, least as real);
    }
  }

  lemma LaterJumpable(c: Plan, p: real, limit: nat, its: nat)
    requires c.Valid() && Due(c, limit, its) && its >= 2 && c.IsPosition(p, its) && p >= 0.5 && p * p < 0.5
    ensures Jumpable(c, p, limit, its, 1)
  {
    hide Plan.Integral, Plan.LeastInterval, Plan.RampEnds, Plan.FirstCheck, Plan.StallBefore, Slept, JumpTime;
    var n := JumpLength(c, limit, its);
    LeastFits(c, p, its);
    if n < INT_MAX {
      RoomForLeast(c, p, its);
    }
    SquaresInOrder(p, 1.0);
    ProductsInOrder(0.5, 500.5, n as real - 0.5, 1000.0 * (c.Integral() + 1.0 - p) + 500.5);
    NoSleep(c, p, 1, n);
  }

  // ----- the jumps from the first iteration

  /** Only the very first iteration can be both the first check and half a second into the ramp. */
  lemma FirstIsOne(c: Plan, p: real)
    requires c.Valid() && c.IsPosition(p, c.FirstCheck()) && p >= 0.5
    ensures c.FirstCheck() == 1
  {
    hide Plan.Integral;
    CeilIsOne(c.Integral(), c.minPeriod, p, c.FirstCheck());
  }

  lemma CeilIsOne(i: real, m: real, p: real, f: nat)
    requires i > 0.0 && 0.0 < m <= 0.1 && p >= 0.5 && p * p == i * f as real && f >= 1
    requires f as real < m * m / i + 1.0
    ensures f == 1
  {
    ProductsInOrder(m, m, 0.1, 0.1);
    ProductsInOrder(0.5, 0.5, p, p);
    assert i * (m * m / i) == m * m;
    BelowTwo(i, m * m / i, f as real);
  }

  lemma BelowTwo(i: real, a: real, x: real)
    requires i > 0.0 && i * a <= 0.01 && i * x >= 0.25 && x < a + 1.0
    ensures x < 2.0
  {
    assert i > 0.24 by {
      PositiveProduct(i, a + 1.0 - x);
    }
    if a >= 0.5 {
      ProductsInOrder(0.24, 0.5, i, a);
    }
  }

  lemma FirstJumpable(c: Plan, p: real, limit: nat)
    requires c.Valid() && Due(c, limit, 1) && c.IsPosition(p, 1) && p >= 0.5
    ensures Jumpable(c, p, limit, 1, 0)
  {
    hide Plan.Integral, Plan.LeastInterval, Plan.RampEnds, Plan.FirstCheck, Plan.StallBefore, Slept, JumpTime;
    var n := JumpLength(c, limit, 1);
    assert c.Integral() == p * p;
    LeastIsZero(c, p);
    FirstLeast(c.minPeriod, p);
    AtOne(p);
    ProductsInOrder(0.5, 1000.0 * (p * p - p) + 500.5, n as real - 0.5, 1000.0 * (c.Integral() + 0.0 - p) + 500.5);
    NoSleep(c, p, 0, n);
  }

  lemma FirstLeast(m: real, p: real)
    requires (m == 0.05 || m == 0.1) && p >= 0.5
    ensures p < (p * p / (2.0 * m) - m) / 2.0
  {
    ProductsInOrder(0.5, 0.1, p, p - 0.4);
    assert p * p - 0.4 * p >= 0.05;
    assert p * p - 4.0 * m * p - 2.0 * m * m > 0.0;
  }

  lemma AtOne(p: real)
    ensures 1000.0 * (p * p - p) + 500.5 >= 0.0
    ensures 0.5 * (1000.0 * (p * p - p) + 500.5) >= 2.0 * p - 1.0
  {
    var x := p - 0.502;
    assert x * x >= 0.0;
  }

  lemma SecondJumpable(c: Plan, q: real, limit: nat)
    requires c.Valid() && Due(c, limit, 2) && c.IsPosition(q, 2) && c.Integral() >= 0.25 && 1 + 2 * INT_MAX < limit
    ensures Jumpable(c, q, limit, 2, 0)
  {
    hide Plan.Integral, Plan.LeastInterval, Plan.RampEnds, Plan.FirstCheck, Plan.StallBefore, Slept, JumpTime;
    var n := JumpLength(c, limit, 2);
    SquaresInOrder(q, 0.5);
    LeastFits(c, q, 2);
    AtTwo(q);
    ProductsInOrder(1000.0, 500.0 * (q * q - 2.0 * q) + 500.5, n as real - 0.5,
                    1000.0 * (c.Integral() + 0.0 - q) + 500.5);
    NoSleep(c, q, 0, n);
  }

  lemma AtTwo(q: real)
    ensures 500.0 * (q * q - 2.0 * q) + 500.5 >= 0.0
    ensures 1000.0 * (500.0 * (q * q - 2.0 * q) + 500.5) >= 2.0 * q - 1.0
  {
    var x := q - 1.0;
    assert x * x >= 0.0;
    var y := q - 1.000002;
    assert y * y >= 0.0;
  }

  lemma FirstIntegral(c: Plan, p: real)
    requires c.Valid() && c.IsPosition(p, 1) && p >= 0.5
    ensures c.Integral() >= 0.25
  {
    hide Plan.Integral;
    ProductsInOrder(0.5, 0.5, p, p);
  }

  lemma FirstJumps(c: Plan, pos: nat -> real, limit: nat) returns (rs: seq<Reading>)
    requires c.Valid() && Positions(c, pos) && Due(c, limit, 1) && pos(1) >= 0.5
    ensures Checks(c, pos, limit, rs) && rs[0] == JumpReading(c, limit, pos(1), 1, 0)
  {
    assert c.IsPosition(pos(1), 1) && c.IsPosition(pos(2), 2);
    hide Plan.Integral, Jumpable, Checks, JumpReading, Due, JumpLength;
    FirstJumpable(c, pos(1), limit);
    if 1 + 2 * INT_MAX < limit {
      FirstIntegral(c, pos(1));
      if Due(c, limit, 2) {
        SecondJumpable(c, pos(2), limit);
      }
      rs := ThreeJumps(c, pos, limit, 0);
    } else {
      rs := TwoJumps(c, pos, limit, 1, 0);
    }
  }

  // ----- the whole ramp

  /** The state in which a check comes up, before and after the first short step. */
  predicate Climbing(c: Plan, p: real, its: nat, windowSleep: nat)
    requires c.Valid()
  {
    if windowSleep == 0 then its == c.FirstCheck() else windowSleep == 1 && its >= 2 && p * p < 0.5
  }

  /** A short step from one check to the next, which is still on the ramp. */
  lemma ShortStaysOn(c: Plan, p: real, limit: nat, its: nat, windowSleep: nat) returns (r: Reading)
    requires c.Valid() && Due(c, limit, its) && c.IsPosition(p, its) && p < 0.5 && windowSleep <= 1
    ensures r == Reading(its, ShortTime(p, windowSleep), windowSleep) && r.now >= 0.0
    ensures StaysOn(c, p, r)
    ensures windowSleep + Slept(p, r.now) == 1 && Awake(p, r.now) == Early(p)
    ensures var n := c.NextInterval(p, r.now, r.windowSleep);
      n >= 1 && (n == 1 || n == c.LeastInterval(p))
  {
    r := Reading(its, ShortTime(p, windowSleep), windowSleep);
    hide Plan.Integral, Plan.LeastInterval, Plan.RampEnds, Plan.FirstCheck, Plan.Denominator, Plan.NextInterval;
    hide Plan.StallPosition, Plan.StallBefore, ShortTime;
    FirstPosition(c, p, its);
    ShortSleep(p, windowSleep);
    ShortCheck(c, p, windowSleep);
    LeastFits(c, p, its);
    StallTest(c, p, its);
    NoStall(c, p, r.now, windowSleep);
  }

  /** The next check after a short step is due as well, and before a second has passed. */
  lemma ShortStepDue(c: Plan, p: real, q: real, limit: nat, its: nat, n: nat)
    requires c.Valid() && Due(c, limit, its) && c.IsPosition(p, its) && p < 0.5
    requires n >= 1 && (n == 1 || n == c.LeastInterval(p)) && c.IsPosition(q, its + n) && its + n < limit
    ensures Due(c, limit, its + n) && Climbing(c, q, its + n, 1) && Early(p) <= Early(q)
  {
    hide Plan.Integral, Plan.LeastInterval, Plan.RampEnds, Plan.FirstCheck, Plan.StallBefore;
    ShortSteps(c, p, its, q, n);
    PositionTest(c, q, its + n);
    LaterPosition(c, p, its, q, its + n);
  }

  /** The jumps, once half a second is reached. */
  lemma Jumps(c: Plan, pos: nat -> real, limit: nat, its: nat, windowSleep: nat) returns (rs: seq<Reading>)
    requires c.Valid() && Positions(c, pos) && Due(c, limit, its)
    requires Climbing(c, pos(its), its, windowSleep) && pos(its) >= 0.5
    ensures Checks(c, pos, limit, rs) && rs[0].its == its && rs[0].windowSleep == windowSleep && rs[0].now >= 0.4995
  {
    var p := pos(its);
    assert c.IsPosition(p, its);
    hide Plan.Integral, Plan.IsPosition, Jumpable, Checks, JumpTime;
    if windowSleep == 0 {
      FirstIsOne(c, p);
      rs := FirstJumps(c, pos, limit);
      FirstJumpable(c, p, limit);
    } else {
      LaterJumpable(c, p, limit, its);
      rs := TwoJumps(c, pos, limit, its, 1);
    }
    JumpStays(c, p, limit, its, windowSleep);
  }

  /** Short steps lead to half a second, and jumps from there to the limit. */
  lemma {:induction false} Climb(c: Plan, pos: nat -> real, limit: nat, its: nat, windowSleep: nat)
      returns (rs: seq<Reading>)
    requires c.Valid() && Positions(c, pos) && Due(c, limit, its) && Climbing(c, pos(its), its, windowSleep)
    ensures Checks(c, pos, limit, rs) && rs[0].its == its && rs[0].windowSleep == windowSleep
    ensures rs[0].now >= 0.0 && (windowSleep == 1 ==> rs[0].now >= Early(pos(its)))
    decreases limit - its
  {
    var p := pos(its);
    assert c.IsPosition(p, its);
    hide Plan.Integral, Plan.IsPosition, Plan.NextInterval, Plan.LeastInterval, Plan.RampEnds, Slept;
    if p >= 0.5 {
      rs := Jumps(c, pos, limit, its, windowSleep);
    } else {
      var r := ShortStaysOn(c, p, limit, its, windowSleep);
      var n := c.NextInterval(p, r.now, windowSleep);
      rs := [r];
      if its + n < limit {
        var q := pos(its + n);
        assert c.IsPosition(q, its + n);
        ShortStepDue(c, p, q, limit, its, n);
        rs := Climb(c, pos, limit, its + n, 1);
        AddCheck(c, pos, limit, r, rs);
        rs := [r] + rs;
      }
    }
  }

  // ----- the result

  /** A single check that is the last, as its interval is zero. */
  lemma Stall(c: Plan, pos: nat -> real, limit: nat) returns (rs: seq<Reading>)
    requires c.Valid() && Positions(c, pos)
    requires c.FirstCheck() < limit && c.FirstCheck() < c.RampEnds() && c.FirstCheck() < c.StallBefore()
    ensures Checks(c, pos, limit, rs) && IsFirst(c, rs[0])
  {
    var f := c.FirstCheck();
    assert c.IsPosition(pos(f), f);
    hide Plan.Integral, Plan.LeastInterval, Plan.RampEnds, Plan.FirstCheck, Plan.NextInterval;
    hide Plan.Denominator, Plan.StallPosition, Plan.StallBefore;
    StallTest(c, pos(f), f);
    var now := CanStall(c, pos(f));
    rs := [Reading(f, now, 0)];
  }

  /**
   Some clock makes the ramp meet the limit, if and only if the settings allow it
   (Plan.CanMeet).
   */
  lemma MetIffCanMeet(c: Plan, pos: nat -> real, limit: nat)
    requires c.Valid() && Positions(c, pos) && c.FirstCheck() <= MANY && limit <= U32
    ensures Met(c, pos, limit) <==> c.CanMeet(limit)
  {
    hide Plan.RampEnds, Plan.FirstCheck, Plan.StallBefore;
    if limit > c.FirstCheck() {
      if c.CanMeet(limit) {
        if c.FirstCheck() < c.StallBefore() {
          var rs := Stall(c, pos, limit);
        } else {
          var rs := Climb(c, pos, limit, c.FirstCheck(), 0);
        }
      }
      if rs :| Checks(c, pos, limit, rs) && IsFirst(c, rs[0]) {
        ChecksCan(c, pos, limit, rs);
      }
    }
  }
}
