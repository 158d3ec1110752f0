/**
 What a check of the steady loop comes to, for every run (src/WorkerThread.cpp:424-513):
 how long it sleeps, how many iterations it waits for the next check, and what a new
 window starts with, in readings of the clock (seconds), sleeps (milliseconds) and
 counts of iterations.
 */
module CheckAnswers {
  import opened Pacing

  /** n is the least integer not below x. */
  predicate Least(n: int, x: real) {
    (n - 1) as real < x <= n as real
  }

  /** n is the integer nearest to x, the larger of two. */
  predicate Nearest(n: int, x: real) {
    x - 0.5 < n as real <= x + 0.5
  }

  /** Milliseconds slept by a check that is so much ahead: to the nearest one, but none up to half a millisecond. */
  predicate Sleeps(ahead: real, slept: int) {
    if ahead > 0.5 then Nearest(slept, ahead) else slept == 0
  }

  /**
   n is the least number of iterations that, at idle per iteration, make up for work; but
   no more than a second's worth of iterations, and otherwise no fewer than are due in
   the minimum period between sleeps.
   */
  predicate MakesUp(c: Target, work: real, idle: real, n: int) {
    var most, fewest := c.Fallback(), c.MinCheckFrequency();
    && Least(most, c.rate) && Nearest(fewest, c.rate * c.minPeriod)
    && (if work > most as real * idle then n == most
        else if work <= (fewest - 1) as real * idle then n == fewest
        else (n - 1) as real * idle < work <= n as real * idle)
  }

  /**
   After n iterations a millisecond of sleep is due, with owed milliseconds left to sleep
   now, if they go on at the sleep per iteration of the window: idle milliseconds in count.
   */
  predicate NextSleepDue(c: Target, owed: real, idle: real, count: int, n: int) {
    MakesUp(c, (1.0 - owed) * count as real, idle, n)
  }

  /**
   A check that comes so many milliseconds ahead of time after sleptBefore milliseconds
   of sleep and count iterations in its window: it sleeps, and the next check comes n
   iterations later, when another sleep is due.  If all that sleep does not make up for
   being late, the next check comes only after a second's worth of iterations.
   */
  predicate Answers(c: Target, ahead: real, sleptBefore: int, count: int, slept: int, n: int) {
    if sleptBefore as real <= -ahead then slept == 0 && Least(n, c.rate)
    else
      && Sleeps(ahead, slept)
      && NextSleepDue(c, ahead - slept as real, ahead + sleptBefore as real, count, n)
  }

  /** When, by the schedule, the iterations up to this check should have ended. */
  function Scheduled(c: Target, p: Pacer): real
    requires c.Valid()
  {
    p.windowStart + p.windowPosition + p.itsBeforeCheck as real / c.rate
  }

  /**
   What is kept for the iterations to come.  A window of more than four seconds ends: the
   schedule then moves on only by what the clock has moved beyond the sleep asked for,
   unless the check was more than four seconds behind, and then those four are kept.
   */
  predicate Keeps(c: Target, p: Pacer, t: Tick, slept: int, q: Pacer)
    requires c.Valid()
  {
    && q.its == p.its + 1 && q.nextCheck == q.its + q.itsBeforeCheck
    && (if p.windowPosition + p.itsBeforeCheck as real / c.rate > 4.0 then
          && q.windowStart == t.windowRead && q.windowCount == 0 && q.windowSleep == 0
          && (if t.now - Scheduled(c, p) + slept as real / 1000.0 <= 4.0 then
                q.windowStart + q.windowPosition == Scheduled(c, p) + (t.windowRead - t.now - slept as real / 1000.0)
              else q.windowPosition == -4.0)
        else
          && q.windowStart == p.windowStart && q.windowStart + q.windowPosition == Scheduled(c, p)
          && q.windowCount == p.windowCount + p.itsBeforeCheck && q.windowSleep == p.windowSleep + slept)
  }

  // ----- rounding up, and to the nearest

  lemma CeilIsLeast(x: real, n: int)
    ensures Least(n, x) <==> n == Ceil(x)
  {
  }

  lemma MoreIdle(m: int, n: int, idle: real)
    requires idle > 0.0 && m <= n
    ensures m as real * idle <= n as real * idle
  {
    assert (n - m) as real * idle >= 0.0;
  }

  lemma CeilOfQuotient(work: real, idle: real)
    requires idle > 0.0
    ensures var n := Ceil(work / idle); (n - 1) as real * idle < work <= n as real * idle
  {
    var q := work / idle;
    assert q * idle == work;
    Between(q, idle, work, (Ceil(q) - 1) as real, Ceil(q) as real);
  }

  lemma Between(q: real, idle: real, work: real, m: real, n: real)
    requires idle > 0.0 && m < q <= n && q * idle == work
    ensures m * idle < work <= n * idle
  {
    PositiveProduct(q - m, idle);
    assert (n - q) * idle >= 0.0;
    assert (q - m) * idle == q * idle - m * idle;
  }

  /** Where a number that is least in its way is clipped. */
  lemma Clipped(work: real, idle: real, n: int, most: int, fewest: int)
    requires idle > 0.0 && (n - 1) as real * idle < work <= n as real * idle && fewest <= most
    ensures var r := if n > most then most else if n < fewest then fewest else n;
      if work > most as real * idle then r == most
      else if work <= (fewest - 1) as real * idle then r == fewest
      else (r - 1) as real * idle < work <= r as real * idle
  {
    if n > most {
      MoreIdle(most, n - 1, idle);
    } else {
      MoreIdle(n, most, idle);
      if n < fewest {
        MoreIdle(n, fewest - 1, idle);
      } else {
        MoreIdle(fewest - 1, n - 1, idle);
      }
    }
  }

  lemma IntervalIsDue(c: Target, work: real, idle: real)
    requires c.Valid() && idle > 0.0
    ensures var n := Ceil(work / idle);
      MakesUp(c, work, idle, if n > c.Fallback() then c.Fallback()
                             else if n < c.MinCheckFrequency() then c.MinCheckFrequency() else n)
  {
    BoundsAre(c);
    MinCheckWithinFallback(c);
    CeilOfQuotient(work, idle);
    hide Target.Fallback, Target.MinCheckFrequency, Ceil, Least, Nearest;
    Clipped(work, idle, Ceil(work / idle), c.Fallback(), c.MinCheckFrequency());
  }

  lemma BoundsAre(c: Target)
    requires c.Valid()
    ensures Least(c.Fallback(), c.rate) && Nearest(c.MinCheckFrequency(), c.rate * c.minPeriod)
  {
    PositiveProduct(c.rate, c.minPeriod);
  }

  lemma Ahead(c: Target, p: Pacer, now: real)
    requires c.Valid()
    ensures TargetSleep(c, p, now) == (Scheduled(c, p) - now) * 1000.0
    ensures c.Worth(p.itsBeforeCheck) == p.itsBeforeCheck as real / c.rate
  {
    assert c.Worth(p.itsBeforeCheck) * c.rate == p.itsBeforeCheck as real * (c.Period() * c.rate);
    assert c.Period() * c.rate == 1.0;
    var x := p.itsBeforeCheck as real / c.rate;
    assert x * c.rate == p.itsBeforeCheck as real;
    assert (x - c.Worth(p.itsBeforeCheck)) * c.rate == 0.0;
  }

  lemma IntervalIs(c: Target, deficit: real, count: int, rest: real)
    requires rest > 0.0
    ensures var n := Ceil((1.0 - deficit) * count as real / rest);
      Interval(c, deficit, count, rest) ==
        if n > c.Fallback() then c.Fallback() else if n < c.MinCheckFrequency() then c.MinCheckFrequency() else n
  {
  }

  lemma SleepsToNearest(ahead: real)
    ensures Sleeps(ahead, if ahead > 0.5 then Round(ahead) else 0)
  {
  }

  lemma DecisionIs(c: Target, p: Pacer, now: real)
    requires c.Valid()
    ensures var d, ahead := Decide(c, p, now), TargetSleep(c, p, now);
      && d.deficit == ahead - d.slept as real
      && (if p.windowSleep as real <= -ahead then d.slept == 0 && d.interval == c.Fallback()
          else d.slept == (if ahead > 0.5 then Round(ahead) else 0)
               && d.interval == Interval(c, ahead - d.slept as real, p.windowCount + p.itsBeforeCheck,
                                         ahead + p.windowSleep as real))
  {
    hide TargetSleep, Interval, Round, Target.Fallback;
  }

  lemma IntervalAnswers(c: Target, owed: real, count: int, idle: real)
    requires c.Valid() && idle > 0.0
    ensures NextSleepDue(c, owed, idle, count, Interval(c, owed, count, idle))
  {
    IntervalIsDue(c, (1.0 - owed) * count as real, idle);
    IntervalIs(c, owed, count, idle);
    hide Interval, MakesUp, Ceil, Target.Fallback, Target.MinCheckFrequency;
  }

  lemma TargetAnswers(c: Target, p: Pacer, now: real)
    requires c.Valid()
    ensures var d, ahead := Decide(c, p, now), TargetSleep(c, p, now);
      && Answers(c, ahead, p.windowSleep, p.windowCount + p.itsBeforeCheck, d.slept, d.interval)
      && d.deficit == ahead - d.slept as real
  {
    hide Decide, TargetSleep, Interval, NextSleepDue, Sleeps, Round, Ceil, Least, Target.Fallback;
    var d, ahead := Decide(c, p, now), TargetSleep(c, p, now);
    DecisionIs(c, p, now);
    CeilIsLeast(c.rate, c.Fallback());
    SleepsToNearest(ahead);
    FallbackIs(c);
    if p.windowSleep as real > -ahead {
      IntervalAnswers(c, ahead - d.slept as real, p.windowCount + p.itsBeforeCheck, ahead + p.windowSleep as real);
    }
  }

  lemma FallbackIs(c: Target)
    ensures c.Fallback() == Ceil(c.rate)
  {
  }

  lemma DecisionAnswers(c: Target, p: Pacer, now: real)
    requires c.Valid()
    ensures var d, ahead := Decide(c, p, now), (Scheduled(c, p) - now) * 1000.0;
      && Answers(c, ahead, p.windowSleep, p.windowCount + p.itsBeforeCheck, d.slept, d.interval)
      && d.deficit == ahead - d.slept as real
  {
    hide TargetSleep, Answers, Decide, Scheduled;
    Ahead(c, p, now);
    TargetAnswers(c, p, now);
  }

  // ----- every check of every run

  lemma CheckKeeps(c: Target, p: Pacer, t: Tick)
    requires c.Valid() && t.awake <= t.windowRead
    ensures var q := p.(its := p.its + 1);
      Keeps(c, p, t, Decide(c, q, t.now).slept, Check(c, q, Decide(c, q, t.now), t.windowRead))
  {
    var q := p.(its := p.its + 1);
    Ahead(c, p, t.now);
    DecisionAnswers(c, q, t.now);
    assert Scheduled(c, q) == Scheduled(c, p);
    hide Decide, Target.Worth, TargetSleep, Answers;
  }

  /** A state after a check of a run, and the tick it came at. */
  ghost predicate Answered(c: Target, p: Pacer, t: Tick, slept: int, q: Pacer)
    requires c.Valid()
  {
    && Answers(c, (Scheduled(c, p) - t.now) * 1000.0, p.windowSleep, p.windowCount + p.itsBeforeCheck, slept,
               q.itsBeforeCheck)
    && t.now + slept as real / 1000.0 <= t.awake
    && Keeps(c, p, t, slept, q)
  }

  /** Every check of every run answers as stated, and between checks only the iterations are counted. */
  lemma ChecksAnswer(c: Target, its: int, start: real, ticks: seq<Tick>, states: seq<State>, i: nat)
    requires c.Valid() && IsRun(c, its, start, ticks, states) && i < |ticks|
    ensures states[i].Running? && states[i + 1].Running?
    ensures var p, q := states[i].p, states[i + 1].p;
      if p.its + 1 == p.nextCheck then exists slept :: Answered(c, p, ticks[i], slept, q)
      else q == p.(its := p.its + 1)
  {
    NoPacingError(c, its, start, ticks, states, i);
    NoPacingError(c, its, start, ticks, states, i + 1);
    var s, t := states[i], ticks[i];
    assert Timely(c, s, t) && states[i + 1] == Step(c, s, t);
    var p := s.p.(its := s.p.its + 1);
    if p.its == p.nextCheck {
      CheckAnswered(c, s, t);
    }
  }

  lemma CheckAnswered(c: Target, s: State, t: Tick)
    requires c.Valid() && s.Running? && Timely(c, s, t) && s.p.its + 1 == s.p.nextCheck && Step(c, s, t).Running?
    ensures exists slept :: Answered(c, s.p, t, slept, Step(c, s, t).p)
  {
    var p := s.p.(its := s.p.its + 1);
    var d := Decide(c, p, t.now);
    DecisionAnswers(c, p, t.now);
    CheckKeeps(c, s.p, t);
    assert Scheduled(c, p) == Scheduled(c, s.p);
    hide Decide, Keeps, Answers, Scheduled;
    assert Answered(c, s.p, t, d.slept, Step(c, s, t).p);
  }

  /** A run starts with a window at the time the loop is entered, and a first check after the minimum period's work. */
  lemma FirstCheckIs(c: Target, its: int, start: real, ticks: seq<Tick>, states: seq<State>)
    requires c.Valid() && IsRun(c, its, start, ticks, states)
    ensures states[0].Running?
    ensures var p := states[0].p;
      && p.its == its && p.nextCheck == its + p.itsBeforeCheck && Least(p.itsBeforeCheck, c.rate * c.minPeriod)
      && p.windowStart == start && p.windowPosition == 0.0 && p.windowCount == 0 == p.windowSleep
  {
    CeilMonotone(c.rate * c.minPeriod, c.rate);
    assert c.rate * c.minPeriod <= c.rate;
  }
}
