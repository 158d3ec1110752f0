/**
 The steady phase of WorkerThread::pace (src/WorkerThread.cpp:424-515): a feedback
 controller that decides how many iterations to run before reading the clock
 again, how long to sleep, and what deficit to carry into the next window.

 Times are real seconds on a monotone clock; Sleep(m) takes at least m milliseconds.
 */
module Pacing {

  const WINDOW_SIZE := 4.0
  const SLEEP_GRANULARITY := 1000.0

  /** The target rate (iterations per second) and the platform's minimum period between sleeps. */
  datatype Target = Target(rate: real, minPeriod: real) {
    predicate Valid() {
      rate > 0.0 && (minPeriod == 0.05 || minPeriod == 0.1)
    }

    function Period(): real
      requires Valid()
    {
      1.0 / rate
    }

    /** The time that n iterations are meant to take. */
    function Worth(n: int): real
      requires Valid()
    {
      Period() * n as real
    }

    function Fallback(): int {
      Ceil(rate)
    }

    function MinCheckFrequency(): int {
      Round(rate * minPeriod)
    }

    function FirstInterval(): int {
      var n := Ceil(if minPeriod * SLEEP_GRANULARITY < 1.0 then rate / SLEEP_GRANULARITY else rate * minPeriod);
      if n > Fallback() then Fallback() else n
    }
  }

  function Ceil(x: real): (n: int)
    ensures x <= n as real < x + 1.0
  {
    -(-x).Floor
  }

  /** Rounds halves away from zero, as round() does. */
  function Round(x: real): (n: int)
    ensures x - 0.5 <= n as real <= x + 0.5
  {
    if x >= 0.0 then (x + 0.5).Floor else -(-x + 0.5).Floor
  }

  /** The local variables of the steady loop. */
  datatype Pacer = Pacer(
    its: int, nextCheck: int, itsBeforeCheck: int,
    windowCount: int, windowPosition: real, windowStart: real, windowSleep: int)

  /** The clock during one iteration: at its end, after any sleep, and when a new window reads it. */
  datatype Tick = Tick(now: real, awake: real, windowRead: real)

  /** What one check decides. */
  datatype Decision = Decision(interval: int, slept: int, deficit: real)

  function Start(c: Target, its: int, now: real): Pacer {
    Pacer(its, its + c.FirstInterval(), c.FirstInterval(), 0, 0.0, now, 0)
  }

  function TargetSleep(c: Target, p: Pacer, now: real): real
    requires c.Valid()
  {
    (p.windowPosition + c.Worth(p.itsBeforeCheck) - (now - p.windowStart)) * SLEEP_GRANULARITY
  }

  /** Iterations before the next check, from the remaining sleep and the sleep so far in the window. */
  function Interval(c: Target, deficit: real, count: int, rest: real): int
    requires rest > 0.0
  {
    var n := Ceil((-deficit + 1.0) * count as real / rest);
    if n > c.Fallback() then c.Fallback()
    else if n < c.MinCheckFrequency() then c.MinCheckFrequency()
    else n
  }

  function Decide(c: Target, p: Pacer, now: real): Decision
    requires c.Valid()
  {
    var sleep := TargetSleep(c, p, now);
    if p.windowSleep as real <= -sleep then
      Decision(c.Fallback(), 0, sleep)
    else
      var slept := if sleep > 0.5 then Round(sleep) else 0;
      var deficit := sleep - slept as real;
      var rest := deficit + (p.windowSleep + slept) as real;
      Decision(Interval(c, deficit, p.windowCount + p.itsBeforeCheck, rest), slept, deficit)
  }

  function Carry(deficit: real): real {
    (if deficit < -(WINDOW_SIZE * SLEEP_GRANULARITY) then -(WINDOW_SIZE * SLEEP_GRANULARITY) else deficit)
    / SLEEP_GRANULARITY
  }

  predicate EndsWindow(c: Target, p: Pacer)
    requires c.Valid()
  {
    p.windowPosition + c.Worth(p.itsBeforeCheck) > WINDOW_SIZE
  }

  /** The loop variables after a check that decided d. */
  function Check(c: Target, p: Pacer, d: Decision, windowRead: real): Pacer
    requires c.Valid()
  {
    var q := p.(nextCheck := p.its + d.interval, itsBeforeCheck := d.interval);
    if EndsWindow(c, p) then
      q.(windowPosition := Carry(d.deficit), windowStart := windowRead, windowSleep := 0, windowCount := 0)
    else
      q.(windowPosition := p.windowPosition + c.Worth(p.itsBeforeCheck),
         windowCount := p.windowCount + p.itsBeforeCheck, windowSleep := p.windowSleep + d.slept)
  }

  // ----- whole runs

  /**
   A point of a run: the pacer, the time, and three quantities the code does not
   keep: the deficit carried into the current window, the iterations done before
   that window, and the time given up at window ends so far.
   */
  datatype State =
    | Running(p: Pacer, clock: real, carry: real, before: int, lost: real)
    | PacingError(interval: int)

  function Begin(c: Target, its: int, now: real): State {
    Running(Start(c, its, now), now, 0.0, 0, 0.0)
  }

  /** One pass of the loop: an iteration, then a check if one is due. */
  function Step(c: Target, s: State, t: Tick): State
    requires c.Valid()
  {
    if s.PacingError? then s
    else
      var p := s.p.(its := s.p.its + 1);
      if p.its != p.nextCheck then s.(p := p, clock := t.now)
      else Checking(c, s.(p := p), Decide(c, p, t.now), t)
  }

  function Checking(c: Target, s: State, d: Decision, t: Tick): State
    requires c.Valid() && s.Running?
  {
    if d.interval <= 0 then PacingError(d.interval)
    else
      var q := Check(c, s.p, d, t.windowRead);
      if EndsWindow(c, s.p) then
        Running(q, t.windowRead, q.windowPosition, s.before + s.p.windowCount + s.p.itsBeforeCheck,
                s.lost + GivenUp(c, s.p, q, t))
      else
        s.(p := q, clock := t.awake)
  }

  /** How far the new window (at its start plus its carry) lies beyond the old one's position. */
  function GivenUp(c: Target, p: Pacer, q: Pacer, t: Tick): real
    requires c.Valid()
  {
    t.windowRead + q.windowPosition - (p.windowStart + p.windowPosition + c.Worth(p.itsBeforeCheck))
  }

  /** What the clock and Sleep guarantee about a tick. */
  predicate Timely(c: Target, s: State, t: Tick)
    requires c.Valid()
  {
    s.Running? ==>
      && s.clock <= t.now <= t.awake <= t.windowRead
      && (s.p.its + 1 == s.p.nextCheck ==>
            t.now + Decide(c, s.p.(its := s.p.its + 1), t.now).slept as real / SLEEP_GRANULARITY <= t.awake)
  }

  /** A run: the states before and after each pass of the loop. */
  ghost predicate IsRun(c: Target, its: int, start: real, ticks: seq<Tick>, states: seq<State>)
    requires c.Valid()
  {
    && |states| == |ticks| + 1 && states[0] == Begin(c, its, start)
    && forall i {:trigger ticks[i]} :: 0 <= i < |ticks| ==>
         Timely(c, states[i], ticks[i]) && states[i + 1] == Step(c, states[i], ticks[i])
  }

  // ----- the invariant of every run

  ghost predicate Intervals(c: Target, s: State)
    requires c.Valid() && s.Running?
  {
    var p := s.p;
    && 1 <= p.itsBeforeCheck <= c.Fallback()
    && p.nextCheck - p.itsBeforeCheck <= p.its < p.nextCheck
    && 0 <= p.windowCount && 0 <= p.windowSleep
  }

  ghost predicate Accounts(c: Target, s: State, its: int, start: real)
    requires c.Valid() && s.Running?
  {
    var p := s.p;
    && s.before + p.windowCount == p.nextCheck - p.itsBeforeCheck - its
    && p.windowPosition == s.carry + c.Worth(p.windowCount)
    && c.Worth(s.before) + s.lost == p.windowStart - start + s.carry
    && 0.0 <= s.lost
    && -WINDOW_SIZE <= s.carry <= 0.0005
    && p.windowPosition <= s.clock - p.windowStart + 0.0005
  }

  ghost predicate Inv(c: Target, s: State, its: int, start: real)
    requires c.Valid()
  {
    s.Running? && Intervals(c, s) && Accounts(c, s, its, start)
  }

  lemma CeilMonotone(x: real, y: real)
    requires x <= y
    ensures Ceil(x) <= Ceil(y) && Round(x) <= Ceil(y)
  {
  }

  lemma FirstIntervalInRange(c: Target)
    requires c.Valid()
    ensures 1 <= c.FirstInterval() <= c.Fallback()
  {
    assert c.rate * c.minPeriod > 0.0;
  }

  lemma PositiveQuotient(a: real, b: real)
    requires a > 0.0 && b > 0.0
    ensures a / b > 0.0
  {
  }

  lemma PositiveProduct(a: real, b: real)
    requires a > 0.0 && b > 0.0
    ensures a * b > 0.0
  {
  }

  lemma IntervalInRange(c: Target, deficit: real, count: int, rest: real)
    requires c.Valid() && deficit <= 0.5 && 1 <= count && rest > 0.0
    ensures 1 <= Interval(c, deficit, count, rest) <= c.Fallback()
  {
    hide Target.Fallback, Target.MinCheckFrequency;
    PositiveProduct(-deficit + 1.0, count as real);
    PositiveQuotient((-deficit + 1.0) * count as real, rest);
    MinCheckWithinFallback(c);
  }

  /** Every check picks an interval from 1 to ceil(rate): the pacing error cannot be thrown. */
  lemma DecisionInRange(c: Target, p: Pacer, now: real)
    requires c.Valid() && 0 <= p.windowSleep && 0 <= p.windowCount && 1 <= p.itsBeforeCheck
    ensures 1 <= Decide(c, p, now).interval <= c.Fallback()
  {
    hide TargetSleep, Interval, Round;
    var sleep := TargetSleep(c, p, now);
    MinCheckWithinFallback(c);
    if p.windowSleep as real > -sleep {
      var slept := if sleep > 0.5 then Round(sleep) else 0;
      var deficit := sleep - slept as real;
      IntervalInRange(c, deficit, p.windowCount + p.itsBeforeCheck, deficit + (p.windowSleep + slept) as real);
    }
  }

  lemma MinCheckWithinFallback(c: Target)
    requires c.Valid()
    ensures c.MinCheckFrequency() <= c.Fallback() && 1 <= c.Fallback()
  {
    assert c.rate * c.minPeriod <= c.rate;
    CeilMonotone(c.rate * c.minPeriod, c.rate);
  }

  /** A check sleeps away a positive target to within half a millisecond. */
  lemma DecisionSleeps(c: Target, p: Pacer, now: real)
    requires c.Valid() && 0 <= p.windowSleep
    ensures var d := Decide(c, p, now); d.deficit == TargetSleep(c, p, now) - d.slept as real
    ensures 0 <= Decide(c, p, now).slept && Decide(c, p, now).deficit <= 0.5
    ensures TargetSleep(c, p, now) >= -0.5 ==> Decide(c, p, now).deficit >= -0.5
  {
  }

  lemma WorthAdds(c: Target, a: int, b: int)
    requires c.Valid()
    ensures c.Worth(a + b) == c.Worth(a) + c.Worth(b) && c.Worth(0) == 0.0
    ensures 1 <= a ==> c.Worth(a) > 0.0
  {
    if 1 <= a { PositiveProduct(c.Period(), a as real); }
  }

  ghost predicate SoundDecision(c: Target, p: Pacer, now: real, d: Decision)
    requires c.Valid()
  {
    && 1 <= d.interval <= c.Fallback() && 0 <= d.slept
    && d.deficit == TargetSleep(c, p, now) - d.slept as real && d.deficit <= 0.5
  }

  ghost predicate CheckDue(c: Target, s: State, d: Decision, t: Tick, its: int, start: real)
    requires c.Valid()
  {
    && s.Running? && SoundDecision(c, s.p, t.now, d)
    && s.p.its == s.p.nextCheck && Accounts(c, s, its, start)
    && 1 <= s.p.itsBeforeCheck && 0 <= s.p.windowCount && 0 <= s.p.windowSleep
    && s.clock <= t.now <= t.awake <= t.windowRead
    && t.now + d.slept as real / SLEEP_GRANULARITY <= t.awake
  }

  lemma CheckingInWindow(c: Target, s: State, d: Decision, t: Tick, its: int, start: real)
    requires c.Valid() && CheckDue(c, s, d, t, its, start) && !EndsWindow(c, s.p)
    ensures Inv(c, Checking(c, s, d, t), its, start)
  {
    hide Carry, Target.Worth, Target.Fallback;
    var p := s.p;
    WorthAdds(c, p.windowCount, p.itsBeforeCheck);
    SleepCatchesUp(p.windowPosition + c.Worth(p.itsBeforeCheck), p.windowStart, d.deficit, d.slept as real, t);
  }

  lemma CheckingEndsWindow(c: Target, s: State, d: Decision, t: Tick, its: int, start: real)
    requires c.Valid() && CheckDue(c, s, d, t, its, start) && EndsWindow(c, s.p)
    ensures Inv(c, Checking(c, s, d, t), its, start)
  {
    hide Carry, Target.Worth, Target.Fallback;
    var p := s.p;
    WorthAdds(c, p.windowCount, p.itsBeforeCheck);
    WorthAdds(c, s.before, p.windowCount + p.itsBeforeCheck);
    SleepCatchesUp(p.windowPosition + c.Worth(p.itsBeforeCheck), p.windowStart, d.deficit, d.slept as real, t);
  }

  /** After a check the window position is no more than half a millisecond ahead of the clock. */
  lemma SleepCatchesUp(position: real, windowStart: real, deficit: real, slept: real, t: Tick)
    requires deficit == (position - (t.now - windowStart)) * SLEEP_GRANULARITY - slept && deficit <= 0.5
    requires t.now + slept / SLEEP_GRANULARITY <= t.awake <= t.windowRead
    ensures position <= t.awake - windowStart + 0.0005
    ensures windowStart + position <= t.windowRead + Carry(deficit)
    ensures -WINDOW_SIZE <= Carry(deficit) <= 0.0005
  {
  }

  lemma StepKeepsInv(c: Target, s: State, t: Tick, its: int, start: real)
    requires c.Valid() && Inv(c, s, its, start) && Timely(c, s, t)
    ensures Inv(c, Step(c, s, t), its, start)
  {
    hide Decide, TargetSleep, Checking;
    var p := s.p.(its := s.p.its + 1);
    if p.its == p.nextCheck {
      DecisionInRange(c, p, t.now);
      DecisionSleeps(c, p, t.now);
      if EndsWindow(c, p) {
        CheckingEndsWindow(c, s.(p := p), Decide(c, p, t.now), t, its, start);
      } else {
        CheckingInWindow(c, s.(p := p), Decide(c, p, t.now), t, its, start);
      }
    }
  }

  /** The invariant holds at every point of every run. */
  lemma {:induction false} RunKeepsInv(c: Target, its: int, start: real, ticks: seq<Tick>, states: seq<State>, i: nat)
    requires c.Valid() && IsRun(c, its, start, ticks, states) && i < |states|
    ensures Inv(c, states[i], its, start)
  {
    if i == 0 {
      FirstIntervalInRange(c);
    } else {
      RunKeepsInv(c, its, start, ticks, states, i - 1);
      var t := ticks[i - 1];
      StepKeepsInv(c, states[i - 1], t, its, start);
    }
  }

  // ----- what the invariant means

  /** Iterations up to the last check. */
  function Checked(s: State, its: int): int
    requires s.Running?
  {
    s.p.nextCheck - s.p.itsBeforeCheck - its
  }

  /**
   The rate cap, at every point of every run: iterations up to the last check are
   within rate * (elapsed + half a millisecond), and fewer than ceil(rate) have
   been added since.
   */
  lemma RateCap(c: Target, its: int, start: real, ticks: seq<Tick>, states: seq<State>, i: nat)
    requires c.Valid() && IsRun(c, its, start, ticks, states) && i < |states|
    ensures var s := states[i];
      && s.Running?
      && Checked(s, its) as real <= c.rate * (s.clock - start + 0.0005)
      && Checked(s, its) <= s.p.its - its < Checked(s, its) + c.Fallback()
  {
    RunKeepsInv(c, its, start, ticks, states, i);
    InvCapsRate(c, states[i], its, start);
  }

  lemma InvCapsRate(c: Target, s: State, its: int, start: real)
    requires c.Valid() && Inv(c, s, its, start)
    ensures Checked(s, its) as real <= c.rate * (s.clock - start + 0.0005)
  {
    hide Target.Worth;
    InvConservesTime(c, s, its, start);
    ScaleUp(c, Checked(s, its), s.clock - start + 0.0005);
  }

  lemma InvConservesTime(c: Target, s: State, its: int, start: real)
    requires c.Valid() && Inv(c, s, its, start)
    ensures c.Worth(Checked(s, its)) + s.lost == s.p.windowStart - start + s.p.windowPosition
  {
    hide Target.Worth;
    WorthAdds(c, s.before, s.p.windowCount);
  }

  lemma ScaleUp(c: Target, n: int, t: real)
    requires c.Valid() && c.Worth(n) <= t
    ensures n as real <= c.rate * t
  {
    assert c.rate * c.Worth(n) == n as real by {
      assert c.rate * c.Period() == 1.0;
    }
    assert c.rate * (t - c.Worth(n)) >= 0.0;
  }

  /**
   Time is conserved: the time that the checked iterations are worth, plus the
   time given up at window ends, is the time to the start of the window plus the
   position in it.
   */
  lemma ConservationOfTime(c: Target, its: int, start: real, ticks: seq<Tick>, states: seq<State>, i: nat)
    requires c.Valid() && IsRun(c, its, start, ticks, states) && i < |states|
    ensures var s := states[i];
      && s.Running? && 0.0 <= s.lost
      && c.Worth(Checked(s, its)) + s.lost == s.p.windowStart - start + s.p.windowPosition
      && s.p.windowPosition == s.carry + c.Worth(s.p.windowCount)
      && -WINDOW_SIZE <= s.carry <= 0.0005
  {
    RunKeepsInv(c, its, start, ticks, states, i);
    InvConservesTime(c, states[i], its, start);
  }

  /** The pacing error is unreachable, no check is skipped, and every interval is in range. */
  lemma NoPacingError(c: Target, its: int, start: real, ticks: seq<Tick>, states: seq<State>, i: nat)
    requires c.Valid() && IsRun(c, its, start, ticks, states) && i < |states|
    ensures var s := states[i];
      s.Running? && s.p.its < s.p.nextCheck && 1 <= s.p.itsBeforeCheck <= c.Fallback()
  {
    RunKeepsInv(c, its, start, ticks, states, i);
  }

  // ----- work that keeps within its time is done at the rate

  /** An iteration takes no longer than its period, and sleeps are exact. */
  predicate Planned(c: Target, s: State, t: Tick)
    requires c.Valid()
  {
    s.Running? ==>
      && s.clock <= t.now <= s.clock + c.Period() && t.awake == t.windowRead
      && t.awake == t.now + (if s.p.its + 1 == s.p.nextCheck then
                               Decide(c, s.p.(its := s.p.its + 1), t.now).slept as real / SLEEP_GRANULARITY
                             else 0.0)
  }

  /** Iterations since the last check. */
  function Since(s: State): int
    requires s.Running?
  {
    s.p.its - (s.p.nextCheck - s.p.itsBeforeCheck)
  }

  /** The clock is ahead of the position by no more than the iterations since the last check may take. */
  ghost predicate OnTime(c: Target, s: State)
    requires c.Valid()
  {
    && s.Running? && s.lost == 0.0
    && s.clock - s.p.windowStart <= s.p.windowPosition + 0.0005 + c.Worth(Since(s))
  }

  lemma PlannedChecking(c: Target, s: State, d: Decision, t: Tick)
    requires c.Valid() && s.Running? && s.lost == 0.0 && SoundDecision(c, s.p, t.now, d)
    requires TargetSleep(c, s.p, t.now) >= -0.5 ==> d.deficit >= -0.5
    requires s.p.its == s.p.nextCheck
    requires t.now - s.p.windowStart <= s.p.windowPosition + 0.0005 + c.Worth(s.p.itsBeforeCheck)
    requires t.awake == t.windowRead == t.now + d.slept as real / SLEEP_GRANULARITY
    ensures OnTime(c, Checking(c, s, d, t))
  {
    hide Target.Worth;
    WorthAdds(c, 0, 0);
  }

  lemma PlannedStep(c: Target, s: State, t: Tick, its: int, start: real)
    requires c.Valid() && Inv(c, s, its, start) && OnTime(c, s) && Planned(c, s, t)
    ensures OnTime(c, Step(c, s, t))
  {
    hide Decide, TargetSleep, Checking, Target.Worth;
    var p := s.p.(its := s.p.its + 1);
    WorthAdds(c, Since(s), 1);
    WorthOfOne(c);
    if p.its == p.nextCheck {
      DecisionInRange(c, p, t.now);
      DecisionSleeps(c, p, t.now);
      PlannedChecking(c, s.(p := p), Decide(c, p, t.now), t);
    }
  }

  lemma WorthOfOne(c: Target)
    requires c.Valid()
    ensures c.Worth(1) == c.Period()
  {
  }

  lemma {:induction false} PlannedRunOnTime(
      c: Target, its: int, start: real, ticks: seq<Tick>, states: seq<State>, i: nat)
    requires c.Valid() && IsRun(c, its, start, ticks, states) && i < |states|
    requires forall j {:trigger ticks[j]} :: 0 <= j < i ==> Planned(c, states[j], ticks[j])
    ensures OnTime(c, states[i])
  {
    if i == 0 {
      WorthAdds(c, 0, 0);
    } else {
      PlannedRunOnTime(c, its, start, ticks, states, i - 1);
      RunKeepsInv(c, its, start, ticks, states, i - 1);
      var t := ticks[i - 1];
      PlannedStep(c, states[i - 1], t, its, start);
    }
  }

  lemma ScaleDown(c: Target, n: int, t: real)
    requires c.Valid() && t <= c.Worth(n)
    ensures c.rate * t <= n as real
  {
    assert c.rate * c.Worth(n) == n as real by {
      assert c.rate * c.Period() == 1.0;
    }
    assert c.rate * (c.Worth(n) - t) >= 0.0;
  }

  /**
   While iterations take no longer than their period and sleeps are exact, the rate is
   met at every point of a run: the iterations so far are at least
   rate * (elapsed - half a millisecond), and at the last check were at most
   rate * (elapsed + half a millisecond), with fewer than ceil(rate) since.
   */
  lemma RateMet(c: Target, its: int, start: real, ticks: seq<Tick>, states: seq<State>, i: nat)
    requires c.Valid() && IsRun(c, its, start, ticks, states) && i < |states|
    requires forall j {:trigger ticks[j]} :: 0 <= j < i ==> Planned(c, states[j], ticks[j])
    ensures var s := states[i];
      && s.Running?
      && c.rate * (s.clock - start - 0.0005) <= (s.p.its - its) as real
      && Checked(s, its) as real <= c.rate * (s.clock - start + 0.0005)
      && s.p.its - its < Checked(s, its) + c.Fallback()
  {
    PlannedRunOnTime(c, its, start, ticks, states, i);
    RateCap(c, its, start, ticks, states, i);
    RunKeepsInv(c, its, start, ticks, states, i);
    hide Target.Worth, IsRun;
    var s := states[i];
    InvConservesTime(c, s, its, start);
    WorthAdds(c, Checked(s, its), Since(s));
    ScaleDown(c, s.p.its - its, s.clock - start - 0.0005);
  }

  // ----- the loop itself

  /** The clock and the interruptible sleep, as adversaries that only promise not to be early. */
  class Clock {
    var time: real

    method Now() returns (t: real)
      modifies this
      ensures old(time) <= t == time
    {
      var passed: real :| passed >= 0.0;
      time := time + passed;
      t := time;
    }

    /** A shutdown interrupts the sleep, at any time (src/Thread.cpp:154-165). */
    method Sleep(millis: int) returns (interrupted: bool)
      modifies this
      ensures old(time) <= time
      ensures !interrupted ==> old(time) + millis as real / SLEEP_GRANULARITY <= time
    {
      interrupted := *;
      var late: real :| late >= 0.0;
      time := time + late + if millis > 0 && !interrupted then millis as real / SLEEP_GRANULARITY else 0.0;
    }
  }

  class SteadyLoop {
    var its: int
    var nextCheck: int
    var itsBeforeCheck: int
    var windowCount: int
    var windowPosition: real
    var windowStart: real
    var windowSleep: int

    function Abs(): Pacer
      reads this
    {
      Pacer(its, nextCheck, itsBeforeCheck, windowCount, windowPosition, windowStart, windowSleep)
    }

    /**
     The body of the loop when a check is due; the results say whether a shutdown
     interrupted its sleep, and whether a pacing error is thrown.
     */
    method CheckPace(c: Target, clock: Clock) returns (interrupted: bool, error: bool, ghost t: Tick)
      requires c.Valid()
      modifies this, clock
      ensures its == old(its) && (interrupted ==> !error)
      ensures old(clock.time) <= t.now <= t.awake <= t.windowRead
      ensures !interrupted ==>
        var d := Decide(c, old(Abs()), t.now);
        && t.now + d.slept as real / SLEEP_GRANULARITY <= t.awake
        && error == (d.interval <= 0)
        && (!error ==> Abs() == Check(c, old(Abs()), d, t.windowRead))
      ensures !interrupted && !error ==> clock.time == if old(EndsWindow(c, Abs())) then t.windowRead else t.awake
    {
      interrupted := false;
      hide Interval, Round, Target.Worth, Target.Fallback;
      windowPosition := windowPosition + c.Worth(itsBeforeCheck);
      windowCount := windowCount + itsBeforeCheck;
      var read := clock.Now();
      var now := read - windowStart;
      var sleep := (windowPosition - now) * SLEEP_GRANULARITY;
      if windowSleep as real <= -sleep {
        itsBeforeCheck := c.Fallback();
      } else {
        if sleep > 0.5 {
          var sleepInt := Round(sleep);
          interrupted := clock.Sleep(sleepInt);
          if interrupted {
            return true, false, Tick(read, clock.time, clock.time);
          }
          windowSleep := windowSleep + sleepInt;
          sleep := sleep - sleepInt as real;
        }
        itsBeforeCheck := Interval(c, sleep, windowCount, sleep + windowSleep as real);
      }
      t := Tick(read, clock.time, clock.time);
      if itsBeforeCheck <= 0 {
        return false, true, t;
      }
      nextCheck := its + itsBeforeCheck;
      if windowPosition > WINDOW_SIZE {
        if sleep < -(WINDOW_SIZE * SLEEP_GRANULARITY) {
          sleep := -(WINDOW_SIZE * SLEEP_GRANULARITY);
        }
        windowPosition := sleep / SLEEP_GRANULARITY;
        windowStart := clock.Now();
        windowSleep, windowCount := 0, 0;
        t := t.(windowRead := clock.time);
      }
      return false, false, t;
    }

    /**
     The steady loop, ended after some number of iterations by a limit or a shutdown.
     Every execution is a run, with at most one iteration after its last recorded
     state, so no pacing error ever ends it.
     */
    method Steady(c: Target, clock: Clock, limit: nat)
      returns (interrupted: bool, error: bool, ghost ticks: seq<Tick>, ghost states: seq<State>)
      requires c.Valid() && 1 <= limit
      modifies this, clock
      ensures !error
      ensures exists start :: old(clock.time) <= start && IsRun(c, old(its), start, ticks, states)
      ensures its - old(its) <= limit
      ensures var s := states[|states| - 1];
        && s.Running? && s.p.its <= its <= s.p.its + 1
        && (!interrupted ==> Abs() == s.p.(its := its))
    {
      var first := its;
      itsBeforeCheck := c.FirstInterval();
      nextCheck := its + itsBeforeCheck;
      windowCount, windowPosition, windowSleep := 0, 0.0, 0;
      windowStart := clock.Now();
      ghost var start := windowStart;
      ticks, states := [], [Begin(c, its, start)];
      while true
        invariant IsRun(c, first, start, ticks, states)
        invariant states[|ticks|].Running? && Abs() == states[|ticks|].p && clock.time == states[|ticks|].clock
        invariant first == old(its) && its - first < limit
        decreases limit - (its - first)
      {
        var shutdown: bool := *;
        if shutdown {
          return false, false, ticks, states;
        }
        var ended := clock.Now();
        its := its + 1;
        ghost var t := Tick(ended, ended, ended);
        if its - first == limit {
          return false, false, ticks, states;
        }
        if its == nextCheck {
          interrupted, error, t := CheckPace(c, clock);
          if interrupted {
            return true, false, ticks, states;
          }
        }
        states := states + [Step(c, states[|ticks|], t)];
        ticks := ticks + [t];
        NoPacingError(c, first, start, ticks, states, |ticks|);
      }
    }
  }
}
