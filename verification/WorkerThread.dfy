/**
 WorkerThread::run and pace (src/WorkerThread.cpp:161-304, 386, 449) as code, with
 openSession, closeSession, oneIteration and the pacing checks as calls that may
 succeed, fail or be interrupted, and with shutdown signalled at any moment.
 Every execution is a run of the worker machine, and it terminates.
 */
module WorkerThread {
  import opened WorkerMachine
  import Ramp

  /** The control thread's count of running workers. */
  class RunnerCount {
    var runningWorkers: nat

    method IncRunners()
      modifies this
      ensures runningWorkers == old(runningWorkers) + 1
    {
      runningWorkers := runningWorkers + 1;
    }

    method DecRunners() returns (error: bool)
      modifies this
      ensures error <==> old(runningWorkers) == 0
      ensures runningWorkers == if error then 0 else old(runningWorkers) - 1
    {
      error := runningWorkers == 0;
      if !error {
        runningWorkers := runningWorkers - 1;
      }
    }
  }

  /** Iterations before the 32-bit counter next equals the limit. */
  function Left(c: Settings, its: nat): nat
    requires c.Valid() && its < U32
  {
    if its < c.messages then c.messages - 1 - its else c.messages + U32 - 1 - its
  }

  lemma LeftDescends(c: Settings, its: nat)
    requires c.Valid() && its < U32 && (its + 1) % U32 != c.messages
    ensures Left(c, (its + 1) % U32) < Left(c, its)
  {
  }

  function Raised(o: Outcome): Pc {
    if o == Failed then Catch else Finish
  }

  class Thread {
    const c: Settings
    const control: RunnerCount
    var state: Bits
    var iterations: nat
    var shutdown: bool
    ghost var events: seq<Event>
    ghost var w: Worker

    ghost predicate Synced()
      reads this
    {
      && c.Valid()
      && w == WorkerMachine.Run(c, FRESH, events)
      && state == w.state && iterations == w.iterations && shutdown == w.shutdown
    }

    constructor (c: Settings, control: RunnerCount)
      requires c.Valid()
      ensures Synced() && this.c == c && this.control == control && w == FRESH
    {
      this.c, this.control := c, control;
      state, iterations, shutdown := FRESH.state, 0, false;
      events, w := [], FRESH;
    }

    /** What only the session loop changes. */
    ghost predicate Kept(v: Worker)
      reads this
    {
      w.counted == v.counted && w.sessionCount == v.sessionCount
    }

    /** Records one action of this thread. */
    ghost method Note(o: Outcome, check: RampCheck)
      requires w == WorkerMachine.Run(c, FRESH, events)
      modifies this`events, this`w
      ensures w == WorkerMachine.Run(c, FRESH, events) == Step(c, old(w), Act(o, check))
    {
      var e := Act(o, check);
      assert (events + [e])[..|events|] == events;
      events, w := events + [e], Step(c, w, e);
    }

    /** Another thread may call signalShutdown here. */
    method Elsewhere()
      requires Synced()
      modifies this`shutdown, this`events, this`w
      ensures Synced() && w in {old(w), old(w).(shutdown := true)}
    {
      var signalled: bool := *;
      if signalled {
        assert (events + [Signal])[..|events|] == events;
        shutdown := true;
        events, w := events + [Signal], Step(c, w, Signal);
      }
    }

    /** openSession, closeSession, oneIteration or a check: any outcome, at any time. */
    method Call() returns (o: Outcome)
      requires Synced()
      modifies this`shutdown, this`events, this`w
      ensures Synced() && w in {old(w), old(w).(shutdown := true)}
    {
      Elsewhere();
      o := *;
    }

    method OpenSession(first: bool) returns (o: Outcome)
      requires Synced() && w.pc == OpenHead(first)
      modifies this
      ensures Synced() && Kept(old(w))
      ensures w.pc == if o != Ok then Raised(o) else if first then Opened else PaceHead(0, c.ramp)
      ensures o == Ok ==> w.nextCheck == c.plan.FirstCheck()
    {
      hide WorkerMachine.Run, Step;
      BeginOpening(first);
      o := Call();
      EndOpening(first, o);
    }

    method BeginOpening(first: bool)
      requires Synced() && w.pc == OpenHead(first)
      modifies this
      ensures Synced() && Kept(old(w)) && w.pc == OpenCall(first)
    {
      hide WorkerMachine.Run, PaceStep, ChangeStep, CloseStep, EndStep;
      state := state.(opening := true);
      Note(Ok, GivenUp);
    }

    method EndOpening(first: bool, o: Outcome)
      requires Synced() && w.pc == OpenCall(first)
      modifies this
      ensures Synced() && Kept(old(w))
      ensures w.pc == if o != Ok then Raised(o) else if first then Opened else PaceHead(0, c.ramp)
      ensures o == Ok ==> w.nextCheck == c.plan.FirstCheck()
    {
      hide WorkerMachine.Run, PaceStep, ChangeStep, CloseStep, EndStep;
      if o == Ok {
        state := state.(opening := false, open := true);
      }
      Note(o, GivenUp);
    }

    method CloseSession(last: bool) returns (o: Outcome)
      requires Synced() && w.pc == CloseHead(last)
      modifies this
      ensures Synced() && Kept(old(w))
      ensures w.pc == if o == Ok then (if last then Exit else Between) else if last then Aborted else Raised(o)
    {
      hide WorkerMachine.Run, Step;
      BeginClosing(last);
      o := Call();
      EndClosing(last, o);
    }

    method BeginClosing(last: bool)
      requires Synced() && w.pc == CloseHead(last)
      modifies this
      ensures Synced() && Kept(old(w)) && w.pc == CloseCall(last)
    {
      hide WorkerMachine.Run, OpenStep, PaceStep, ChangeStep, EndStep;
      state := state.(open := false, closing := true);
      Note(Ok, GivenUp);
    }

    method EndClosing(last: bool, o: Outcome)
      requires Synced() && w.pc == CloseCall(last)
      modifies this
      ensures Synced() && Kept(old(w))
      ensures w.pc == if o == Ok then (if last then Exit else Between) else if last then Aborted else Raised(o)
    {
      hide WorkerMachine.Run, OpenStep, PaceStep, ChangeStep, EndStep;
      if o == Ok {
        state := state.(closing := false);
      }
      Note(o, GivenUp);
    }

    method DoOneIteration(its: nat, ramping: bool) returns (o: Outcome, more: bool, next: nat)
      requires Synced() && w.pc == PaceHead(its, ramping) && its < U32
      modifies this
      ensures Synced() && Kept(old(w)) && next < U32
      ensures o != Ok ==> w.pc == Raised(o)
      ensures o == Ok && more ==> Left(c, next) < Left(c, its)
      ensures w.nextCheck == old(w.nextCheck)
      ensures o == Ok && more ==>
        w.pc == if c.paced && (ramping ==> next == w.nextCheck) then Checking(next, ramping)
                else PaceHead(next, ramping)
      ensures o == Ok && !more ==> w.pc == if ramping then PaceHead(next, false) else SessionEnd
    {
      hide WorkerMachine.Run, Step, Left;
      var stop := ShouldStop(its, ramping);
      if stop {
        return Ok, false, its;
      }
      o := OneIteration(its, ramping);
      next := (its + 1) % U32;
      more := o == Ok && next != c.messages;
      if more { LeftDescends(c, its); }
    }

    method ShouldStop(its: nat, ramping: bool) returns (stop: bool)
      requires Synced() && w.pc == PaceHead(its, ramping)
      modifies this
      ensures Synced() && Kept(old(w)) && w.nextCheck == old(w.nextCheck)
      ensures w.pc == if !stop then Iterating(its, ramping) else if ramping then PaceHead(its, false) else SessionEnd
    {
      hide WorkerMachine.Run, OpenStep, ChangeStep, CloseStep, EndStep;
      Elsewhere();
      Note(Ok, GivenUp);
      stop := shutdown;
    }

    method OneIteration(its: nat, ramping: bool) returns (o: Outcome)
      requires Synced() && w.pc == Iterating(its, ramping)
      modifies this
      ensures Synced() && Kept(old(w)) && w.nextCheck == old(w.nextCheck)
      ensures var next := (its + 1) % U32;
        w.pc == if o != Ok then Raised(o)
                else if next == c.messages then (if ramping then PaceHead(next, false) else SessionEnd)
                else if c.paced && (ramping ==> next == w.nextCheck) then Checking(next, ramping)
                else PaceHead(next, ramping)
    {
      hide WorkerMachine.Run, OpenStep, ChangeStep, CloseStep, EndStep;
      o := Call();
      if o == Ok {
        iterations := (iterations + 1) % U32;
      }
      Note(o, GivenUp);
    }

    /** A check of the steady loop. */
    method CheckPace(its: nat) returns (o: Outcome)
      requires Synced() && w.pc == Checking(its, false)
      modifies this
      ensures Synced() && Kept(old(w)) && w.pc == if o != Ok then Raised(o) else PaceHead(its, false)
    {
      hide WorkerMachine.Run, OpenStep, ChangeStep, CloseStep, EndStep;
      o := Call();
      Note(o, GivenUp);
    }

    /** A check of the ramp: it gives the ramp up, or finds it over, or sets the next check. */
    method CheckRamp(its: nat) returns (o: Outcome, ramping: bool, nextCheck: nat)
      requires Synced() && w.pc == Checking(its, true) && its == w.nextCheck
      modifies this
      ensures Synced() && Kept(old(w)) && (o == Ok ==> nextCheck == w.nextCheck)
      ensures w.pc == if o != Ok then Raised(o) else PaceHead(its, ramping)
    {
      hide WorkerMachine.Run, Step, Settings.Gap;
      o := Call();
      var check: RampCheck := *;
      RampCheckStep(c, w, Act(o, check));
      ramping := check.Next? && its < c.plan.RampEnds();
      nextCheck := if ramping then its + c.Gap(its, check.interval) else its;
      Note(o, check);
    }

    method Pace() returns (o: Outcome)
      requires Synced() && w.pc == PaceHead(0, c.ramp) && w.nextCheck == c.plan.FirstCheck()
      modifies this
      ensures Synced() && Kept(old(w))
      ensures w.pc == if o != Ok then Raised(o) else SessionEnd
    {
      hide WorkerMachine.Run, Step, Left;
      var its: nat, more := 0, true;
      if !c.paced {
        while more
          invariant Synced() && its < U32 && Kept(old(w))
          invariant w.pc == if more then PaceHead(its, false) else SessionEnd
          decreases more, Left(c, its)
        {
          o, more, its := DoOneIteration(its, false);
          if o != Ok { return; }
        }
        return Ok;
      }
      if c.ramp {
        o, its := RampUp();
        if o != Ok { return; }
      }
      while more
        invariant Synced() && its < U32 && Kept(old(w))
        invariant w.pc == if more then PaceHead(its, false) else SessionEnd
        decreases more, Left(c, its)
      {
        o, more, its := DoOneIteration(its, false);
        if o != Ok { return; }
        if more {
          o := CheckPace(its);
          if o != Ok { return; }
        }
      }
      return Ok;
    }

    /** The ramping loop, which may also be left with the limit already met. */
    method RampUp() returns (o: Outcome, its: nat)
      requires Synced() && c.paced && w.pc == PaceHead(0, true) && w.nextCheck == c.plan.FirstCheck()
      modifies this
      ensures Synced() && Kept(old(w)) && its < U32
      ensures w.pc == if o != Ok then Raised(o) else PaceHead(its, false)
    {
      hide WorkerMachine.Run, Step, Left, Ramp.Plan.FirstCheck, Ramp.Plan.RampEnds;
      o, its := Ok, 0;
      var nextCheck, ramping := c.plan.FirstCheck(), true;
      while ramping
        invariant Synced() && its < U32 && Kept(old(w)) && w.pc == PaceHead(its, ramping) && o == Ok
        invariant ramping ==> nextCheck == w.nextCheck
        decreases ramping, Left(c, its)
      {
        o, ramping, its := DoOneIteration(its, true);
        if o != Ok { return; }
        if ramping && its == nextCheck {
          o, ramping, nextCheck := CheckRamp(its);
          if o != Ok { return; }
        }
      }
    }

    /** The body of the try block. */
    method RunSessions() returns (o: Outcome)
      requires Synced() && w.pc == OpenHead(true) && !w.counted && w.sessionCount == 0
      modifies this, control
      ensures Synced() && w.pc == Raised(o)
      ensures control.runningWorkers == old(control.runningWorkers) + if w.counted then 1 else 0
    {
      hide WorkerMachine.Run, Step, Left;
      o := OpenSession(true);
      if o != Ok { return; }
      EnterRunning();
      o := Pace();
      var sessionCount, more := 0, o == Ok;
      while more
        invariant Synced() && w.counted && w.pc == if more then SessionEnd else Raised(o)
        invariant more ==> sessionCount == w.sessionCount < c.Sessions()
        invariant control.runningWorkers == old(control.runningWorkers) + 1
        decreases more, c.Sessions() - sessionCount
      {
        o, more, sessionCount := NextSession(sessionCount);
      }
    }

    method EnterRunning()
      requires Synced() && w.pc == Opened
      modifies this, control
      ensures Synced() && w.pc == PaceHead(0, c.ramp) && w.counted && w.sessionCount == old(w.sessionCount)
      ensures w.nextCheck == old(w.nextCheck)
      ensures control.runningWorkers == old(control.runningWorkers) + 1
    {
      hide WorkerMachine.Run, PaceStep, ChangeStep, CloseStep, EndStep;
      state := state.(running := true);
      Note(Ok, GivenUp);
      control.IncRunners();
      Note(Ok, GivenUp);
    }

    /** One turn of the session loop, from the test at its head. */
    method NextSession(sessionCount: nat) returns (o: Outcome, more: bool, next: nat)
      requires Synced() && w.pc == SessionEnd && w.counted
      requires sessionCount == w.sessionCount < c.Sessions()
      modifies this
      ensures Synced() && w.counted && w.pc == if more then SessionEnd else Raised(o)
      ensures more ==> sessionCount < next == w.sessionCount < c.Sessions()
    {
      hide WorkerMachine.Run, Step, Left;
      more, next := LeaveSession(sessionCount);
      o := Ok;
      if !more { return; }
      o := CloseSession(false);
      if o == Ok {
        var reopen;
        o, reopen := BetweenSessions();
        if o == Ok && reopen {
          o := OpenSession(false);
          if o == Ok {
            o := Pace();
          }
        }
      }
      more := o == Ok;
    }

    /** The test at the head of the session loop: not shut down, and not the last session. */
    method LeaveSession(sessionCount: nat) returns (more: bool, next: nat)
      requires Synced() && w.pc == SessionEnd && sessionCount == w.sessionCount < c.Sessions()
      modifies this
      ensures Synced() && w.counted == old(w.counted)
      ensures w.pc == if more then CloseHead(false) else Finish
      ensures more ==> sessionCount < next == w.sessionCount < c.Sessions()
    {
      hide WorkerMachine.Run, OpenStep, PaceStep, CloseStep, EndStep;
      Elsewhere();
      Note(Ok, GivenUp);
      if shutdown {
        return false, sessionCount;
      }
      next := (sessionCount + 1) % U64;
      more := next != c.sessions;
    }

    method BetweenSessions() returns (o: Outcome, reopen: bool)
      requires Synced() && w.pc == Between
      modifies this
      ensures Synced() && Kept(old(w)) && o != Failed
      ensures w.pc == if o != Ok then Raised(o) else if reopen then OpenHead(false) else SessionEnd
    {
      hide WorkerMachine.Run, Step;
      reopen := false;
      o := SleepBetween();
      if o == Ok {
        reopen := StartAnother();
      }
    }

    /** The sleep between sessions, which a shutdown interrupts. */
    method SleepBetween() returns (o: Outcome)
      requires Synced() && w.pc == Between
      modifies this
      ensures Synced() && Kept(old(w)) && o != Failed && w.pc == if o != Ok then Raised(o) else Reopen
    {
      hide WorkerMachine.Run, OpenStep, PaceStep, CloseStep, EndStep;
      Elsewhere();
      Note(Ok, GivenUp);
      o := if c.sessionInterval > 0 && shutdown then Shutdown else Ok;
    }

    method StartAnother() returns (reopen: bool)
      requires Synced() && w.pc == Reopen
      modifies this
      ensures Synced() && Kept(old(w)) && w.pc == if reopen then OpenHead(false) else SessionEnd
    {
      hide WorkerMachine.Run, OpenStep, PaceStep, CloseStep, EndStep;
      Elsewhere();
      Note(Ok, GivenUp);
      reopen := !shutdown;
    }

    /**
     The whole thread.  It ends, having been counted and uncounted in pairs unless
     an exception escaped from the closing of its last session.
     */
    method Run() returns (escaped: bool)
      requires Synced() && w == FRESH
      modifies this, control
      ensures Synced() && w.pc == if escaped then Aborted else Done
      ensures control.runningWorkers == old(control.runningWorkers) + if w.counted then 1 else 0
      ensures !escaped ==> !w.counted
    {
      hide WorkerMachine.Run, Step, Left;
      Begin();
      var o := RunSessions();
      if o == Failed {
        HandleFailure();
      }
      var open := Ending();
      if open {
        o := CloseSession(true);
        if o != Ok { return true; }
      }
      Leave();
      return false;
    }

    method Begin()
      requires Synced() && w == FRESH
      modifies this
      ensures Synced() && w.pc == OpenHead(true) && !w.counted && w.sessionCount == 0
    {
      hide WorkerMachine.Run, PaceStep, ChangeStep, CloseStep, EndStep;
      state := state.(started := true);
      Note(Ok, GivenUp);
    }

    method HandleFailure()
      requires Synced() && w.pc == Catch
      modifies this
      ensures Synced() && Kept(old(w)) && w.pc == Finish
    {
      hide WorkerMachine.Run, OpenStep, PaceStep, ChangeStep, CloseStep;
      state := state.(error := true, opening := false, closing := false);
      Note(Ok, GivenUp);
    }

    method Ending() returns (open: bool)
      requires Synced() && w.pc == Finish
      modifies this
      ensures Synced() && Kept(old(w)) && w.pc == if open then CloseHead(true) else Exit
    {
      hide WorkerMachine.Run, OpenStep, PaceStep, ChangeStep, CloseStep;
      open := state.open;
      Note(Ok, GivenUp);
    }

    /** The RUNNING bit decides whether decRunners is called. */
    method Leave()
      requires Synced() && w.pc == Exit
      requires w.counted ==> control.runningWorkers >= 1
      modifies this, control
      ensures Synced() && w.pc == Done && !w.counted
      ensures control.runningWorkers == old(control.runningWorkers) - if old(w.counted) then 1 else 0
    {
      hide WorkerMachine.Run, OpenStep, PaceStep, ChangeStep, CloseStep;
      RunKeepsInv(c, events);
      var running := state.running;
      state := state.(ended := true, running := false);
      Note(Ok, GivenUp);
      if running {
        var error := control.DecRunners();
        Note(Ok, GivenUp);
      }
    }
  }
}
