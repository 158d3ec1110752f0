/**
 When a ramp makes a session overrun (src/WorkerThread.cpp:284, 386-417, 449): its
 message limit is met in the ramp loop, and the steady loop goes once more round the
 32-bit counter.
 */
module RampLimit {
  import Ramp
  import opened WorkerMachine

  /** The ramp can meet the session's limit, as some clock then makes it do (RampClock.MetIffCanMeet). */
  predicate MeetsLimit(c: Settings) {
    c.plan.CanMeet(c.PerSession())
  }

  /** For a limit that is an int, all that matters is whether the ramp ends at its first check, before the limit. */
  lemma OrdinaryLimit(c: Settings)
    requires 0 < c.messages <= Ramp.INT_MAX
    ensures MeetsLimit(c) <==> !(c.plan.RampEnds() <= c.plan.FirstCheck() < c.messages)
  {
  }

  predicate Ramping(pc: Pc) {
    match pc
    case PaceHead(_, ramping) => ramping
    case Iterating(_, ramping) => ramping
    case Checking(_, ramping) => ramping
    case _ => false
  }

  // ----- otherwise every ramp ends before the limit

  /** The next check comes before the limit. */
  ghost predicate CheckAhead(c: Settings, w: Worker) {
    && w.overruns == 0 && !w.overran
    && (w.pc.Opened? || w.pc.Entering? ==> w.nextCheck == c.plan.FirstCheck())
    && (Ramping(w.pc) ==>
          && c.plan.FirstCheck() <= w.nextCheck < c.PerSession()
          && (if w.pc.Checking? then w.session == w.nextCheck else w.session < w.nextCheck))
  }

  lemma StepKeepsCheckAhead(c: Settings, w: Worker, e: Event)
    requires c.Valid() && Progress(c, w) && CheckAhead(c, w) && !MeetsLimit(c)
    requires e.Act? && e.outcome == Ok
    ensures CheckAhead(c, Step(c, w, e))
  {
    if Starting(w.pc) {
      OpenStepKeepsCheckAhead(c, w, e);
    } else if Pacing(w.pc) {
      PaceStepKeepsCheckAhead(c, w, e);
    } else {
      hide OpenStep, PaceStep, Progress;
    }
  }

  lemma OpenStepKeepsCheckAhead(c: Settings, w: Worker, e: Event)
    requires c.Valid() && Progress(c, w) && CheckAhead(c, w) && !MeetsLimit(c)
    requires Starting(w.pc) && e.Act? && e.outcome == Ok
    ensures CheckAhead(c, OpenStep(c, w, e))
  {
    hide Due, Ramp.Plan.FirstCheck, Ramp.Plan.RampEnds, Ramp.Plan.StallBefore;
  }

  lemma PaceStepKeepsCheckAhead(c: Settings, w: Worker, e: Event)
    requires c.Valid() && Progress(c, w) && CheckAhead(c, w) && !MeetsLimit(c)
    requires Pacing(w.pc) && e.Act? && e.outcome == Ok
    ensures CheckAhead(c, PaceStep(c, w, e))
  {
    hide Due, Settings.Gap, MeetsLimit, Ramp.Plan.FirstCheck, Ramp.Plan.RampEnds, Ramp.Plan.StallBefore;
    if w.pc.Iterating? {
      LimitMet(c, w.session, w.overran);
    } else if w.pc.Checking? && w.pc.ramping {
      if w.session < c.plan.RampEnds() {
        NextCheckAhead(c, w.session, e.check);
      }
    }
  }

  lemma NextCheckAhead(c: Settings, its: nat, check: RampCheck)
    requires !MeetsLimit(c) && c.plan.FirstCheck() <= its < c.plan.RampEnds()
    ensures check.Next? ==> its < its + c.Gap(its, check.interval) < c.PerSession()
  {
    hide Ramp.Plan.FirstCheck, Ramp.Plan.RampEnds, Ramp.Plan.StallBefore;
  }

  lemma {:induction false} QuietRunChecks(c: Settings, events: seq<Event>)
    requires c.Valid() && !MeetsLimit(c) && Quiet(events)
    ensures CheckAhead(c, Run(c, FRESH, events))
  {
    if events != [] {
      var before := events[..|events| - 1];
      QuietRunChecks(c, before);
      QuietRunProgress(c, before);
      RunNext(c, events);
      hide Run, Step, CheckAhead, Progress, MeetsLimit;
      StepKeepsCheckAhead(c, Run(c, FRESH, before), events[|events| - 1]);
    }
  }

  // ----- a clock that keeps the ramp going

  /** None, if that is possible; else to a check from which the largest interval reaches the limit, and then that. */
  function Jump(c: Settings, its: nat): nat {
    if c.plan.FirstCheck() < c.plan.StallBefore() then 0
    else if its + Ramp.INT_MAX >= c.PerSession() || c.PerSession() - Ramp.INT_MAX - its > Ramp.INT_MAX then Ramp.INT_MAX
    else c.PerSession() - Ramp.INT_MAX - its
  }

  function JumpAt(c: Settings, w: Worker): Event {
    Act(Ok, Next(if w.pc.Checking? then Jump(c, w.pc.its) else 0))
  }

  /** The events of a clock that always jumps. */
  function Jumps(c: Settings, k: nat): (events: seq<Event>)
    ensures |events| == k && Quiet(events)
  {
    if k == 0 then []
    else
      var before := Jumps(c, k - 1);
      before + [JumpAt(c, Run(c, FRESH, before))]
  }

  /** A check that neither ends the ramp nor is the last from which it could go on. */
  ghost predicate OnRamp(c: Settings, check: nat) {
    && c.plan.FirstCheck() <= check < c.PerSession() && check < c.plan.RampEnds()
    && (c.plan.FirstCheck() < c.plan.StallBefore() ==> check == c.plan.FirstCheck())
  }

  /** The next check is on the ramp, or behind, or not before the limit. */
  ghost predicate GoesOn(c: Settings, session: nat, check: nat) {
    || check <= session || c.PerSession() <= check
    || OnRamp(c, check)
  }

  /** In a session that has not met its limit. */
  predicate BeforeLimit(w: Worker) {
    !w.overran && (Ramping(w.pc) || w.pc.Opened? || w.pc.Entering? || Pacing(w.pc))
  }

  /** Every session meets its limit while ramping: until then, only the ramp iterates, and no check will end it. */
  ghost predicate Endless(c: Settings, w: Worker) {
    && w.overruns == w.openings - (if BeforeLimit(w) then 1 else 0)
    && (w.pc.Opened? || w.pc.Entering? ==> !w.overran && w.nextCheck == c.plan.FirstCheck())
    && (BeforeLimit(w) && Pacing(w.pc) ==>
          && Ramping(w.pc) && GoesOn(c, w.session, w.nextCheck)
          && (w.pc.Checking? ==> w.session == w.nextCheck && OnRamp(c, w.nextCheck)))
  }

  lemma JumpGoesOn(c: Settings, its: nat)
    requires c.Valid() && MeetsLimit(c) && OnRamp(c, its)
    ensures GoesOn(c, its, its + c.Gap(its, Jump(c, its)))
  {
    hide Ramp.Plan.FirstCheck, Ramp.Plan.RampEnds, Ramp.Plan.StallBefore;
  }

  lemma FirstGoesOn(c: Settings)
    requires c.Valid() && MeetsLimit(c)
    ensures GoesOn(c, 0, c.plan.FirstCheck())
  {
    hide Ramp.Plan.FirstCheck, Ramp.Plan.RampEnds, Ramp.Plan.StallBefore;
  }

  lemma StepKeepsEndless(c: Settings, w: Worker)
    requires c.Valid() && c.ramp && MeetsLimit(c) && Inv(w) && Progress(c, w) && Endless(c, w)
    ensures Endless(c, Step(c, w, JumpAt(c, w)))
  {
    if Starting(w.pc) {
      OpenStepKeepsEndless(c, w, JumpAt(c, w));
    } else if Pacing(w.pc) {
      PaceStepKeepsEndless(c, w);
    } else {
      OtherStepKeepsEndless(c, w, JumpAt(c, w));
    }
  }

  lemma OpenStepKeepsEndless(c: Settings, w: Worker, e: Event)
    requires c.Valid() && c.ramp && MeetsLimit(c) && Progress(c, w) && Endless(c, w)
    requires Starting(w.pc) && e.Act? && e.outcome == Ok
    ensures Endless(c, OpenStep(c, w, e))
  {
    hide Due, GoesOn, MeetsLimit, Ramp.Plan.FirstCheck, Ramp.Plan.RampEnds, Ramp.Plan.StallBefore;
    FirstGoesOn(c);
  }

  lemma OtherStepKeepsEndless(c: Settings, w: Worker, e: Event)
    requires Inv(w) && Endless(c, w) && !Starting(w.pc) && !Pacing(w.pc)
    requires e.Act? && e.outcome == Ok
    ensures Endless(c, Step(c, w, e))
  {
    hide OpenStep, PaceStep, GoesOn, OnRamp;
  }

  lemma PaceStepKeepsEndless(c: Settings, w: Worker)
    requires c.Valid() && c.ramp && MeetsLimit(c) && Progress(c, w) && Endless(c, w) && Pacing(w.pc)
    ensures Endless(c, PaceStep(c, w, JumpAt(c, w)))
  {
    hide Due, Jump, Settings.Gap, MeetsLimit, Ramp.Plan.FirstCheck, Ramp.Plan.RampEnds, Ramp.Plan.StallBefore;
    if w.pc.Iterating? {
      LimitMet(c, w.session, w.overran);
    } else if w.pc.Checking? && !w.overran {
      JumpGoesOn(c, w.session);
    }
  }

  lemma {:induction false} JumpsEndless(c: Settings, k: nat)
    requires c.Valid() && c.ramp && MeetsLimit(c)
    ensures Endless(c, Run(c, FRESH, Jumps(c, k)))
  {
    if k > 0 {
      JumpsEndless(c, k - 1);
      var before := Jumps(c, k - 1);
      QuietRunProgress(c, before);
      RunKeepsInv(c, before);
      RunNext(c, Jumps(c, k));
      assert Jumps(c, k)[..k - 1] == before;
      hide Run, Step, Endless, Inv, Progress, MeetsLimit;
      StepKeepsEndless(c, Run(c, FRESH, before));
    }
  }

  // ----- the result

  /** If the ramp can meet the limit, then in some run without shutdown and failure it does in every session. */
  lemma EverySessionOverruns(c: Settings) returns (events: seq<Event>)
    requires c.Valid() && c.ramp && MeetsLimit(c)
    ensures Quiet(events) && Run(c, FRESH, events).pc.Done?
    ensures Run(c, FRESH, events).total == (c.PerSession() + U32) * c.Sessions() > c.PerSession() * c.Sessions()
  {
    hide Run, MeetsLimit, Settings.PerSession;
    events := Jumps(c, 12 * c.Sessions() * (c.PerSession() + U32 + 2) + 6);
    QuietRunsEnd(c, events);
    JumpsEndless(c, |events|);
    IterationCount(c, events);
    Distributes(c.PerSession(), U32, c.Sessions());
  }

  lemma Distributes(a: nat, b: nat, k: nat)
    ensures (a + b) * k == a * k + b * k
  {
  }

  /**
   Every run without shutdown and failure has exactly the configured number of
   iterations, if and only if there is no ramp or it cannot meet the message limit.
   */
  lemma CountRightIff(c: Settings)
    requires c.Valid()
    ensures (forall events :: Quiet(events) && Run(c, FRESH, events).pc.Done? ==>
               Run(c, FRESH, events).total == c.PerSession() * c.Sessions())
            <==> !c.ramp || !MeetsLimit(c)
  {
    if !c.ramp || !MeetsLimit(c) {
      forall events | Quiet(events) && Run(c, FRESH, events).pc.Done?
        ensures Run(c, FRESH, events).total == c.PerSession() * c.Sessions()
      {
        IterationCount(c, events);
        if c.ramp {
          QuietRunChecks(c, events);
        }
      }
    } else {
      hide Run, MeetsLimit, Settings.PerSession, Settings.Sessions;
      var events := EverySessionOverruns(c);
    }
  }
}
