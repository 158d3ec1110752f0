/**
 WorkerThread::run (src/WorkerThread.cpp:161-304) as a machine: one step per
 observable action, with the program counter, the state bits and the counters.
 Of pacing it has the checks of the ramp (src/WorkerThread.cpp:386-417), which decide
 when the steady loop takes over; what the clock makes of a check is an event.
 */
module WorkerMachine {
  import Arithmetic
  import Ramp

  const U32 := 0x1_0000_0000
  const U64 := 0x1_0000_0000_0000_0000

  /** The state bits (src/WorkerThread.hpp:58-65). */
  datatype Bits = Bits(opening: bool, running: bool, closing: bool, error: bool, ended: bool, open: bool, started: bool)

  /** The configuration, as the first worker's constructor leaves it (src/WorkerThread.cpp:107-138). */
  datatype Settings = Settings(
    messages: nat, sessions: nat, sessionInterval: nat, paced: bool, ramp: bool, plan: Ramp.ValidPlan)
  {
    predicate Valid() {
      && messages < U32 && sessions < U32
      && (messages == 0 ==> sessions == 1 && sessionInterval == 0)
      && (ramp ==> paced)
    }

    /** Iterations in one session: the 32-bit counter must come round to the limit. */
    function PerSession(): nat {
      if messages == 0 then U32 else messages
    }

    function Sessions(): nat {
      if sessions == 0 then U64 else sessions
    }

    /**
     The interval that a check of the ramp arrives at, anything that an int holds,
     except zero from a certain iteration on (Ramp.NoStall).  The clock decides, and
     what it allows in one ramp as a whole is in RampClock: there is a clock under which
     the limit is met in the ramp exactly if these intervals allow it.
     */
    function Gap(its: nat, interval: nat): nat {
      if interval > Ramp.INT_MAX then Ramp.INT_MAX
      else if interval == 0 && plan.StallBefore() <= its then 1
      else interval
    }
  }

  datatype Outcome = Ok | Shutdown | Failed

  datatype Pc =
    | Created
    | OpenHead(first: bool) | OpenCall(first: bool)
    | Opened | Entering
    | PaceHead(its: nat, ramping: bool) | Iterating(its: nat, ramping: bool) | Checking(its: nat, ramping: bool)
    | SessionEnd | Between | Reopen
    | CloseHead(last: bool) | CloseCall(last: bool)
    | Catch | Finish | Exit | Leaving
    | Done
    | Aborted   // an exception has escaped from the thread, which ends the process

  /**
   Besides what the code keeps (state, iterations, sessionCount, shutdown, and the
   next check of the ramp), a worker records whether it is counted as running, how many sessions were
   opened and how often closing was attempted, and unbounded iteration counts:
   overall, in this session, and how many sessions met their limit while ramping.
   */
  datatype Worker = Worker(
    pc: Pc, state: Bits, iterations: nat, sessionCount: nat, shutdown: bool, nextCheck: nat,
    counted: bool, openings: nat, closings: nat, total: nat, session: nat, overran: bool, overruns: nat)

  const FRESH := Worker(
    Created, Bits(false, false, false, false, false, false, false), 0, 0, false, 0,
    false, 0, 0, 0, 0, false, 0)

  /** What the clock makes of a check of the ramp: it is given up, or there is an interval to the next. */
  datatype RampCheck = GivenUp | Next(interval: nat)

  datatype Event = Signal | Act(outcome: Outcome, check: RampCheck)

  function Raise(w: Worker, o: Outcome): Worker {
    w.(pc := if o == Failed then Catch else Finish)
  }

  predicate Starting(pc: Pc) {
    pc.Created? || pc.OpenHead? || pc.OpenCall? || pc.Opened? || pc.Entering?
  }

  predicate Pacing(pc: Pc) {
    pc.PaceHead? || pc.Iterating? || pc.Checking?
  }

  predicate Changing(pc: Pc) {
    pc.SessionEnd? || pc.Between? || pc.Reopen?
  }

  predicate Closing(pc: Pc) {
    pc.CloseHead? || pc.CloseCall?
  }

  function Step(c: Settings, w: Worker, e: Event): Worker {
    if e.Signal? then w.(shutdown := true)
    else if Starting(w.pc) then OpenStep(c, w, e)
    else if Pacing(w.pc) then PaceStep(c, w, e)
    else if Changing(w.pc) then ChangeStep(c, w)
    else if Closing(w.pc) then CloseStep(w, e)
    else EndStep(w)
  }

  function OpenStep(c: Settings, w: Worker, e: Event): Worker
    requires Starting(w.pc) && e.Act?
  {
    match w.pc
    case Created => w.(pc := OpenHead(true), state := w.state.(started := true))
    case OpenHead(first) => w.(pc := OpenCall(first), state := w.state.(opening := true))
    case OpenCall(first) =>
      if e.outcome != Ok then Raise(w, e.outcome)
      else w.(pc := if first then Opened else PaceHead(0, c.ramp), state := w.state.(opening := false, open := true),
              openings := w.openings + 1, session := 0, overran := false, nextCheck := c.plan.FirstCheck())
    case Opened => w.(pc := Entering, state := w.state.(running := true))
    case Entering => w.(pc := PaceHead(0, c.ramp), counted := true)
  }

  function PaceStep(c: Settings, w: Worker, e: Event): Worker
    requires Pacing(w.pc) && e.Act?
  {
    match w.pc
    case PaceHead(its, ramping) =>
      if !w.shutdown then w.(pc := Iterating(its, ramping))
      else w.(pc := if ramping then PaceHead(its, false) else SessionEnd)
    case Iterating(its, ramping) =>
      if e.outcome != Ok then Raise(w, e.outcome)
      else
        var its' := (its + 1) % U32;
        var atLimit := its' == c.messages;
        w.(iterations := (w.iterations + 1) % U32, total := w.total + 1, session := w.session + 1,
           overran := w.overran || (atLimit && ramping),
           overruns := w.overruns + (if atLimit && ramping then 1 else 0),
           pc := if !atLimit then
                   (if c.paced && (ramping ==> its' == w.nextCheck) then Checking(its', ramping)
                    else PaceHead(its', ramping))
                 else if ramping then PaceHead(its', false) else SessionEnd)
    case Checking(its, ramping) =>
      if e.outcome != Ok then Raise(w, e.outcome)
      else if !ramping || e.check.GivenUp? || c.plan.RampEnds() <= its then w.(pc := PaceHead(its, false))
      else w.(pc := PaceHead(its, true), nextCheck := its + c.Gap(its, e.check.interval))
  }

  /** What a check of the ramp comes to. */
  lemma RampCheckStep(c: Settings, w: Worker, e: Event)
    requires w.pc.Checking? && w.pc.ramping && e.Act?
    ensures var its := w.pc.its;
      Step(c, w, e) ==
        if e.outcome != Ok then Raise(w, e.outcome)
        else if e.check.Next? && its < c.plan.RampEnds()
        then w.(pc := PaceHead(its, true), nextCheck := its + c.Gap(its, e.check.interval))
        else w.(pc := PaceHead(its, false))
  {
    hide Settings.Gap;
  }

  function ChangeStep(c: Settings, w: Worker): Worker
    requires Changing(w.pc)
  {
    match w.pc
    case SessionEnd =>
      if w.shutdown then w.(pc := Finish)
      else
        var n := (w.sessionCount + 1) % U64;
        w.(sessionCount := n, pc := if n == c.sessions then Finish else CloseHead(false))
    case Between => w.(pc := if c.sessionInterval > 0 && w.shutdown then Finish else Reopen)
    case Reopen => w.(pc := if w.shutdown then SessionEnd else OpenHead(false))
  }

  function CloseStep(w: Worker, e: Event): Worker
    requires Closing(w.pc) && e.Act?
  {
    match w.pc
    case CloseHead(last) =>
      w.(pc := CloseCall(last), state := w.state.(open := false, closing := true), closings := w.closings + 1)
    case CloseCall(last) =>
      if e.outcome == Ok then w.(pc := if last then Exit else Between, state := w.state.(closing := false))
      else if last then w.(pc := Aborted)
      else Raise(w, e.outcome)
  }

  function EndStep(w: Worker): Worker {
    match w.pc
    case Catch => w.(pc := Finish, state := w.state.(error := true, opening := false, closing := false))
    case Finish => w.(pc := if w.state.open then CloseHead(true) else Exit)
    case Exit =>
      if w.state.running then w.(pc := Leaving, state := w.state.(ended := true, running := false))
      else w.(pc := Done, state := w.state.(ended := true))
    case Leaving => w.(pc := Done, counted := false)
    case _ => w
  }

  function Run(c: Settings, w: Worker, events: seq<Event>): Worker {
    if events == [] then w else Step(c, Run(c, w, events[..|events| - 1]), events[|events| - 1])
  }

  // ----- what every step keeps

  datatype Answer = Yes | No | Depends

  /** Whether a session is open at a program point. */
  function OpenAt(pc: Pc): Answer {
    match pc
    case Opened => Yes
    case Entering => Yes
    case PaceHead(_, _) => Yes
    case Iterating(_, _) => Yes
    case Checking(_, _) => Yes
    case CloseHead(_) => Yes
    case SessionEnd => Depends
    case Catch => Depends
    case Finish => Depends
    case _ => No
  }

  /** Whether the worker is past incRunners and before decRunners at a program point. */
  function CountedAt(pc: Pc): Answer {
    match pc
    case Created => No
    case OpenHead(first) => if first then No else Yes
    case OpenCall(first) => if first then No else Yes
    case Opened => No
    case Entering => No
    case Done => No
    case Catch => Depends
    case Finish => Depends
    case CloseHead(last) => if last then Depends else Yes
    case CloseCall(last) => if last then Depends else Yes
    case Exit => Depends
    case Aborted => Depends
    case _ => Yes
  }

  predicate Agrees(a: Answer, b: bool) {
    (a == Yes ==> b) && (a == No ==> !b)
  }

  ghost predicate Inv(w: Worker) {
    && Agrees(OpenAt(w.pc), w.state.open)
    && Agrees(CountedAt(w.pc), w.counted)
    && (w.pc.SessionEnd? && !w.state.open ==> w.shutdown)
    && w.openings == w.closings + (if w.state.open then 1 else 0)
    && (w.state.running <==> w.pc.Entering? || (w.counted && !w.pc.Leaving?))
  }

  lemma OpenStepKeepsInv(c: Settings, w: Worker, e: Event)
    requires Inv(w) && Starting(w.pc) && e.Act?
    ensures Inv(OpenStep(c, w, e))
  {
  }

  lemma PaceStepKeepsInv(c: Settings, w: Worker, e: Event)
    requires Inv(w) && Pacing(w.pc) && e.Act?
    ensures Inv(PaceStep(c, w, e))
  {
  }

  lemma ChangeStepKeepsInv(c: Settings, w: Worker)
    requires Inv(w) && Changing(w.pc)
    ensures Inv(ChangeStep(c, w))
  {
  }

  lemma CloseStepKeepsInv(w: Worker, e: Event)
    requires Inv(w) && Closing(w.pc) && e.Act?
    ensures Inv(CloseStep(w, e))
  {
  }

  lemma EndStepKeepsInv(w: Worker)
    requires Inv(w)
    ensures Inv(EndStep(w))
  {
  }

  lemma StepKeepsInv(c: Settings, w: Worker, e: Event)
    requires Inv(w)
    ensures Inv(Step(c, w, e))
  {
    hide OpenStep, PaceStep, ChangeStep, CloseStep, EndStep;
    if e.Act? {
      if Starting(w.pc) {
        OpenStepKeepsInv(c, w, e);
      } else if Pacing(w.pc) {
        PaceStepKeepsInv(c, w, e);
      } else if Changing(w.pc) {
        ChangeStepKeepsInv(c, w);
      } else if Closing(w.pc) {
        CloseStepKeepsInv(w, e);
      } else {
        EndStepKeepsInv(w);
      }
    }
  }

  lemma {:induction false} RunKeepsInv(c: Settings, events: seq<Event>)
    ensures Inv(Run(c, FRESH, events))
  {
    if events != [] {
      RunKeepsInv(c, events[..|events| - 1]);
      StepKeepsInv(c, Run(c, FRESH, events[..|events| - 1]), events[|events| - 1]);
    }
  }

  /**
   Session discipline, whichever calls end in a shutdown or a runtime error (the
   exceptions that run handles) and whenever shutdown is signalled: closing has been
   attempted once for every session opened, except for the one that is still open;
   nothing is open when run returns or escapes; and the iteration count moves only
   while a session is open.
   */
  lemma SessionDiscipline(c: Settings, events: seq<Event>, e: Event)
    ensures var w := Run(c, FRESH, events);
      && w.closings <= w.openings <= w.closings + 1
      && (w.openings == w.closings + 1 <==> w.state.open)
      && (w.pc.Done? || w.pc.Aborted? ==> w.openings == w.closings)
      && (Step(c, w, e).total != w.total ==> w.state.open && w.pc.Iterating?)
  {
    hide Run, Step;
    RunKeepsInv(c, events);
    OnlyIteratingCounts(c, Run(c, FRESH, events), e);
  }

  lemma OnlyIteratingCounts(c: Settings, w: Worker, e: Event)
    ensures Step(c, w, e).total != w.total ==> w.pc.Iterating?
  {
  }

  // ----- the bits that an interruption or a failure leaves behind

  datatype Incident = OpeningCut | ClosingCut | CallFailed | LastClosingCut

  /**
   A shutdown interrupts the opening of a session, or its closing between sessions; or a
   call fails other than the closing of the last session; or that closing is cut short.
   */
  predicate Interrupts(pc: Pc, e: Event, incident: Incident) {
    e.Act? &&
    match incident
    case OpeningCut => e.outcome == Shutdown && pc.OpenCall?
    case ClosingCut => e.outcome == Shutdown && pc.CloseCall? && !pc.last
    case LastClosingCut => e.outcome != Ok && pc.CloseCall? && pc.last
    case CallFailed =>
      e.outcome == Failed && (pc.OpenCall? || pc.Iterating? || pc.Checking? || (pc.CloseCall? && !pc.last))
  }

  ghost predicate InterruptedAt(c: Settings, events: seq<Event>, k: int, incident: Incident) {
    0 <= k < |events| && Interrupts(Run(c, FRESH, events[..k]).pc, events[k], incident)
  }

  ghost predicate Interrupted(c: Settings, events: seq<Event>, incident: Incident) {
    exists k :: InterruptedAt(c, events, k, incident)
  }

  lemma InterruptedNext(c: Settings, events: seq<Event>, incident: Incident)
    requires events != []
    ensures var n := |events| - 1;
      Interrupted(c, events, incident) <==>
      Interrupted(c, events[..n], incident) || InterruptedAt(c, events, n, incident)
  {
    hide Run;
    var n := |events| - 1;
    forall k | 0 <= k < n
      ensures InterruptedAt(c, events[..n], k, incident) <==> InterruptedAt(c, events, k, incident)
    {
      assert events[..n][..k] == events[..k];
    }
    if Interrupted(c, events[..n], incident) {
      var k :| InterruptedAt(c, events[..n], k, incident);
      assert InterruptedAt(c, events, k, incident);
    }
    if Interrupted(c, events, incident) {
      var k :| InterruptedAt(c, events, k, incident);
      assert k < n ==> InterruptedAt(c, events[..n], k, incident);
    }
  }

  predicate Ended(pc: Pc) {
    pc.Finish? || pc.Exit? || pc.Leaving? || pc.Done?
  }

  /** Whether a bit for a call in progress can be on, given what has been interrupted. */
  ghost predicate Stale(w: Worker, opening: bool, closing: bool) {
    && (opening || closing ==> Ended(w.pc) && !w.state.open)
    && (Ended(w.pc) ==> w.state.opening == opening && w.state.closing == closing)
    && (w.pc.OpenCall? ==> w.state.opening) && (w.pc.CloseCall? ==> w.state.closing)
    && (w.state.opening ==> Ended(w.pc) || w.pc.OpenCall? || w.pc.Catch?)
    && (w.state.closing ==> Ended(w.pc) || w.pc.CloseCall? || w.pc.Catch? || w.pc.Aborted?)
  }

  lemma StepKeepsStale(c: Settings, w: Worker, e: Event, opening: bool, closing: bool)
    requires Inv(w) && Stale(w, opening, closing)
    ensures Stale(Step(c, w, e), opening || Interrupts(w.pc, e, OpeningCut), closing || Interrupts(w.pc, e, ClosingCut))
  {
    if e.Act? {
      if Starting(w.pc) {
        OpenStepKeepsStale(c, w, e, opening, closing);
      } else if Closing(w.pc) {
        CloseStepKeepsStale(w, e, opening, closing);
      } else if Pacing(w.pc) {
        PaceStepKeepsStale(c, w, e, opening, closing);
      } else {
        OtherStepKeepsStale(c, w, e, opening, closing);
      }
    }
  }

  lemma OpenStepKeepsStale(c: Settings, w: Worker, e: Event, opening: bool, closing: bool)
    requires Inv(w) && Stale(w, opening, closing) && e.Act? && Starting(w.pc)
    ensures Stale(OpenStep(c, w, e), opening || Interrupts(w.pc, e, OpeningCut), closing)
  {
  }

  lemma CloseStepKeepsStale(w: Worker, e: Event, opening: bool, closing: bool)
    requires Inv(w) && Stale(w, opening, closing) && e.Act? && Closing(w.pc)
    ensures Stale(CloseStep(w, e), opening, closing || Interrupts(w.pc, e, ClosingCut))
  {
  }

  lemma PaceStepKeepsStale(c: Settings, w: Worker, e: Event, opening: bool, closing: bool)
    requires Inv(w) && Stale(w, opening, closing) && e.Act? && Pacing(w.pc)
    ensures Stale(PaceStep(c, w, e), opening, closing)
  {
  }

  lemma OtherStepKeepsStale(c: Settings, w: Worker, e: Event, opening: bool, closing: bool)
    requires Inv(w) && Stale(w, opening, closing) && e.Act? && !Starting(w.pc) && !Closing(w.pc) && !Pacing(w.pc)
    ensures Stale(Step(c, w, e), opening, closing)
  {
    hide OpenStep, PaceStep, CloseStep;
  }

  lemma {:induction false} RunKeepsStale(c: Settings, events: seq<Event>)
    ensures Stale(Run(c, FRESH, events), Interrupted(c, events, OpeningCut), Interrupted(c, events, ClosingCut))
  {
    if events != [] {
      var n := |events| - 1;
      RunKeepsStale(c, events[..n]);
      RunKeepsInv(c, events[..n]);
      InterruptedNext(c, events, OpeningCut);
      InterruptedNext(c, events, ClosingCut);
      hide Step, Inv, Stale, Interrupted;
      StepKeepsStale(c, Run(c, FRESH, events[..n]), events[n],
                     Interrupted(c, events[..n], OpeningCut), Interrupted(c, events[..n], ClosingCut));
    }
  }

  /** ERROR is on, or about to be set, if and only if a call has failed. */
  ghost predicate Erred(w: Worker, failed: bool) {
    w.state.error || w.pc.Catch? <==> failed
  }

  /** STARTED is set first, and ENDED in the end. */
  ghost predicate Lasting(w: Worker) {
    && (w.state.started <==> !w.pc.Created?)
    && (w.state.ended <==> w.pc.Leaving? || w.pc.Done?)
  }

  ghost predicate Recorded(w: Worker, failed: bool, escaped: bool) {
    Erred(w, failed) && Lasting(w) && (w.pc.Aborted? <==> escaped)
  }

  lemma OpenStepKeepsRecorded(c: Settings, w: Worker, e: Event, failed: bool, escaped: bool)
    requires Inv(w) && Recorded(w, failed, escaped) && e.Act? && Starting(w.pc)
    ensures Recorded(OpenStep(c, w, e), failed || Interrupts(w.pc, e, CallFailed),
                     escaped || Interrupts(w.pc, e, LastClosingCut))
  {
  }

  lemma PaceStepKeepsRecorded(c: Settings, w: Worker, e: Event, failed: bool, escaped: bool)
    requires Inv(w) && Recorded(w, failed, escaped) && e.Act? && Pacing(w.pc)
    ensures Recorded(PaceStep(c, w, e), failed || Interrupts(w.pc, e, CallFailed),
                     escaped || Interrupts(w.pc, e, LastClosingCut))
  {
  }

  lemma ChangeStepKeepsRecorded(c: Settings, w: Worker, failed: bool, escaped: bool)
    requires Inv(w) && Recorded(w, failed, escaped) && Changing(w.pc)
    ensures Recorded(ChangeStep(c, w), failed, escaped)
  {
  }

  lemma CloseStepKeepsRecorded(w: Worker, e: Event, failed: bool, escaped: bool)
    requires Inv(w) && Recorded(w, failed, escaped) && e.Act? && Closing(w.pc)
    ensures Recorded(CloseStep(w, e), failed || Interrupts(w.pc, e, CallFailed),
                     escaped || Interrupts(w.pc, e, LastClosingCut))
  {
  }

  lemma EndStepKeepsRecorded(w: Worker, failed: bool, escaped: bool)
    requires Inv(w) && Recorded(w, failed, escaped)
    requires !Starting(w.pc) && !Pacing(w.pc) && !Changing(w.pc) && !Closing(w.pc)
    ensures Recorded(EndStep(w), failed, escaped)
  {
  }

  lemma StepKeepsRecorded(c: Settings, w: Worker, e: Event, failed: bool, escaped: bool)
    requires Inv(w) && Recorded(w, failed, escaped)
    ensures Recorded(Step(c, w, e), failed || Interrupts(w.pc, e, CallFailed),
                     escaped || Interrupts(w.pc, e, LastClosingCut))
  {
    hide OpenStep, PaceStep, ChangeStep, CloseStep, EndStep;
    if e.Act? {
      if Starting(w.pc) {
        OpenStepKeepsRecorded(c, w, e, failed, escaped);
      } else if Pacing(w.pc) {
        PaceStepKeepsRecorded(c, w, e, failed, escaped);
      } else if Changing(w.pc) {
        ChangeStepKeepsRecorded(c, w, failed, escaped);
      } else if Closing(w.pc) {
        CloseStepKeepsRecorded(w, e, failed, escaped);
      } else {
        EndStepKeepsRecorded(w, failed, escaped);
      }
    }
  }

  lemma {:induction false} RunKeepsRecorded(c: Settings, events: seq<Event>)
    ensures Recorded(Run(c, FRESH, events), Interrupted(c, events, CallFailed), Interrupted(c, events, LastClosingCut))
  {
    hide Run, Step, Inv, Recorded, Interrupted, InterruptedAt, Interrupts;
    if events == [] {
      RecordedAtStart(c);
    } else {
      var n := |events| - 1;
      var w, e := Run(c, FRESH, events[..n]), events[n];
      RunKeepsRecorded(c, events[..n]);
      RunKeepsInv(c, events[..n]);
      InterruptedLast(c, events, CallFailed);
      InterruptedLast(c, events, LastClosingCut);
      StepKeepsRecorded(c, w, e, Interrupted(c, events[..n], CallFailed), Interrupted(c, events[..n], LastClosingCut));
      RunNext(c, events);
    }
  }

  lemma RecordedAtStart(c: Settings)
    ensures Run(c, FRESH, []) == FRESH && Recorded(FRESH, false, false)
    ensures !Interrupted(c, [], CallFailed) && !Interrupted(c, [], LastClosingCut)
  {
  }

  lemma InterruptedLast(c: Settings, events: seq<Event>, incident: Incident)
    requires events != []
    ensures var n := |events| - 1;
      Interrupted(c, events, incident) <==>
      Interrupted(c, events[..n], incident) || Interrupts(Run(c, FRESH, events[..n]).pc, events[n], incident)
  {
    hide Run, Interrupted, Interrupts;
    InterruptedNext(c, events, incident);
  }

  lemma RunNext(c: Settings, events: seq<Event>)
    requires events != []
    ensures Run(c, FRESH, events) == Step(c, Run(c, FRESH, events[..|events| - 1]), events[|events| - 1])
  {
  }

  /**
   When run has returned, the OPENING bit is still on exactly if a shutdown
   interrupted an opening, the CLOSING bit exactly if one interrupted a closing between
   sessions, and the ERROR bit exactly if a call failed.  STARTED and ENDED are on, and
   RUNNING and OPEN are off.
   */
  lemma BitsLeftBehind(c: Settings, events: seq<Event>)
    requires Run(c, FRESH, events).pc.Done?
    ensures var bits := Run(c, FRESH, events).state;
      && (bits.opening <==> Interrupted(c, events, OpeningCut))
      && (bits.closing <==> Interrupted(c, events, ClosingCut))
      && (bits.error <==> Interrupted(c, events, CallFailed))
      && bits.started && bits.ended && !bits.running && !bits.open
  {
    RunKeepsStale(c, events);
    RunKeepsRecorded(c, events);
    RunKeepsInv(c, events);
  }

  /** An exception escapes from the thread exactly if the closing of its last session is cut short. */
  lemma EscapesFromLastClosing(c: Settings, events: seq<Event>)
    ensures Run(c, FRESH, events).pc.Aborted? <==> Interrupted(c, events, LastClosingCut)
  {
    RunKeepsRecorded(c, events);
  }

  // ----- counting iterations when nothing goes wrong

  predicate Quiet(events: seq<Event>) {
    forall i :: 0 <= i < |events| ==> events[i].Act? && events[i].outcome == Ok
  }

  /** Iterations in n complete sessions, some of which overran. */
  function Due(c: Settings, n: nat, overruns: nat): nat {
    c.PerSession() * n + U32 * overruns
  }

  lemma DueStep(c: Settings, n: nat, overruns: nat)
    ensures Due(c, n + 1, overruns) == Due(c, n, overruns) + c.PerSession()
    ensures Due(c, n, overruns + 1) == Due(c, n, overruns) + U32
    ensures Due(c, 0, 0) == 0
  {
  }

  ghost predicate InProgress(c: Settings, w: Worker) {
    && w.openings >= 1 && w.sessionCount == w.openings - 1
    && w.total + (if w.overran then U32 else 0) == Due(c, w.openings - 1, w.overruns) + w.session
    && (if w.overran then c.PerSession() <= w.session < c.PerSession() + U32 else w.session < c.PerSession())
  }

  ghost predicate Complete(c: Settings, w: Worker) {
    w.total == Due(c, w.openings, w.overruns)
  }

  ghost predicate Counter(c: Settings, w: Worker, its: nat, ramping: bool) {
    its == w.session % U32 && (ramping ==> c.ramp && !w.overran)
  }

  ghost predicate Progress(c: Settings, w: Worker) {
    && w.iterations == w.total % U32
    && (!c.ramp ==> w.overruns == 0 && !w.overran)
    && w.openings <= c.Sessions() && !w.shutdown
    && match w.pc
       case Created => Complete(c, w) && w.openings == 0 == w.sessionCount
       case OpenHead(first) => ToOpen(c, w, first)
       case OpenCall(first) => ToOpen(c, w, first)
       case Opened => InProgress(c, w) && Counter(c, w, 0, c.ramp)
       case Entering => InProgress(c, w) && Counter(c, w, 0, c.ramp)
       case PaceHead(its, ramping) => InProgress(c, w) && Counter(c, w, its, ramping)
       case Iterating(its, ramping) => InProgress(c, w) && Counter(c, w, its, ramping)
       case Checking(its, ramping) => InProgress(c, w) && Counter(c, w, its, ramping)
       case SessionEnd => Complete(c, w) && w.openings >= 1 && w.sessionCount == w.openings - 1
       case Between => ToOpen(c, w, false)
       case Reopen => ToOpen(c, w, false)
       case CloseHead(last) => ToClose(c, w, last)
       case CloseCall(last) => ToClose(c, w, last)
       case Catch => false
       case Aborted => false
       case _ => Complete(c, w) && w.openings == c.Sessions()
  }

  ghost predicate ToOpen(c: Settings, w: Worker, first: bool) {
    Complete(c, w) && w.sessionCount == w.openings < c.Sessions() && (first <==> w.openings == 0)
  }

  ghost predicate ToClose(c: Settings, w: Worker, last: bool) {
    Complete(c, w) && w.openings >= 1
    && (if last then w.openings == c.Sessions() else w.sessionCount == w.openings < c.Sessions())
  }

  lemma OpenStepKeepsProgress(c: Settings, w: Worker, e: Event)
    requires c.Valid() && Progress(c, w) && Starting(w.pc) && e.Act? && e.outcome == Ok
    ensures Progress(c, OpenStep(c, w, e))
  {
    hide Due;
  }

  lemma PaceStepKeepsProgress(c: Settings, w: Worker, e: Event)
    requires c.Valid() && Progress(c, w) && Pacing(w.pc) && e.Act? && e.outcome == Ok
    ensures Progress(c, PaceStep(c, w, e))
  {
    hide Due, Settings.Gap, Ramp.Plan.RampEnds;
    if w.pc.Iterating? {
      IterationKeepsProgress(c, w, e);
    }
  }

  lemma IterationKeepsProgress(c: Settings, w: Worker, e: Event)
    requires c.Valid() && Progress(c, w) && w.pc.Iterating? && e.Act? && e.outcome == Ok
    ensures Progress(c, PaceStep(c, w, e))
  {
    hide Due, Settings.Gap, Ramp.Plan.RampEnds;
    DueStep(c, w.openings - 1, w.overruns);
    WrapStep(w.total);
    WrapStep(w.session);
    LimitMet(c, w.session, w.overran);
  }

  lemma WrapStep(x: nat)
    ensures (x % U32 + 1) % U32 == (x + 1) % U32
  {
  }

  /** The 32-bit comparison with the limit is met exactly at the end of a session, or one round later. */
  lemma LimitMet(c: Settings, session: nat, overran: bool)
    requires c.Valid()
    requires if overran then c.PerSession() <= session < c.PerSession() + U32 else session < c.PerSession()
    ensures (session % U32 + 1) % U32 == c.messages
            <==> session + 1 == c.PerSession() + (if overran then U32 else 0)
  {
  }

  lemma ChangeStepKeepsProgress(c: Settings, w: Worker)
    requires c.Valid() && Inv(w) && Progress(c, w) && Changing(w.pc)
    ensures Progress(c, ChangeStep(c, w))
  {
    hide Due;
  }

  lemma CloseStepKeepsProgress(c: Settings, w: Worker, e: Event)
    requires c.Valid() && Progress(c, w) && Closing(w.pc) && e.Act? && e.outcome == Ok
    ensures Progress(c, CloseStep(w, e))
  {
    hide Due;
  }

  lemma EndStepKeepsProgress(c: Settings, w: Worker)
    requires c.Valid() && Inv(w) && Progress(c, w)
    requires !Starting(w.pc) && !Pacing(w.pc) && !Changing(w.pc) && !Closing(w.pc)
    ensures Progress(c, EndStep(w))
  {
    hide Due;
  }

  lemma StepKeepsProgress(c: Settings, w: Worker, e: Event)
    requires c.Valid() && Inv(w) && Progress(c, w) && e.Act? && e.outcome == Ok
    ensures Progress(c, Step(c, w, e))
  {
    hide Progress, OpenStep, PaceStep, ChangeStep, CloseStep, EndStep;
    if Starting(w.pc) {
      OpenStepKeepsProgress(c, w, e);
    } else if Pacing(w.pc) {
      PaceStepKeepsProgress(c, w, e);
    } else if Changing(w.pc) {
      ChangeStepKeepsProgress(c, w);
    } else if Closing(w.pc) {
      CloseStepKeepsProgress(c, w, e);
    } else {
      EndStepKeepsProgress(c, w);
    }
  }

  lemma {:induction false} QuietRunProgress(c: Settings, events: seq<Event>)
    requires c.Valid() && Quiet(events)
    ensures Progress(c, Run(c, FRESH, events))
  {
    if events != [] {
      QuietRunProgress(c, events[..|events| - 1]);
      RunKeepsInv(c, events[..|events| - 1]);
      StepKeepsProgress(c, Run(c, FRESH, events[..|events| - 1]), events[|events| - 1]);
    }
  }

  /**
   A run without shutdown or failure that ends has opened exactly the configured
   number of sessions.  Each had exactly the configured number of iterations,
   except that a session whose limit was met while ramping went once more round
   the 32-bit counter.
   */
  lemma IterationCount(c: Settings, events: seq<Event>)
    requires c.Valid() && Quiet(events) && Run(c, FRESH, events).pc.Done?
    ensures var w := Run(c, FRESH, events);
      && w.openings == w.closings == c.Sessions()
      && w.total == c.PerSession() * c.Sessions() + U32 * w.overruns
      && w.iterations == w.total % U32
      && (!c.ramp ==> w.total == c.PerSession() * c.Sessions())
      && (w.total == c.PerSession() * c.Sessions() <==> w.overruns == 0)
  {
    QuietRunProgress(c, events);
    RunKeepsInv(c, events);
  }

  // ----- such a run does end

  function SessionsLeft(c: Settings, w: Worker): int {
    c.Sessions() - w.openings
  }

  function IterationsLeft(c: Settings, w: Worker): int {
    if OpenAt(w.pc) == Yes && !w.pc.CloseHead? then c.PerSession() + U32 + 1 - w.session else 0
  }

  function StepsLeft(pc: Pc): (n: nat)
    ensures n < 12
  {
    match pc
    case Created => 6
    case OpenHead(_) => 5
    case OpenCall(_) => 4
    case Opened => 5
    case Entering => 4
    case PaceHead(_, _) => 2
    case Iterating(_, _) => 1
    case Checking(_, _) => 3
    case SessionEnd => 11
    case Between => 7
    case Reopen => 6
    case CloseHead(_) => 9
    case CloseCall(_) => 8
    case Catch => 0
    case Finish => 10
    case Exit => 7
    case Leaving => 6
    case Done => 0
    case Aborted => 0
  }

  /** A later state has fewer sessions, iterations of a session, or steps of an iteration left. */
  ghost predicate Descends(c: Settings, w: Worker, w': Worker) {
    && 0 <= SessionsLeft(c, w') <= SessionsLeft(c, w)
    && 0 <= IterationsLeft(c, w') < Span(c)
    && (SessionsLeft(c, w') == SessionsLeft(c, w) ==>
          && IterationsLeft(c, w') <= IterationsLeft(c, w)
          && (IterationsLeft(c, w') == IterationsLeft(c, w) ==> StepsLeft(w'.pc) < StepsLeft(w.pc)))
  }

  function Span(c: Settings): nat {
    c.PerSession() + U32 + 2
  }

  lemma OpenStepDescends(c: Settings, w: Worker, e: Event)
    requires c.Valid() && Progress(c, w) && Starting(w.pc) && e.Act? && e.outcome == Ok
    ensures Descends(c, w, OpenStep(c, w, e))
  {
    hide Due;
  }

  lemma PaceStepDescends(c: Settings, w: Worker, e: Event)
    requires c.Valid() && Progress(c, w) && Pacing(w.pc) && e.Act? && e.outcome == Ok
    ensures Descends(c, w, PaceStep(c, w, e))
  {
    hide Due;
    if w.pc.Iterating? {
      LimitMet(c, w.session, w.overran);
      WrapStep(w.session);
    }
  }

  lemma ChangeStepDescends(c: Settings, w: Worker)
    requires c.Valid() && Progress(c, w) && Changing(w.pc)
    ensures Descends(c, w, ChangeStep(c, w))
  {
    hide Due;
  }

  lemma CloseStepDescends(c: Settings, w: Worker, e: Event)
    requires c.Valid() && Progress(c, w) && Closing(w.pc) && e.Act? && e.outcome == Ok
    ensures Descends(c, w, CloseStep(w, e))
  {
    hide Due;
  }

  lemma EndStepDescends(c: Settings, w: Worker)
    requires c.Valid() && Progress(c, w) && !w.pc.Done?
    requires !Starting(w.pc) && !Pacing(w.pc) && !Changing(w.pc) && !Closing(w.pc)
    ensures Descends(c, w, EndStep(w))
  {
    hide Due;
  }

  lemma QuietStepDescends(c: Settings, w: Worker, e: Event)
    requires c.Valid() && Progress(c, w) && !w.pc.Done? && e.Act? && e.outcome == Ok
    ensures Descends(c, w, Step(c, w, e))
  {
    hide Progress, Descends, OpenStep, PaceStep, ChangeStep, CloseStep, EndStep;
    if Starting(w.pc) {
      OpenStepDescends(c, w, e);
    } else if Pacing(w.pc) {
      PaceStepDescends(c, w, e);
    } else if Changing(w.pc) {
      ChangeStepDescends(c, w);
    } else if Closing(w.pc) {
      CloseStepDescends(c, w, e);
    } else {
      EndStepDescends(c, w);
    }
  }

  /** A bound on the steps that are left. */
  function Rank(c: Settings, w: Worker): int {
    (SessionsLeft(c, w) * Span(c) + IterationsLeft(c, w)) * 12 + StepsLeft(w.pc)
  }

  lemma DescendsInRank(c: Settings, w: Worker, w': Worker)
    requires Descends(c, w, w') && 0 <= IterationsLeft(c, w)
    ensures 0 <= Rank(c, w') < Rank(c, w)
  {
    hide SessionsLeft, IterationsLeft, StepsLeft, Span;
    var m, m', k := SessionsLeft(c, w), SessionsLeft(c, w'), Span(c);
    if m' < m {
      FewerRounds(m', m, k);
    }
    FewerRounds(-1, m', k);
  }

  lemma FewerRounds(m': int, m: int, k: nat)
    requires m' < m
    ensures m' * k + k <= m * k
  {
    var d: nat := m - m';
    assert m * k == (m' + d) * k == m' * k + d * k;
    Arithmetic.MulAtLeast(k, d);
  }

  lemma {:induction false} QuietRank(c: Settings, events: seq<Event>)
    requires c.Valid() && Quiet(events)
    ensures var w := Run(c, FRESH, events);
      && 0 <= IterationsLeft(c, w) && 0 <= Rank(c, w)
      && (w.pc.Done? || Rank(c, w) + |events| <= Rank(c, FRESH))
  {
    if events == [] {
      FewerRounds(-1, SessionsLeft(c, FRESH), Span(c));
    } else {
      var before, e := events[..|events| - 1], events[|events| - 1];
      QuietRank(c, before);
      QuietRunProgress(c, before);
      hide Progress, SessionsLeft, IterationsLeft, StepsLeft, Rank;
      var w := Run(c, FRESH, before);
      if !w.pc.Done? {
        QuietStepDescends(c, w, e);
        DescendsInRank(c, w, Step(c, w, e));
      }
    }
  }

  /**
   With neither shutdown nor failure, every run reaches its end: within a number of
   steps that the settings give.
   */
  lemma QuietRunsEnd(c: Settings, events: seq<Event>)
    requires c.Valid() && Quiet(events)
    requires |events| >= 12 * c.Sessions() * (c.PerSession() + U32 + 2) + 6
    ensures Run(c, FRESH, events).pc.Done?
  {
    QuietRank(c, events);
    QuietRunProgress(c, events);
    RankAtStart(c);
    var w := Run(c, FRESH, events);
    hide Run, Rank;
    assert w.pc.Done? || StepsLeft(w.pc) >= 1;
    RankAtLeast(c, w);
  }

  lemma RankAtStart(c: Settings)
    ensures Rank(c, FRESH) == 12 * c.Sessions() * Span(c) + 6
  {
    assert c.Sessions() * Span(c) * 12 == 12 * c.Sessions() * Span(c);
  }

  lemma RankAtLeast(c: Settings, w: Worker)
    requires c.Valid() && Progress(c, w)
    ensures Rank(c, w) >= StepsLeft(w.pc)
  {
    FewerRounds(-1, SessionsLeft(c, w), Span(c));
  }

  // ----- a signalled worker winds down

  /** The most own steps left to any worker that has been signalled. */
  const WIND_DOWN := 24

  /** The most own steps that a signalled worker takes before its thread ends. */
  function StepsToEnd(pc: Pc): (n: nat)
    ensures n <= WIND_DOWN && (n == 0 <==> pc.Done? || pc.Aborted?)
  {
    match pc
    case Created => 21
    case OpenHead(_) => 20
    case OpenCall(_) => 19
    case Opened => 18
    case Entering => 17
    case Checking(_, ramping) => if ramping then 14 else 13
    case Iterating(_, ramping) => if ramping then 15 else 14
    case PaceHead(_, ramping) => if ramping then 13 else 12
    case CloseHead(last) => if last then 5 else 24
    case CloseCall(last) => if last then 4 else 23
    case Between => 22
    case Reopen => 21
    case SessionEnd => 11
    case Catch => 7
    case Finish => 6
    case Exit => 3
    case Leaving => 2
    case Done => 0
    case Aborted => 0
  }

  /** Whatever its calls result in, each step of a signalled worker brings the end of its thread closer. */
  lemma SignalledWindsDown(c: Settings, w: Worker, e: Event)
    requires w.shutdown && e.Act? && !w.pc.Done? && !w.pc.Aborted?
    ensures Step(c, w, e).shutdown && StepsToEnd(Step(c, w, e).pc) < StepsToEnd(w.pc)
  {
    if Starting(w.pc) {
      hide PaceStep, ChangeStep, CloseStep, EndStep;
    } else if Pacing(w.pc) {
      hide OpenStep, ChangeStep, CloseStep, EndStep;
    } else if Changing(w.pc) {
      hide OpenStep, PaceStep, CloseStep, EndStep;
    } else if Closing(w.pc) {
      hide OpenStep, PaceStep, ChangeStep, EndStep;
    } else {
      hide OpenStep, PaceStep, ChangeStep, CloseStep;
    }
  }
}
