/**
 The control thread and its workers (src/ControlThread.cpp:573-696) as one machine:
 the worker steps interleave in any order with starting, signalling and waiting.
 incRunners, decRunners and the read of the count are single steps.
 */
module ControlThread {
  import opened WorkerMachine

  datatype Control = Starting | Signalling(next: nat) | Waiting | Returned

  /** runners is the shared count; underflow records that decRunners took its error branch. */
  datatype System = System(workers: seq<Worker>, runners: nat, control: Control, underflow: bool)

  datatype Move =
    | Start(i: nat)
    | WorkerAct(i: nat, e: Event)
    | BeginShutdown | SignalNext | ReadCount

  function Initial(n: nat): System {
    System(seq(n, _ => FRESH), 0, Starting, false)
  }

  /** No exception has escaped from a thread; one that does ends the process (src/Thread.cpp:107-110). */
  predicate Alive(s: System) {
    forall i :: 0 <= i < |s.workers| ==> !s.workers[i].pc.Aborted?
  }

  predicate Enabled(s: System, m: Move) {
    Alive(s) &&
    match m
    case Start(i) => s.control.Starting? && i < |s.workers| && s.workers[i].pc.Created?
    case WorkerAct(i, e) => i < |s.workers| && !s.workers[i].pc.Created? && e.Act?
    case BeginShutdown => s.control.Starting?
    case SignalNext => s.control.Signalling?
    case ReadCount => s.control.Waiting?
  }

  function Next(c: Settings, s: System, m: Move): System
    requires Enabled(s, m)
  {
    match m
    case Start(i) => s.(workers := s.workers[i := Step(c, s.workers[i], Act(Ok, GivenUp))])
    case WorkerAct(i, e) => WorkerMoves(c, s, i, e)
    case BeginShutdown => s.(control := Signalling(0))
    case SignalNext =>
      var k := s.control.next;
      if k >= |s.workers| then s.(control := Waiting)
      else s.(workers := s.workers[k := Step(c, s.workers[k], Signal)], control := Signalling(k + 1))
    case ReadCount => if s.runners > 0 then s else s.(control := Returned)
  }

  function WorkerMoves(c: Settings, s: System, i: nat, e: Event): System
    requires i < |s.workers|
  {
    var w := s.workers[i];
    var s' := s.(workers := s.workers[i := Step(c, w, e)]);
    if w.pc.Entering? then s'.(runners := s.runners + 1)
    else if w.pc.Leaving? then
      if s.runners == 0 then s.(workers := s.workers[i := w.(pc := Aborted)], underflow := true)
      else s'.(runners := s.runners - 1)
    else s'
  }

  /** An execution: consecutive systems, each following from the one before by an enabled move. */
  ghost predicate IsExecution(c: Settings, n: nat, moves: seq<Move>, systems: seq<System>) {
    && |systems| == |moves| + 1 && systems[0] == Initial(n)
    && forall k {:trigger moves[k]} :: 0 <= k < |moves| ==>
         Enabled(systems[k], moves[k]) && systems[k + 1] == Next(c, systems[k], moves[k])
  }

  // ----- counting workers

  function Counted(ws: seq<Worker>): nat {
    if ws == [] then 0
    else Counted(ws[..|ws| - 1]) + if ws[|ws| - 1].counted then 1 else 0
  }

  lemma {:induction false} CountedUpdate(ws: seq<Worker>, i: nat, w: Worker)
    requires i < |ws|
    ensures Counted(ws[i := w]) ==
      Counted(ws) - (if ws[i].counted then 1 else 0) + (if w.counted then 1 else 0)
  {
    var n := |ws| - 1;
    if i < n {
      CountedUpdate(ws[..n], i, w);
      assert ws[i := w][..n] == ws[..n][i := w];
    } else {
      assert ws[i := w][..n] == ws[..n];
    }
  }

  lemma {:induction false} CountedPositive(ws: seq<Worker>, i: nat)
    requires i < |ws| && ws[i].counted
    ensures Counted(ws) >= 1
  {
    if i < |ws| - 1 {
      CountedPositive(ws[..|ws| - 1], i);
    }
  }

  lemma {:induction false} CountedInitially(n: nat)
    ensures Counted(seq(n, _ => FRESH)) == 0
  {
    if n > 0 {
      CountedInitially(n - 1);
      assert seq(n, _ => FRESH)[..n - 1] == seq(n - 1, _ => FRESH);
    }
  }

  // ----- the invariant of every interleaving

  /** After shutdownWorkers has returned, no worker can start another iteration. */
  predicate Quiescent(w: Worker) {
    && w.shutdown && !w.pc.Iterating? && !w.pc.Checking?
    && !w.pc.Between? && !w.pc.Reopen?
    && (w.pc.OpenHead? ==> w.pc.first) && (w.pc.OpenCall? ==> w.pc.first)
    && (w.pc.CloseHead? ==> w.pc.last) && (w.pc.CloseCall? ==> w.pc.last)
  }

  ghost predicate WorkersInv(s: System) {
    forall i :: 0 <= i < |s.workers| ==> WorkerMachine.Inv(s.workers[i])
  }

  ghost predicate Signalled(s: System, k: nat) {
    forall i :: 0 <= i < |s.workers| && i < k ==> s.workers[i].shutdown
  }

  ghost predicate Inv(s: System) {
    && WorkersInv(s)
    && !s.underflow
    && s.runners == Counted(s.workers)
    && match s.control
       case Starting => true
       case Signalling(k) => Signalled(s, k)
       case Waiting => Signalled(s, |s.workers|)
       case Returned => forall i :: 0 <= i < |s.workers| ==> Quiescent(s.workers[i])
  }

  lemma InitialInv(n: nat)
    ensures Inv(Initial(n))
  {
    CountedInitially(n);
  }

  lemma WorkerStepFacts(c: Settings, w: Worker, e: Event)
    requires WorkerMachine.Inv(w)
    ensures WorkerMachine.Inv(Step(c, w, e))
    ensures w.shutdown ==> Step(c, w, e).shutdown
    ensures e.Signal? ==> Step(c, w, e).shutdown && Step(c, w, e).counted == w.counted
    ensures e.Act? ==>
      Step(c, w, e).counted == (if w.pc.Entering? then true else if w.pc.Leaving? then false else w.counted)
    ensures w.pc.Entering? ==> !w.counted
    ensures w.pc.Leaving? ==> w.counted
    ensures e.Act? && Quiescent(w) ==> Quiescent(Step(c, w, e)) && Step(c, w, e).iterations == w.iterations
    ensures w.shutdown && !w.counted ==> Quiescent(w)
  {
    StepKeepsInv(c, w, e);
  }

  lemma WorkerMovesKeepsInv(c: Settings, s: System, i: nat, e: Event)
    requires Inv(s) && i < |s.workers| && e.Act?
    ensures Inv(WorkerMoves(c, s, i, e))
    ensures s.control.Returned? ==> WorkerMoves(c, s, i, e).workers[i].iterations == s.workers[i].iterations
  {
    hide Step, WorkerMachine.Inv, Quiescent;
    var w := s.workers[i];
    WorkerStepFacts(c, w, e);
    if w.pc.Leaving? {
      CountedPositive(s.workers, i);
    }
    CountedUpdate(s.workers, i, Step(c, w, e));
  }

  lemma NextKeepsInv(c: Settings, s: System, m: Move)
    requires Inv(s) && Enabled(s, m)
    ensures Inv(Next(c, s, m))
  {
    hide Step, WorkerMachine.Inv, WorkerMoves, Quiescent;
    match m {
      case Start(i) =>
        WorkerStepFacts(c, s.workers[i], Act(Ok, GivenUp));
        CountedUpdate(s.workers, i, Step(c, s.workers[i], Act(Ok, GivenUp)));
      case WorkerAct(i, e) =>
        WorkerMovesKeepsInv(c, s, i, e);
      case BeginShutdown =>
      case SignalNext =>
        var k := s.control.next;
        if k < |s.workers| {
          WorkerStepFacts(c, s.workers[k], Signal);
          CountedUpdate(s.workers, k, Step(c, s.workers[k], Signal));
        }
      case ReadCount =>
        if s.runners == 0 {
          forall i | 0 <= i < |s.workers|
            ensures Quiescent(s.workers[i])
          {
            if s.workers[i].counted { CountedPositive(s.workers, i); }
            WorkerStepFacts(c, s.workers[i], Signal);
          }
        }
    }
  }

  lemma {:induction false} ExecutionKeepsInv(c: Settings, n: nat, moves: seq<Move>, systems: seq<System>, k: nat)
    requires IsExecution(c, n, moves, systems) && k < |systems|
    ensures Inv(systems[k])
  {
    if k == 0 {
      InitialInv(n);
    } else {
      ExecutionKeepsInv(c, n, moves, systems, k - 1);
      var m := moves[k - 1];
      NextKeepsInv(c, systems[k - 1], m);
    }
  }

  // ----- the results

  /**
   In every interleaving the shared count is the number of workers past incRunners
   and before decRunners, and decRunners never finds it zero.  A worker's RUNNING
   bit is on exactly from one step before it is counted to one step before it stops
   being counted, and its sessions are opened and closed in pairs.
   */
  lemma RunnersAreCounted(c: Settings, n: nat, moves: seq<Move>, systems: seq<System>, k: nat, i: nat)
    requires IsExecution(c, n, moves, systems) && k < |systems| && i < |systems[k].workers|
    ensures var s := systems[k]; var w := s.workers[i];
      && s.runners == Counted(s.workers) && !s.underflow
      && (w.state.running <==> w.pc.Entering? || (w.counted && !w.pc.Leaving?))
      && w.openings == w.closings + (if w.state.open then 1 else 0)
      && (w.pc.Iterating? ==> w.state.open)
  {
    ExecutionKeepsInv(c, n, moves, systems, k);
  }

  /** When shutdownWorkers returns, no worker was counted at its last read. */
  lemma ReturnsWhenNoneRuns(c: Settings, n: nat, moves: seq<Move>, systems: seq<System>, k: nat, i: nat)
    requires IsExecution(c, n, moves, systems) && k < |moves|
    requires !systems[k].control.Returned? && systems[k + 1].control.Returned?
    requires i < |systems[k].workers|
    ensures moves[k] == ReadCount && !systems[k].workers[i].counted && systems[k].workers[i].shutdown
  {
    ExecutionKeepsInv(c, n, moves, systems, k);
    if systems[k].workers[i].counted {
      CountedPositive(systems[k].workers, i);
    }
    var m := moves[k];
    assert systems[k + 1] == Next(c, systems[k], m);
  }

  lemma NextKeepsShape(c: Settings, s: System, m: Move)
    requires Inv(s) && Enabled(s, m)
    ensures |Next(c, s, m).workers| == |s.workers|
    ensures s.control.Returned? ==> Next(c, s, m).control.Returned?
    ensures s.control.Returned? ==> forall i :: 0 <= i < |s.workers| ==>
              Next(c, s, m).workers[i].iterations == s.workers[i].iterations
  {
    hide Step, WorkerMachine.Inv, WorkerMoves, Quiescent;
    if m.WorkerAct? {
      WorkerMovesShape(c, s, m.i, m.e);
      WorkerMovesKeepsInv(c, s, m.i, m.e);
    }
  }

  lemma WorkerMovesShape(c: Settings, s: System, i: nat, e: Event)
    requires i < |s.workers|
    ensures |WorkerMoves(c, s, i, e).workers| == |s.workers| && WorkerMoves(c, s, i, e).control == s.control
    ensures forall j :: 0 <= j < |s.workers| && j != i ==> WorkerMoves(c, s, i, e).workers[j] == s.workers[j]
  {
  }

  /**
   The totals that the control thread adds up after shutdownWorkers are final:
   whatever a late worker still does, no iteration count changes any more.
   */
  lemma {:induction false} TotalsAreFinal(c: Settings, n: nat, moves: seq<Move>, systems: seq<System>, k: nat, l: nat)
    requires IsExecution(c, n, moves, systems) && k <= l < |systems| && systems[k].control.Returned?
    ensures systems[l].control.Returned? && |systems[l].workers| == |systems[k].workers|
    ensures forall i :: 0 <= i < |systems[k].workers| ==>
              systems[l].workers[i].iterations == systems[k].workers[i].iterations
  {
    if k < l {
      TotalsAreFinal(c, n, moves, systems, k, l - 1);
      ExecutionKeepsInv(c, n, moves, systems, l - 1);
      var m := moves[l - 1];
      assert systems[l] == Next(c, systems[l - 1], m);
      NextKeepsShape(c, systems[l - 1], m);
    }
  }

  // ----- the wait ends

  /** How many of the moves are worker i's own. */
  function OwnSteps(moves: seq<Move>, i: nat): nat {
    if moves == [] then 0
    else
      var m := moves[|moves| - 1];
      OwnSteps(moves[..|moves| - 1], i) + if m.WorkerAct? && m.i == i then 1 else 0
  }

  lemma {:induction false} NoneCounted(ws: seq<Worker>)
    requires forall i :: 0 <= i < |ws| ==> !ws[i].counted
    ensures Counted(ws) == 0
  {
    if ws != [] {
      NoneCounted(ws[..|ws| - 1]);
    }
  }

  /** While the control thread waits, a worker changes only by its own steps. */
  lemma WaitingMove(c: Settings, s: System, m: Move, i: nat)
    requires Inv(s) && Enabled(s, m) && (s.control.Waiting? || s.control.Returned?) && i < |s.workers|
    ensures var s' := Next(c, s, m);
      && (s'.control.Waiting? || s'.control.Returned?) && |s'.workers| == |s.workers|
      && s'.workers[i] == if m.WorkerAct? && m.i == i then Step(c, s.workers[i], m.e) else s.workers[i]
  {
    hide Step, WorkerMachine.Inv, Quiescent;
    WorkerStepFacts(c, s.workers[i], Signal);
    if m.WorkerAct? {
      WorkerStepFacts(c, s.workers[m.i], m.e);
      if s.workers[m.i].pc.Leaving? {
        CountedPositive(s.workers, m.i);
      }
    }
  }

  lemma {:induction false} WindsDown(
      c: Settings, n: nat, moves: seq<Move>, systems: seq<System>, k: nat, l: nat, i: nat)
    requires IsExecution(c, n, moves, systems) && k <= l < |systems| && i < |systems[k].workers|
    requires systems[k].control.Waiting? && !systems[k].workers[i].pc.Created?
    ensures (systems[l].control.Waiting? || systems[l].control.Returned?) && i < |systems[l].workers|
    ensures var w := systems[l].workers[i];
      && w.shutdown
      && (w.pc.Done? || w.pc.Aborted?
          || StepsToEnd(w.pc) + OwnSteps(moves[k..l], i) <= StepsToEnd(systems[k].workers[i].pc))
  {
    if k == l {
      ExecutionKeepsInv(c, n, moves, systems, k);
    } else {
      WindsDown(c, n, moves, systems, k, l - 1, i);
      ExecutionKeepsInv(c, n, moves, systems, l - 1);
      var s, m := systems[l - 1], moves[l - 1];
      assert systems[l] == Next(c, s, m) && Enabled(s, m);
      hide Step, Inv, Next, Enabled, IsExecution, StepsToEnd;
      WaitingMove(c, s, m, i);
      OwnStepsNext(moves, k, l, i);
      OwnStep(c, s.workers[i], m, i);
    }
  }

  lemma OwnStepsNext(moves: seq<Move>, k: nat, l: nat, i: nat)
    requires k < l <= |moves|
    ensures OwnSteps(moves[k..l], i)
         == OwnSteps(moves[k..l - 1], i) + if moves[l - 1].WorkerAct? && moves[l - 1].i == i then 1 else 0
  {
    assert moves[k..l][..l - 1 - k] == moves[k..l - 1];
  }

  lemma OwnStep(c: Settings, w: Worker, m: Move, i: nat)
    requires w.shutdown && (m.WorkerAct? ==> m.e.Act?)
    ensures m.WorkerAct? && m.i == i ==>
      var w' := Step(c, w, m.e);
      && w'.shutdown
      && (if w.pc.Done? || w.pc.Aborted? then w'.pc == w.pc else StepsToEnd(w'.pc) < StepsToEnd(w.pc))
  {
    hide Step, StepsToEnd;
    if m.WorkerAct? {
      if w.pc.Done? || w.pc.Aborted? {
        EndStays(c, w, m.e);
      } else {
        SignalledWindsDown(c, w, m.e);
      }
    }
  }

  lemma EndStays(c: Settings, w: Worker, e: Event)
    requires w.pc.Done? || w.pc.Aborted?
    ensures Step(c, w, e).pc == w.pc && (w.shutdown ==> Step(c, w, e).shutdown)
  {
  }

  /**
   Once every worker is signalled, the wait ends as soon as each started worker has
   come to its end or taken a few more steps, whatever they result in, unless an
   exception escapes from one of them and ends the process.
   */
  lemma WaitEnds(c: Settings, n: nat, moves: seq<Move>, systems: seq<System>, k: nat, l: nat)
    requires IsExecution(c, n, moves, systems) && k <= l < |systems|
    requires systems[k].control.Waiting? && Alive(systems[l])
    requires forall i :: 0 <= i < |systems[k].workers| && i < |systems[l].workers| ==>
               systems[k].workers[i].pc.Created? || systems[l].workers[i].pc.Done?
               || OwnSteps(moves[k..l], i) >= WIND_DOWN
    ensures systems[l].runners == 0
    ensures systems[l].control.Waiting? ==> Next(c, systems[l], ReadCount).control.Returned?
  {
    ExecutionKeepsInv(c, n, moves, systems, l);
    var s := systems[l];
    SameWorkers(c, n, moves, systems, k, l);
    forall i | 0 <= i < |s.workers| ensures !s.workers[i].counted {
      if systems[k].workers[i].pc.Created? {
        StaysCreated(c, n, moves, systems, k, l, i);
      } else {
        WindsDown(c, n, moves, systems, k, l, i);
      }
    }
    NoneCounted(s.workers);
  }

  lemma {:induction false} SameWorkers(c: Settings, n: nat, moves: seq<Move>, systems: seq<System>, k: nat, l: nat)
    requires IsExecution(c, n, moves, systems) && k <= l < |systems|
    ensures |systems[l].workers| == |systems[k].workers|
  {
    if k < l {
      SameWorkers(c, n, moves, systems, k, l - 1);
      ExecutionKeepsInv(c, n, moves, systems, l - 1);
      var m := moves[l - 1];
      assert systems[l] == Next(c, systems[l - 1], m);
      NextKeepsShape(c, systems[l - 1], m);
    }
  }

  /** A worker that was not started before the shutdown never is. */
  lemma {:induction false} StaysCreated(
      c: Settings, n: nat, moves: seq<Move>, systems: seq<System>, k: nat, l: nat, i: nat)
    requires IsExecution(c, n, moves, systems) && k <= l < |systems| && i < |systems[k].workers|
    requires systems[k].control.Waiting? && systems[k].workers[i].pc.Created?
    ensures (systems[l].control.Waiting? || systems[l].control.Returned?) && i < |systems[l].workers|
    ensures systems[l].workers[i].pc.Created?
  {
    if k < l {
      StaysCreated(c, n, moves, systems, k, l - 1, i);
      ExecutionKeepsInv(c, n, moves, systems, l - 1);
      var m := moves[l - 1];
      assert systems[l] == Next(c, systems[l - 1], m);
      WaitingMove(c, systems[l - 1], m, i);
    }
  }
}
