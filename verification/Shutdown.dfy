/**
 Starting and shutting down workers as code (src/ControlThread.cpp:582-588, 674-696),
 with workers at work between any two steps.  Every execution is one of the
 control-thread machine.
 */
module Shutdown {
  import opened WorkerMachine
  import opened ControlThread

  /** The own steps left to all workers that have started and are signalled. */
  function Remaining(ws: seq<Worker>): nat {
    if ws == [] then 0
    else Remaining(ws[..|ws| - 1]) + StepsToEnd(ws[|ws| - 1].pc)
  }

  lemma {:induction false} RemainingUpdate(ws: seq<Worker>, i: nat, w: Worker)
    requires i < |ws|
    ensures Remaining(ws[i := w]) == Remaining(ws) - StepsToEnd(ws[i].pc) + StepsToEnd(w.pc)
  {
    hide StepsToEnd;
    var n := |ws| - 1;
    if i < n {
      RemainingUpdate(ws[..n], i, w);
      assert ws[i := w][..n] == ws[..n][i := w];
    } else {
      assert ws[i := w][..n] == ws[..n];
    }
  }

  class Controller {
    const c: Settings
    var workers: seq<Worker>
    var runningWorkers: nat
    ghost var control: Control

    ghost function Abs(): System
      reads this
    {
      System(workers, runningWorkers, control, false)
    }

    ghost predicate Valid()
      reads this
    {
      ControlThread.Inv(Abs())
    }

    constructor (c: Settings, n: nat)
      ensures Valid() && control == Starting && |workers| == n && this.c == c
      ensures forall i :: 0 <= i < n ==> workers[i] == FRESH
    {
      this.c, workers, runningWorkers, control := c, seq(n, _ => FRESH), 0, Starting;
      new;
      InitialInv(n);
    }

    /** One step of a worker; among its steps are incRunners and decRunners. */
    method WorkerActs(i: nat)
      requires Valid() && i < |workers| && !workers[i].pc.Created?
      modifies this`workers, this`runningWorkers
      ensures Valid() && |workers| == |old(workers)|
      ensures forall j :: 0 <= j < |workers| && j != i ==> workers[j] == old(workers)[j]
      ensures exists o, check :: workers[i] == Step(c, old(workers)[i], Act(o, check))
    {
      hide ControlThread.Inv, WorkerMachine.Inv, Quiescent, Step;
      var o: Outcome, check: RampCheck := *, *;
      var e := Act(o, check);
      ghost var was := Abs();
      ActorSteps(was, i, e);
      WorkerMovesShape(c, was, i, e);
      WorkerMovesKeepsInv(c, was, i, e);
      var s := WorkerMoves(c, System(workers, runningWorkers, Starting, false), i, e);
      SameMove(was, i, e);
      workers, runningWorkers := s.workers, s.runners;
    }

    lemma ActorSteps(s: System, i: nat, e: Event)
      requires ControlThread.Inv(s) && i < |s.workers| && e.Act?
      ensures |WorkerMoves(c, s, i, e).workers| == |s.workers|
      ensures WorkerMoves(c, s, i, e).workers[i] == Step(c, s.workers[i], e)
    {
      hide Step, WorkerMachine.Inv;
      WorkerStepFacts(c, s.workers[i], e);
      if s.workers[i].pc.Leaving? {
        CountedPositive(s.workers, i);
      }
    }

    /** What the control thread is doing makes no difference to a worker's step. */
    lemma SameMove(s: System, i: nat, e: Event)
      requires ControlThread.Inv(s) && i < |s.workers| && e.Act? && !s.underflow
      ensures var t := WorkerMoves(c, s.(control := Starting), i, e);
        WorkerMoves(c, s, i, e) == t.(control := s.control) && !t.underflow
    {
      hide Step;
      WorkerMovesKeepsInv(c, s, i, e);
    }

    /** Workers that have started take any number of steps. */
    method Elsewhere()
      requires Valid()
      modifies this`workers, this`runningWorkers
      ensures Valid() && |workers| == |old(workers)|
      ensures forall j :: 0 <= j < |workers| && old(workers)[j].pc.Created? ==> workers[j] == old(workers)[j]
      ensures forall j :: 0 <= j < |workers| && !old(workers)[j].pc.Created? ==> !workers[j].pc.Created?
    {
      var left: int := *;
      while left > 0
        invariant Valid() && |workers| == |old(workers)|
        invariant forall j :: 0 <= j < |workers| && old(workers)[j].pc.Created? ==> workers[j] == old(workers)[j]
        invariant forall j :: 0 <= j < |workers| && !old(workers)[j].pc.Created? ==> !workers[j].pc.Created?
      {
        var i: int := *;
        if 0 <= i < |workers| && !workers[i].pc.Created? {
          ghost var w := workers[i];
          assert WorkerMachine.Inv(w);
          WorkerActs(i);
          ghost var o, check :| workers[i] == Step(c, w, Act(o, check));
          StaysStarted(c, w, Act(o, check));
          hide Step;
        }
        left := left - 1;
      }
    }

    method Start(i: nat)
      requires Valid() && control == Starting && i < |workers| && workers[i].pc.Created?
      modifies this`workers
      ensures Valid() && workers == old(workers)[i := Step(c, old(workers)[i], Act(Ok, GivenUp))]
    {
      hide Step, ControlThread.Inv;
      StartKeepsInv(Abs(), i);
      workers := workers[i := Step(c, workers[i], Act(Ok, GivenUp))];
    }

    lemma StartKeepsInv(s: System, i: nat)
      requires ControlThread.Inv(s) && s.control == Starting && i < |s.workers| && s.workers[i].pc.Created?
      ensures ControlThread.Inv(s.(workers := s.workers[i := Step(c, s.workers[i], Act(Ok, GivenUp))]))
    {
      hide Step, WorkerMachine.Inv;
      WorkerStepFacts(c, s.workers[i], Act(Ok, GivenUp));
      CountedUpdate(s.workers, i, Step(c, s.workers[i], Act(Ok, GivenUp)));
    }

    /** Starts the workers one after another; those already started are at work meanwhile. */
    method StartWorkers()
      requires Valid() && control == Starting && forall i :: 0 <= i < |workers| ==> workers[i].pc.Created?
      modifies this
      ensures Valid() && control == Starting && |workers| == |old(workers)|
      ensures forall i :: 0 <= i < |workers| ==> !workers[i].pc.Created?
    {
      var i := 0;
      while i < |workers|
        invariant i <= |workers| == |old(workers)| && Valid() && control == Starting
        invariant forall j :: i <= j < |workers| ==> workers[j].pc.Created?
        invariant forall j :: 0 <= j < i ==> !workers[j].pc.Created?
      {
        StartsOnce(c, workers[i]);
        Start(i);
        Elsewhere();
        i := i + 1;
      }
    }

    method SignalShutdown(i: nat)
      requires Valid() && control == Signalling(i) && i < |workers|
      modifies this
      ensures Valid() && control == Signalling(i + 1) && |workers| == |old(workers)|
    {
      hide Step, ControlThread.Inv;
      SignalKeepsInv(Abs());
      workers := workers[i := Step(c, workers[i], Signal)];
      control := Signalling(i + 1);
    }

    lemma SignalKeepsInv(s: System)
      requires ControlThread.Inv(s) && s.control.Signalling? && s.control.next < |s.workers|
      ensures var k := s.control.next;
        ControlThread.Inv(s.(workers := s.workers[k := Step(c, s.workers[k], Signal)], control := Signalling(k + 1)))
    {
      hide Step, WorkerMachine.Inv;
      var k := s.control.next;
      WorkerStepFacts(c, s.workers[k], Signal);
      CountedUpdate(s.workers, k, Step(c, s.workers[k], Signal));
    }

    /**
     One wait of the control thread, which no started worker sleeps through: each
     takes a step.  If one is counted, fewer steps are left.
     */
    method LockAndWait()
      requires Valid() && control == Waiting
      modifies this`workers, this`runningWorkers
      ensures Valid() && |workers| == |old(workers)|
      ensures Remaining(workers) <= Remaining(old(workers))
      ensures (exists i :: 0 <= i < |old(workers)| && CanStep(old(workers)[i])) ==>
                Remaining(workers) < Remaining(old(workers))
    {
      hide Step, Remaining, StepsToEnd;
      var i := 0;
      while i < |workers|
        invariant i <= |workers| == |old(workers)| && Valid()
        invariant forall j :: i <= j < |workers| ==> workers[j] == old(workers)[j]
        invariant Remaining(workers) <= Remaining(old(workers))
        invariant (exists j :: 0 <= j < i && CanStep(old(workers)[j])) ==> Remaining(workers) < Remaining(old(workers))
      {
        if !workers[i].pc.Created? {
          ghost var was := workers;
          WorkerActs(i);
          ActWindsDown(was, i, workers[i]);
          assert workers == was[i := workers[i]];
        }
        i := i + 1;
      }
    }

    lemma ActWindsDown(ws: seq<Worker>, i: nat, w: Worker)
      requires i < |ws| && ws[i].shutdown && !ws[i].pc.Created?
      requires exists o, check :: w == Step(c, ws[i], Act(o, check))
      ensures Remaining(ws[i := w]) <= Remaining(ws)
      ensures CanStep(ws[i]) ==> Remaining(ws[i := w]) < Remaining(ws)
    {
      hide Step, StepsToEnd;
      var o, check :| w == Step(c, ws[i], Act(o, check));
      RemainingUpdate(ws, i, w);
      if CanStep(ws[i]) {
        SignalledWindsDown(c, ws[i], Act(o, check));
      } else {
        EndStays(c, ws[i], Act(o, check));
      }
    }

    /**
     Signals every worker, then waits until none is running.  The wait ends: either an
     exception has escaped from the closing of a last session, which ends the process,
     or no worker is counted and none will run another iteration.
     */
    method ShutdownWorkers() returns (escaped: bool)
      requires Valid() && control == Starting
      modifies this
      ensures Valid() && |workers| == |old(workers)|
      ensures escaped ==> exists i :: 0 <= i < |workers| && workers[i].pc.Aborted?
      ensures !escaped ==> control == Returned && runningWorkers == 0
      ensures !escaped ==> forall i :: 0 <= i < |workers| ==> Quiescent(workers[i]) && !workers[i].counted
    {
      control := Signalling(0);
      var i := 0;
      while i < |workers|
        invariant Valid() && control == Signalling(i) && |workers| == |old(workers)|
      {
        SignalShutdown(i);
        Elsewhere();
        i := i + 1;
      }
      control := Waiting;
      while runningWorkers > 0
        invariant Valid() && control == Waiting && |workers| == |old(workers)|
        decreases Remaining(workers)
      {
        if exists i :: 0 <= i < |workers| && workers[i].pc.Aborted? {
          return true;
        }
        SomeoneCounted(Abs());
        LockAndWait();
      }
      escaped := false;
      ReadsNone();
    }

    /** A worker that is counted has steps to take. */
    lemma SomeoneCounted(s: System)
      requires ControlThread.Inv(s) && s.runners > 0 && Alive(s)
      ensures exists i :: 0 <= i < |s.workers| && CanStep(s.workers[i])
    {
      if forall i :: 0 <= i < |s.workers| ==> !s.workers[i].counted {
        NoneCounted(s.workers);
      }
      var i :| 0 <= i < |s.workers| && s.workers[i].counted;
      assert WorkerMachine.Inv(s.workers[i]);
      assert CanStep(s.workers[i]);
    }

    /** The last read of the count. */
    ghost method ReadsNone()
      requires Valid() && control == Waiting && runningWorkers == 0
      modifies this`control
      ensures Valid() && control == Returned
      ensures forall i :: 0 <= i < |workers| ==> Quiescent(workers[i]) && !workers[i].counted
    {
      hide Quiescent, WorkerMachine.Inv;
      forall i | 0 <= i < |workers| ensures Quiescent(workers[i]) && !workers[i].counted {
        if workers[i].counted {
          CountedPositive(workers, i);
        }
        WorkerStepFacts(c, workers[i], Signal);
      }
      control := Returned;
    }
  }

  /** A worker that has started is never as new again. */
  lemma StaysStarted(c: Settings, w: Worker, e: Event)
    requires WorkerMachine.Inv(w) && !w.pc.Created?
    ensures !Step(c, w, e).pc.Created?
  {
    if WorkerMachine.Starting(w.pc) {
      hide PaceStep, ChangeStep, CloseStep, EndStep;
    } else if Pacing(w.pc) {
      hide OpenStep, ChangeStep, CloseStep, EndStep;
    } else if Changing(w.pc) {
      hide OpenStep, PaceStep, CloseStep, EndStep;
    } else if Closing(w.pc) {
      hide OpenStep, PaceStep, ChangeStep, EndStep;
    } else {
      hide OpenStep, PaceStep, ChangeStep, CloseStep;
    }
  }

  lemma StartsOnce(c: Settings, w: Worker)
    requires w.pc.Created?
    ensures !Step(c, w, Act(Ok, GivenUp)).pc.Created?
  {
  }

  /** Started and not yet at its end. */
  predicate CanStep(w: Worker) {
    !w.pc.Created? && !w.pc.Done? && !w.pc.Aborted?
  }
}
