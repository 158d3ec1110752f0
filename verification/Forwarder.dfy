/**
 A forwarder as code: msgOneIteration (src/Forwarder.cpp:138-154), oneIteration and
 closeSession (src/MQIWorkerThread.cpp:129-150), with the other forwarders at work
 between any two of its calls.  Every execution is a run of the forwarding machine.
 */
module Forwarder {
  import opened QueueManager
  import opened Forwarding
  import WorkerMachine

  /** The queues, and where the other forwarders are. */
  class Site {
    var queues: Queues
    var workers: seq<Worker>

    constructor (n: nat, original: seq<Message>)
      ensures queues == Begin(n, original).queues && workers == Begin(n, original).workers
    {
      queues, workers := Begin(n, original).queues, Begin(n, original).workers;
    }
  }

  class Forwarder {
    const o: Options
    const me: nat
    const site: Site
    var iterations: nat
    ghost const original: seq<Message>
    ghost const n: nat
    ghost var events: seq<Event>
    ghost var pc: Pc

    ghost function Mine(): Worker
      reads this
    {
      Worker(pc, iterations)
    }

    /** The site, with this forwarder in it, is where a run has led. */
    ghost predicate Synced()
      reads this, site
    {
      && me < |site.workers|
      && System(site.queues, site.workers[me := Mine()]) == Forwarding.Run(o, Begin(n, original), events)
    }

    constructor (o: Options, me: nat, site: Site, ghost n: nat, ghost original: seq<Message>)
      requires me < n && site.queues == Begin(n, original).queues && site.workers == Begin(n, original).workers
      ensures Synced() && pc == Closed
      ensures this.o == o && this.me == me && this.site == site && this.n == n && this.original == original
    {
      this.o, this.me, this.site, this.n, this.original := o, me, site, n, original;
      iterations, pc, events := 0, Closed, [];
    }

    /** Other forwarders make calls. */
    method Elsewhere()
      requires Synced()
      modifies site, this`events
      ensures Synced()
    {
      var more: bool := *;
      var left: int := *;
      while more && left > 0
        invariant Synced()
        decreases left
      {
        hide Turn;
        var c: int := *;
        var r: Outcome := *;
        if 0 <= c < |site.workers| && c != me {
          ghost var s := Forwarding.Run(o, Begin(n, original), events);
          var (q, w) := Turn(o, site.queues, site.workers[c], c, r);
          site.queues, site.workers := q, site.workers[c := w];
          RunOne(o, Begin(n, original), events, Event(c, r));
          events := events + [Event(c, r)];
          assert site.workers[me := Mine()] == s.workers[c := w];
        }
        more := *;
        left := left - 1;
      }
    }

    /** The site is as one more call of this forwarder leaves it. */
    ghost method Note(r: Outcome, was: System)
      requires me < |was.workers| && was == Forwarding.Run(o, Begin(n, original), events)
      requires me < |site.workers| && site.workers[me := was.workers[me]] == was.workers
      requires (site.queues, Mine()) == Turn(o, was.queues, was.workers[me], me, r)
      modifies this`events
      ensures Synced()
    {
      hide Turn, Begin;
      RunOne(o, Begin(n, original), events, Event(me, r));
      events := events + [Event(me, r)];
      assert site.workers[me := Mine()] == was.workers[me := Mine()];
    }

    method OpenSession() returns (ok: bool)
      requires Synced() && pc == Closed
      modifies site, this`events, this`pc
      ensures Synced() && pc == if ok then Ready else Closed
    {
      Elsewhere();
      ghost var was := System(site.queues, site.workers[me := Mine()]);
      ok := *;
      pc := if ok then Ready else Closed;
      Note(if ok then Works else Refused, was);
    }

    /** A get times out when there is no message to be had; being shut down is one way to be refused. */
    method Get() returns (ok: bool, m: Message)
      requires Synced() && pc == Ready
      modifies site, this`events, this`pc
      ensures Synced() && pc == if ok then Holding(m) else Closing
    {
      hide Begin, Queues.BackOut, Options.Frequency, Got;
      Elsewhere();
      ghost var was := System(site.queues, site.workers[me := Mine()]);
      var r: Outcome := *;
      var q, i := site.queues, FirstFree(site.queues.input);
      m := Message(0, "");
      ok := false;
      if i < |q.input| {
        m := q.input[i].msg;
        ok := r.Works?;
        site.queues := q.After(q.(input := Got(q.input, i, o.Frequency() > 0, me)), r, me);
      } else {
        site.queues := q.After(q, r, me);
      }
      pc := if ok then Holding(m) else Closing;
      Note(r, was);
    }

    method CommitBetween(m: Message) returns (ok: bool)
      requires Synced() && pc == Holding(m)
      modifies site, this`events, this`pc
      ensures Synced() && pc == if ok then Passing(m) else Closing
    {
      hide Begin, Queues.Commit, Queues.BackOut;
      Elsewhere();
      ghost var was := System(site.queues, site.workers[me := Mine()]);
      var r: Outcome := *;
      ok := true;
      if o.Frequency() > 0 && o.cb && (iterations + 1) % WorkerMachine.U32 % o.Frequency() == 0 {
        site.queues := site.queues.After(site.queues.Commit(me), r, me);
        ok := r.Works?;
      }
      pc := if ok then Passing(m) else Closing;
      Note(r, was);
    }

    method Put(m: Message) returns (ok: bool)
      requires Synced() && pc == Passing(m)
      modifies site, this`events, this`pc
      ensures Synced() && pc == if ok then Replied else Closing
    {
      hide Begin, Queues.Commit, Queues.BackOut, Options.ReplyTo;
      Elsewhere();
      ghost var was := System(site.queues, site.workers[me := Mine()]);
      var r: Outcome := *;
      var q := site.queues;
      site.queues := q.After(q.(output := QueueManager.Put(q.output, o.ReplyTo(m), o.tx, me)), r, me);
      ok := r.Works?;
      pc := if ok then Replied else Closing;
      Note(r, was);
    }

    method MsgOneIteration() returns (ok: bool)
      requires Synced() && pc == Ready
      modifies site, this`events, this`pc
      ensures Synced() && pc == if ok then Replied else Closing
    {
      var m;
      ok, m := Get();
      if ok {
        ok := CommitBetween(m);
        if ok {
          ok := Put(m);
        }
      }
    }

    /** The iteration is counted once its commit, if one is due, has worked. */
    method OneIteration() returns (ok: bool)
      requires Synced() && pc == Ready
      modifies site, this
      ensures Synced() && pc == if ok then Ready else Closing
      ensures iterations == if ok then (old(iterations) + 1) % WorkerMachine.U32 else old(iterations)
    {
      ok := MsgOneIteration();
      if ok {
        ok := CommitIfDue();
      }
    }

    method CommitIfDue() returns (ok: bool)
      requires Synced() && pc == Replied
      modifies site, this
      ensures Synced() && pc == if ok then Ready else Closing
      ensures iterations == if ok then (old(iterations) + 1) % WorkerMachine.U32 else old(iterations)
    {
      hide Begin, Queues.Commit, Queues.BackOut;
      Elsewhere();
      ghost var was := System(site.queues, site.workers[me := Mine()]);
      var r: Outcome := *;
      ok := true;
      if o.Frequency() > 0 && (iterations + 1) % WorkerMachine.U32 % o.Frequency() == 0 {
        site.queues := site.queues.After(site.queues.Commit(me), r, me);
        ok := r.Works?;
      }
      if ok {
        iterations := (iterations + 1) % WorkerMachine.U32;
      }
      pc := if ok then Ready else Closing;
      Note(r, was);
    }

    method Rollback() returns (ok: bool)
      requires Synced() && pc == Closing
      modifies site, this`events, this`pc
      ensures Synced() && pc == if ok then Leaving else Abandoned
    {
      hide Begin, Queues.Commit, Queues.BackOut;
      Elsewhere();
      ghost var was := System(site.queues, site.workers[me := Mine()]);
      var r: Outcome := *;
      ok := true;
      if o.Frequency() > 0 {
        site.queues := site.queues.After(site.queues.BackOut(me), r, me);
        ok := r.Works?;
      }
      pc := if ok then Leaving else Abandoned;
      Note(r, was);
    }

    method Disconnect()
      requires Synced() && pc == Leaving
      modifies site, this`events, this`pc
      ensures Synced() && (pc == Closed || pc == Abandoned)
    {
      hide Begin, Queues.Commit, Queues.BackOut;
      Elsewhere();
      ghost var was := System(site.queues, site.workers[me := Mine()]);
      var r: Outcome := *;
      site.queues := site.queues.After(site.queues.Commit(me), r, me);
      pc := if r.Refused? then Abandoned else Closed;
      Note(r, was);
    }

    /** An exception from the roll back leaves the connection as it is. */
    method CloseSession()
      requires Synced() && pc == Closing
      modifies site, this`events, this`pc
      ensures Synced() && (pc == Closed || pc == Abandoned)
    {
      var ok := Rollback();
      if ok {
        Disconnect();
      }
    }

    /** A session of up to the given number of iterations, ended early by any failure or by shutdown. */
    method Session(messages: nat) returns (done: nat, ok: bool)
      requires Synced() && pc == Closed
      modifies site, this
      ensures Synced() && (pc == Closed || pc == Abandoned)
      ensures iterations == (old(iterations) + done) % WorkerMachine.U32 || done == 0
      ensures done <= messages && (ok ==> done == messages) && (done == 0 ==> iterations == old(iterations))
      ensures Safe(o) ==> Conserved(original, site.queues)
      ensures Safe(o) && pc == Closed ==> Clear(site.queues, me)
    {
      hide Forwarding.Run, Begin, Turn, Conserved, Clear;
      ok := OpenSession();
      done := 0;
      if ok {
        while ok && done < messages
          invariant Synced() && (pc == if ok then Ready else Closing) && done <= messages
          invariant iterations == (old(iterations) + done) % WorkerMachine.U32 || done == 0
          invariant done == 0 ==> iterations == old(iterations)
          decreases messages - done + if ok then 1 else 0
        {
          ok := OneIteration();
          if ok {
            WrapSum(old(iterations), done);
            done := done + 1;
          }
        }
        if ok {
          StopIterating();
        }
        CloseSession();
      }
      if Safe(o) {
        SafelyConserved();
      }
    }

    lemma SafelyConserved()
      requires Synced() && Safe(o)
      ensures Conserved(original, site.queues) && (pc == Closed ==> Clear(site.queues, me))
    {
      RunKeepsInv(n, original, o, events);
      hide Forwarding.Run, Conserved, Begin;
      ghost var s := Forwarding.Run(o, Begin(n, original), events);
      assert s.At(me) == pc;
      assert Matches(s.queues, s.At(me), me);
    }

    lemma WrapSum(n: nat, done: nat)
      ensures ((n + done) % WorkerMachine.U32 + 1) % WorkerMachine.U32 == (n + (done + 1)) % WorkerMachine.U32
    {
    }

    /** The limit is met, or shutdown was signalled: nothing more is got. */
    ghost method StopIterating()
      requires Synced() && pc == Ready
      modifies this`events, this`pc
      ensures Synced() && pc == Closing
    {
      ghost var was := System(site.queues, site.workers[me := Mine()]);
      pc := Closing;
      Note(Refused, was);
    }
  }
}
