/**
 A put/get pair as code: msgOneIteration (src/PutGet.cpp:114-132,
 src/Requester.cpp:161-180), oneIteration and closeSession
 (src/MQIWorkerThread.cpp:129-150), with other threads at work between any two
 calls.  Every execution is a run of the round-trip machine.
 */
module PutGet {
  import QueueManager
  import opened TransactionOptions
  import opened RoundTrip

  /** The queues, and where the other threads are. */
  class Queues {
    var site: Site
    var workers: seq<Worker>

    constructor (n: nat)
      ensures site == EMPTY && workers == seq(n, i => Worker(Closed, 0))
    {
      site, workers := EMPTY, seq(n, i => Worker(Closed, 0));
    }
  }

  class PairThread {
    const o: Options
    const me: nat
    const queues: Queues
    ghost const n: nat
    ghost var events: seq<Event>
    ghost var w: Worker

    /** The queues, with this thread among the others, are where a run has led. */
    ghost predicate Synced()
      reads this, queues
    {
      && me < n == |queues.workers|
      && System(queues.site, queues.workers[me := w]) == RoundTrip.Run(o, n, events)
    }

    constructor (o: Options, me: nat, queues: Queues, ghost n: nat)
      requires me < n && queues.site == EMPTY && queues.workers == seq(n, i => Worker(Closed, 0))
      ensures Synced() && w == Worker(Closed, 0)
      ensures this.o == o && this.me == me && this.queues == queues && this.n == n
    {
      this.o, this.me, this.queues, this.n := o, me, queues, n;
      events, w := [], Worker(Closed, 0);
    }

    /** Other threads make calls, and requests are answered. */
    method Elsewhere()
      requires Synced()
      modifies queues, this`events
      ensures Synced()
    {
      var left: int := *;
      while left > 0
        invariant Synced()
      {
        hide Turn;
        var c: int, r: Outcome := *, *;
        var position: int := *;
        if 0 <= c < |queues.workers| && c != me {
          ghost var y := RoundTrip.Run(o, n, events);
          var (s, v) := Turn(o, queues.site, queues.workers[c], c, r);
          queues.site, queues.workers := s, queues.workers[c := v];
          RunOne(o, n, events, Call(c, r));
          events := events + [Call(c, r)];
          assert queues.workers[me := w] == y.workers[c := v];
        } else if 0 <= position < |queues.site.requests| && queues.site.requests[position].state == Free {
          queues.site := Answered(queues.site, position);
          RunOne(o, n, events, Answer(position));
          events := events + [Answer(position)];
        }
        left := left - 1;
      }
    }

    /** The queues are as one more call of this thread leaves them. */
    ghost method Note(r: Outcome, was: Site)
      requires me < n == |queues.workers|
      requires System(was, queues.workers[me := w]) == RoundTrip.Run(o, n, events)
      requires queues.site == Turn(o, was, w, me, r).0
      modifies this`events, this`w
      ensures Synced() && w == Turn(o, was, old(w), me, r).1
    {
      hide Turn;
      RunOne(o, n, events, Call(me, r));
      events := events + [Call(me, r)];
      w := Turn(o, was, w, me, r).1;
    }

    method OpenSession() returns (ok: bool)
      requires Synced() && w.pc == Closed
      modifies queues, this`events, this`w
      ensures Synced() && w == if ok then old(w).(pc := ToPut) else old(w)
    {
      Elsewhere();
      ok := *;
      Note(if ok then QueueManager.Works else QueueManager.Refused, queues.site);
    }

    /** The message put is told apart by the serial number of the put. */
    method Put(serial: nat) returns (ok: bool)
      requires Synced() && w == Worker(ToPut, serial)
      modifies queues, this`events, this`w
      ensures Synced() && w == Worker(if ok then ToCommitPut else Closing(false), serial)
    {
      hide Site.BackOut, Site.Sent;
      Elsewhere();
      var r: Outcome := *;
      var was := queues.site;
      var m := Item(me, serial, if o.pair.putSync then State.Put else Free);
      queues.site := was.After(was.Sent(o, m), r, me);
      ok := r.Works?;
      Note(r, was);
    }

    method CommitPut() returns (ok: bool)
      requires Synced() && w.pc == ToCommitPut
      modifies queues, this`events, this`w
      ensures Synced() && w == old(w).(pc := if ok then ToGet else Closing(false))
    {
      hide Site.BackOut, Site.Commit;
      Elsewhere();
      var r: Outcome := *;
      var was := queues.site;
      ok := true;
      if o.pair.commitPut {
        queues.site := was.After(was.Commit(me), r, me);
        ok := r.Works?;
      }
      Note(r, was);
    }

    /**
     Waits for a message with this thread's correlation ID.  The message that is
     got is the one that was put, or the reply to it.
     */
    method Get() returns (ok: bool, got: nat)
      requires Synced() && w.pc == ToGet && Sound(o)
      modifies queues, this`events, this`w
      ensures Synced() && w == old(w).(pc := if ok then ToCommit(got) else Closing(false))
      ensures ok ==> got == old(w).serial
    {
      hide Site.BackOut, Take, Match;
      var patience: int := *;
      Elsewhere();
      while patience > 0 && Match(queues.site.replies, me).None?
        invariant Synced() && w == old(w)
      {
        Note(QueueManager.Works, queues.site);
        Elsewhere();
        patience := patience - 1;
      }
      var was, m := queues.site, Match(queues.site.replies, me);
      var r: Outcome := *;
      ok, got := false, 0;
      if m.Some? {
        queues.site := was.After(was.(replies := Take(was.replies, me, o.pair.getSync)), r, me);
        ok, got := r.Works?, m.value.serial;
      } else {
        r := if r.Works? then QueueManager.Refused else r;
        queues.site := was.After(was, r, me);
      }
      Note(r, was);
      GetsWhatItPut(o, n, events, me);
    }

    /** One iteration: put, commit the put if that is asked for, get. */
    method MsgOneIteration(serial: nat) returns (ok: bool)
      requires Synced() && w == Worker(ToPut, serial) && Sound(o)
      modifies queues, this`events, this`w
      ensures Synced() && w == Worker(if ok then ToCommit(serial) else Closing(false), serial)
    {
      ok := Put(serial);
      if ok {
        ok := CommitPut();
        if ok {
          var got;
          ok, got := Get();
        }
      }
    }

    /** The commit count of a pair is at most one, so every iteration ends with a commit, or none does. */
    method OneIteration(serial: nat) returns (ok: bool)
      requires Synced() && w == Worker(ToPut, serial) && Sound(o)
      modifies queues, this`events, this`w
      ensures Synced() && (ok ==> w == Worker(ToPut, serial + 1)) && (!ok ==> w.pc == Closing(false))
    {
      ok := MsgOneIteration(serial);
      if ok {
        ok := CommitIteration();
      }
    }

    method CommitIteration() returns (ok: bool)
      requires Synced() && w.pc.ToCommit?
      modifies queues, this`events, this`w
      ensures Synced() && w == Worker(if ok then ToPut else Closing(false), old(w).serial + 1)
    {
      hide Site.BackOut, Site.Commit;
      Elsewhere();
      var r: Outcome := *;
      var was := queues.site;
      ok := true;
      if o.pair.commitIteration {
        queues.site := was.After(was.Commit(me), r, me);
        ok := r.Works?;
      }
      Note(r, was);
    }

    /** A session that ended in a failure does not close well. */
    method CloseSession()
      requires Synced() && w.pc.Closing?
      modifies queues, this`events, this`w
      ensures Synced() && (w.pc == Failed || (w.pc == Closed && old(w.pc).good)) && w.serial == old(w.serial)
    {
      var ok := Rollback();
      if ok {
        Disconnect();
      }
    }

    method Rollback() returns (ok: bool)
      requires Synced() && w.pc.Closing?
      modifies queues, this`events, this`w
      ensures Synced() && w == old(w).(pc := if ok then Leaving(old(w.pc).good) else Failed)
    {
      hide Site.BackOut, Site.Commit;
      Elsewhere();
      var r: Outcome := *;
      var was := queues.site;
      ok := true;
      if o.pair.commitIteration {
        queues.site := was.After(was.BackOut(me), r, me);
        ok := r.Works?;
      }
      Note(r, was);
    }

    method Disconnect()
      requires Synced() && w.pc.Leaving?
      modifies queues, this`events, this`w
      ensures Synced() && (w.pc == Failed || (w.pc == Closed && old(w.pc).good)) && w.serial == old(w.serial)
    {
      hide Site.BackOut, Site.Commit;
      Elsewhere();
      var r: Outcome := *;
      var was := queues.site;
      queues.site := was.After(was.Commit(me), r, me);
      Note(r, was);
    }

    /**
     Up to the given number of iterations.  If the session opens and closes well, it has
     had them all, and nothing of it is left on the queues.
     */
    method Session(messages: nat, serial: nat) returns (begun: bool)
      requires Synced() && w == Worker(Closed, serial) && Sound(o)
      modifies queues, this`events, this`w
      ensures Synced() && (w.pc == Closed || w.pc == Failed) && (!begun ==> w == Worker(Closed, serial))
      ensures w.pc == Closed ==> queues.site.Of(me) == EMPTY && (begun ==> w.serial == serial + messages)
    {
      hide RoundTrip.Run, Turn;
      begun := OpenSession();
      var ok := begun;
      if ok {
        var its := 0;
        while ok && its < messages
          invariant Synced() && its <= messages
          invariant if ok then w == Worker(ToPut, serial + its) else w.pc == Closing(false)
          decreases messages - its + if ok then 1 else 0
        {
          ok := OneIteration(serial + its);
          if ok {
            its := its + 1;
          }
        }
        if ok {
          StopIterating();
        }
        CloseSession();
      }
      GetsWhatItPut(o, n, events, me);
    }

    ghost method StopIterating()
      requires Synced() && w.pc == ToPut
      modifies this`events, this`w
      ensures Synced() && w == old(w).(pc := Closing(true))
    {
      RunOne(o, n, events, Stop(me));
      events := events + [Stop(me)];
      w := w.(pc := Closing(true));
    }
  }
}
