/**
 reconnect as code (src/ReconnectTimer.cpp:139-190): shared statics updated step by
 step, a connection attempt repeated until it succeeds, and other threads doing
 the same between any two steps.
 */
module ReconnectTimer {
  import opened Arithmetic
  import opened Reconnection

  /** The statics, the connection definition, and where the other threads are. */
  class Statics {
    var firstReconnectAttempt: bool
    var numThreadsReconnected: nat
    var usingPrimaryQM: bool
    var cd: Host
    var maxReconnectTime: nat
    var minReconnectTime: nat
    var threads: seq<Thread>
    ghost var toggles: nat
    ghost var times: seq<nat>

    constructor (n: nat)
      ensures Abs() == Begin(n)
    {
      firstReconnectAttempt, numThreadsReconnected, usingPrimaryQM, cd := true, 0, true, Primary;
      maxReconnectTime, minReconnectTime := 0, LONG_MAX;
      threads, toggles, times := seq(n, i => Thread(Up, Primary, 0)), 0, [];
    }

    ghost function Now(): Shared
      reads this
    {
      Shared(firstReconnectAttempt, numThreadsReconnected, usingPrimaryQM, cd, maxReconnectTime, minReconnectTime)
    }

    ghost function Abs(): System
      reads this
    {
      System(Now(), threads, toggles, times)
    }

    /** Under the lock. */
    method Gate(me: nat, channelTable: bool)
      requires me < |threads| && threads[me].pc == Up
      modifies this
      ensures forall host, time :: Abs() == Step(channelTable, old(Abs()), Event(me, host, time))
      ensures threads == old(threads)[me := old(threads)[me].(pc := Connecting)]
    {
      if firstReconnectAttempt {
        if !channelTable {
          if usingPrimaryQM {
            cd := Secondary;
          } else {
            cd := Primary;
          }
        }
        firstReconnectAttempt := false;
      }
      threads := threads[me := threads[me].(pc := Connecting)];
    }

    /** The definition is read when the attempt is made. */
    method Connect(me: nat, channelTable: bool, next: Host)
      requires me < |threads| && threads[me].pc == Connecting
      modifies this
      ensures forall time :: Abs() == Step(channelTable, old(Abs()), Event(me, next, time))
      ensures var host := if channelTable then next else cd;
        threads == old(threads)[me := old(threads)[me].(pc := Connected, host := host)]
    {
      threads := threads[me := threads[me].(pc := Connected, host := if channelTable then next else cd)];
    }

    method Finish(me: nat, channelTable: bool, totalThreads: nat, time: nat)
      requires me < |threads| == totalThreads && threads[me].pc == Connected
      modifies this
      ensures forall host :: Abs() == Step(channelTable, old(Abs()), Event(me, host, time))
      ensures threads == old(threads)[me := Thread(Up, old(threads)[me].host, old(threads)[me].rounds + 1)]
    {
      Count(totalThreads, time);
      threads := threads[me := Thread(Up, threads[me].host, threads[me].rounds + 1)];
    }

    /** The last of all threads ends the round. */
    method Count(totalThreads: nat, time: nat)
      modifies this
      ensures Now() == Reconnection.Finish(old(Now()), totalThreads, time) && threads == old(threads)
      ensures var ended := old(numThreadsReconnected) + 1 == totalThreads;
        && toggles == old(toggles) + (if ended then 1 else 0)
        && times == if ended then [] else old(times) + [time]
    {
      if time > maxReconnectTime {
        maxReconnectTime := time;
      }
      if time < minReconnectTime {
        minReconnectTime := time;
      }
      numThreadsReconnected := numThreadsReconnected + 1;
      times := times + [time];
      if numThreadsReconnected == totalThreads {
        if usingPrimaryQM {
          usingPrimaryQM := false;
        } else {
          usingPrimaryQM := true;
        }
        numThreadsReconnected := 0;
        firstReconnectAttempt := true;
        maxReconnectTime := 0;
        minReconnectTime := LONG_MAX;
        toggles, times := toggles + 1, [];
      }
    }
  }

  datatype IterationEnd = Returned | Reconnected | PutThrew | GetThrew

  datatype Call = PutCall | CommitCall | GetCall | Reconnecting

  /** The calls of an iteration in which none fails: with transactions, a commit follows the put and the get. */
  function Planned(tx: bool): seq<Call> {
    if tx then [PutCall, CommitCall, GetCall, CommitCall] else [PutCall, GetCall]
  }

  /** An iteration makes its calls in order until one fails, and then reconnects, unless that one throws. */
  predicate InOrder(tx: bool, calls: seq<Call>, end: IterationEnd) {
    match end
    case Returned => calls == Planned(tx)
    case Reconnected => exists k :: 1 <= k <= |Planned(tx)| && calls == Planned(tx)[..k] + [Reconnecting]
    case PutThrew => calls == [PutCall]
    case GetThrew => calls == if tx then [PutCall, CommitCall, GetCall] else [PutCall, GetCall]
  }

  class Reconnector {
    const me: nat
    const channelTable: bool
    const statics: Statics
    const txSet: bool
    const put1: bool
    /** Puts and gets on the thread's connection that are not committed. */
    var pendingPuts: nat
    var pendingGets: nat
    var shutdown: bool
    ghost const n: nat
    ghost var events: seq<Event>
    ghost var calls: seq<Call>

    ghost predicate Synced()
      reads this, statics
    {
      me < n == |statics.threads| && statics.Abs() == Reconnection.Run(channelTable, n, events)
    }

    constructor (me: nat, channelTable: bool, txSet: bool, put1: bool, statics: Statics, ghost n: nat)
      requires me < n && statics.Abs() == Begin(n)
      ensures Synced() && Settled() && this.me == me && this.statics == statics && this.n == n
      ensures this.channelTable == channelTable && this.txSet == txSet && this.put1 == put1
    {
      this.me, this.channelTable, this.txSet, this.put1 := me, channelTable, txSet, put1;
      this.statics, this.n := statics, n;
      events, calls, pendingPuts, pendingGets, shutdown := [], [], 0, 0, false;
    }

    ghost predicate Settled()
      reads this
    {
      pendingPuts == 0 == pendingGets
    }

    /** Other threads reconnect, and this one may be signalled to shut down. */
    method Elsewhere()
      requires Synced()
      modifies statics, this`events, this`shutdown
      ensures Synced() && statics.threads[me] == old(statics.threads[me])
    {
      var signalled: bool := *;
      shutdown := shutdown || signalled;
      var left: int := *;
      while left > 0
        invariant Synced() && statics.threads[me] == old(statics.threads[me])
      {
        var i: int, host: Host := *, *;
        if 0 <= i < |statics.threads| && i != me {
          OtherStep(i, host);
        }
        left := left - 1;
      }
    }

    method OtherStep(i: nat, host: Host)
      requires Synced() && i < |statics.threads| && i != me
      modifies statics, this`events
      ensures Synced() && statics.threads[me] == old(statics.threads[me])
    {
      hide Gate, Reconnection.Finish, Reconnection.Run;
      var time := 0;
      var slow: int := *;
      if slow > 0 {
        time := slow;
      }
      match statics.threads[i].pc {
        case Up => statics.Gate(i, channelTable);
        case Connecting => statics.Connect(i, channelTable, host);
        case Connected => statics.Finish(i, channelTable, |statics.threads|, time);
      }
      RunOne(channelTable, n, events, Event(i, host, time));
      events := events + [Event(i, host, time)];
    }

    /**
     Reconnects this thread.  Without a channel table the definition then names the
     host in use if no round is open, and the other host if one is.
     */
    method Reconnect(time: nat)
      requires Synced() && statics.threads[me].pc == Up
      modifies statics, this
      ensures Synced() && statics.threads[me].pc == Up && Settled()
      ensures statics.threads[me].rounds == old(statics.threads[me].rounds) + 1
      ensures calls == old(calls) + [Reconnecting]
      ensures !channelTable ==>
        var s := statics.Now(); s.cd == if s.first then s.Current() else Other(s.Current())
    {
      hide Reconnection.Run, Step;
      calls := calls + [Reconnecting];
      PassGate();
      MakeConnection();
      CountReconnected(time);
      RunKeepsInv(channelTable, n, events);
    }

    method PassGate()
      requires Synced() && statics.threads[me].pc == Up
      modifies statics, this`events, this`shutdown
      ensures Synced() && statics.threads[me] == old(statics.threads[me]).(pc := Connecting)
    {
      hide Reconnection.Gate, Reconnection.Run, Step;
      Elsewhere();
      statics.Gate(me, channelTable);
      RunOne(channelTable, n, events, Event(me, Primary, 0));
      events := events + [Event(me, Primary, 0)];
    }

    /** The old connection goes, with its unit of work; attempts are repeated until one succeeds. */
    method MakeConnection()
      requires Synced() && statics.threads[me].pc == Connecting
      modifies statics, this
      ensures Synced() && statics.threads[me].pc == Connected && Settled() && calls == old(calls)
      ensures statics.threads[me].rounds == old(statics.threads[me].rounds)
    {
      hide Reconnection.Run, Step;
      var attempts: int := *;
      pendingPuts, pendingGets := 0, 0;
      Elsewhere();
      while attempts > 0
        invariant Synced() && statics.threads[me] == old(statics.threads[me]) && Settled() && calls == old(calls)
      {
        Elsewhere();
        attempts := attempts - 1;
      }
      var next: Host := *;
      statics.Connect(me, channelTable, next);
      RunOne(channelTable, n, events, Event(me, next, 0));
      events := events + [Event(me, next, 0)];
    }

    method CountReconnected(time: nat)
      requires Synced() && statics.threads[me].pc == Connected
      modifies statics, this`events, this`shutdown
      ensures Synced() && statics.threads[me].pc == Up
      ensures statics.threads[me].rounds == old(statics.threads[me].rounds) + 1
    {
      hide Reconnection.Finish, Reconnection.Run, Step;
      Elsewhere();
      statics.Finish(me, channelTable, |statics.threads|, time);
      RunOne(channelTable, n, events, Event(me, Primary, time));
      events := events + [Event(me, Primary, time)];
    }

    /**
     An iteration (src/ReconnectTimer.cpp:192-238): put, commit, get, commit, and a
     reconnection instead of the rest if a call fails.  The put is committed before the
     get, and the iteration ends with nothing uncommitted on its connection.  Two calls
     may throw instead, which ends the session: a put by put1 that fails
     (src/MQIObjects.cpp:309-333), and a get that finds nothing after a shutdown was
     signalled (src/MQIObjects.cpp:484-493).
     */
    method MsgOneIteration(time: nat) returns (end: IterationEnd)
      requires Synced() && statics.threads[me].pc == Up && Settled()
      modifies statics, this
      ensures Synced() && statics.threads[me].pc == Up
      ensures (end.PutThrew? ==> put1) && (!end.PutThrew? ==> Settled()) && (end.GetThrew? ==> shutdown)
      ensures statics.threads[me].rounds == old(statics.threads[me].rounds) + if end.Reconnected? then 1 else 0
      ensures old(calls) <= calls && InOrder(txSet, calls[|old(calls)|..], end)
    {
      end := Exchange();
      hide Planned;
      if end.Reconnected? {
        ghost var made := calls[|old(calls)|..];
        Reconnect(time);
        assert calls[|old(calls)|..] == made + [Reconnecting];
      }
    }

    /** The calls of an iteration up to the first that fails, after which a reconnection is to follow. */
    method Exchange() returns (end: IterationEnd)
      requires Synced() && statics.threads[me].pc == Up && Settled()
      modifies statics, this
      ensures Synced() && statics.threads[me] == old(statics.threads[me])
      ensures (end.PutThrew? ==> put1) && (end.Returned? || end.GetThrew? ==> Settled()) && (end.GetThrew? ==> shutdown)
      ensures old(calls) <= calls
      ensures var made := calls[|old(calls)|..];
        if end.Reconnected? then exists k :: 1 <= k <= |Planned(txSet)| && made == Planned(txSet)[..k]
        else InOrder(txSet, made, end)
    {
      hide Reconnection.Run;
      var threw, rc := PutTry();
      if threw {
        return PutThrew;
      }
      if rc == 0 && txSet {
        rc := CommitTry();
      }
      if rc == 0 {
        threw, rc := GetTry();
        if threw {
          return GetThrew;
        }
        if rc == 0 && txSet {
          rc := CommitTry();
        }
      }
      ghost var made := calls[|old(calls)|..];
      assert made == Planned(txSet)[..|made|];
      end := if rc == 0 then Returned else Reconnected;
    }

    method PutTry() returns (threw: bool, rc: int)
      requires Synced() && Settled()
      modifies statics, this
      ensures Synced() && statics.threads[me] == old(statics.threads[me]) && pendingGets == 0
      ensures threw ==> put1
      ensures calls == old(calls) + [PutCall]
      ensures !threw && put1 ==> rc == 0
      ensures !threw && rc == 0 ==> pendingPuts == if txSet then 1 else 0
    {
      Elsewhere();
      calls := calls + [PutCall];
      rc := *;
      var done: bool := *;
      if (rc == 0 || done) && txSet {
        pendingPuts := 1;
      }
      threw := false;
      if put1 {
        threw, rc := rc != 0, 0;
      }
    }

    /** A put that is not committed would not be found; finding nothing, the get throws if signalled to shut down. */
    method GetTry() returns (threw: bool, rc: int)
      requires Synced() && Settled()
      modifies statics, this
      ensures Synced() && statics.threads[me] == old(statics.threads[me]) && pendingPuts == 0
      ensures threw ==> shutdown && pendingGets == 0
      ensures calls == old(calls) + [GetCall]
      ensures !threw && rc == 0 ==> pendingGets == if txSet then 1 else 0
    {
      Elsewhere();
      calls := calls + [GetCall];
      rc := *;
      threw := *;
      if threw && shutdown {
        return true, rc;
      }
      threw := false;
      var done: bool := *;
      if (rc == 0 || done) && txSet {
        pendingGets := 1;
      }
    }

    method CommitTry() returns (rc: int)
      requires Synced()
      modifies statics, this
      ensures Synced() && statics.threads[me] == old(statics.threads[me])
      ensures rc == 0 ==> Settled()
      ensures calls == old(calls) + [CommitCall]
    {
      Elsewhere();
      calls := calls + [CommitCall];
      rc := *;
      var done: bool := *;
      if rc == 0 || done {
        pendingPuts, pendingGets := 0, 0;
      }
    }
  }
}
