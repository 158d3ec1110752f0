/**
 Reconnect rounds (src/ReconnectTimer.cpp:139-190, and the same protocol in
 src/RequesterReconnectTimer.cpp:186-238).  When calls fail, all threads move to
 the other of two hosts.  The gate, the making of a connection
 (src/MQIOther.cpp:82-107) and the counting at the end are one step each.
 */
module Reconnection {
  import opened Arithmetic

  datatype Host = Primary | Secondary

  function Other(h: Host): Host { if h.Primary? then Secondary else Primary }

  /** The statics shared by the threads, and the connection definition. */
  datatype Shared = Shared(first: bool, reconnected: nat, primary: bool, cd: Host, maxTime: nat, minTime: nat) {
    /** The host in use, as the static records it. */
    function Current(): Host { if primary then Primary else Secondary }
  }

  const AT_START := Shared(true, 0, true, Primary, 0, LONG_MAX)

  /** The first thread through the gate chooses the definition all are to use. */
  function Gate(s: Shared, channelTable: bool): Shared {
    if !s.first then s
    else s.(first := false, cd := if channelTable then s.cd else Other(s.Current()))
  }

  /** Counting a thread that has reconnected; the last of the round ends it. */
  function Finish(s: Shared, total: nat, time: nat): Shared {
    var t := s.(reconnected := s.reconnected + 1,
                maxTime := if time > s.maxTime then time else s.maxTime,
                minTime := if time < s.minTime then time else s.minTime);
    if t.reconnected == total then Shared(true, 0, !s.primary, s.cd, 0, LONG_MAX) else t
  }

  /** A thread is working, past the gate, or connected again but not yet counted. */
  datatype Pc = Up | Connecting | Connected

  /** `rounds` counts the thread's completed reconnections. */
  datatype Thread = Thread(pc: Pc, host: Host, rounds: nat)

  /** `toggles` counts the rounds that have ended, and `times` holds the times counted in this one. */
  datatype System = System(shared: Shared, threads: seq<Thread>, toggles: nat, times: seq<nat>)

  datatype Event = Event(who: nat, host: Host, time: nat)

  /** The next step of one thread.  With a channel table, the table chooses the host. */
  function Step(channelTable: bool, y: System, e: Event): System {
    if e.who >= |y.threads| then y
    else
      var t := y.threads[e.who];
      match t.pc
      case Up => y.(shared := Gate(y.shared, channelTable), threads := y.threads[e.who := t.(pc := Connecting)])
      case Connecting =>
        y.(threads := y.threads[e.who := t.(pc := Connected, host := if channelTable then e.host else y.shared.cd)])
      case Connected =>
        var s := Finish(y.shared, |y.threads|, e.time);
        var ended := y.shared.reconnected + 1 == |y.threads|;
        System(s, y.threads[e.who := Thread(Up, t.host, t.rounds + 1)],
               y.toggles + (if ended then 1 else 0), if ended then [] else y.times + [e.time])
  }

  function Begin(n: nat): System {
    System(AT_START, seq(n, i => Thread(Up, Primary, 0)), 0, [])
  }

  function Run(channelTable: bool, n: nat, events: seq<Event>): System {
    if events == [] then Begin(n)
    else Step(channelTable, Run(channelTable, n, events[..|events| - 1]), events[|events| - 1])
  }

  // ----- what holds in every run

  function Completed(threads: seq<Thread>): nat {
    if threads == [] then 0 else threads[0].rounds + Completed(threads[1..])
  }

  /** Threads past the gate and not yet counted. */
  function Midway(threads: seq<Thread>): nat {
    if threads == [] then 0 else (if threads[0].pc.Up? then 0 else 1) + Midway(threads[1..])
  }

  lemma {:induction false} Replaced(threads: seq<Thread>, i: nat, t: Thread)
    requires i < |threads|
    ensures Completed(threads[i := t]) == Completed(threads) - threads[i].rounds + t.rounds
    ensures Midway(threads[i := t])
         == Midway(threads) - (if threads[i].pc.Up? then 0 else 1) + (if t.pc.Up? then 0 else 1)
  {
    if i > 0 {
      Replaced(threads[1..], i - 1, t);
      assert threads[i := t][1..] == threads[1..][i - 1 := t];
    }
  }

  lemma {:induction false} MidwayAtMost(threads: seq<Thread>)
    ensures Midway(threads) <= |threads|
  {
    if threads != [] {
      MidwayAtMost(threads[1..]);
    }
  }

  ghost predicate Extremes(s: Shared, times: seq<nat>) {
    && (forall k :: 0 <= k < |times| ==> times[k] <= s.maxTime && s.minTime <= times[k])
    && (s.maxTime == 0 || s.maxTime in times) && (s.minTime == LONG_MAX || s.minTime in times)
  }

  ghost predicate Inv(channelTable: bool, y: System) {
    var s := y.shared;
    && (|y.threads| > 0 ==> s.reconnected < |y.threads|)
    && Completed(y.threads) == |y.threads| * y.toggles + s.reconnected
    && (s.primary <==> y.toggles % 2 == 0)
    && (!channelTable ==> s.cd == if s.first then s.Current() else Other(s.Current()))
    && (s.first && |y.threads| > 0 ==> s.reconnected + Midway(y.threads) < |y.threads|)
    && Extremes(s, y.times)
  }

  lemma UpKeepsInv(channelTable: bool, y: System, e: Event)
    requires Inv(channelTable, y) && e.who < |y.threads| && !y.threads[e.who].pc.Connected?
    ensures Inv(channelTable, Step(channelTable, y, e))
  {
    var y' := Step(channelTable, y, e);
    Replaced(y.threads, e.who, y'.threads[e.who]);
  }

  lemma ExtremesGrow(s: Shared, times: seq<nat>, total: nat, time: nat)
    requires Extremes(s, times) && s.reconnected + 1 != total
    ensures Extremes(Finish(s, total, time), times + [time])
  {
    var s' := Finish(s, total, time);
    assert time == (times + [time])[|times|];
    assert s.maxTime in times ==> s.maxTime in times + [time];
    assert s.minTime in times ==> s.minTime in times + [time];
  }

  /** A round ends only while it is open, however often each thread has taken part. */
  lemma FinishKeepsInv(channelTable: bool, y: System, e: Event)
    requires Inv(channelTable, y) && e.who < |y.threads| && y.threads[e.who].pc.Connected?
    ensures Inv(channelTable, Step(channelTable, y, e))
    ensures Step(channelTable, y, e).toggles != y.toggles ==> !y.shared.first
  {
    hide Extremes;
    var n, y' := |y.threads|, Step(channelTable, y, e);
    Replaced(y.threads, e.who, y'.threads[e.who]);
    MidwayAtMost(y.threads);
    if y.shared.reconnected + 1 == n {
      MulStep(n, y.toggles);
      MidwayWithout(y.threads, e.who);
      ExtremesNone(y'.shared);
    } else {
      ExtremesGrow(y.shared, y.times, n, e.time);
    }
  }

  lemma ExtremesNone(s: Shared)
    requires s.maxTime == 0 && s.minTime == LONG_MAX
    ensures Extremes(s, [])
  {
  }

  lemma MidwayWithout(threads: seq<Thread>, i: nat)
    requires i < |threads| && !threads[i].pc.Up?
    ensures Midway(threads) >= 1
  {
    Replaced(threads, i, threads[i].(pc := Up));
  }

  lemma StepKeepsInv(channelTable: bool, y: System, e: Event)
    requires Inv(channelTable, y)
    ensures Inv(channelTable, Step(channelTable, y, e))
  {
    if e.who < |y.threads| {
      if y.threads[e.who].pc.Connected? {
        FinishKeepsInv(channelTable, y, e);
      } else {
        UpKeepsInv(channelTable, y, e);
      }
    }
  }

  lemma {:induction false} BeginCounts(n: nat)
    ensures Completed(Begin(n).threads) == 0 == Midway(Begin(n).threads)
  {
    if n > 0 {
      BeginCounts(n - 1);
      assert Begin(n).threads[1..] == Begin(n - 1).threads;
    }
  }

  lemma {:induction false} RunKeepsInv(channelTable: bool, n: nat, events: seq<Event>)
    ensures Inv(channelTable, Run(channelTable, n, events)) && |Run(channelTable, n, events).threads| == n
  {
    if events == [] {
      BeginCounts(n);
    } else {
      RunKeepsInv(channelTable, n, events[..|events| - 1]);
      StepKeepsInv(channelTable, Run(channelTable, n, events[..|events| - 1]), events[|events| - 1]);
    }
  }

  /**
   In every interleaving, with threads reconnecting as often as they like: the
   definition names the host in use while no round is open and the other host
   while one is; the host in use changes once for each `n` completed
   reconnections; and the times shown are the extremes of this round.
   */
  lemma RoundsAlternate(n: nat, events: seq<Event>)
    requires n > 0
    ensures var y := Run(false, n, events);
      && y.shared.cd == (if y.shared.first then y.shared.Current() else Other(y.shared.Current()))
      && y.toggles == Completed(y.threads) / n && y.shared.reconnected == Completed(y.threads) % n
      && (y.shared.Current() == Primary <==> y.toggles % 2 == 0)
      && (forall k :: 0 <= k < |y.times| ==> y.shared.minTime <= y.times[k] <= y.shared.maxTime)
      && (if y.times == [] then y.shared.maxTime == 0 && y.shared.minTime == LONG_MAX
          else y.shared.maxTime in y.times && (y.shared.minTime in y.times || y.shared.minTime == LONG_MAX))
  {
    RunKeepsInv(false, n, events);
    var y := Run(false, n, events);
    Quotient(n, y.toggles, y.shared.reconnected);
  }

  // ----- one definition for each round

  /** The host a thread is on after completing a number of rounds. */
  function HostAfter(rounds: nat): Host { if rounds % 2 == 0 then Primary else Secondary }

  /** Every thread leaves for a round only once, and only after completing the last. */
  ghost predicate OncePerRound(n: nat, events: seq<Event>) {
    events != [] ==>
      && OncePerRound(n, events[..|events| - 1])
      && var y, e := Run(false, n, events[..|events| - 1]), events[|events| - 1];
         e.who < |y.threads| && y.threads[e.who].pc.Up? ==> y.threads[e.who].rounds == y.toggles
  }

  ghost predicate InRound(t: Thread, y: System) {
    match t.pc
    case Up => y.toggles <= t.rounds <= y.toggles + 1 && t.host == HostAfter(t.rounds)
    case Connecting => t.rounds == y.toggles && !y.shared.first
    case Connected => t.rounds == y.toggles && !y.shared.first && t.host == HostAfter(t.rounds + 1)
  }

  ghost predicate Orderly(y: System) {
    forall i :: 0 <= i < |y.threads| ==> InRound(y.threads[i], y)
  }

  /** If no thread is ahead of a round and all together have completed it, each has. */
  lemma {:induction false} AllCompleted(threads: seq<Thread>, k: nat)
    requires forall i :: 0 <= i < |threads| ==> threads[i].rounds <= k
    ensures Completed(threads) <= |threads| * k
    ensures Completed(threads) == |threads| * k ==> forall i :: 0 <= i < |threads| ==> threads[i].rounds == k
  {
    if threads != [] {
      var rest := threads[1..];
      AllCompleted(rest, k);
      assert |threads| * k == |rest| * k + k;
      forall i | 0 <= i < |threads| && Completed(threads) == |threads| * k ensures threads[i].rounds == k {
        assert i > 0 ==> threads[i] == rest[i - 1];
      }
    }
  }

  lemma StepKeepsOrder(y: System, e: Event)
    requires Inv(false, y) && Orderly(y)
    requires e.who < |y.threads| && y.threads[e.who].pc.Up? ==> y.threads[e.who].rounds == y.toggles
    ensures Orderly(Step(false, y, e))
  {
    if e.who < |y.threads| {
      var y' := Step(false, y, e);
      assert InRound(y.threads[e.who], y);
      if y'.toggles != y.toggles {
        RoundEnds(y, e);
      } else {
        forall i | 0 <= i < |y'.threads| ensures InRound(y'.threads[i], y') {
          assert InRound(y.threads[i], y);
        }
      }
    }
  }

  /** When a round ends, every thread has completed it. */
  lemma RoundEnds(y: System, e: Event)
    requires Inv(false, y) && Orderly(y) && e.who < |y.threads|
    requires Step(false, y, e).toggles != y.toggles
    ensures Orderly(Step(false, y, e))
  {
    var t, y' := y.threads[e.who], Step(false, y, e);
    var t' := y'.threads[e.who];
    assert InRound(t, y);
    assert t.pc.Connected? && y'.toggles == y.toggles + 1 && y'.threads == y.threads[e.who := t'];
    assert y.shared.reconnected + 1 == |y.threads| && t' == Thread(Up, t.host, t.rounds + 1);
    Replaced(y.threads, e.who, t');
    hide Step, Extremes;
    MulStep(|y.threads|, y.toggles);
    forall i | 0 <= i < |y'.threads| ensures y'.threads[i].rounds <= y.toggles + 1 {
      assert i != e.who ==> InRound(y.threads[i], y);
    }
    AllCompleted(y'.threads, y.toggles + 1);
    forall i | 0 <= i < |y'.threads| ensures InRound(y'.threads[i], y') {
      assert y'.threads[i].rounds == y.toggles + 1;
      assert InRound(y.threads[i], y);
    }
  }

  lemma {:induction false} OrderlyRun(n: nat, events: seq<Event>)
    requires OncePerRound(n, events)
    ensures Orderly(Run(false, n, events))
  {
    if events != [] {
      OrderlyRun(n, events[..|events| - 1]);
      RunKeepsInv(false, n, events[..|events| - 1]);
      StepKeepsOrder(Run(false, n, events[..|events| - 1]), events[|events| - 1]);
    }
  }

  /**
   If each thread reconnects once per round, then all threads that have completed
   the k-th round are on one host, hosts alternate from round to round, and while
   no round is open every thread is on the host in use.
   */
  lemma OneHostPerRound(n: nat, events: seq<Event>, i: nat)
    requires OncePerRound(n, events) && i < n
    ensures var y := Run(false, n, events);
      && |y.threads| == n
      && (y.threads[i].pc.Up? ==> y.threads[i].host == HostAfter(y.threads[i].rounds))
      && (y.shared.first && y.shared.reconnected == 0 ==>
            y.threads[i].pc.Up? && y.threads[i].host == y.shared.Current())
  {
    OrderlyRun(n, events);
    RunKeepsInv(false, n, events);
    var y := Run(false, n, events);
    assert InRound(y.threads[i], y);
    if y.shared.first && y.shared.reconnected == 0 {
      NoneAhead(y, i);
    }
  }

  lemma {:induction false} AtLeastCompleted(threads: seq<Thread>, k: nat, i: nat)
    requires i < |threads| && forall j :: 0 <= j < |threads| ==> k <= threads[j].rounds
    ensures Completed(threads) >= |threads| * k + (threads[i].rounds - k)
  {
    var rest := threads[1..];
    assert |threads| * k == |rest| * k + k;
    if i > 0 {
      AtLeastCompleted(rest, k, i - 1);
    } else if rest != [] {
      AtLeastCompleted(rest, k, 0);
    }
  }

  lemma NoneAhead(y: System, i: nat)
    requires Inv(false, y) && Orderly(y) && y.shared.first && y.shared.reconnected == 0 && i < |y.threads|
    ensures y.threads[i].rounds == y.toggles
  {
    forall j | 0 <= j < |y.threads| ensures y.toggles <= y.threads[j].rounds {
      assert InRound(y.threads[j], y);
    }
    AtLeastCompleted(y.threads, y.toggles, i);
  }

  // ----- rounds without that discipline

  lemma {:induction false} RoundsGrow(channelTable: bool, n: nat, events: seq<Event>, more: seq<Event>)
    ensures var y, y' := Run(channelTable, n, events), Run(channelTable, n, events + more);
      && |y.threads| == |y'.threads| == n
      && forall i :: 0 <= i < n ==> y.threads[i].rounds <= y'.threads[i].rounds
  {
    RunKeepsInv(channelTable, n, events);
    if more == [] {
      assert events + more == events;
    } else {
      var before := more[..|more| - 1];
      RoundsGrow(channelTable, n, events, before);
      assert events + more == (events + before) + [more[|more| - 1]];
      RunOne(channelTable, n, events + before, more[|more| - 1]);
      hide Run, Step;
      StepGrows(channelTable, Run(channelTable, n, events + before), more[|more| - 1]);
    }
  }

  lemma StepGrows(channelTable: bool, y: System, e: Event)
    ensures var y' := Step(channelTable, y, e);
      && |y'.threads| == |y.threads|
      && forall i :: 0 <= i < |y.threads| ==> y.threads[i].rounds <= y'.threads[i].rounds
  {
    hide Gate, Finish;
  }

  /** If each of a number of threads has completed one more round, or each at most one more, the totals say so. */
  lemma {:induction false} OneMoreEach(a: seq<Thread>, b: seq<Thread>, least: bool)
    requires |a| == |b|
    requires forall i :: 0 <= i < |a| ==>
      if least then a[i].rounds + 1 <= b[i].rounds else b[i].rounds <= a[i].rounds + 1
    ensures if least then Completed(a) + |a| <= Completed(b) else Completed(b) <= Completed(a) + |a|
    ensures Completed(b) == Completed(a) + |a| ==> forall i :: 0 <= i < |a| ==> b[i].rounds == a[i].rounds + 1
  {
    if a != [] {
      var a', b' := a[1..], b[1..];
      OneMoreEach(a', b', least);
      forall i | 0 <= i < |a| && Completed(b) == Completed(a) + |a| ensures b[i].rounds == a[i].rounds + 1 {
        assert i > 0 ==> a[i] == a'[i - 1] && b[i] == b'[i - 1];
      }
    }
  }

  /**
   However often each thread takes part: between the end of one round and the end of
   the next, every thread reconnects if and only if none reconnects more than once.
   */
  lemma EveryoneIffNobodyTwice(channelTable: bool, n: nat, events: seq<Event>, more: seq<Event>)
    requires n > 0
    requires var y, y' := Run(channelTable, n, events), Run(channelTable, n, events + more);
      y.shared.reconnected == 0 == y'.shared.reconnected && y'.toggles == y.toggles + 1
    ensures var y, y' := Run(channelTable, n, events), Run(channelTable, n, events + more);
      && |y.threads| == |y'.threads| == n
      && ((forall i :: 0 <= i < n ==> y.threads[i].rounds < y'.threads[i].rounds)
          <==> (forall i :: 0 <= i < n ==> y'.threads[i].rounds <= y.threads[i].rounds + 1))
  {
    RoundsGrow(channelTable, n, events, more);
    RunKeepsInv(channelTable, n, events);
    RunKeepsInv(channelTable, n, events + more);
    var y, y' := Run(channelTable, n, events), Run(channelTable, n, events + more);
    hide Run;
    MulStep(n, y.toggles);
    if forall i :: 0 <= i < n ==> y.threads[i].rounds < y'.threads[i].rounds {
      OneMoreEach(y.threads, y'.threads, true);
    }
    if forall i :: 0 <= i < n ==> y'.threads[i].rounds <= y.threads[i].rounds + 1 {
      OneMoreEach(y.threads, y'.threads, false);
    }
  }

  lemma RunOne(channelTable: bool, n: nat, events: seq<Event>, e: Event)
    ensures Run(channelTable, n, events + [e]) == Step(channelTable, Run(channelTable, n, events), e)
  {
    assert (events + [e])[..|events|] == events;
  }

  const FIRST_THREAD := Event(0, Primary, 0)

  /** The first thread reconnects k times, one after another. */
  function Reconnects(k: nat): seq<Event> {
    if k == 0 then [] else Reconnects(k - 1) + [FIRST_THREAD] + [FIRST_THREAD] + [FIRST_THREAD]
  }

  lemma RunReconnects(n: nat, k: nat)
    requires k > 0
    ensures var e := FIRST_THREAD;
      Run(false, n, Reconnects(k)) == Step(false, Step(false, Step(false, Run(false, n, Reconnects(k - 1)), e), e), e)
  {
    hide Run, Step;
    var events := Reconnects(k - 1);
    RunOne(false, n, events, FIRST_THREAD);
    RunOne(false, n, events + [FIRST_THREAD], FIRST_THREAD);
    RunOne(false, n, events + [FIRST_THREAD] + [FIRST_THREAD], FIRST_THREAD);
  }

  lemma {:induction false} AloneInRound(n: nat, k: nat)
    requires 1 <= k < n
    ensures var y := Run(false, n, Reconnects(k));
      && |y.threads| == n && y.threads == Begin(n).threads[0 := Thread(Up, Secondary, k)]
      && !y.shared.first && y.shared.reconnected == k && y.shared.primary && y.shared.cd == Secondary && y.toggles == 0
  {
    RunReconnects(n, k);
    if k == 1 {
      assert Reconnects(0) == [];
      hide Reconnects;
    } else {
      AloneInRound(n, k - 1);
      hide Run, Reconnects;
    }
  }

  /**
   For any number of threads, one that reconnects as often as there are threads ends
   the round alone: no round is open, and the others are still on the old host.
   */
  lemma AloneEndsRound(n: nat)
    requires n >= 2
    ensures var y := Run(false, n, Reconnects(n));
      && |y.threads| == n && y.shared.first && y.shared.reconnected == 0 && y.toggles == 1
      && y.shared.Current() == Secondary
      && forall i :: 1 <= i < n ==> y.threads[i] == Thread(Up, Primary, 0)
  {
    AloneInRound(n, n - 1);
    RunReconnects(n, n);
    hide Run, Reconnects;
  }
}
