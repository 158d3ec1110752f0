/**
 Put/get pairs: any number of PutGet threads sharing a queue, or of Requester
 threads with a responder between two queues (src/PutGet.cpp:114-132,
 src/Requester.cpp:161-180), with the commits and roll backs of
 src/MQIWorkerThread.cpp:129-150.  Threads use correlation IDs, one each.
 */
module RoundTrip {
  import QueueManager
  import opened TransactionOptions

  type Outcome = QueueManager.Outcome

  /** A message is available, put but not committed, or got but not committed. */
  datatype State = Free | Put | Got

  /** A message of thread `key`, which alone puts and gets messages with its correlation ID. */
  datatype Item = Item(key: nat, serial: nat, state: State)

  datatype Options = Options(pair: PairOptions, requester: bool)

  /** A PutGet thread puts to the queue it gets from; a Requester puts requests and gets replies. */
  datatype Site = Site(requests: seq<Item>, replies: seq<Item>) {
    function Commit(c: nat): Site { Site(Settle(requests, c, Got), Settle(replies, c, Got)) }

    function BackOut(c: nat): Site { Site(Settle(requests, c, Put), Settle(replies, c, Put)) }

    function After(effect: Site, r: Outcome, c: nat): Site {
      var s := if r.Effective() then effect else this;
      if r.Undone() then s.BackOut(c) else s
    }

    function Sent(o: Options, m: Item): Site {
      if o.requester then this.(requests := requests + [m]) else this.(replies := replies + [m])
    }

    /** The part of the site that carries a thread's correlation ID. */
    function Of(c: nat): Site { Site(Mine(requests, c), Mine(replies, c)) }
  }

  /** A thread's unit of work ends: its messages in the given state go, the others become available. */
  function Settle(q: seq<Item>, c: nat, gone: State): seq<Item> {
    if q == [] then []
    else (if q[0].key != c then [q[0]] else if q[0].state == gone then [] else [q[0].(state := Free)])
         + Settle(q[1..], c, gone)
  }

  /** The first available message a thread's get matches. */
  function Match(q: seq<Item>, c: nat): (m: Option<Item>)
    ensures m.Some? ==> m.value in q && m.value.key == c && m.value.state == Free
  {
    if q == [] then None
    else if q[0].key == c && q[0].state == Free then Some(q[0])
    else Match(q[1..], c)
  }

  function Take(q: seq<Item>, c: nat, sync: bool): seq<Item> {
    if q == [] then []
    else if q[0].key == c && q[0].state == Free then (if sync then [q[0].(state := Got)] else []) + q[1..]
    else [q[0]] + Take(q[1..], c, sync)
  }

  function Mine(q: seq<Item>, c: nat): seq<Item> {
    if q == [] then [] else (if q[0].key == c then [q[0]] else []) + Mine(q[1..], c)
  }

  datatype Pc =
    | Closed
    | ToPut
    | ToCommitPut
    | ToGet
    | ToCommit(got: nat)     // the serial number of the message that was got
    | Closing(good: bool)
    | Leaving(good: bool)
    | Failed

  /** A thread, and the serial number of the message it puts next or waits for. */
  datatype Worker = Worker(pc: Pc, serial: nat)

  datatype Event = Call(who: nat, outcome: Outcome) | Stop(thread: nat) | Answer(position: nat)

  function Fail(w: Worker, r: Outcome, pc: Pc): Worker {
    w.(pc := if r.Works? then pc else Closing(false))
  }

  function Turn(o: Options, s: Site, w: Worker, c: nat, r: Outcome): (Site, Worker) {
    match w.pc
    case Closed => (s, if r.Works? then w.(pc := ToPut) else w)
    case ToPut =>
      (s.After(s.Sent(o, Item(c, w.serial, if o.pair.putSync then Put else Free)), r, c), Fail(w, r, ToCommitPut))
    case ToCommitPut =>
      if o.pair.commitPut then (s.After(s.Commit(c), r, c), Fail(w, r, ToGet)) else (s, w.(pc := ToGet))
    case ToGet =>
      var m := Match(s.replies, c);
      if m.None? then
        // waiting, or timing out or being refused
        if r.Works? then (s, w) else (s.After(s, r, c), w.(pc := Closing(false)))
      else
        (s.After(s.(replies := Take(s.replies, c, o.pair.getSync)), r, c), Fail(w, r, ToCommit(m.value.serial)))
    case ToCommit(_) =>
      if o.pair.commitIteration then (s.After(s.Commit(c), r, c), Fail(w.(serial := w.serial + 1), r, ToPut))
      else (s, Worker(ToPut, w.serial + 1))
    case Closing(good) =>
      if o.pair.commitIteration then (s.After(s.BackOut(c), r, c), w.(pc := if r.Works? then Leaving(good) else Failed))
      else (s, w.(pc := Leaving(good)))
    case Leaving(good) => (s.After(s.Commit(c), r, c), w.(pc := if good && r.Works? then Closed else Failed))
    case Failed => (s, w)
  }

  datatype System = System(site: Site, workers: seq<Worker>)

  function Step(o: Options, y: System, e: Event): System {
    match e
    case Call(who, r) =>
      if who >= |y.workers| then y
      else
        var (s, w) := Turn(o, y.site, y.workers[who], who, r);
        System(s, y.workers[who := w])
    case Stop(who) =>
      if who < |y.workers| && y.workers[who].pc == ToPut
      then y.(workers := y.workers[who := y.workers[who].(pc := Closing(true))])
      else y
    case Answer(i) =>
      if i < |y.site.requests| && y.site.requests[i].state == Free
      then y.(site := Answered(y.site, i))
      else y
  }

  /** The responder gets an available request and puts its reply, as one unit of work. */
  function Answered(s: Site, i: nat): Site
    requires i < |s.requests| && s.requests[i].state == Free
  {
    Site(s.requests[..i] + s.requests[i + 1..], s.replies + [s.requests[i]])
  }

  function Run(o: Options, n: nat, events: seq<Event>): System {
    if events == [] then System(Site([], []), seq(n, i => Worker(Closed, 0)))
    else Step(o, Run(o, n, events[..|events| - 1]), events[|events| - 1])
  }

  // ----- a thread sees and changes only its own messages

  lemma {:induction false} MineConcat(p: seq<Item>, q: seq<Item>, c: nat)
    ensures Mine(p + q, c) == Mine(p, c) + Mine(q, c)
  {
    if p == [] {
      assert p + q == q;
    } else {
      MineConcat(p[1..], q, c);
      assert (p + q)[0] == p[0] && (p + q)[1..] == p[1..] + q;
      QueueManager.Associative(if p[0].key == c then [p[0]] else [], Mine(p[1..], c), Mine(q, c));
    }
  }

  lemma MineCons(e: Item, q: seq<Item>, c: nat)
    ensures Mine([e] + q, c) == (if e.key == c then [e] else []) + Mine(q, c)
  {
    MineConcat([e], q, c);
  }

  /** Mine, for at most one message. */
  lemma MineFew(few: seq<Item>, d: nat)
    requires |few| <= 1
    ensures Mine(few, d) == if few != [] && few[0].key == d then few else []
  {
    if few != [] {
      assert few == [few[0]] + [];
      MineCons(few[0], [], d);
    }
  }

  lemma SettleCons(e: Item, q: seq<Item>, c: nat, gone: State)
    ensures Settle([e] + q, c, gone)
         == (if e.key != c then [e] else if e.state == gone then [] else [e.(state := Free)]) + Settle(q, c, gone)
  {
    assert ([e] + q)[1..] == q;
  }

  lemma {:induction false} SettleMine(q: seq<Item>, c: nat, gone: State, d: nat)
    ensures Mine(Settle(q, c, gone), d) == if d == c then Settle(Mine(q, c), c, gone) else Mine(q, d)
  {
    if q != [] {
      var e, rest := q[0], q[1..];
      assert q == [e] + rest;
      SettleMine(rest, c, gone, d);
      hide Settle, Mine;
      SettleCons(e, rest, c, gone);
      MineCons(e, rest, d);
      var kept := if e.key != c then [e] else if e.state == gone then [] else [e.(state := Free)];
      MineConcat(kept, Settle(rest, c, gone), d);
      MineFew(kept, d);
      assert [] + Mine(rest, d) == Mine(rest, d);
      assert [] + Settle(Mine(rest, c), c, gone) == Settle(Mine(rest, c), c, gone);
      SettleCons(e, Mine(rest, c), c, gone);
    }
  }

  lemma {:induction false} MatchMine(q: seq<Item>, c: nat)
    ensures Match(Mine(q, c), c) == Match(q, c)
  {
    if q != [] {
      MatchMine(q[1..], c);
      if q[0].key == c {
        assert Mine(q, c)[1..] == Mine(q[1..], c);
      } else {
        assert Mine(q, c) == Mine(q[1..], c);
      }
    }
  }

  lemma {:induction false} TakeMine(q: seq<Item>, c: nat, sync: bool, d: nat)
    ensures Mine(Take(q, c, sync), d) == if d == c then Take(Mine(q, c), c, sync) else Mine(q, d)
  {
    if q != [] {
      var e, rest := q[0], q[1..];
      assert q == [e] + rest;
      MineCons(e, rest, d);
      if e.key == c && e.state == Free {
        var kept := if sync then [e.(state := Got)] else [];
        MineConcat(kept, rest, d);
        MineFew(kept, d);
        assert [] + Mine(rest, d) == Mine(rest, d);
        assert d == c ==> Mine(q, c)[1..] == Mine(rest, c);
      } else {
        TakeMine(rest, c, sync, d);
        MineCons(e, Take(rest, c, sync), d);
        assert [] + Mine(rest, d) == Mine(rest, d) && [] + Mine(Take(rest, c, sync), d) == Mine(Take(rest, c, sync), d);
        assert e.key == c ==> Mine(q, c)[0] == e && Mine(q, c)[1..] == Mine(rest, c);
      }
    }
  }

  lemma AfterOf(s: Site, effect: Site, r: Outcome, c: nat, d: nat)
    requires d != c ==> effect.Of(d) == s.Of(d)
    ensures s.After(effect, r, c).Of(d) == if d == c then s.Of(c).After(effect.Of(c), r, c) else s.Of(d)
  {
    var k := if r.Effective() then effect else s;
    SettleMine(k.requests, c, Put, d);
    SettleMine(k.replies, c, Put, d);
  }

  /**
   A thread's turn is the same whether it sees the whole site or only its own
   messages, and leaves the others' alone.
   */
  lemma TurnOf(o: Options, s: Site, w: Worker, c: nat, r: Outcome, d: nat)
    ensures var (s', w') := Turn(o, s, w, c, r);
      && (d != c ==> s'.Of(d) == s.Of(d))
      && (s'.Of(c), w') == Turn(o, s.Of(c), w, c, r)
  {
    hide Settle, Match, Take, Mine, Site.After;
    forall k | k in {c, d} ensures
      && s.Commit(c).Of(k) == (if k == c then s.Of(c).Commit(c) else s.Of(k))
      && s.BackOut(c).Of(k) == (if k == c then s.Of(c).BackOut(c) else s.Of(k))
    {
      SettleMine(s.requests, c, Got, k);
      SettleMine(s.replies, c, Got, k);
      SettleMine(s.requests, c, Put, k);
      SettleMine(s.replies, c, Put, k);
    }
    match w.pc
    case Closed =>
    case ToPut =>
      var m := Item(c, w.serial, if o.pair.putSync then Put else Free);
      SentOf(o, s, m, c);
      SentOf(o, s, m, d);
      AfterOf(s, s.Sent(o, m), r, c, c);
      AfterOf(s, s.Sent(o, m), r, c, d);
    case ToCommitPut =>
      AfterOf(s, s.Commit(c), r, c, c);
      AfterOf(s, s.Commit(c), r, c, d);
    case ToGet =>
      MatchMine(s.replies, c);
      TakeMine(s.replies, c, o.pair.getSync, c);
      TakeMine(s.replies, c, o.pair.getSync, d);
      var effect := if Match(s.replies, c).None? then s else s.(replies := Take(s.replies, c, o.pair.getSync));
      AfterOf(s, effect, r, c, c);
      AfterOf(s, effect, r, c, d);
    case ToCommit(_) =>
      AfterOf(s, s.Commit(c), r, c, c);
      AfterOf(s, s.Commit(c), r, c, d);
    case Closing(_) =>
      AfterOf(s, s.BackOut(c), r, c, c);
      AfterOf(s, s.BackOut(c), r, c, d);
    case Leaving(_) =>
      AfterOf(s, s.Commit(c), r, c, c);
      AfterOf(s, s.Commit(c), r, c, d);
    case Failed =>
  }

  lemma SentOf(o: Options, s: Site, m: Item, d: nat)
    ensures s.Sent(o, m).Of(d) == if m.key == d then s.Of(d).Sent(o, m) else s.Of(d)
  {
    hide Mine;
    MineConcat(s.requests, [m], d);
    MineConcat(s.replies, [m], d);
    MineFew([m], d);
    assert Mine(s.requests, d) + [] == Mine(s.requests, d) && Mine(s.replies, d) + [] == Mine(s.replies, d);
  }

  // ----- what each thread finds

  const EMPTY := Site([], [])

  /** One message, where it was put. */
  function Only(o: Options, m: Item): (s: Site)
    ensures s == EMPTY.Sent(o, m)
  {
    if o.requester then Site([m], []) else Site([], [m])
  }

  /** The message, or the reply to it, can be got. */
  ghost predicate Available(o: Options, t: Site, m: Item) {
    t == Only(o, m) || (o.requester && t == Site([], [m]))
  }

  /** What carries thread c's correlation ID, at each of its program points. */
  ghost predicate Local(o: Options, t: Site, w: Worker, c: nat) {
    match w.pc
    case ToCommitPut =>
      if o.pair.putSync then t == Only(o, Item(c, w.serial, Put)) else Available(o, t, Item(c, w.serial, Free))
    case ToGet => Available(o, t, Item(c, w.serial, Free))
    case ToCommit(got) => got == w.serial && t == Site([], if o.pair.getSync then [Item(c, w.serial, Got)] else [])
    case Closing(good) => if good then t == EMPTY else !o.requester ==> t.requests == []
    case Leaving(good) => if good then t == EMPTY else !o.requester ==> t.requests == []
    case Failed => !o.requester ==> t.requests == []
    case _ => t == EMPTY
  }

  ghost predicate Sound(o: Options) {
    (o.pair.putSync ==> o.pair.commitPut) && o.pair.getSync == o.pair.commitIteration
  }

  /** Settling nothing, or one message. */
  lemma SettleFew(c: nat, serial: nat, state: State, gone: State)
    ensures Settle([], c, gone) == []
    ensures Settle([Item(c, serial, state)], c, gone) == if state == gone then [] else [Item(c, serial, Free)]
  {
    SettleCons(Item(c, serial, state), [], c, gone);
  }

  lemma TakeFew(c: nat, serial: nat, sync: bool)
    ensures var m := Item(c, serial, Free);
      Match([m], c) == Some(m) && Take([m], c, sync) == if sync then [m.(state := Got)] else []
    ensures Match([], c) == None
  {
  }

  lemma SettleAllFew(c: nat, serial: nat)
    ensures Settle([], c, Got) == [] == Settle([], c, Put)
    ensures var free, put, got := Item(c, serial, Free), Item(c, serial, Put), Item(c, serial, Got);
      && Settle([free], c, Got) == [free] == Settle([free], c, Put)
      && Settle([put], c, Got) == [free] && Settle([put], c, Put) == []
      && Settle([got], c, Put) == [free] && Settle([got], c, Got) == []
  {
    hide Settle;
    SettleFew(c, serial, Free, Got);
    SettleFew(c, serial, Put, Got);
    SettleFew(c, serial, Got, Got);
    SettleFew(c, serial, Free, Put);
    SettleFew(c, serial, Put, Put);
    SettleFew(c, serial, Got, Put);
  }

  lemma PutKeepsLocal(o: Options, t: Site, w: Worker, c: nat, r: Outcome)
    requires Sound(o) && Local(o, t, w, c) && (w.pc.ToPut? || w.pc.ToCommitPut?)
    ensures var (t', w') := Turn(o, t, w, c, r); Local(o, t', w', c)
  {
    hide Settle, Take, Match;
    SettleAllFew(c, w.serial);
    var m := Item(c, w.serial, if o.pair.putSync then Put else Free);
    assert Only(o, m) == EMPTY.Sent(o, m);
  }

  lemma GetKeepsLocal(o: Options, t: Site, w: Worker, c: nat, r: Outcome)
    requires Sound(o) && Local(o, t, w, c) && (w.pc.ToGet? || w.pc.ToCommit?)
    ensures var (t', w') := Turn(o, t, w, c, r); Local(o, t', w', c)
  {
    hide Settle, Take, Match;
    SettleAllFew(c, w.serial);
    TakeFew(c, w.serial, o.pair.getSync);
  }

  lemma TurnKeepsLocal(o: Options, t: Site, w: Worker, c: nat, r: Outcome)
    requires Sound(o) && Local(o, t, w, c)
    ensures var (t', w') := Turn(o, t, w, c, r); Local(o, t', w', c)
  {
    if w.pc.ToPut? || w.pc.ToCommitPut? {
      PutKeepsLocal(o, t, w, c, r);
    } else if w.pc.ToGet? || w.pc.ToCommit? {
      GetKeepsLocal(o, t, w, c, r);
    } else {
      hide Settle, Take, Match;
      SettleAllFew(c, w.serial);
    }
  }

  lemma {:induction false} MineMember(q: seq<Item>, i: nat)
    requires i < |q|
    ensures q[i] in Mine(q, q[i].key)
  {
    if i > 0 {
      MineMember(q[1..], i - 1);
    }
  }

  /** A reply takes the place of its request. */
  lemma AnsweredOf(s: Site, i: nat, d: nat)
    requires i < |s.requests| && s.requests[i].state == Free
    ensures var x := s.requests[i];
      && (d != x.key ==> Answered(s, i).Of(d) == s.Of(d))
      && (d == x.key && |s.Of(d).requests| == 1 ==>
            s.Of(d).requests == [x] && Answered(s, i).Of(d) == Site([], s.Of(d).replies + [x]))
  {
    var x, before, after := s.requests[i], s.requests[..i], s.requests[i + 1..];
    assert s.requests == before + [x] + after;
    MineMember(s.requests, i);
    hide Mine;
    MineConcat(before + [x], after, d);
    MineConcat(before, [x], d);
    MineConcat(before, after, d);
    MineConcat(s.replies, [x], d);
    MineFew([x], d);
    var p, a := Mine(before, d), Mine(after, d);
    assert p + [] == p && Mine(s.replies, d) + [] == Mine(s.replies, d);
    if d == x.key {
      assert |p + [x] + a| == |p| + 1 + |a|;
    }
  }

  function At(y: System, c: nat): Worker {
    if c < |y.workers| then y.workers[c] else Worker(Closed, 0)
  }

  ghost predicate Inv(o: Options, y: System) {
    forall c: nat :: Local(o, y.site.Of(c), At(y, c), c)
  }

  lemma CallKeepsInv(o: Options, y: System, who: nat, r: Outcome)
    requires Sound(o) && Inv(o, y) && who < |y.workers|
    ensures Inv(o, Step(o, y, Call(who, r)))
  {
    hide Turn, Local, Site.Of;
    var y' := Step(o, y, Call(who, r));
    forall c: nat ensures Local(o, y'.site.Of(c), At(y', c), c) {
      assert Local(o, y.site.Of(c), At(y, c), c);
      TurnOf(o, y.site, y.workers[who], who, r, c);
      if c == who {
        TurnKeepsLocal(o, y.site.Of(c), y.workers[c], c, r);
      }
    }
  }

  lemma AnswerKeepsLocal(o: Options, s: Site, i: nat, w: Worker, c: nat)
    requires Local(o, s.Of(c), w, c) && i < |s.requests| && s.requests[i].state == Free
    requires s.requests[i].key == c
    ensures Local(o, Answered(s, i).Of(c), w, c)
  {
    MineMember(s.requests, i);
    AnsweredOf(s, i, c);
    hide Mine, Answered, Local;
    ReplyKeepsLocal(o, s.Of(c), Answered(s, i).Of(c), s.requests[i], w, c);
  }

  /** The step seen from the thread's own messages: its only request gives way to the reply. */
  lemma ReplyKeepsLocal(o: Options, t: Site, t': Site, x: Item, w: Worker, c: nat)
    requires Local(o, t, w, c) && x in t.requests && x.state == Free
    requires |t.requests| == 1 ==> t.requests == [x] && t' == Site([], t.replies + [x])
    ensures Local(o, t', w, c)
  {
    assert [] + [x] == [x];
  }

  lemma StepKeepsInv(o: Options, y: System, e: Event)
    requires Sound(o) && Inv(o, y)
    ensures Inv(o, Step(o, y, e))
  {
    match e
    case Call(who, r) =>
      if who < |y.workers| {
        CallKeepsInv(o, y, who, r);
      }
    case Stop(who) =>
      var y' := Step(o, y, e);
      forall c: nat ensures Local(o, y'.site.Of(c), At(y', c), c) {
        assert Local(o, y.site.Of(c), At(y, c), c);
      }
    case Answer(i) =>
      var y' := Step(o, y, e);
      forall c: nat ensures Local(o, y'.site.Of(c), At(y', c), c) {
        assert Local(o, y.site.Of(c), At(y, c), c);
        if i < |y.site.requests| && y.site.requests[i].state == Free {
          hide Site.Of, Answered;
          if y.site.requests[i].key == c {
            AnswerKeepsLocal(o, y.site, i, At(y, c), c);
          } else {
            AnsweredOf(y.site, i, c);
          }
        }
      }
  }

  lemma {:induction false} RunKeepsInv(o: Options, n: nat, events: seq<Event>)
    requires Sound(o)
    ensures Inv(o, Run(o, n, events))
  {
    if events != [] {
      RunKeepsInv(o, n, events[..|events| - 1]);
      StepKeepsInv(o, Run(o, n, events[..|events| - 1]), events[|events| - 1]);
    }
  }

  /** No message of a thread is in the given state. */
  ghost predicate NoneIn(s: Site, c: nat, state: State) {
    && (forall i :: 0 <= i < |s.requests| ==> s.requests[i] != Item(c, s.requests[i].serial, state))
    && (forall i :: 0 <= i < |s.replies| ==> s.replies[i] != Item(c, s.replies[i].serial, state))
  }

  lemma NoneInOf(s: Site, c: nat, state: State)
    requires forall x :: x in s.Of(c).requests || x in s.Of(c).replies ==> x.state != state
    ensures NoneIn(s, c, state)
  {
    forall i | 0 <= i < |s.requests| ensures s.requests[i] != Item(c, s.requests[i].serial, state) {
      MineMember(s.requests, i);
    }
    forall i | 0 <= i < |s.replies| ensures s.replies[i] != Item(c, s.replies[i].serial, state) {
      MineMember(s.replies, i);
    }
  }

  /**
   In every run: when a thread gets, its own put is committed and the message (or
   its request) is there to be got (or answered); what it gets is the message it
   put, or the reply to it; and when it puts again, no get of its is pending.
   */
  lemma GetsWhatItPut(o: Options, n: nat, events: seq<Event>, c: nat)
    requires Sound(o) && c < n
    ensures var y := Run(o, n, events); var w := At(y, c); var m := Item(c, w.serial, Free);
      && (w.pc.ToGet? ==> NoneIn(y.site, c, Put))
      && (w.pc.ToGet? && !o.requester ==> Match(y.site.replies, c) == Some(m))
      && (w.pc.ToGet? && o.requester ==> Match(y.site.replies, c) == Some(m) || m in y.site.requests)
      && (w.pc.ToCommit? ==> w.pc.got == w.serial)
      && (w.pc.ToPut? || w.pc.Closed? ==> y.site.Of(c) == EMPTY)
  {
    RunKeepsInv(o, n, events);
    hide Run;
    var y := Run(o, n, events);
    var w := At(y, c);
    assert Local(o, y.site.Of(c), w, c);
    if w.pc.ToGet? {
      NoneInOf(y.site, c, Put);
      MatchMine(y.site.replies, c);
      TakeFew(c, w.serial, false);
      MineSubset(y.site.requests, c);
    }
  }

  lemma {:induction false} MineSubset(q: seq<Item>, c: nat)
    ensures forall x :: x in Mine(q, c) ==> x in q
  {
    if q != [] {
      MineSubset(q[1..], c);
    }
  }

  // ----- gets always see what was put

  ghost predicate AlwaysVisible(o: Options) {
    forall n: nat, events, c: nat ::
      c < n && At(Run(o, n, events), c).pc.ToGet? ==> NoneIn(Run(o, n, events).site, c, Put)
  }

  lemma RunOne(o: Options, n: nat, events: seq<Event>, e: Event)
    ensures Run(o, n, events + [e]) == Step(o, Run(o, n, events), e)
  {
    assert (events + [e])[..|events|] == events;
  }

  /**
   With any options the program starts with, no put is uncommitted when its thread
   gets, and gets are in a unit of work exactly when iterations commit.
   */
  lemma AcceptedIsSound(g: Given, requester: bool)
    requires Accepted(g)
    ensures var o := Options(PairOf(g), requester); Sound(o) && AlwaysVisible(o)
  {
    var o := Options(PairOf(g), requester);
    forall n: nat, events, c: nat | c < n && At(Run(o, n, events), c).pc.ToGet?
      ensures NoneIn(Run(o, n, events).site, c, Put)
    {
      GetsWhatItPut(o, n, events, c);
    }
  }

  // ----- where a put goes, and what a failure leaves

  /** A session is closed, and every call of that works. */
  function Ended(o: Options, t: Site, w: Worker, c: nat): (Site, Worker) {
    var (t1, w1) := Turn(o, t, w, c, QueueManager.Works);
    Turn(o, t1, w1, c, QueueManager.Works)
  }

  /**
   A put of a thread with nothing on the queues goes to the queue it gets from, or, for
   a Requester, to the requests; until it is committed, if it has to be, it cannot be got.
   */
  lemma PutPlaced(o: Options, c: nat, serial: nat)
    requires Sound(o)
    ensures var (t, w) := Turn(o, EMPTY, Worker(ToPut, serial), c, QueueManager.Works);
      var m := Item(c, serial, if o.pair.putSync then Put else Free);
      && t == (if o.requester then Site([m], []) else Site([], [m])) && w == Worker(ToCommitPut, serial)
      && var (t', w') := Turn(o, t, w, c, QueueManager.Works);
         var m' := Item(c, serial, Free);
         t' == (if o.requester then Site([m'], []) else Site([], [m'])) && w' == Worker(ToGet, serial)
  {
    hide Settle;
    SettleAllFew(c, serial);
  }

  /** The thread makes a call at this point of its iteration. */
  predicate Calls(o: Options, pc: Pc) {
    pc.ToPut? || (pc.ToCommitPut? && o.pair.commitPut) || pc.ToGet? || (pc.ToCommit? && o.pair.commitIteration)
  }

  /**
   What carries the thread's correlation ID after a failed call and the closing of the
   session.  A put that was not committed is undone if iterations commit, or the failure
   backs it out, and else it is available in the end; so is a message whose get was not
   committed; a message got outside a unit of work is gone.
   */
  function LeftBehind(o: Options, t: Site, w: Worker, c: nat, r: Outcome): Site
    requires Calls(o, w.pc)
  {
    var m := Item(c, w.serial, Free);
    match w.pc
    case ToPut =>
      if r.Effective() && !(o.pair.putSync && (r.Undone() || o.pair.commitIteration)) then Only(o, m) else EMPTY
    case ToCommitPut =>
      if !o.pair.putSync then t
      else if r.Effective() || (!r.Undone() && !o.pair.commitIteration) then Only(o, m) else EMPTY
    case ToGet =>
      if r.Effective() && !o.pair.getSync && t.replies != [] then EMPTY else t
    case _ =>
      if r.Effective() then EMPTY else Site([], [m])
  }

  lemma PutFailureLeaves(o: Options, t: Site, w: Worker, c: nat, r: Outcome)
    requires Sound(o) && Local(o, t, w, c) && !r.Works? && Calls(o, w.pc) && (w.pc.ToPut? || w.pc.ToCommitPut?)
    ensures var (t', w') := Turn(o, t, w, c, r);
      var (left, last) := Ended(o, t', w', c);
      w'.pc == Closing(false) && last.pc == Failed && left == LeftBehind(o, t, w, c, r)
  {
    hide Settle, Take, Match;
    SettleAllFew(c, w.serial);
    var put := Item(c, w.serial, if o.pair.putSync then Put else Free);
    assert Only(o, put) == EMPTY.Sent(o, put);
  }

  lemma GetFailureLeaves(o: Options, t: Site, w: Worker, c: nat, r: Outcome)
    requires Sound(o) && Local(o, t, w, c) && !r.Works? && Calls(o, w.pc) && (w.pc.ToGet? || w.pc.ToCommit?)
    ensures var (t', w') := Turn(o, t, w, c, r);
      var (left, last) := Ended(o, t', w', c);
      w'.pc == Closing(false) && last.pc == Failed && left == LeftBehind(o, t, w, c, r)
  {
    hide Settle, Take, Match;
    SettleAllFew(c, w.serial);
    TakeFew(c, w.serial, o.pair.getSync);
  }

  /** When a call of an iteration fails and the session is then closed, exactly that is left. */
  lemma WhatFailureLeaves(o: Options, t: Site, w: Worker, c: nat, r: Outcome)
    requires Sound(o) && Local(o, t, w, c) && !r.Works? && Calls(o, w.pc)
    ensures var (t', w') := Turn(o, t, w, c, r);
      var (left, last) := Ended(o, t', w', c);
      w'.pc == Closing(false) && last.pc == Failed && left == LeftBehind(o, t, w, c, r)
  {
    if w.pc.ToPut? || w.pc.ToCommitPut? {
      PutFailureLeaves(o, t, w, c, r);
    } else {
      GetFailureLeaves(o, t, w, c, r);
    }
  }
}
