/**
 Forwarding without a commit count (src/Forwarder.cpp:138-154, src/MQIWorkerThread.cpp:129-150):
 gets are outside any unit of work.  Without transactions, the default, puts are as
 well, and what was got is either put or missed; with transactions, replies wait for
 the end of the session.
 */
module PlainForwarding {
  import opened QueueManager
  import opened Forwarding
  import WorkerMachine

  // ----- without transactions, what is missing

  /** The message a forwarder has in hand: got, and not yet put. */
  function Hand(pc: Pc): multiset<Message> {
    match pc
    case Holding(m) => multiset{m}
    case Passing(m) => multiset{m}
    case _ => multiset{}
  }

  function InHand(workers: seq<Worker>): multiset<Message> {
    if workers == [] then multiset{} else Hand(workers[0].pc) + InHand(workers[1..])
  }

  /** A message missed by a call: one whose put does not take effect, or whose get does, but raises. */
  function MissedBy(q: Queues, pc: Pc, r: Outcome): multiset<Message> {
    match pc
    case Passing(m) => if r.Effective() then multiset{} else multiset{m}
    case Ready =>
      var i := FirstFree(q.input);
      if i < |q.input| && r.Effective() && !r.Works? then multiset{q.input[i].msg} else multiset{}
    case _ => multiset{}
  }

  function Missed(o: Options, s: System, events: seq<Event>): multiset<Message> {
    if events == [] then multiset{}
    else
      var before, e := events[..|events| - 1], events[|events| - 1];
      var was := Run(o, s, before);
      Missed(o, s, before) +
      if e.who < |was.workers| then MissedBy(was.queues, was.workers[e.who].pc, e.outcome) else multiset{}
  }

  predicate AllFree<T>(q: seq<Entry<T>>) {
    forall i :: 0 <= i < |q| ==> q[i].holder == Free
  }

  predicate NoneHeld(q: Queues) {
    AllFree(q.input) && AllFree(q.output)
  }

  lemma {:induction false} DropNone<T>(q: seq<Entry<T>>, c: nat)
    requires AllFree(q)
    ensures Drop(q, c) == q
  {
    if q != [] {
      DropNone(q[1..], c);
    }
  }

  /** With nothing held, committing and backing out change nothing. */
  lemma NothingToEnd(q: Queues, c: nat)
    requires NoneHeld(q)
    ensures q.Commit(c) == q == q.BackOut(c)
  {
    DropNone(q.input, c);
    DropNone(q.output, c);
  }

  lemma AfterIs(q: Queues, effect: Queues, r: Outcome, c: nat)
    requires NoneHeld(q) && NoneHeld(effect)
    ensures q.After(effect, r, c) == if r.Effective() then effect else q
  {
    NothingToEnd(q, c);
    NothingToEnd(effect, c);
  }

  /** The messages on both queues. */
  function Present(q: Queues): multiset<Message> {
    multiset(Sources(All(q.output))) + multiset(All(q.input))
  }

  lemma GetTakes(q: Queues, i: nat, c: nat)
    requires NoneHeld(q) && i < |q.input|
    ensures var q' := q.(input := Got(q.input, i, false, c));
      NoneHeld(q') && Present(q') + multiset{q.input[i].msg} == Present(q)
  {
    var q' := q.(input := Got(q.input, i, false, c));
    var all := All(q.input);
    assert All(q'.input) == Without(all, i);
    WithoutLaw(all, i);
  }

  lemma PutGives(o: Options, q: Queues, m: Message, c: nat)
    requires NoneHeld(q)
    ensures var q' := q.(output := QueueManager.Put(q.output, o.ReplyTo(m), false, c));
      NoneHeld(q') && Present(q') == Present(q) + multiset{m}
  {
    var q' := q.(output := QueueManager.Put(q.output, o.ReplyTo(m), false, c));
    assert Sources(All(q'.output)) == Sources(All(q.output)) + [m];
  }

  lemma GetBalances(o: Options, q: Queues, w: Worker, c: nat, r: Outcome)
    requires !o.tx && NoneHeld(q) && w.pc.Ready?
    ensures var (q', w') := Turn(o, q, w, c, r);
      NoneHeld(q') && Present(q') + Hand(w'.pc) + MissedBy(q, w.pc, r) == Present(q)
  {
    hide Present, NoneHeld, Queues.After, Got;
    var i := FirstFree(q.input);
    if i == |q.input| {
      AfterIs(q, q, r, c);
    } else {
      FirstIsFree(q);
      GetTakes(q, i, c);
      AfterIs(q, q.(input := Got(q.input, i, false, c)), r, c);
    }
  }

  lemma FirstIsFree(q: Queues)
    requires NoneHeld(q)
    ensures FirstFree(q.input) == 0
  {
  }

  lemma PutBalances(o: Options, q: Queues, w: Worker, c: nat, r: Outcome)
    requires !o.tx && NoneHeld(q) && w.pc.Passing?
    ensures var (q', w') := Turn(o, q, w, c, r);
      NoneHeld(q') && Hand(w'.pc) == multiset{} && Present(q') + MissedBy(q, w.pc, r) == Present(q) + Hand(w.pc)
  {
    hide Present, NoneHeld, Queues.After, QueueManager.Put, Options.ReplyTo;
    PutGives(o, q, w.pc.m, c);
    AfterIs(q, q.(output := QueueManager.Put(q.output, o.ReplyTo(w.pc.m), false, c)), r, c);
  }

  lemma OtherBalances(o: Options, q: Queues, w: Worker, c: nat, r: Outcome)
    requires !o.tx && NoneHeld(q) && !w.pc.Ready? && !w.pc.Passing?
    ensures var (q', w') := Turn(o, q, w, c, r); q' == q && Hand(w'.pc) == Hand(w.pc)
  {
    hide NoneHeld, Queues.After, Queues.Commit, Queues.BackOut, Got, QueueManager.Put, Options.ReplyTo;
    NothingToEnd(q, c);
    AfterIs(q, q, r, c);
  }

  lemma TurnBalances(o: Options, q: Queues, w: Worker, c: nat, r: Outcome)
    requires !o.tx && NoneHeld(q)
    ensures var (q', w') := Turn(o, q, w, c, r);
      NoneHeld(q') && Present(q') + Hand(w'.pc) + MissedBy(q, w.pc, r) == Present(q) + Hand(w.pc)
  {
    hide Turn, Present, NoneHeld;
    if w.pc.Ready? {
      GetBalances(o, q, w, c, r);
    } else if w.pc.Passing? {
      PutBalances(o, q, w, c, r);
    } else {
      OtherBalances(o, q, w, c, r);
    }
  }

  lemma Exchange(a: multiset<Message>, b: multiset<Message>, c: multiset<Message>, d: multiset<Message>,
                 e: multiset<Message>)
    requires a + b == c + d
    ensures e + a + b == e + c + d
  {
    forall x ensures (e + a + b)[x] == (e + c + d)[x] {
      assert (a + b)[x] == (c + d)[x];
    }
  }

  /** What changes hands. */
  lemma Balance(p: multiset<Message>, h: multiset<Message>, i: multiset<Message>, p': multiset<Message>,
                h': multiset<Message>, i': multiset<Message>, m: multiset<Message>)
    requires p' + h' + m == p + h && i' + h == i + h'
    ensures p' + i' + m == p + i
  {
    forall x ensures (p' + i' + m)[x] == (p + i)[x] {
      assert (p' + h' + m)[x] == (p + h)[x] && (i' + h)[x] == (i + h')[x];
    }
  }

  lemma {:induction false} HandUpdate(workers: seq<Worker>, c: nat, w: Worker)
    requires c < |workers|
    ensures InHand(workers[c := w]) + Hand(workers[c].pc) == InHand(workers) + Hand(w.pc)
  {
    hide Hand;
    var rest := workers[1..];
    if c == 0 {
      assert workers[0 := w][1..] == rest;
    } else {
      HandUpdate(rest, c - 1, w);
      assert workers[c := w][1..] == rest[c - 1 := w];
      Exchange(InHand(rest[c - 1 := w]), Hand(workers[c].pc), InHand(rest), Hand(w.pc), Hand(workers[0].pc));
    }
  }

  lemma {:induction false} NoHands(n: nat)
    ensures InHand(seq(n, i => Worker(Closed, 0))) == multiset{}
  {
    if n > 0 {
      NoHands(n - 1);
      assert seq(n, i => Worker(Closed, 0))[1..] == seq(n - 1, i => Worker(Closed, 0));
    }
  }

  /**
   Without transactions, whatever the number of forwarders, their interleaving and the
   failures: messages are on the queues, free for all, or in a forwarder's hand, but for
   those that a get or a put missed.
   */
  lemma {:induction false} PresentOrMissed(n: nat, original: seq<Message>, o: Options, events: seq<Event>)
    requires !o.tx
    ensures var s := Run(o, Begin(n, original), events);
      && NoneHeld(s.queues)
      && multiset(Sources(All(s.queues.output))) + multiset(All(s.queues.input)) + InHand(s.workers)
         + Missed(o, Begin(n, original), events)
      == multiset(original)
  {
    var b := Begin(n, original);
    if events == [] {
      NoHands(n);
      assert All(b.queues.input) == original;
    } else {
      var before, e := events[..|events| - 1], events[|events| - 1];
      PresentOrMissed(n, original, o, before);
      var s := Run(o, b, before);
      StepBalances(o, s, e);
      hide Step, Present, InHand, NoneHeld, Begin, MissedBy;
    }
  }

  lemma StepBalances(o: Options, s: System, e: Event)
    requires !o.tx && NoneHeld(s.queues)
    ensures var s' := Step(o, s, e);
      && NoneHeld(s'.queues)
      && Present(s'.queues) + InHand(s'.workers)
         + (if e.who < |s.workers| then MissedBy(s.queues, s.workers[e.who].pc, e.outcome) else multiset{})
      == Present(s.queues) + InHand(s.workers)
  {
    if e.who < |s.workers| {
      var w := s.workers[e.who];
      hide Turn, Present, NoneHeld, Hand, InHand, MissedBy;
      var (q', w') := Turn(o, s.queues, w, e.who, e.outcome);
      TurnBalances(o, s.queues, w, e.who, e.outcome);
      HandUpdate(s.workers, e.who, w');
      Balance(Present(s.queues), Hand(w.pc), InHand(s.workers), Present(q'), Hand(w'.pc),
              InHand(s.workers[e.who := w']), MissedBy(s.queues, w.pc, e.outcome));
    }
  }

  // ----- undisturbed iterations without a commit count

  /** After n iterations of a lone forwarder: replies to the first n messages have been put, and the rest remains. */
  function Put(o: Options, original: seq<Message>, n: nat): Queues
    requires n <= |original|
  {
    Queues(Mark(original[n..], Free), Mark(Replies(o, original[..n]), if o.tx then Held(0) else Free))
  }

  lemma GetNext(o: Options, original: seq<Message>, n: nat)
    requires n < |original|
    ensures var q := Put(o, original, n);
      && FirstFree(q.input) == 0 < |q.input| && q.input[0].msg == original[n]
      && Got(q.input, 0, false, 0) == Mark(original[n + 1..], Free)
  {
  }

  lemma PutNext(o: Options, original: seq<Message>, n: nat)
    requires n < |original|
    ensures QueueManager.Put(Put(o, original, n).output, o.ReplyTo(original[n]), o.tx, 0)
         == Put(o, original, n + 1).output
  {
    hide Options.ReplyTo;
    assert original[..n + 1] == original[..n] + [original[n]];
  }

  /** A call that works, in an iteration without a commit. */
  lemma PlainCall(o: Options, original: seq<Message>, n: nat, w: Worker)
    requires o.Frequency() == 0 && n < |original|
    ensures var q := Put(o, original, n);
      var got := q.(input := Mark(original[n + 1..], Free));
      && (w.pc == Ready ==> Step(o, System(q, [w]), OK) == System(got, [w.(pc := Holding(original[n]))]))
      && (w.pc == Holding(original[n]) ==>
            Step(o, System(got, [w]), OK) == System(got, [w.(pc := Passing(original[n]))]))
      && (w.pc == Passing(original[n]) ==>
            Step(o, System(got, [w]), OK) == System(Put(o, original, n + 1), [w.(pc := Replied)]))
      && (w.pc == Replied ==>
            Step(o, System(Put(o, original, n + 1), [w]), OK) == System(Put(o, original, n + 1), [Counted(w)]))
  {
    GetNext(o, original, n);
    PutNext(o, original, n);
    hide Mark, Replies, Options.ReplyTo, Got, QueueManager.Put, FirstFree;
    assert Put(o, original, n + 1).input == Mark(original[n + 1..], Free);
  }

  lemma PlainIteration(o: Options, original: seq<Message>, n: nat)
    requires o.Frequency() == 0 && n < |original|
    ensures var s := System(Put(o, original, n), [Worker(Ready, n % WorkerMachine.U32)]);
      Step(o, Step(o, Step(o, Step(o, s, OK), OK), OK), OK)
      == System(Put(o, original, n + 1), [Worker(Ready, (n + 1) % WorkerMachine.U32)])
  {
    hide Step, Put, Options.Frequency;
    var k := n % WorkerMachine.U32;
    PlainCall(o, original, n, Worker(Ready, k));
    PlainCall(o, original, n, Worker(Holding(original[n]), k));
    PlainCall(o, original, n, Worker(Passing(original[n]), k));
    PlainCall(o, original, n, Worker(Replied, k));
    WorkerMachine.WrapStep(n);
  }

  lemma PlainOpening(o: Options, original: seq<Message>)
    ensures Run(o, Begin(1, original), Quiet(1)) == System(Put(o, original, 0), [Worker(Ready, 0)])
  {
    QuietOpening(o, original);
    assert original[0..] == original && Replies(o, original[..0]) == [];
  }

  lemma {:induction false} PlainRun(o: Options, original: seq<Message>, n: nat)
    requires o.Frequency() == 0 && n <= |original|
    ensures Run(o, Begin(1, original), Quiet(1 + 4 * n))
         == System(Put(o, original, n), [Worker(Ready, n % WorkerMachine.U32)])
  {
    hide Run, Step, Begin, Quiet, Put, Options.Frequency;
    if n == 0 {
      PlainOpening(o, original);
    } else {
      PlainRun(o, original, n - 1);
      PlainIteration(o, original, n - 1);
      QuietMore(o, Begin(1, original), 4 * n - 3);
    }
  }

  /** The replies to the given messages, each with its message's text if messages are copied, or else the fixed text. */
  ghost predicate Answers(o: Options, replies: seq<Reply>, messages: seq<Message>) {
    && |replies| == |messages|
    && forall i :: 0 <= i < |replies| ==>
         replies[i].source == messages[i] && replies[i].body == if o.copy then messages[i].body else o.text
  }

  /**
   Without a commit count, n undisturbed iterations have put a reply to each of the
   first n messages, in order, and have left the others.  Without transactions the
   replies are free for all at once; with them, they are held.
   */
  lemma EachIsPut(o: Options, original: seq<Message>, n: nat)
    requires o.Frequency() == 0 && n <= |original|
    ensures var q := Run(o, Begin(1, original), Quiet(1 + 4 * n)).queues;
      && Answers(o, All(q.output), original[..n])
      && All(q.input) == original[n..] && AllFree(q.input)
      && (forall i :: 0 <= i < |q.output| ==> q.output[i].holder == if o.tx then Held(0) else Free)
  {
    PlainRun(o, original, n);
    hide Run;
  }

  /** The session of n iterations ends without a failure. */
  function PlainSession(n: nat): seq<Event> {
    Quiet(1 + 4 * n) + [Event(0, Refused)] + [OK] + [OK]
  }

  lemma PlainEnd(o: Options, original: seq<Message>, n: nat)
    requires o.Frequency() == 0 && n <= |original|
    ensures var s := System(Put(o, original, n), [Worker(Ready, n % WorkerMachine.U32)]);
      var s' := Step(o, Step(o, Step(o, s, Event(0, Refused)), OK), OK);
      && s'.workers == [Worker(Closed, n % WorkerMachine.U32)]
      && s'.queues == Queues(Mark(original[n..], Free), Mark(Replies(o, original[..n]), Free))
  {
    var q := Put(o, original, n);
    DropNone(q.input, 0);
    var replies := Replies(o, original[..n]);
    assert Release(q.output, 0) == Mark(replies, Free);
    assert q.Commit(0) == Queues(Mark(original[n..], Free), Mark(replies, Free));
    hide Queues.Commit, Queues.BackOut, Mark, Replies, Got, FirstFree;
  }

  lemma PlainSessionRun(o: Options, b: System, n: nat)
    ensures Run(o, b, PlainSession(n))
         == Step(o, Step(o, Step(o, Run(o, b, Quiet(1 + 4 * n)), Event(0, Refused)), OK), OK)
  {
    hide Run, Step, Quiet;
    var events := Quiet(1 + 4 * n);
    RunOne(o, b, events, Event(0, Refused));
    RunOne(o, b, events + [Event(0, Refused)], OK);
    RunOne(o, b, events + [Event(0, Refused)] + [OK], OK);
  }

  /** When the session is over, its replies are free for all, with transactions or without. */
  lemma FreeAtTheEnd(o: Options, original: seq<Message>, n: nat)
    requires o.Frequency() == 0 && n <= |original|
    ensures var s := Run(o, Begin(1, original), PlainSession(n));
      && s.workers == [Worker(Closed, n % WorkerMachine.U32)]
      && Answers(o, All(s.queues.output), original[..n]) && All(s.queues.input) == original[n..]
      && NoneHeld(s.queues)
  {
    hide Run, Step, Begin, Quiet, Put, Options.Frequency, PlainSession;
    PlainRun(o, original, n);
    PlainEnd(o, original, n);
    PlainSessionRun(o, Begin(1, original), n);
  }
}
