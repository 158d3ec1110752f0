/**
 Transactional forwarding: any number of forwarders moving messages from one
 queue to another (src/Forwarder.cpp:138-154), with the commit schedule of
 MQIWorkerThread::oneIteration and the roll back of closeSession
 (src/MQIWorkerThread.cpp:129-150).  A step is one call into the queue manager;
 steps of different forwarders interleave, and any call may fail.
 */
module Forwarding {
  import opened Arithmetic
  import opened QueueManager
  import WorkerMachine

  datatype Message = Message(id: nat, body: string)

  /** A message put for a message that was got. */
  datatype Reply = Reply(source: Message, body: string)

  datatype Options = Options(tx: bool, cc: nat, cb: bool, copy: bool, text: string) {
    predicate Valid() { cc < WorkerMachine.U32 }

    function Frequency(): nat { if tx then cc else 0 }

    /** Whether the iteration now under way ends with a commit. */
    predicate Due(iterations: nat) {
      Frequency() > 0 && (iterations + 1) % WorkerMachine.U32 % Frequency() == 0
    }

    /** The option is not read without transactions. */
    predicate Between() { Frequency() > 0 && cb }

    function ReplyTo(m: Message): Reply { Reply(m, if copy then m.body else text) }
  }

  datatype Queues = Queues(input: seq<Entry<Message>>, output: seq<Entry<Reply>>) {
    function Commit(c: nat): Queues { Queues(Drop(input, c), Release(output, c)) }

    function BackOut(c: nat): Queues { Queues(Release(input, c), Drop(output, c)) }

    /** The queues after a call by connection c which, if it takes effect, leaves them as given. */
    function After(effect: Queues, r: Outcome, c: nat): Queues {
      var q := if r.Effective() then effect else this;
      if r.Undone() then q.BackOut(c) else q
    }
  }

  datatype Pc =
    | Closed                 // no session
    | Ready                  // about to get
    | Holding(m: Message)    // got a message, about to commit between if that is due
    | Passing(m: Message)    // about to put
    | Replied                // about to commit if that is due
    | Closing                // about to roll back
    | Leaving                // about to disconnect
    | Abandoned              // closing failed: the connection lasts until the process ends

  datatype Worker = Worker(pc: Pc, iterations: nat)

  /** The next call of a forwarder with connection c, and what came of it. */
  function Turn(o: Options, q: Queues, w: Worker, c: nat, r: Outcome): (Queues, Worker) {
    match w.pc
    case Closed => (q, if r.Works? then w.(pc := Ready) else w)
    case Ready =>
      var i := FirstFree(q.input);
      if i == |q.input| then
        (q.After(q, r, c), w.(pc := Closing))
      else
        (q.After(q.(input := Got(q.input, i, o.Frequency() > 0, c)), r, c),
         w.(pc := if r.Works? then Holding(q.input[i].msg) else Closing))
    case Holding(m) =>
      if o.Between() && o.Due(w.iterations) then
        (q.After(q.Commit(c), r, c), w.(pc := if r.Works? then Passing(m) else Closing))
      else
        (q, w.(pc := Passing(m)))
    case Passing(m) =>
      (q.After(q.(output := Put(q.output, o.ReplyTo(m), o.tx, c)), r, c),
       w.(pc := if r.Works? then Replied else Closing))
    case Replied =>
      if o.Due(w.iterations) then
        (q.After(q.Commit(c), r, c), if r.Works? then Counted(w) else w.(pc := Closing))
      else
        (q, Counted(w))
    case Closing =>
      if o.Frequency() == 0 then (q, w.(pc := Leaving))
      else (q.After(q.BackOut(c), r, c), w.(pc := if r.Works? then Leaving else Abandoned))
    case Leaving =>
      (q.After(q.Commit(c), r, c), w.(pc := if r.Refused? then Abandoned else Closed))
    case Abandoned => (q.BackOut(c), w.(pc := Closed))
  }

  function Counted(w: Worker): Worker {
    Worker(Ready, (w.iterations + 1) % WorkerMachine.U32)
  }

  datatype System = System(queues: Queues, workers: seq<Worker>) {
    function At(c: nat): Pc { if c < |workers| then workers[c].pc else Closed }
  }

  datatype Event = Event(who: nat, outcome: Outcome)

  function Step(o: Options, s: System, e: Event): System {
    if e.who >= |s.workers| then s
    else
      var (q, w) := Turn(o, s.queues, s.workers[e.who], e.who, e.outcome);
      System(q, s.workers[e.who := w])
  }

  function Run(o: Options, s: System, events: seq<Event>): System {
    if events == [] then s else Step(o, Run(o, s, events[..|events| - 1]), events[|events| - 1])
  }

  function Mark<T>(s: seq<T>, h: Holder): (q: seq<Entry<T>>)
    ensures |q| == |s| && forall i :: 0 <= i < |s| ==> q[i] == Entry(s[i], h)
  {
    seq(|s|, i requires 0 <= i < |s| => Entry(s[i], h))
  }

  /** A full input queue, an empty output queue and n forwarders without a session. */
  function Begin(n: nat, original: seq<Message>): System {
    System(Queues(Mark(original, Free), []), seq(n, i => Worker(Closed, 0)))
  }

  // ----- nothing is lost or duplicated

  function Sources(s: seq<Reply>): (r: seq<Message>)
    ensures |r| == |s| && forall i :: 0 <= i < |s| ==> r[i] == s[i].source
  {
    seq(|s|, i requires 0 <= i < |s| => s[i].source)
  }

  /** Committed replies, together with the messages whose get is not committed, are the original messages. */
  ghost predicate Conserved(original: seq<Message>, q: Queues) {
    multiset(Sources(With(q.output, Free))) + multiset(All(q.input)) == multiset(original)
  }

  /** What connection c has got and put, not yet committed. */
  function Taken(q: Queues, c: nat): seq<Message> { With(q.input, Held(c)) }

  function Given(q: Queues, c: nat): seq<Message> { Sources(With(q.output, Held(c))) }

  ghost predicate Clear(q: Queues, c: nat) {
    Taken(q, c) == [] == Given(q, c)
  }

  /** A forwarder has put a reply for every message it holds but the one in hand. */
  ghost predicate Matches(q: Queues, pc: Pc, c: nat) {
    match pc
    case Closed => Clear(q, c)
    case Ready => multiset(Taken(q, c)) == multiset(Given(q, c))
    case Holding(m) => multiset(Taken(q, c)) == multiset(Given(q, c)) + multiset{m}
    case Passing(m) => multiset(Taken(q, c)) == multiset(Given(q, c)) + multiset{m}
    case Replied => multiset(Taken(q, c)) == multiset(Given(q, c))
    case Closing => true
    case Leaving => Clear(q, c)
    case Abandoned => true
  }

  ghost predicate Others(q: Queues, q': Queues, c: nat) {
    forall d: nat :: d != c ==> Taken(q', d) == Taken(q, d) && Given(q', d) == Given(q, d)
  }

  lemma SourcesConcat(a: seq<Reply>, b: seq<Reply>)
    ensures Sources(a + b) == Sources(a) + Sources(b)
  {
  }

  function Without<T>(s: seq<T>, j: nat): seq<T>
    requires j < |s|
  {
    s[..j] + s[j + 1..]
  }

  lemma WithoutLaw<T>(s: seq<T>, j: nat)
    requires j < |s|
    ensures multiset(s) == multiset(Without(s, j)) + multiset{s[j]}
    ensures multiset(Without(s, j)) == multiset(s) - multiset{s[j]}
  {
    assert s == s[..j] + [s[j]] + s[j + 1..];
  }

  lemma {:induction false} SourcesPermute(a: seq<Reply>, b: seq<Reply>)
    requires multiset(a) == multiset(b)
    ensures multiset(Sources(a)) == multiset(Sources(b))
  {
    if a == [] {
      assert |multiset(b)| == 0;
    } else {
      assert a[0] in multiset(b);
      var j :| 0 <= j < |b| && b[j] == a[0];
      assert Without(Sources(a), 0) == Sources(Without(a, 0)) && Without(Sources(b), j) == Sources(Without(b, j));
      hide Sources, Without;
      WithoutLaw(a, 0);
      WithoutLaw(b, j);
      SourcesPermute(Without(a, 0), Without(b, j));
      WithoutLaw(Sources(a), 0);
      WithoutLaw(Sources(b), j);
    }
  }

  lemma BackOutLaws(original: seq<Message>, q: Queues, c: nat)
    ensures Conserved(original, q) ==> Conserved(original, q.BackOut(c))
    ensures Clear(q.BackOut(c), c) && Others(q, q.BackOut(c), c)
  {
    ReleaseAll(q.input, c);
    DropWith(q.output, c, Free);
    forall d: nat ensures Taken(q.BackOut(c), d) == (if d == c then [] else Taken(q, d))
    {
      ReleaseWith(q.input, c, Held(d));
    }
    forall d: nat ensures Given(q.BackOut(c), d) == (if d == c then [] else Given(q, d))
    {
      DropWith(q.output, c, Held(d));
    }
  }

  lemma CommitLaws(original: seq<Message>, q: Queues, c: nat)
    ensures Conserved(original, q) && multiset(Taken(q, c)) == multiset(Given(q, c))
      ==> Conserved(original, q.Commit(c))
    ensures Clear(q.Commit(c), c) && Others(q, q.Commit(c), c)
  {
    CommitConserves(original, q, c);
    forall d: nat ensures Taken(q.Commit(c), d) == (if d == c then [] else Taken(q, d))
    {
      DropWith(q.input, c, Held(d));
    }
    forall d: nat ensures Given(q.Commit(c), d) == (if d == c then [] else Given(q, d))
    {
      ReleaseWith(q.output, c, Held(d));
    }
  }

  lemma CommitConserves(original: seq<Message>, q: Queues, c: nat)
    ensures Conserved(original, q) && multiset(Taken(q, c)) == multiset(Given(q, c))
      ==> Conserved(original, q.Commit(c))
  {
    DropAll(q.input, c);
    ReleaseFree(q.output, c);
    var free, held := With(q.output, Free), With(q.output, Held(c));
    SourcesPermute(With(Release(q.output, c), Free), free + held);
    SourcesConcat(free, held);
  }

  lemma GetLaws(original: seq<Message>, q: Queues, i: nat, c: nat)
    requires i < |q.input| && q.input[i].holder == Free
    ensures var q' := q.(input := Got(q.input, i, true, c));
      && (Conserved(original, q) ==> Conserved(original, q'))
      && Others(q, q', c) && Given(q', c) == Given(q, c)
      && multiset(Taken(q', c)) == multiset(Taken(q, c)) + multiset{q.input[i].msg}
  {
    var q' := q.(input := Got(q.input, i, true, c));
    GotWith(q.input, i, c, Held(c));
    forall d: nat | d != c ensures Taken(q', d) == Taken(q, d)
    {
      GotWith(q.input, i, c, Held(d));
    }
  }

  lemma PutLaws(original: seq<Message>, o: Options, q: Queues, m: Message, c: nat)
    ensures var q' := q.(output := Put(q.output, o.ReplyTo(m), true, c));
      && (Conserved(original, q) ==> Conserved(original, q'))
      && Others(q, q', c) && Taken(q', c) == Taken(q, c) && Given(q', c) == Given(q, c) + [m]
  {
    var q' := q.(output := Put(q.output, o.ReplyTo(m), true, c));
    PutWith(q.output, o.ReplyTo(m), true, c, Free);
    assert With(q'.output, Free) == With(q.output, Free);
    forall d: nat ensures Given(q', d) == Given(q, d) + if d == c then [m] else []
    {
      PutWith(q.output, o.ReplyTo(m), true, c, Held(d));
      SourcesConcat(With(q.output, Held(d)), if d == c then [o.ReplyTo(m)] else []);
    }
  }

  lemma AfterLaws(original: seq<Message>, q: Queues, effect: Queues, r: Outcome, c: nat)
    requires Conserved(original, q) && Conserved(original, effect) && Others(q, effect, c)
    ensures Conserved(original, q.After(effect, r, c)) && Others(q, q.After(effect, r, c), c)
    ensures if r.Undone() then Clear(q.After(effect, r, c), c)
            else q.After(effect, r, c) == if r.Effective() then effect else q
  {
    BackOutLaws(original, if r.Effective() then effect else q, c);
  }

  /** What a forwarder's turn keeps: its own match, the others' holdings, and every message. */
  ghost predicate Keeps(original: seq<Message>, q: Queues, q': Queues, pc': Pc, c: nat) {
    Conserved(original, q') && Others(q, q', c) && Matches(q', pc', c)
  }

  ghost predicate Safe(o: Options) {
    o.Frequency() > 0 && !o.cb
  }

  lemma GettingKeeps(original: seq<Message>, o: Options, q: Queues, w: Worker, c: nat, r: Outcome)
    requires Safe(o) && Conserved(original, q) && Matches(q, w.pc, c) && (w.pc.Ready? || w.pc.Holding?)
    ensures var (q', w') := Turn(o, q, w, c, r); Keeps(original, q, q', w'.pc, c)
  {
    hide Queues.After, Options.Due, Queues.Commit, Queues.BackOut, Conserved, Taken, Given, FirstFree, Got;
    if w.pc.Ready? {
      var i := FirstFree(q.input);
      if i == |q.input| {
        AfterLaws(original, q, q, r, c);
      } else {
        TakingKeeps(original, q, i, c, r);
      }
    }
  }

  lemma TakingKeeps(original: seq<Message>, q: Queues, i: nat, c: nat, r: Outcome)
    requires Conserved(original, q) && multiset(Taken(q, c)) == multiset(Given(q, c))
    requires i < |q.input| && q.input[i].holder == Free
    ensures var q' := q.After(q.(input := Got(q.input, i, true, c)), r, c);
      && Conserved(original, q') && Others(q, q', c)
      && (r.Works? ==> multiset(Taken(q', c)) == multiset(Given(q', c)) + multiset{q.input[i].msg})
  {
    hide Queues.After, Conserved, Taken, Given, Got;
    GetLaws(original, q, i, c);
    AfterLaws(original, q, q.(input := Got(q.input, i, true, c)), r, c);
  }

  lemma PuttingKeeps(original: seq<Message>, o: Options, q: Queues, w: Worker, c: nat, r: Outcome)
    requires Safe(o) && Conserved(original, q) && Matches(q, w.pc, c) && (w.pc.Passing? || w.pc.Replied?)
    ensures var (q', w') := Turn(o, q, w, c, r); Keeps(original, q, q', w'.pc, c)
  {
    hide Queues.After, Options.Due, Queues.Commit, Queues.BackOut, Conserved, Taken, Given, QueueManager.Put;
    if w.pc.Passing? {
      PutLaws(original, o, q, w.pc.m, c);
      AfterLaws(original, q, q.(output := Put(q.output, o.ReplyTo(w.pc.m), true, c)), r, c);
    } else {
      CommitLaws(original, q, c);
      AfterLaws(original, q, q.Commit(c), r, c);
    }
  }

  lemma ClosingKeeps(original: seq<Message>, o: Options, q: Queues, w: Worker, c: nat, r: Outcome)
    requires Safe(o) && Conserved(original, q) && (w.pc.Closing? || w.pc.Abandoned?)
    ensures var (q', w') := Turn(o, q, w, c, r); Keeps(original, q, q', w'.pc, c)
  {
    hide Queues.After, Queues.Commit, Queues.BackOut, Conserved, Clear;
    BackOutLaws(original, q, c);
    AfterLaws(original, q, q.BackOut(c), r, c);
  }

  lemma LeavingKeeps(original: seq<Message>, o: Options, q: Queues, w: Worker, c: nat, r: Outcome)
    requires Safe(o) && Conserved(original, q) && Matches(q, w.pc, c) && (w.pc.Closed? || w.pc.Leaving?)
    ensures var (q', w') := Turn(o, q, w, c, r); Keeps(original, q, q', w'.pc, c)
  {
    hide Queues.After, Queues.Commit, Queues.BackOut, Conserved, Taken, Given;
    if w.pc.Leaving? {
      CommitLaws(original, q, c);
      AfterLaws(original, q, q.Commit(c), r, c);
    }
  }

  lemma TurnKeeps(original: seq<Message>, o: Options, q: Queues, w: Worker, c: nat, r: Outcome)
    requires Safe(o) && Conserved(original, q) && Matches(q, w.pc, c)
    ensures var (q', w') := Turn(o, q, w, c, r); Keeps(original, q, q', w'.pc, c)
  {
    hide Turn, Keeps, Conserved, Matches;
    if w.pc.Ready? || w.pc.Holding? {
      GettingKeeps(original, o, q, w, c, r);
    } else if w.pc.Passing? || w.pc.Replied? {
      PuttingKeeps(original, o, q, w, c, r);
    } else if w.pc.Closing? || w.pc.Abandoned? {
      ClosingKeeps(original, o, q, w, c, r);
    } else {
      LeavingKeeps(original, o, q, w, c, r);
    }
  }

  ghost predicate Inv(original: seq<Message>, s: System) {
    Conserved(original, s.queues) && forall c: nat :: Matches(s.queues, s.At(c), c)
  }

  lemma StepKeepsInv(original: seq<Message>, o: Options, s: System, e: Event)
    requires Safe(o) && Inv(original, s)
    ensures Inv(original, Step(o, s, e))
  {
    if e.who < |s.workers| {
      var w, c, s' := s.workers[e.who], e.who, Step(o, s, e);
      assert Matches(s.queues, s.At(c), c);
      TurnKeeps(original, o, s.queues, w, c, e.outcome);
      hide Turn, Conserved, Taken, Given, Matches;
      forall d: nat ensures Matches(s'.queues, s'.At(d), d) {
        assert Matches(s.queues, s.At(d), d);
        if d != c {
          MatchesFrame(s.queues, s'.queues, s.At(d), d);
        }
      }
    }
  }

  lemma MatchesFrame(q: Queues, q': Queues, pc: Pc, d: nat)
    requires Matches(q, pc, d) && Taken(q', d) == Taken(q, d) && Given(q', d) == Given(q, d)
    ensures Matches(q', pc, d)
  {
  }

  lemma BeginKeepsInv(n: nat, original: seq<Message>)
    ensures Inv(original, Begin(n, original))
  {
    var s := Begin(n, original);
    assert All(s.queues.input) == original;
    forall c: nat ensures Clear(s.queues, c) {
      NoneWith(original, Held(c));
    }
  }

  lemma {:induction false} NoneWith(s: seq<Message>, h: Holder)
    requires h != Free
    ensures With(Mark(s, Free), h) == []
  {
    if s != [] {
      NoneWith(s[1..], h);
      assert Mark(s, Free)[1..] == Mark(s[1..], Free);
    }
  }

  lemma {:induction false} RunKeepsInv(n: nat, original: seq<Message>, o: Options, events: seq<Event>)
    requires Safe(o)
    ensures Inv(original, Run(o, Begin(n, original), events))
  {
    if events == [] {
      BeginKeepsInv(n, original);
    } else {
      RunKeepsInv(n, original, o, events[..|events| - 1]);
      StepKeepsInv(original, o, Run(o, Begin(n, original), events[..|events| - 1]), events[|events| - 1]);
    }
  }

  /**
   Whatever fails and however the forwarders interleave: committed replies and
   uncommitted gets account for every message exactly once, and no connection
   without a session holds anything.
   */
  lemma NothingLostOrDuplicated(n: nat, original: seq<Message>, o: Options, events: seq<Event>)
    requires Safe(o)
    ensures var s := Run(o, Begin(n, original), events);
      && multiset(Sources(With(s.queues.output, Free))) + multiset(All(s.queues.input)) == multiset(original)
      && forall c: nat :: s.At(c).Closed? ==> Clear(s.queues, c)
  {
    RunKeepsInv(n, original, o, events);
    var s := Run(o, Begin(n, original), events);
    forall c: nat | s.At(c).Closed? ensures Clear(s.queues, c) {
      assert Matches(s.queues, s.At(c), c);
    }
  }

  ghost predicate AtRest(s: System) {
    forall c: nat :: s.At(c).Closed?
  }

  lemma AtRestNothingHeld(n: nat, original: seq<Message>, o: Options, events: seq<Event>)
    requires Safe(o) && AtRest(Run(o, Begin(n, original), events))
    ensures var q := Run(o, Begin(n, original), events).queues;
      multiset(Sources(All(q.output))) + multiset(All(q.input)) == multiset(original)
  {
    var s := Run(o, Begin(n, original), events);
    NothingLostOrDuplicated(n, original, o, events);
    forall i | 0 <= i < |s.queues.output| ensures s.queues.output[i].holder == Free {
      if s.queues.output[i].holder != Free {
        var c := s.queues.output[i].holder.connection;
        assert s.At(c).Closed?;
        HeldByNobody(s.queues.output, Held(c));
      }
    }
    NothingHeld(s.queues.output);
  }

  // ----- one forwarder keeps the order

  /** The queues of a single forwarder: forwarded, got, put, and untouched messages. */
  datatype Line = Line(done: seq<Message>, got: seq<Message>, sent: seq<Message>, rest: seq<Message>)

  function Replies(o: Options, s: seq<Message>): (r: seq<Reply>)
    ensures |r| == |s| && forall i :: 0 <= i < |s| ==> r[i] == o.ReplyTo(s[i])
  {
    seq(|s|, i requires 0 <= i < |s| => o.ReplyTo(s[i]))
  }

  function Show(o: Options, l: Line): Queues {
    Queues(Mark(l.got, Held(0)) + Mark(l.rest, Free),
           Mark(Replies(o, l.done), Free) + Mark(Replies(o, l.sent), Held(0)))
  }

  lemma {:induction false} DropMarked<T>(s: seq<T>, h: Holder, c: nat)
    ensures Drop(Mark(s, h), c) == if h == Held(c) then [] else Mark(s, h)
  {
    if s != [] {
      DropMarked(s[1..], h, c);
      assert Mark(s, h) == [Entry(s[0], h)] + Mark(s[1..], h);
    }
  }

  lemma {:induction false} MarkedWith<T>(s: seq<T>, h: Holder, k: Holder)
    ensures With(Mark(s, h), k) == if h == k then s else []
  {
    if s != [] {
      MarkedWith(s[1..], h, k);
      assert Mark(s, h)[1..] == Mark(s[1..], h);
    }
  }

  /** What connection 0 lets go of is free, wherever it stands. */
  lemma ReleaseMarked<T>(a: seq<T>, g: Holder, b: seq<T>, h: Holder)
    requires {g, h} <= {Free, Held(0)}
    ensures Release(Mark(a, g) + Mark(b, h), 0) == Mark(a + b, Free)
  {
  }

  lemma ShowCommit(o: Options, l: Line)
    ensures Show(o, l).Commit(0) == Show(o, Line(l.done + l.sent, [], [], l.rest))
  {
    DropConcat(Mark(l.got, Held(0)), Mark(l.rest, Free), 0);
    DropMarked(l.got, Held(0), 0);
    DropMarked(l.rest, Free, 0);
    ReleaseMarked(Replies(o, l.done), Free, Replies(o, l.sent), Held(0));
    RepliesConcat(o, l.done, l.sent);
    hide Drop, Release, Mark, Replies;
    NoneMarked(o, l);
  }

  lemma ShowBackOut(o: Options, l: Line)
    ensures Show(o, l).BackOut(0) == Show(o, Line(l.done, [], [], l.got + l.rest))
  {
    DropConcat(Mark(Replies(o, l.done), Free), Mark(Replies(o, l.sent), Held(0)), 0);
    DropMarked(Replies(o, l.done), Free, 0);
    DropMarked(Replies(o, l.sent), Held(0), 0);
    ReleaseMarked(l.got, Held(0), l.rest, Free);
    hide Drop, Release, Mark, Replies;
    NoneMarked(o, l);
  }

  lemma RepliesConcat(o: Options, a: seq<Message>, b: seq<Message>)
    ensures Replies(o, a) + Replies(o, b) == Replies(o, a + b)
  {
  }

  lemma NoneMarked(o: Options, l: Line)
    ensures Mark<Message>([], Held(0)) == [] && Mark(Replies(o, []), Held(0)) == []
  {
  }

  lemma ShowGet(o: Options, l: Line)
    ensures FirstFree(Show(o, l).input) == |l.got|
    ensures l.rest != [] ==>
      var q := Show(o, l);
      && q.input[|l.got|] == Entry(l.rest[0], Free)
      && q.(input := Got(q.input, |l.got|, true, 0)) == Show(o, l.(got := l.got + [l.rest[0]], rest := l.rest[1..]))
  {
  }

  lemma ShowPut(o: Options, l: Line, m: Message)
    ensures var q := Show(o, l);
      q.(output := QueueManager.Put(q.output, o.ReplyTo(m), true, 0)) == Show(o, l.(sent := l.sent + [m]))
  {
  }

  /** The call takes effect or not, and undoes the unit of work or not. */
  lemma ShowAfter(o: Options, l: Line, effect: Line, r: Outcome) returns (l': Line)
    ensures Show(o, l).After(Show(o, effect), r, 0) == Show(o, l')
    ensures var k := if r.Effective() then effect else l;
      l' == if r.Undone() then Line(k.done, [], [], k.got + k.rest) else k
  {
    var k := if r.Effective() then effect else l;
    ShowBackOut(o, k);
    l' := if r.Undone() then Line(k.done, [], [], k.got + k.rest) else k;
  }

  ghost predicate InLine(original: seq<Message>, l: Line, pc: Pc) {
    && l.done + l.got + l.rest == original
    && match pc
       case Closed => l.got == l.sent == []
       case Ready => l.got == l.sent
       case Holding(m) => l.got == l.sent + [m]
       case Passing(m) => l.got == l.sent + [m]
       case Replied => l.got == l.sent
       case Closing => true
       case Leaving => l.got == l.sent == []
       case Abandoned => true
  }

  lemma LineIteration(original: seq<Message>, o: Options, l: Line, w: Worker, r: Outcome) returns (l': Line)
    requires Safe(o) && InLine(original, l, w.pc) && (w.pc.Ready? || w.pc.Passing? || w.pc.Replied?)
    ensures var (q', w') := Turn(o, Show(o, l), w, 0, r);
      q' == Show(o, l') && InLine(original, l', w'.pc)
  {
    hide Show, Options.Due, Queues.After, Queues.Commit, Queues.BackOut, Got, FirstFree;
    match w.pc
    case Ready =>
      ShowGet(o, l);
      ShowInput(o, l);
      if l.rest == [] {
        l' := ShowAfter(o, l, l, r);
      } else {
        l' := ShowAfter(o, l, l.(got := l.got + [l.rest[0]], rest := l.rest[1..]), r);
      }
    case Passing(m) =>
      ShowPut(o, l, m);
      l' := ShowAfter(o, l, l.(sent := l.sent + [m]), r);
    case Replied =>
      ShowCommit(o, l);
      if o.Due(w.iterations) {
        l' := ShowAfter(o, l, Line(l.done + l.sent, [], [], l.rest), r);
      } else {
        l' := l;
      }
  }

  lemma LineTurn(original: seq<Message>, o: Options, l: Line, w: Worker, r: Outcome) returns (l': Line)
    requires Safe(o) && InLine(original, l, w.pc)
    ensures var (q', w') := Turn(o, Show(o, l), w, 0, r);
      q' == Show(o, l') && InLine(original, l', w'.pc)
  {
    hide Show, Queues.After, Queues.Commit, Queues.BackOut, Got, FirstFree;
    match w.pc
    case Closed => l' := l;
    case Holding(m) => l' := l;
    case Closing =>
      ShowBackOut(o, l);
      l' := ShowAfter(o, l, Line(l.done, [], [], l.got + l.rest), r);
    case Leaving =>
      ShowCommit(o, l);
      l' := ShowAfter(o, l, Line(l.done + l.sent, [], [], l.rest), r);
    case Abandoned =>
      ShowBackOut(o, l);
      l' := Line(l.done, [], [], l.got + l.rest);
    case _ =>
      hide Turn, InLine;
      l' := LineIteration(original, o, l, w, r);
  }

  lemma ShowInput(o: Options, l: Line)
    ensures |Show(o, l).input| == |l.got| + |l.rest|
  {
  }

  lemma {:induction false} LineRun(original: seq<Message>, o: Options, events: seq<Event>) returns (l: Line, w: Worker)
    requires Safe(o)
    ensures Run(o, Begin(1, original), events) == System(Show(o, l), [w])
    ensures InLine(original, l, w.pc)
  {
    if events == [] {
      l, w := Line([], [], [], original), Worker(Closed, 0);
    } else {
      var e := events[|events| - 1];
      l, w := LineRun(original, o, events[..|events| - 1]);
      hide Turn, InLine, Show;
      if e.who == 0 {
        var w' := Turn(o, Show(o, l), w, 0, e.outcome).1;
        l := LineTurn(original, o, l, w, e.outcome);
        w := w';
      }
    }
  }

  /** With one forwarder, committed replies followed by what remains are the original messages in order. */
  lemma ForwardedInOrder(original: seq<Message>, o: Options, events: seq<Event>)
    requires Safe(o)
    ensures var q := Run(o, Begin(1, original), events).queues;
      Sources(With(q.output, Free)) + All(q.input) == original
  {
    var l, w := LineRun(original, o, events);
    ShowContents(o, l);
    assert l.done + (l.got + l.rest) == l.done + l.got + l.rest;
  }

  lemma ShowContents(o: Options, l: Line)
    ensures Sources(With(Show(o, l).output, Free)) == l.done
    ensures All(Show(o, l).input) == l.got + l.rest
  {
    WithConcat(Mark(Replies(o, l.done), Free), Mark(Replies(o, l.sent), Held(0)), Free);
    MarkedWith(Replies(o, l.done), Free, Free);
    MarkedWith(Replies(o, l.sent), Held(0), Free);
  }

  // ----- how far an undisturbed forwarder gets

  const OK := Event(0, Works)

  function Quiet(k: nat): seq<Event> { seq(k, i => OK) }

  lemma RunOne(o: Options, s: System, events: seq<Event>, e: Event)
    ensures Run(o, s, events + [e]) == Step(o, Run(o, s, events), e)
  {
    assert (events + [e])[..|events|] == events;
  }

  /** The messages in complete batches of d among n. */
  function Batched(n: nat, d: nat): (k: nat)
    requires d > 0
    ensures k <= n
  {
    n - n % d
  }

  lemma BatchedStep(n: nat, d: nat)
    requires d > 0
    ensures Batched(n + 1, d) == if (n + 1) % d == 0 then n + 1 else Batched(n, d)
  {
    var q, r := n / d, n % d;
    assert n == d * q + r;
    if r == d - 1 {
      MulStep(d, q);
      Quotient(d, q + 1, 0);
    } else {
      Quotient(d, q, r + 1);
    }
  }

  /** After n iterations every complete batch is committed; the rest of the last batch is pending. */
  function Forwarded(o: Options, original: seq<Message>, n: nat): Line
    requires o.Frequency() > 0 && n <= |original|
  {
    var k := Batched(n, o.Frequency());
    Line(original[..k], original[k..n], original[k..n], original[n..])
  }

  lemma DueWithin(o: Options, n: nat)
    requires o.Frequency() > 0 && n + 1 < WorkerMachine.U32
    ensures o.Due(n) <==> (n + 1) % o.Frequency() == 0
  {
    Quotient(WorkerMachine.U32, 0, n + 1);
  }

  lemma Slices(original: seq<Message>, k: nat, n: nat)
    requires k <= n < |original|
    ensures original[k..n] + [original[n]] == original[k..n + 1]
    ensures original[..k] + original[k..n] + [original[n]] == original[..n + 1]
    ensures original[..k] + (original[k..n] + [original[n]]) == original[..n + 1]
    ensures original[n..][0] == original[n] && original[n..][1..] == original[n + 1..]
    ensures original[n + 1..n + 1] == []
  {
  }

  lemma IterationDone(o: Options, original: seq<Message>, n: nat)
    requires o.Frequency() > 0 && n < |original| && n + 1 < WorkerMachine.U32
    ensures var l := Forwarded(o, original, n); l.rest != [] && l.rest[0] == original[n]
    ensures var l := Forwarded(o, original, n);
      var l1 := l.(got := l.got + [l.rest[0]], rest := l.rest[1..]);
      var l2 := if o.Between() && o.Due(n) then Line(l1.done + l1.sent, [], [], l1.rest) else l1;
      var l3 := l2.(sent := l2.sent + [original[n]]);
      Forwarded(o, original, n + 1) == if o.Due(n) then Line(l3.done + l3.sent, [], [], l3.rest) else l3
  {
    BatchedStep(n, o.Frequency());
    DueWithin(o, n);
    hide Options.Due, Batched;
    Slices(original, Batched(n, o.Frequency()), n);
  }

  function Alone(o: Options, l: Line, w: Worker): System { System(Show(o, l), [w]) }

  /** A call that works. */
  lemma Calls(o: Options, l: Line, w: Worker)
    requires o.Frequency() > 0
    ensures var s' := Step(o, Alone(o, l, w), OK);
      match w.pc
      case Closed => s' == Alone(o, l, w.(pc := Ready))
      case Ready => l.rest != [] ==>
          s' == Alone(o, l.(got := l.got + [l.rest[0]], rest := l.rest[1..]), w.(pc := Holding(l.rest[0])))
      case Holding(m) =>
          s' == Alone(o, if o.Between() && o.Due(w.iterations) then Line(l.done + l.sent, [], [], l.rest) else l,
                      w.(pc := Passing(m)))
      case Passing(m) => s' == Alone(o, l.(sent := l.sent + [m]), w.(pc := Replied))
      case Replied =>
          s' == Alone(o, if o.Due(w.iterations) then Line(l.done + l.sent, [], [], l.rest) else l, Counted(w))
      case _ => true
  {
    hide Show, Options.Due, Queues.Commit, Queues.BackOut, Got, FirstFree;
    ShowGet(o, l);
    ShowInput(o, l);
    ShowCommit(o, l);
    if w.pc.Passing? {
      ShowPut(o, l, w.pc.m);
    }
  }

  lemma PutAndCommit(o: Options, l: Line, m: Message, n: nat)
    requires o.Frequency() > 0
    ensures var l' := l.(sent := l.sent + [m]);
      Step(o, Step(o, Alone(o, l, Worker(Passing(m), n)), OK), OK)
      == Alone(o, if o.Due(n) then Line(l'.done + l'.sent, [], [], l'.rest) else l', Counted(Worker(Replied, n)))
  {
    hide Step, Alone, Counted, Options.Due, Options.Frequency;
    Calls(o, l, Worker(Passing(m), n));
    Calls(o, l.(sent := l.sent + [m]), Worker(Replied, n));
  }

  lemma GetAndPass(o: Options, l: Line, n: nat)
    requires o.Frequency() > 0 && l.rest != []
    ensures var l' := l.(got := l.got + [l.rest[0]], rest := l.rest[1..]);
      Step(o, Step(o, Alone(o, l, Worker(Ready, n)), OK), OK)
      == Alone(o, if o.Between() && o.Due(n) then Line(l'.done + l'.sent, [], [], l'.rest) else l',
               Worker(Passing(l.rest[0]), n))
  {
    hide Step, Alone, Options.Due, Options.Frequency, Options.Between;
    Calls(o, l, Worker(Ready, n));
    Calls(o, l.(got := l.got + [l.rest[0]], rest := l.rest[1..]), Worker(Holding(l.rest[0]), n));
  }

  lemma CountedOnce(n: nat)
    requires n + 1 < WorkerMachine.U32
    ensures Counted(Worker(Replied, n)) == Worker(Ready, n + 1)
  {
    Quotient(WorkerMachine.U32, 0, n + 1);
  }

  lemma QuietIteration(o: Options, original: seq<Message>, n: nat)
    requires o.Frequency() > 0 && n < |original| && n + 1 < WorkerMachine.U32
    ensures Step(o, Step(o, Step(o, Step(o, Alone(o, Forwarded(o, original, n), Worker(Ready, n)), OK), OK), OK), OK)
         == Alone(o, Forwarded(o, original, n + 1), Worker(Ready, n + 1))
  {
    hide Step, Alone, Counted, Options.Due, Options.Frequency, Options.Between, Forwarded, Batched;
    var l := Forwarded(o, original, n);
    IterationDone(o, original, n);
    CountedOnce(n);
    GetAndPass(o, l, n);
    var l1 := l.(got := l.got + [l.rest[0]], rest := l.rest[1..]);
    PutAndCommit(o, if o.Between() && o.Due(n) then Line(l1.done + l1.sent, [], [], l1.rest) else l1, original[n], n);
  }

  lemma {:induction false} QuietRun(o: Options, original: seq<Message>, n: nat)
    requires o.Frequency() > 0 && n <= |original| && n < WorkerMachine.U32
    ensures Run(o, Begin(1, original), Quiet(1 + 4 * n))
         == Alone(o, Forwarded(o, original, n), Worker(Ready, n))
  {
    hide *;
    if n == 0 {
      QuietOpening(o, original);
    } else {
      QuietRun(o, original, n - 1);
      QuietIteration(o, original, n - 1);
      QuietMore(o, Begin(1, original), 4 * n - 3);
    }
  }

  lemma QuietOpening(o: Options, original: seq<Message>)
    ensures var s := System(Begin(1, original).queues, [Worker(Ready, 0)]);
      && Run(o, Begin(1, original), Quiet(1)) == s
      && (o.Frequency() > 0 ==> s == Alone(o, Forwarded(o, original, 0), Worker(Ready, 0)))
  {
    assert Quiet(1) == [] + [OK];
    RunOne(o, Begin(1, original), [], OK);
    assert Replies(o, []) == [];
  }

  lemma QuietMore(o: Options, s: System, k: nat)
    ensures Run(o, s, Quiet(k + 4)) == Step(o, Step(o, Step(o, Step(o, Run(o, s, Quiet(k)), OK), OK), OK), OK)
  {
    hide Run, Step;
    assert Quiet(k + 1) == Quiet(k) + [OK];
    assert Quiet(k + 2) == Quiet(k + 1) + [OK];
    assert Quiet(k + 3) == Quiet(k + 2) + [OK];
    assert Quiet(k + 4) == Quiet(k + 3) + [OK];
    RunOne(o, s, Quiet(k), OK);
    RunOne(o, s, Quiet(k + 1), OK);
    RunOne(o, s, Quiet(k + 2), OK);
    RunOne(o, s, Quiet(k + 3), OK);
  }

  /**
   Progress, with or without committing between: n undisturbed iterations
   deliver every complete batch of the commit count, and nothing more.
   */
  lemma BatchesDelivered(o: Options, original: seq<Message>, n: nat)
    requires o.Frequency() > 0 && n <= |original| && n < WorkerMachine.U32
    ensures var q := Run(o, Begin(1, original), Quiet(1 + 4 * n)).queues;
      var k := Batched(n, o.Frequency());
      Sources(With(q.output, Free)) == original[..k] && All(q.input) == original[k..]
  {
    hide Run, Begin, Quiet, Show, Batched, Forwarded;
    QuietRun(o, original, n);
    ShowContents(o, Forwarded(o, original, n));
    ForwardedContents(o, original, n);
  }

  lemma ForwardedContents(o: Options, original: seq<Message>, n: nat)
    requires o.Frequency() > 0 && n <= |original|
    ensures var l, k := Forwarded(o, original, n), Batched(n, o.Frequency());
      l.done == original[..k] && l.got + l.rest == original[k..]
  {
    hide Batched;
    var k := Batched(n, o.Frequency());
    assert original[k..n] + original[n..] == original[k..];
  }

  // ----- exactly when forwarding is exactly-once

  /** In every run that has come to rest, each message is on one queue, once. */
  ghost predicate ExactlyOnce(o: Options) {
    forall n: nat, original, events :: AtRest(Run(o, Begin(n, original), events)) ==>
      var q := Run(o, Begin(n, original), events).queues;
      multiset(Sources(All(q.output))) + multiset(All(q.input)) == multiset(original)
  }

  /** A get whose put then fails, in the iteration that ends a batch. */
  function FailedPut(k: nat): seq<Event> {
    Quiet(1 + 4 * k) + [OK] + [OK] + [Event(0, Refused)] + [OK] + [OK]
  }

  /** With nothing on the input queue and no unit of work, closing the session changes nothing. */
  lemma ClosesAsIs(o: Options, s: System, m: Message)
    requires InHandOnly(s, m, |s.queues.output|)
    ensures var s' := Step(o, Step(o, Step(o, s, Event(0, Refused)), OK), OK);
      s'.queues == s.queues && s'.workers == [s.workers[0].(pc := Closed)]
  {
    var q := s.queues;
    var free := All(q.output);
    assert q.output == Mark(free, Free);
    DropMarked(free, Free, 0);
    assert Release(q.output, 0) == q.output;
    assert q.BackOut(0) == q == q.Commit(0);
    hide Queues.Commit, Queues.BackOut;
  }

  /** The message is in hand, and on neither queue. */
  ghost predicate InHandOnly(s: System, m: Message, others: nat) {
    && |s.workers| == 1 && s.workers[0].pc == Passing(m)
    && s.queues.input == [] && |s.queues.output| == others
    && forall i :: 0 <= i < |s.queues.output| ==> s.queues.output[i].holder == Free
  }

  lemma LastMessage(o: Options, original: seq<Message>)
    requires o.Valid() && !Safe(o) && |original| == if o.Frequency() == 0 then 1 else o.Frequency()
    ensures var k := |original| - 1;
      InHandOnly(Run(o, Begin(1, original), Quiet(1 + 4 * k) + [OK] + [OK]), original[k], k)
  {
    hide Run, Begin, Quiet, Step, Turn, Alone, Options.Due;
    var k, b := |original| - 1, Begin(1, original);
    QuietTwo(o, b, 1 + 4 * k);
    if o.Frequency() == 0 {
      QuietOpening(o, original);
      OnlyMessage(o, original);
    } else {
      QuietRun(o, original, k);
      LastOfBatch(o, original);
      AloneDone(o, original[..k], Worker(Passing(original[k]), k));
    }
  }

  lemma QuietTwo(o: Options, b: System, k: nat)
    ensures Run(o, b, Quiet(k) + [OK] + [OK]) == Step(o, Step(o, Run(o, b, Quiet(k)), OK), OK)
  {
    hide Run, Step, Quiet;
    RunOne(o, b, Quiet(k), OK);
    RunOne(o, b, Quiet(k) + [OK], OK);
  }

  lemma AloneDone(o: Options, done: seq<Message>, w: Worker)
    ensures Alone(o, Line(done, [], [], []), w) == System(Queues([], Mark(Replies(o, done), Free)), [w])
  {
    NoneMarked(o, Line(done, [], [], []));
    hide Mark, Replies;
    assert Mark<Message>([], Free) == [];
  }

  lemma OnlyMessage(o: Options, original: seq<Message>)
    requires o.Frequency() == 0 && |original| == 1
    ensures Step(o, Step(o, System(Begin(1, original).queues, [Worker(Ready, 0)]), OK), OK)
         == System(Queues([], []), [Worker(Passing(original[0]), 0)])
  {
    assert FirstFree(Begin(1, original).queues.input) == 0;
  }

  lemma LastOfBatch(o: Options, original: seq<Message>)
    requires o.Valid() && o.Between() && |original| == o.Frequency()
    ensures var k := |original| - 1;
      var s := Step(o, Step(o, Alone(o, Forwarded(o, original, k), Worker(Ready, k)), OK), OK);
      s == Alone(o, Line(original[..k], [], [], []), Worker(Passing(original[k]), k))
  {
    var k := |original| - 1;
    Quotient(o.Frequency(), 0, k);
    Quotient(o.Frequency(), 1, 0);
    if k + 1 < WorkerMachine.U32 {
      DueWithin(o, k);
    }
    var l := Forwarded(o, original, k);
    assert l == Line([], original[..k], original[..k], [original[k]]);
    hide Step, Alone;
    GetAndPass(o, l, k);
  }

  /** Otherwise a put that fails at the end of a batch loses the message for good. */
  lemma MessageLost(o: Options, original: seq<Message>)
    requires o.Valid() && !Safe(o) && |original| == if o.Frequency() == 0 then 1 else o.Frequency()
    ensures var s := Run(o, Begin(1, original), FailedPut(|original| - 1));
      && AtRest(s)
      && |All(s.queues.output)| + |All(s.queues.input)| == |original| - 1
  {
    hide FailedPut, Run, Step, Begin, Quiet, Turn, Options.Frequency, Options.Between;
    var k := |original| - 1;
    LastMessage(o, original);
    ClosesAsIs(o, Run(o, Begin(1, original), Quiet(1 + 4 * k) + [OK] + [OK]), original[k]);
    FailedPutRun(o, Begin(1, original), k);
  }

  lemma FailedPutRun(o: Options, b: System, k: nat)
    ensures Run(o, b, FailedPut(k))
         == Step(o, Step(o, Step(o, Run(o, b, Quiet(1 + 4 * k) + [OK] + [OK]), Event(0, Refused)), OK), OK)
  {
    hide Run, Step, Quiet;
    var events := Quiet(1 + 4 * k) + [OK] + [OK];
    RunOne(o, b, events, Event(0, Refused));
    RunOne(o, b, events + [Event(0, Refused)], OK);
    RunOne(o, b, events + [Event(0, Refused)] + [OK], OK);
  }

  lemma ExactlyOnceIffSafe(o: Options)
    requires o.Valid()
    ensures ExactlyOnce(o) <==> Safe(o)
  {
    if Safe(o) {
      forall n: nat, original, events | AtRest(Run(o, Begin(n, original), events))
        ensures var q := Run(o, Begin(n, original), events).queues;
          multiset(Sources(All(q.output))) + multiset(All(q.input)) == multiset(original)
      {
        AtRestNothingHeld(n, original, o, events);
      }
    } else {
      var original := seq(if o.Frequency() == 0 then 1 else o.Frequency(), i => Message(0, ""));
      MessageLost(o, original);
      var s := Run(o, Begin(1, original), FailedPut(|original| - 1));
      hide Run;
      var out, rest := Sources(All(s.queues.output)), All(s.queues.input);
      assert |multiset(out) + multiset(rest)| == |out| + |rest| < |multiset(original)|;
    }
  }

  // ----- what a reply says

  ghost predicate Texts(o: Options, output: seq<Entry<Reply>>) {
    forall i :: 0 <= i < |output| ==> output[i].msg == o.ReplyTo(output[i].msg.source)
  }

  lemma {:induction false} DropTexts(o: Options, output: seq<Entry<Reply>>, c: nat)
    requires Texts(o, output)
    ensures Texts(o, Drop(output, c))
  {
    if output != [] {
      DropTexts(o, output[1..], c);
    }
  }

  lemma TurnKeepsTexts(o: Options, q: Queues, w: Worker, c: nat, r: Outcome)
    requires Texts(o, q.output)
    ensures Texts(o, Turn(o, q, w, c, r).0.output)
  {
    hide Drop, FirstFree, Got, Options.Due;
    DropTexts(o, q.output, c);
    DropTexts(o, q.Commit(c).output, c);
    DropTexts(o, q.BackOut(c).output, c);
    if w.pc.Passing? {
      DropTexts(o, QueueManager.Put(q.output, o.ReplyTo(w.pc.m), o.tx, c), c);
    }
  }

  /** Whatever the options, a reply has the text of its message if messages are copied, or else the fixed text. */
  lemma {:induction false} RepliesCarryText(n: nat, original: seq<Message>, o: Options, events: seq<Event>, i: nat)
    requires i < |Run(o, Begin(n, original), events).queues.output|
    ensures var reply := Run(o, Begin(n, original), events).queues.output[i].msg;
      reply.body == if o.copy then reply.source.body else o.text
  {
    TextsKept(n, original, o, events);
  }

  lemma {:induction false} TextsKept(n: nat, original: seq<Message>, o: Options, events: seq<Event>)
    ensures Texts(o, Run(o, Begin(n, original), events).queues.output)
  {
    if events != [] {
      TextsKept(n, original, o, events[..|events| - 1]);
      var s, e := Run(o, Begin(n, original), events[..|events| - 1]), events[|events| - 1];
      hide Turn, Texts;
      if e.who < |s.workers| {
        TurnKeepsTexts(o, s.queues, s.workers[e.who], e.who, e.outcome);
      }
    }
  }
}
