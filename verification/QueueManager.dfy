/**
 A queue manager as the workloads use it (src/MQIObjects.cpp:288-420 and
 src/MQIOther.cpp:190-226): getting and putting, inside or outside a unit of
 work, committing and backing out.
 */
module QueueManager {

  /** Who may still take back what was done to a message: nobody, or a connection. */
  datatype Holder = Free | Held(connection: nat)

  /**
   A message on a queue.  On the queue that is read a held message has been got
   but not committed; on the queue that is written it has been put but not committed.
   */
  datatype Entry<T> = Entry(msg: T, holder: Holder)

  /** What a call into the queue manager did. */
  datatype Outcome =
    | Works      // it took effect
    | Refused    // it raised, without any effect
    | Warned     // it took effect, and raised
    | BackedOut  // it raised, and the unit of work was backed out
    | Lost       // it took effect, then the connection broke: uncommitted work was backed out, and it raised
  {
    predicate Effective() { Works? || Warned? || Lost? }

    predicate Undone() { BackedOut? || Lost? }
  }

  /** Every message on a queue. */
  function All<T>(q: seq<Entry<T>>): (s: seq<T>)
    ensures |s| == |q| && forall i :: 0 <= i < |q| ==> s[i] == q[i].msg
  {
    seq(|q|, i requires 0 <= i < |q| => q[i].msg)
  }

  /** The messages with the given holder, in queue order. */
  function With<T>(q: seq<Entry<T>>, h: Holder): seq<T> {
    if q == [] then []
    else (if q[0].holder == h then [q[0].msg] else []) + With(q[1..], h)
  }

  /** A connection's messages go away. */
  function Drop<T>(q: seq<Entry<T>>, c: nat): (r: seq<Entry<T>>) {
    if q == [] then []
    else (if q[0].holder == Held(c) then [] else [q[0]]) + Drop(q[1..], c)
  }

  /** A connection lets go of its messages, which keep their places. */
  function Release<T>(q: seq<Entry<T>>, c: nat): (r: seq<Entry<T>>)
    ensures |r| == |q|
    ensures forall i :: 0 <= i < |q| ==> r[i] == q[i].(holder := if q[i].holder == Held(c) then Free else q[i].holder)
  {
    seq(|q|, i requires 0 <= i < |q| => q[i].(holder := if q[i].holder == Held(c) then Free else q[i].holder))
  }

  /** The place of the first message nobody holds. */
  function FirstFree<T>(q: seq<Entry<T>>): (i: nat)
    ensures i <= |q|
    ensures forall j :: 0 <= j < i ==> q[j].holder != Free
    ensures i < |q| ==> q[i].holder == Free
  {
    if q == [] || q[0].holder == Free then 0 else 1 + FirstFree(q[1..])
  }

  /** The queue after getting the message at i: held in a unit of work, or gone. */
  function Got<T>(q: seq<Entry<T>>, i: nat, sync: bool, c: nat): seq<Entry<T>>
    requires i < |q|
  {
    if sync then q[i := q[i].(holder := Held(c))] else q[..i] + q[i + 1..]
  }

  function Put<T>(q: seq<Entry<T>>, m: T, sync: bool, c: nat): seq<Entry<T>> {
    q + [Entry(m, if sync then Held(c) else Free)]
  }

  // ----- what each call does to the messages of each holder

  lemma {:induction false} WithConcat<T>(p: seq<Entry<T>>, q: seq<Entry<T>>, h: Holder)
    ensures With(p + q, h) == With(p, h) + With(q, h)
  {
    if p == [] {
      assert p + q == q;
    } else {
      WithConcat(p[1..], q, h);
      assert (p + q)[0] == p[0] && (p + q)[1..] == p[1..] + q;
      Associative(if p[0].holder == h then [p[0].msg] else [], With(p[1..], h), With(q, h));
    }
  }

  lemma Associative<T>(a: seq<T>, b: seq<T>, c: seq<T>)
    ensures a + (b + c) == (a + b) + c
  {
  }

  lemma {:induction false} DropConcat<T>(p: seq<Entry<T>>, q: seq<Entry<T>>, c: nat)
    ensures Drop(p + q, c) == Drop(p, c) + Drop(q, c)
  {
    if p == [] {
      assert p + q == q;
    } else {
      DropConcat(p[1..], q, c);
      assert (p + q)[0] == p[0] && (p + q)[1..] == p[1..] + q;
      Associative(if p[0].holder == Held(c) then [] else [p[0]], Drop(p[1..], c), Drop(q, c));
    }
  }

  /** Dropping one connection's messages leaves every other holder's as they were. */
  lemma {:induction false} DropWith<T>(q: seq<Entry<T>>, c: nat, h: Holder)
    ensures With(Drop(q, c), h) == if h == Held(c) then [] else With(q, h)
  {
    if q != [] {
      DropWith(q[1..], c, h);
      var first := if q[0].holder == Held(c) then [] else [q[0]];
      WithConcat(first, Drop(q[1..], c), h);
    }
  }

  /** No message is lost when a connection lets go. */
  lemma ReleaseAll<T>(q: seq<Entry<T>>, c: nat)
    ensures All(Release(q, c)) == All(q)
  {
  }

  lemma WithCons<T>(e: Entry<T>, q: seq<Entry<T>>, h: Holder)
    ensures With([e] + q, h) == (if e.holder == h then [e.msg] else []) + With(q, h)
  {
    WithConcat([e], q, h);
  }

  lemma ReleaseCons<T>(e: Entry<T>, q: seq<Entry<T>>, c: nat)
    ensures Release([e] + q, c) == [e.(holder := if e.holder == Held(c) then Free else e.holder)] + Release(q, c)
  {
  }

  lemma {:induction false} ReleaseWith<T>(q: seq<Entry<T>>, c: nat, h: Holder)
    requires h != Free
    ensures With(Release(q, c), h) == if h == Held(c) then [] else With(q, h)
  {
    if q != [] {
      var e, rest := q[0], q[1..];
      assert q == [e] + rest;
      ReleaseWith(rest, c, h);
      ReleaseCons(e, rest, c);
      hide With, Release;
      WithCons(e, rest, h);
      WithCons(e.(holder := if e.holder == Held(c) then Free else e.holder), Release(rest, c), h);
    }
  }

  /** What a connection lets go of becomes free for all. */
  lemma {:induction false} ReleaseFree<T>(q: seq<Entry<T>>, c: nat)
    ensures multiset(With(Release(q, c), Free)) == multiset(With(q, Free)) + multiset(With(q, Held(c)))
  {
    if q != [] {
      var e, rest := q[0], q[1..];
      assert q == [e] + rest;
      ReleaseFree(rest, c);
      ReleaseCons(e, rest, c);
      hide With, Release;
      WithCons(e, rest, Free);
      WithCons(e, rest, Held(c));
      WithCons(e.(holder := if e.holder == Held(c) then Free else e.holder), Release(rest, c), Free);
      assert [] + With(rest, Free) == With(rest, Free) && [] + With(rest, Held(c)) == With(rest, Held(c));
    }
  }

  lemma AllCons<T>(e: Entry<T>, q: seq<Entry<T>>)
    ensures All([e] + q) == [e.msg] + All(q)
  {
  }

  lemma DropCons<T>(e: Entry<T>, q: seq<Entry<T>>, c: nat)
    ensures Drop([e] + q, c) == (if e.holder == Held(c) then [] else [e]) + Drop(q, c)
  {
    DropConcat([e], q, c);
  }

  /** A committed get removes exactly the messages the connection held. */
  lemma {:induction false} DropAll<T>(q: seq<Entry<T>>, c: nat)
    ensures multiset(All(Drop(q, c))) + multiset(With(q, Held(c))) == multiset(All(q))
  {
    if q != [] {
      var e, rest := q[0], q[1..];
      assert q == [e] + rest;
      DropAll(rest, c);
      hide With, Drop, All;
      AllCons(e, rest);
      WithCons(e, rest, Held(c));
      DropCons(e, rest, c);
      AllCons(e, Drop(rest, c));
      assert [] + Drop(rest, c) == Drop(rest, c);
    }
  }

  /** Getting in a unit of work moves one message into the connection's hold. */
  lemma {:induction false} GotWith<T>(q: seq<Entry<T>>, i: nat, c: nat, h: Holder)
    requires i < |q| && q[i].holder == Free
    ensures All(Got(q, i, true, c)) == All(q)
    ensures multiset(With(Got(q, i, true, c), Held(c))) == multiset(With(q, Held(c))) + multiset{q[i].msg}
    ensures h != Held(c) && h != Free ==> With(Got(q, i, true, c), h) == With(q, h)
  {
    assert q == q[..i] + [q[i]] + q[i + 1..];
    var e := q[i].(holder := Held(c));
    assert Got(q, i, true, c) == q[..i] + [e] + q[i + 1..];
    WithPieces(q[..i], q[i], q[i + 1..], h);
    WithPieces(q[..i], e, q[i + 1..], h);
    WithPieces(q[..i], q[i], q[i + 1..], Held(c));
    WithPieces(q[..i], e, q[i + 1..], Held(c));
  }

  lemma WithPieces<T>(p: seq<Entry<T>>, e: Entry<T>, r: seq<Entry<T>>, h: Holder)
    ensures With(p + [e] + r, h) == With(p, h) + (if e.holder == h then [e.msg] else []) + With(r, h)
  {
    WithConcat(p + [e], r, h);
    WithConcat(p, [e], h);
  }

  lemma PutWith<T>(q: seq<Entry<T>>, m: T, sync: bool, c: nat, h: Holder)
    ensures With(Put(q, m, sync, c), h)
         == With(q, h) + if h == (if sync then Held(c) else Free) then [m] else []
  {
    WithConcat(q, [Entry(m, if sync then Held(c) else Free)], h);
  }

  /** With nothing held, the messages nobody holds are all the messages. */
  lemma {:induction false} NothingHeld<T>(q: seq<Entry<T>>)
    requires forall i :: 0 <= i < |q| ==> q[i].holder == Free
    ensures With(q, Free) == All(q)
  {
    if q != [] {
      NothingHeld(q[1..]);
      assert All(q) == [q[0].msg] + All(q[1..]);
    }
  }

  lemma {:induction false} HeldByNobody<T>(q: seq<Entry<T>>, h: Holder)
    requires With(q, h) == []
    ensures forall i :: 0 <= i < |q| ==> q[i].holder != h
  {
    if q != [] {
      HeldByNobody(q[1..], h);
      forall i | 0 <= i < |q| ensures q[i].holder != h {
        assert i > 0 ==> q[i] == q[1..][i - 1];
      }
    }
  }
}
