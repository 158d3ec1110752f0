/**
 The reply-queue cache as code (src/Responder.cpp:208-252) over queue objects
 (src/MQIObjects.cpp:198-280, 633-638): a spare object takes the requested names and
 is inserted; if nothing equal was there, it is opened and a new spare is made later.
 */
module Responder {
  import opened ReplyNames
  import opened ReplyCache

  class MQIQueue {
    var qmName: Field
    var name: Field
    var open: bool

    constructor ()
      ensures !open
    {
      qmName, name, open := Zeros(LENGTH), Zeros(LENGTH), false;
    }

    function Names(): Key
      reads this
    {
      Key(CStr(qmName), CStr(name))
    }

    /** Names cannot be changed once the object is open. */
    method SetNames(qm: Field, queue: Field) returns (error: bool)
      modifies this`qmName, this`name
      ensures error <==> open
      ensures Names() == if error then old(Names()) else Key(CStr(qm), CStr(queue))
    {
      error := open;
      if !error {
        qmName, name := Copied(qm), Copied(queue);
      }
    }

    /** Opening for output: with put1 nothing is done, and a blank queue manager name is dropped. */
    method Open(put1: bool) returns (error: bool)
      modifies this
      ensures old(open) ==> error && open && Names() == old(Names())
      ensures !old(open) ==> open == (!error && !put1) && Names() == Opened(put1, old(Names()))
      ensures put1 && !old(open) ==> !error
    {
      if open {
        return true;
      }
      error := false;
      if !put1 {
        var length := UnpaddedLength(qmName);
        if length == 0 {
          assert AllBlank(CStr(qmName));
          qmName := Emptied(qmName);
        } else {
          assert !AllBlank(CStr(qmName));
        }
        error := *;
        open := !error;
      }
    }
  }

  datatype Member = Member(hash: bv64, queue: MQIQueue)

  class Responder {
    const put1: bool
    var oqCache: seq<Member>
    var dummyOut: MQIQueue?

    ghost function Queues(): set<MQIQueue>
      reads this
    {
      set i | 0 <= i < |oqCache| :: oqCache[i].queue
    }

    /** No object is a member twice. */
    ghost predicate Apart()
      reads this
    {
      forall i, j :: 0 <= i < j < |oqCache| ==> oqCache[i].queue != oqCache[j].queue
    }

    /** Members are open unless put1 is in use; the spare is neither open nor a member. */
    ghost predicate Valid()
      reads this, Queues(), dummyOut
    {
      && Apart()
      && (forall m :: m in oqCache ==> m.queue.open == !put1)
      && (dummyOut != null ==> !dummyOut.open && dummyOut !in Queues())
    }

    ghost function Slots(): (s: seq<Slot>)
      reads this, Queues()
    {
      seq(|oqCache|, i requires 0 <= i < |oqCache| reads this, Queues() =>
        Slot(oqCache[i].hash, oqCache[i].queue.Names()))
    }

    constructor (put1: bool)
      ensures Valid() && Slots() == [] && this.put1 == put1
    {
      this.put1, oqCache, dummyOut := put1, [], null;
    }

    /** The place of a member equal to the given object, inserted under the same hash. */
    method Lookup(q: MQIQueue) returns (i: nat)
      ensures i == Find(Slots(), q.Names())
    {
      var hash := Hash(q.qmName, q.name);
      i := 0;
      while i < |oqCache|
            && !(oqCache[i].hash == hash
                 && Equal(oqCache[i].queue.qmName, oqCache[i].queue.name, q.qmName, q.name))
        invariant i <= |oqCache|
        invariant forall j :: 0 <= j < i ==> !Hits(Slots()[j], q.Names())
      {
        EqualMeansSameKey(oqCache[i].queue.qmName, oqCache[i].queue.name, q.qmName, q.name);
        i := i + 1;
      }
      if i < |oqCache| {
        EqualMeansSameKey(oqCache[i].queue.qmName, oqCache[i].queue.name, q.qmName, q.name);
        assert Hits(Slots()[i], q.Names());
      }
    }

    /** An unnamed spare, made if there is none. */
    method Spare() returns (q: MQIQueue)
      requires Valid()
      modifies this`dummyOut
      ensures Valid() && dummyOut == q
      ensures (old(dummyOut) != null ==> q == old(dummyOut)) && (old(dummyOut) == null ==> fresh(q))
      ensures Slots() == old(Slots())
    {
      if dummyOut == null {
        dummyOut := new MQIQueue();
      }
      q := dummyOut;
    }

    /**
     The queue for a reply.  Unless opening fails, the cache is as one more request
     leaves it, and the queue has the requested names as opening leaves them.  If
     opening fails, the spare stays a member, with those names.
     */
    method GetReplyQueue(qm: Field, name: Field) returns (error: bool, q: MQIQueue)
      requires Valid()
      modifies this, if dummyOut == null then {} else {dummyOut}
      ensures !error ==> Valid() && Slots() == Request(put1, old(Slots()), Key(CStr(qm), CStr(name)))
      ensures !error ==> q in Queues() && q.open == !put1
      ensures !error ==> q.Names() == if Cached(old(Slots()), Key(CStr(qm), CStr(name))) then Key(CStr(qm), CStr(name))
                                      else Opened(put1, Key(CStr(qm), CStr(name)))
      ensures error ==> Apart() && dummyOut == q && q in Queues() && FailedToOpen(q, qm, name, old(oqCache))
    {
      hide HashOf, Find, Opened, CStr;
      var spare := Spare();
      error := spare.SetNames(qm, name);
      assert !error;
      var i := Lookup(spare);
      assert Slots() == old(Slots());
      if i < |oqCache| {
        q := oqCache[i].queue;
        assert Slots()[i].key == q.Names();
      } else {
        q := spare;
        error := Insert(spare);
      }
    }

    /** The object is the newest member, with the requested names as opening left them, and not open. */
    ghost predicate FailedToOpen(q: MQIQueue, qm: Field, name: Field, before: seq<Member>)
      reads q, this
    {
      var k := Key(CStr(qm), CStr(name));
      oqCache == before + [Member(HashOf(k), q)] && q.Names() == Opened(put1, k) && !q.open
    }

    /** The spare becomes a member. */
    method AddMember(q: MQIQueue)
      requires Valid() && dummyOut == q
      modifies this`oqCache
      ensures oqCache == old(oqCache) + [Member(HashOf(q.Names()), q)]
      ensures Apart() && q in Queues()
      ensures Slots() == old(Slots()) + [Slot(HashOf(q.Names()), q.Names())]
    {
      var hash := Hash(q.qmName, q.name);
      ghost var n := |oqCache|;
      assert forall i :: 0 <= i < n ==> oqCache[i].queue in Queues();
      oqCache := oqCache + [Member(hash, q)];
      assert oqCache[n].queue == q;
    }

    /** The newest member is opened; the others are not touched. */
    method OpenNewest(q: MQIQueue) returns (error: bool)
      requires oqCache != [] && dummyOut == q == oqCache[|oqCache| - 1].queue && Apart()
      requires !q.open && forall i :: 0 <= i < |oqCache| - 1 ==> oqCache[i].queue.open == !put1
      modifies q, this`dummyOut
      ensures !error ==> Valid() && q.Names() == Opened(put1, old(q.Names())) && q.open == !put1
      ensures !error ==> Slots() == old(Slots())[|oqCache| - 1 := Slot(oqCache[|oqCache| - 1].hash, q.Names())]
      ensures error ==> dummyOut == q && !q.open && q.Names() == Opened(put1, old(q.Names()))
    {
      hide HashOf, Opened;
      assert forall i :: 0 <= i < |oqCache| - 1 ==> oqCache[i].queue != q;
      error := q.Open(put1);
      if !error {
        dummyOut := null;
      }
    }

    /** The spare becomes a member, and is opened. */
    method Insert(q: MQIQueue) returns (error: bool)
      requires Valid() && dummyOut == q && !Cached(Slots(), q.Names())
      modifies this, q
      ensures !error ==> Valid() && Slots() == Request(put1, old(Slots()), old(q.Names()))
      ensures !error ==> q in Queues() && q.open == !put1 && q.Names() == Opened(put1, old(q.Names()))
      ensures error ==> Apart() && dummyOut == q && q in Queues() && !q.open
      ensures error ==> oqCache == old(oqCache) + [Member(HashOf(old(q.Names())), q)]
      ensures error ==> q.Names() == Opened(put1, old(q.Names()))
    {
      hide HashOf, Find, Opened;
      ghost var n := |oqCache|;
      assert forall i :: 0 <= i < n ==> oqCache[i] in oqCache;
      AddMember(q);
      assert forall i :: 0 <= i < n ==> oqCache[i] == old(oqCache)[i];
      error := OpenNewest(q);
      assert oqCache[n].queue == q;
    }

    /** Deletes every member and then the spare: each object once, unless the spare was a member. */
    method CloseDestination() returns (deleted: seq<MQIQueue>)
      requires Apart()
      modifies this
      ensures oqCache == [] && dummyOut == null
      ensures forall q :: q in deleted <==> q in old(Queues()) || q == old(dummyOut)
      ensures Distinct(deleted) <==> old(dummyOut) == null || old(dummyOut) !in old(Queues())
    {
      deleted := [];
      var i := 0;
      while i < |oqCache|
        invariant i <= |oqCache| && |deleted| == i
        invariant forall j :: 0 <= j < i ==> deleted[j] == oqCache[j].queue
      {
        deleted := deleted + [oqCache[i].queue];
        i := i + 1;
      }
      ghost var members := deleted;
      if dummyOut != null {
        deleted := deleted + [dummyOut];
        if dummyOut in Queues() {
          ghost var j :| 0 <= j < |oqCache| && oqCache[j].queue == dummyOut;
          assert deleted[j] == deleted[|members|];
        }
      }
      oqCache, dummyOut := [], null;
    }
  }
}
