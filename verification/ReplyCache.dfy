/**
 What the cache of open reply queues does over a session (src/Responder.cpp:227-252
 with src/MQIObjects.cpp:251-280): a hashed set whose members' names may change when
 they are opened.
 */
module ReplyCache {
  import opened ReplyNames

  predicate AllBlank(s: seq<bv8>) {
    forall i :: 0 <= i < |s| ==> s[i] == ' ' as bv8
  }

  /** A key whose queue manager name opening replaces with the empty string. */
  predicate Rewritten(put1: bool, k: Key) {
    !put1 && k.qm != [] && AllBlank(k.qm)
  }

  function Opened(put1: bool, k: Key): Key {
    if Rewritten(put1, k) then Key([], k.name) else k
  }

  /** A member: the hash it was inserted under, and its names now. */
  datatype Slot = Slot(hash: bv64, key: Key)

  predicate Hits(s: Slot, k: Key) {
    s.hash == HashOf(k) && s.key == k
  }

  function Find(slots: seq<Slot>, k: Key): (i: nat)
    ensures i <= |slots| && (i < |slots| ==> Hits(slots[i], k))
    ensures forall j :: 0 <= j < i ==> !Hits(slots[j], k)
  {
    if slots == [] || Hits(slots[0], k) then 0 else 1 + Find(slots[1..], k)
  }

  predicate Cached(slots: seq<Slot>, k: Key) {
    Find(slots, k) < |slots|
  }

  /** A request whose reply queue opens, if it is not in the cache. */
  function Request(put1: bool, slots: seq<Slot>, k: Key): seq<Slot> {
    if Cached(slots, k) then slots else slots + [Slot(HashOf(k), Opened(put1, k))]
  }

  function Requests(put1: bool, keys: seq<Key>): seq<Slot> {
    if keys == [] then []
    else Request(put1, Requests(put1, keys[..|keys| - 1]), keys[|keys| - 1])
  }

  /** The keys that were opened, in order. */
  function Openings(put1: bool, keys: seq<Key>): seq<Key> {
    if keys == [] then []
    else
      var before, k := keys[..|keys| - 1], keys[|keys| - 1];
      Openings(put1, before) + if Cached(Requests(put1, before), k) then [] else [k]
  }

  predicate Distinct<T(==)>(s: seq<T>) {
    forall i, j :: 0 <= i < j < |s| ==> s[i] != s[j]
  }

  /** Each member of the cache is one that was opened, under its own hash. */
  lemma {:induction false} SlotsAreOpenings(put1: bool, keys: seq<Key>)
    ensures var slots, openings := Requests(put1, keys), Openings(put1, keys);
      && |slots| == |openings|
      && forall i :: 0 <= i < |slots| ==> slots[i] == Slot(HashOf(openings[i]), Opened(put1, openings[i]))
  {
    if keys != [] {
      SlotsAreOpenings(put1, keys[..|keys| - 1]);
    }
  }

  lemma {:induction false} OpeningsWereRequested(put1: bool, keys: seq<Key>)
    ensures forall k :: k in Openings(put1, keys) ==> k in keys
  {
    if keys != [] {
      OpeningsWereRequested(put1, keys[..|keys| - 1]);
    }
  }

  /** A key that opening leaves alone is found from then on; one it rewrites is never found. */
  lemma {:induction false} FoundIffOpened(put1: bool, keys: seq<Key>, k: Key)
    ensures Rewritten(put1, k) ==> !Cached(Requests(put1, keys), k)
    ensures !Rewritten(put1, k) && k in keys ==> Cached(Requests(put1, keys), k)
  {
    SlotsAreOpenings(put1, keys);
    if !Rewritten(put1, k) && k in keys {
      var before, last := keys[..|keys| - 1], keys[|keys| - 1];
      if k == last {
        var slots := Requests(put1, before);
        if !Cached(slots, k) {
          assert Hits(Requests(put1, keys)[|slots|], k);
        }
      } else {
        assert k in before;
        FoundIffOpened(put1, before, k);
        StaysCached(put1, Requests(put1, before), last, k);
      }
    }
  }

  lemma StaysCached(put1: bool, slots: seq<Slot>, last: Key, k: Key)
    requires Cached(slots, k)
    ensures Cached(Request(put1, slots, last), k)
  {
    assert Hits(Request(put1, slots, last)[Find(slots, k)], k);
  }

  /**
   For keys that opening leaves alone, the cache agrees with a map: a request is
   served from it exactly when the same pair was requested before, and by a queue
   with exactly that pair of names.
   */
  lemma AgreesWithMap(put1: bool, keys: seq<Key>, k: Key)
    requires forall j :: 0 <= j < |keys| ==> !Rewritten(put1, keys[j])
    requires !Rewritten(put1, k)
    ensures Cached(Requests(put1, keys), k) <==> k in keys
    ensures Cached(Requests(put1, keys), k) ==> Requests(put1, keys)[Find(Requests(put1, keys), k)].key == k
  {
    FoundIffOpened(put1, keys, k);
    SlotsAreOpenings(put1, keys);
    OpeningsWereRequested(put1, keys);
    var slots := Requests(put1, keys);
    if Cached(slots, k) {
      var was := Openings(put1, keys)[Find(slots, k)];
      assert was in Openings(put1, keys);
      assert !Rewritten(put1, was) && k == Opened(put1, was);
    }
  }

  /**
   A pair that was requested before is served from the cache, if and only if put1 is in
   use or its queue manager name is empty or has a character that is not blank.
   */
  lemma RepeatedServedIff(put1: bool, keys: seq<Key>, k: Key)
    requires k in keys
    ensures Cached(Requests(put1, keys), k)
            <==> put1 || k.qm == [] || exists i :: 0 <= i < |k.qm| && k.qm[i] != ' ' as bv8
  {
    FoundIffOpened(put1, keys, k);
  }

  /** With put1, or with no blank queue manager name, the cache has exactly the pairs that were requested. */
  lemma ServedIffRequested(put1: bool, keys: seq<Key>, k: Key)
    requires put1 || forall j :: j in keys + [k] ==> j.qm != [] && j.qm[0] != ' ' as bv8
    ensures Cached(Requests(put1, keys), k) <==> k in keys
  {
    forall j | j in keys + [k] ensures !Rewritten(put1, j) {
    }
    assert k in keys + [k];
    forall i | 0 <= i < |keys| ensures !Rewritten(put1, keys[i]) {
      assert keys[i] in keys + [k];
    }
    AgreesWithMap(put1, keys, k);
  }

  /** No rewritten key is requested twice. */
  ghost predicate BlankOnce(put1: bool, keys: seq<Key>) {
    forall i, j :: 0 <= i < j < |keys| && keys[i] == keys[j] ==> !Rewritten(put1, keys[i])
  }

  lemma {:induction false} RewrittenAreOpened(put1: bool, keys: seq<Key>, i: nat, j: nat)
    requires i < j < |keys| && keys[i] == keys[j] && Rewritten(put1, keys[i])
    ensures !Distinct(Openings(put1, keys))
  {
    var before, last := keys[..|keys| - 1], keys[|keys| - 1];
    var earlier, openings := Openings(put1, before), Openings(put1, keys);
    FoundIffOpened(put1, before, last);
    if j < |keys| - 1 {
      RewrittenAreOpened(put1, before, i, j);
      var a, b :| 0 <= a < b < |earlier| && earlier[a] == earlier[b];
      assert openings[a] == openings[b];
    } else {
      RewrittenIsOpened(put1, before, i);
      var a :| 0 <= a < |earlier| && earlier[a] == last;
      assert openings[a] == openings[|earlier|];
    }
  }

  lemma {:induction false} RewrittenIsOpened(put1: bool, keys: seq<Key>, i: nat)
    requires i < |keys| && Rewritten(put1, keys[i])
    ensures keys[i] in Openings(put1, keys)
  {
    FoundIffOpened(put1, keys[..|keys| - 1], keys[i]);
    if i < |keys| - 1 {
      RewrittenIsOpened(put1, keys[..|keys| - 1], i);
    }
  }

  /** Each pair is opened at most once in a session, exactly when no blank queue manager name comes up twice. */
  lemma {:induction false} OpenedOnceIffBlankOnce(put1: bool, keys: seq<Key>)
    ensures Distinct(Openings(put1, keys)) <==> BlankOnce(put1, keys)
  {
    if !BlankOnce(put1, keys) {
      var i, j :| 0 <= i < j < |keys| && keys[i] == keys[j] && Rewritten(put1, keys[i]);
      RewrittenAreOpened(put1, keys, i, j);
    } else if keys != [] {
      var before, last := keys[..|keys| - 1], keys[|keys| - 1];
      OpenedOnceIffBlankOnce(put1, before);
      OpeningsWereRequested(put1, before);
      FoundIffOpened(put1, before, last);
      RepeatedIsNotBlank(put1, keys);
    }
  }

  lemma RepeatedIsNotBlank(put1: bool, keys: seq<Key>)
    requires keys != [] && BlankOnce(put1, keys)
    ensures BlankOnce(put1, keys[..|keys| - 1])
    ensures keys[|keys| - 1] in keys[..|keys| - 1] ==> !Rewritten(put1, keys[|keys| - 1])
  {
    var before, last := keys[..|keys| - 1], keys[|keys| - 1];
    forall i | 0 <= i < |before| && before[i] == last ensures !Rewritten(put1, last) {
      assert keys[i] == keys[|keys| - 1];
    }
  }

  /** Without put1, two requests with a blank queue manager name open the queue twice. */
  lemma BlankOpenedTwice(name: seq<bv8>)
    ensures var k := Key([' ' as bv8], name); Openings(false, [k, k]) == [k, k]
  {
    var k := Key([' ' as bv8], name);
    var blank := ' ' as bv8;
    assert k.qm == [blank] && AllBlank(k.qm);
    assert [k, k][..1] == [k] && [k][..0] == [];
    FoundIffOpened(false, [], k);
    assert Openings(false, [k]) == [k];
    FoundIffOpened(false, [k], k);
  }
}
