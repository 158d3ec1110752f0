/**
 Names of queues and queue managers as fixed fields of bytes (src/MQI.hpp:285-292,
 src/MQIObjects.cpp:198-240, 633-638), and the hash and equality of the
 reply-queue cache (src/Responder.cpp:49-82).
 */
module ReplyNames {

  const LENGTH := 48

  type Field = f: seq<bv8> | |f| == LENGTH witness seq(LENGTH, i => 0)

  /** The characters before the first null. */
  function CStr(f: seq<bv8>): (s: seq<bv8>)
    ensures |s| <= |f| && s == f[..|s|] && 0 !in s
    ensures |s| < |f| ==> f[|s|] == 0
  {
    if f == [] || f[0] == 0 then [] else [f[0]] + CStr(f[1..])
  }

  function Zeros(n: nat): (z: seq<bv8>)
    ensures |z| == n && forall i :: 0 <= i < n ==> z[i] == 0
  {
    seq(n, i => 0)
  }

  /** strncpy into a field: what follows the null is filled with nulls. */
  function Copied(source: Field): (f: Field)
    ensures CStr(f) == CStr(source)
  {
    var s := CStr(source);
    PaddedCStr(s, LENGTH - |s|);
    s + Zeros(LENGTH - |s|)
  }

  lemma {:induction false} PaddedCStr(s: seq<bv8>, n: nat)
    requires 0 !in s
    ensures CStr(s + Zeros(n)) == s
  {
    var f := s + Zeros(n);
    if s != [] {
      PaddedCStr(s[1..], n);
      assert f[0] == s[0] && f[1..] == s[1..] + Zeros(n);
    } else if n > 0 {
      assert f[0] == 0;
    }
  }

  /** An empty string written over a field leaves the rest of it as it was. */
  function Emptied(f: Field): (g: Field)
    ensures CStr(g) == [] && g[1..] == f[1..]
  {
    [0] + f[1..]
  }

  /** strncmp finds no difference. */
  predicate SameString(a: seq<bv8>, b: seq<bv8>)
    requires |a| == |b|
  {
    a == [] || (a[0] == b[0] && (a[0] == 0 || SameString(a[1..], b[1..])))
  }

  lemma {:induction false} SameStringIffEqual(a: seq<bv8>, b: seq<bv8>)
    requires |a| == |b|
    ensures SameString(a, b) <==> CStr(a) == CStr(b)
  {
    if a != [] {
      SameStringIffEqual(a[1..], b[1..]);
      if a[0] != 0 && b[0] != 0 {
        assert CStr(a)[0] == a[0] && CStr(b)[0] == b[0];
        assert CStr(a)[1..] == CStr(a[1..]) && CStr(b)[1..] == CStr(b[1..]);
      }
    }
  }

  /** The length without padding: one more than the place of the last character that is not blank. */
  method UnpaddedLength(f: Field) returns (rc: nat)
    ensures rc <= |CStr(f)| && (rc > 0 ==> CStr(f)[rc - 1] != ' ' as bv8)
    ensures forall i :: rc <= i < |CStr(f)| ==> CStr(f)[i] == ' ' as bv8
  {
    rc := 0;
    var i := 0;
    while i < LENGTH && f[i] != 0
      invariant rc <= i <= |CStr(f)|
      invariant rc > 0 ==> CStr(f)[rc - 1] != ' ' as bv8
      invariant forall j :: rc <= j < i ==> CStr(f)[j] == ' ' as bv8
    {
      assert f[i] == CStr(f)[i];
      if f[i] != ' ' as bv8 {
        rc := i + 1;
      }
      i := i + 1;
    }
  }

  /** A signed character widened to the 64 bits of the hash. */
  function Widened(c: bv8): bv64 {
    if c < 128 then c as bv64 else (c as bv64) | 0xFFFF_FFFF_FFFF_FF00
  }

  function Mix(rc: bv64, c: bv8): bv64 {
    ((rc << 5) + rc) ^ Widened(c)
  }

  function Fold(rc: bv64, s: seq<bv8>): bv64
    decreases |s|
  {
    if s == [] then rc else Fold(Mix(rc, s[0]), s[1..])
  }

  /** A queue manager name and a queue name. */
  datatype Key = Key(qm: seq<bv8>, name: seq<bv8>)

  function HashOf(k: Key): bv64 {
    Fold(Fold(5381, k.qm), k.name)
  }

  /** The hash looks no further than the null of each field. */
  method Hash(qm: Field, name: Field) returns (rc: bv64)
    ensures rc == HashOf(Key(CStr(qm), CStr(name)))
  {
    rc := FoldField(5381, qm);
    rc := FoldField(rc, name);
  }

  method FoldField(start: bv64, f: Field) returns (rc: bv64)
    ensures rc == Fold(start, CStr(f))
  {
    rc := start;
    var i := 0;
    while i < LENGTH && f[i] != 0
      invariant 0 <= i <= LENGTH
      invariant Fold(rc, CStr(f[i..])) == Fold(start, CStr(f))
    {
      FoldStep(rc, f[i..]);
      assert f[i..][1..] == f[i + 1..];
      rc := Mix(rc, f[i]);
      i := i + 1;
    }
  }

  lemma FoldStep(rc: bv64, f: seq<bv8>)
    requires f != [] && f[0] != 0
    ensures Fold(rc, CStr(f)) == Fold(Mix(rc, f[0]), CStr(f[1..]))
  {
    hide Mix;
    assert CStr(f)[1..] == CStr(f[1..]);
  }

  predicate Equal(qm: Field, name: Field, qm': Field, name': Field) {
    SameString(qm, qm') && SameString(name, name')
  }

  /** Equal queues are those with the same two names. */
  lemma EqualMeansSameKey(qm: Field, name: Field, qm': Field, name': Field)
    ensures Equal(qm, name, qm', name') <==> Key(CStr(qm), CStr(name)) == Key(CStr(qm'), CStr(name'))
  {
    SameStringIffEqual(qm, qm');
    SameStringIffEqual(name, name');
  }

  /** Equal queues have the same hash, whatever follows the nulls of their names. */
  lemma EqualMeansSameHash(qm: Field, name: Field, qm': Field, name': Field)
    ensures Equal(qm, name, qm', name') ==> HashOf(Key(CStr(qm), CStr(name))) == HashOf(Key(CStr(qm'), CStr(name')))
  {
    hide Fold;
    EqualMeansSameKey(qm, name, qm', name');
  }

  /** What one more character makes of a hash: 33 times it, changed by the character, which is signed. */
  function Next(h: bv64, c: bv8): bv64 {
    Times33(h) ^ Signed(c)
  }

  function Times33(h: bv64): bv64 { h * 33 }

  function Signed(c: bv8): bv64 {
    if c < 128 then c as bv64 else 0xFFFF_FFFF_FFFF_FF00 + c as bv64
  }

  lemma ShiftIsTimes(h: bv64)
    ensures (h << 5) + h == Times33(h)
  {
  }

  lemma WidenedIsSigned(c: bv8)
    ensures Widened(c) == Signed(c)
  {
  }

  lemma MixIsNext(h: bv64, c: bv8)
    ensures Mix(h, c) == Next(h, c)
  {
    hide Widened, Signed, Times33;
    ShiftIsTimes(h);
    WidenedIsSigned(c);
  }

  lemma {:induction false} FoldNext(rc: bv64, s: seq<bv8>, c: bv8)
    ensures Fold(rc, s + [c]) == Next(Fold(rc, s), c)
    decreases |s|
  {
    hide Mix, Next;
    if s == [] {
      assert (s + [c])[1..] == [];
      MixIsNext(rc, c);
    } else {
      FoldNext(Mix(rc, s[0]), s[1..], c);
      assert (s + [c])[0] == s[0] && (s + [c])[1..] == s[1..] + [c];
    }
  }

  /** The hash of a queue starts from a fixed number, and goes on from its queue manager name to its name. */
  lemma HashGrows(qm: seq<bv8>, name: seq<bv8>, c: bv8)
    ensures HashOf(Key([], [])) == 5381 && HashOf(Key(qm, name)) == HashOf(Key([], qm + name))
    ensures HashOf(Key(qm, name + [c])) == Next(HashOf(Key(qm, name)), c)
  {
    hide Mix, Next;
    HashRunsTogether(5381, qm, name);
    FoldNext(Fold(5381, qm), name, c);
  }

  /** Names that run together alike have the same hash, so the equality test is not redundant. */
  lemma {:induction false} HashRunsTogether(rc: bv64, a: seq<bv8>, b: seq<bv8>)
    ensures Fold(Fold(rc, a), b) == Fold(rc, a + b)
    decreases |a|
  {
    hide Mix;
    if a == [] {
      assert a + b == b;
    } else {
      HashRunsTogether(Mix(rc, a[0]), a[1..], b);
      assert (a + b)[0] == a[0] && (a + b)[1..] == a[1..] + b;
    }
  }
}
