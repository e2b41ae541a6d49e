/**
 Setting up a cache of misaka/lib/kmem.c in memory: `init_kmem_cache` and `init_obj`.
 */
module SlabInit {
  import opened SlabLayout
  import opened SlabMemory
  import opened SlabModel
  import opened Slab

  // ----- the cache's header -----

  /** The stores of `init_kmem_cache` to the counters. */
  function WithCounters(m: Memory, base: nat, memSize: nat, tots: nat): Memory
  {
    Put(Put(Put(Put(m, base + MEM_SIZE, INT, memSize), base + TOTS, INT, tots), base + FREE, INT, tots), base + USED, INT, 0)
  }

  lemma LastStored(m: Memory, base: nat, p: nat, v: nat, q: nat, w: nat)
    requires base + CACHE_SIZE <= |m| && MEM_SIZE <= p <= FREE_OBJS - INT && v < 0x8000_0000
    requires Get(m, base + q, INT) == w && (q + INT <= p || p + INT <= q)
    ensures Get(Put(m, base + p, INT, v), base + q, INT) == w
    ensures Get(Put(m, base + p, INT, v), base + p, INT) == v
    ensures Outside(m, Put(m, base + p, INT, v), base + MEM_SIZE, base + FREE_OBJS)
  {
    PutOutside(m, base + p, INT, v);
    GetPut(m, base + p, INT, v);
    GetPutOther(m, base + p, INT, v, base + q, INT);
  }

  lemma CountersStored(c: Cache, m: Memory)
    requires Fitting(c, m) && c.memSize < 0x8000_0000
    ensures var m' := WithCounters(m, c.base, c.memSize, c.tots);
      Counters(c, 0, c.tots, m') && Outside(m, m', c.base + MEM_SIZE, c.base + FREE_OBJS)
  {
    TotsSmall(c, m);
    var m1 := Put(m, c.base + MEM_SIZE, INT, c.memSize);
    var m2 := Put(m1, c.base + TOTS, INT, c.tots);
    var m3 := Put(m2, c.base + FREE, INT, c.tots);
    LastStored(m, c.base, MEM_SIZE, c.memSize, TOTS, Get(m, c.base + TOTS, INT));
    LastStored(m1, c.base, TOTS, c.tots, MEM_SIZE, c.memSize);
    LastStored(m2, c.base, FREE, c.tots, MEM_SIZE, c.memSize);
    LastStored(m2, c.base, FREE, c.tots, TOTS, c.tots);
    LastStored(m3, c.base, USED, 0, MEM_SIZE, c.memSize);
    LastStored(m3, c.base, USED, 0, TOTS, c.tots);
    LastStored(m3, c.base, USED, 0, FREE, c.tots);
  }

  // ----- buffers that nobody has written to -----

  /** A byte of the buffer of object `j`. */
  predicate InBuffer(c: Cache, j: nat, q: int)
  {
    BufAddr(c, j) <= q < BufAddr(c, j) + c.memSize
  }

  ghost predicate AllZero(c: Cache, m: Memory)
  {
    forall j: nat, q: nat :: j < c.tots && InBuffer(c, j, q) && q < |m| ==> m[q] == 0
  }

  /** The memories in which all buffers of a cache are zero. */
  ghost function Blank(c: Cache): iset<Memory>
  {
    iset m: Memory | AllZero(c, m)
  }

  lemma HeaderBlank(c: Cache, m: Memory, m': Memory)
    requires Roomy(c) && m in Blank(c) && Outside(m, m', c.base, c.base + CACHE_SIZE)
    ensures m' in Blank(c)
  {
    forall j: nat, q: nat | j < c.tots && InBuffer(c, j, q) && q < |m'| ensures m'[q] == 0 {
      ObjectInside(c, j);
    }
  }

  lemma LinksBlank(c: Cache, m: Memory, m': Memory)
    requires Roomy(c) && m in Blank(c) && OnlyLinks(m, m', Sites(c))
    ensures m' in Blank(c)
  {
    forall j: nat, q: nat | j < c.tots && InBuffer(c, j, q) && q < |m'| ensures m'[q] == 0 {
      BodyNotLink(c, j, q);
    }
  }

  // ----- a cache in the making -----

  /** Its counters, and its first `n` objects set up and free. */
  ghost predicate Kept(c: Cache, n: nat, m: Memory)
  {
    && Fitting(c, m) && Counters(c, 0, c.tots, m)
    && RingIn(m, Sites(c), Head(c), Addrs(c, Countdown(n))) && ObjsOk(c, n, m)
  }

  /** The same, since the memory was `m0`; no buffer has been written to. */
  ghost predicate Made(c: Cache, n: nat, m0: Memory, m: Memory)
  {
    Kept(c, n, m) && Outside(m0, m, c.base, End(c)) && (m0 in Blank(c) ==> m in Blank(c))
  }

  ghost function Makings(c: Cache, n: nat, m0: Memory): iset<Memory>
  {
    iset m: Memory | Made(c, n, m0, m)
  }

  lemma ThreeSteps(m0: Memory, m: Memory, m1: Memory, m2: Memory, lo: nat, mid: nat, hi: nat)
    requires Outside(m0, m, lo, hi) && Outside(m, m1, lo, mid) && Outside(m1, m2, lo, hi) && mid <= hi
    ensures Outside(m0, m2, lo, hi)
  {
  }

  /** The header is ready and there is no object yet. */
  lemma MadeNone(c: Cache, m0: Memory, m: Memory)
    requires Fitting(c, m) && c.memSize < 0x8000_0000 && Outside(m0, m, c.base, c.base + CACHE_SIZE)
    ensures WithHead(WithCounters(m, c.base, c.memSize, c.tots), Head(c)) in Makings(c, 0, m0)
  {
    var m1 := WithCounters(m, c.base, c.memSize, c.tots);
    CountersStored(c, m);
    HeadStored(c, m1);
    HeaderInside(c);
    HeaderMade(c, m0, m, m1, WithHead(m1, Head(c)));
    if m0 in Blank(c) {
      HeaderBlank(c, m0, m);
      HeaderBlank(c, m, m1);
      HeadOnlyLinks(m1, m1, Sites(c), Head(c));
      LinksBlank(c, m1, WithHead(m1, Head(c)));
    }
  }

  lemma HeaderMade(c: Cache, m0: Memory, m: Memory, m1: Memory, m2: Memory)
    requires Fitting(c, m) && Kept(c, 0, m2)
    requires Outside(m0, m, c.base, End(c)) && Outside(m, m1, c.base, c.base + FREE_OBJS) && Outside(m1, m2, c.base, End(c))
    ensures Outside(m0, m2, c.base, End(c))
  {
    HeaderInside(c);
    ThreeSteps(m0, m, m1, m2, c.base, c.base + FREE_OBJS, End(c));
  }

  lemma HeadStored(c: Cache, m: Memory)
    requires Fitting(c, m) && Counters(c, 0, c.tots, m)
    ensures var m' := WithHead(m, Head(c)); Kept(c, 0, m') && Outside(m, m', c.base, End(c))
  {
    SitesApart(c, m);
    RingStarted(m, Sites(c), Head(c));
    HeadOnlyLinks(m, m, Sites(c), Head(c));
    CountersAside(c, m, WithHead(m, Head(c)), 0, c.tots);
    LinksQuiet(c, m, WithHead(m, Head(c)));
    assert Addrs(c, Countdown(0)) == [];
  }

  // ----- one object -----

  /** The guards and the pointer that `init_obj` stores. */
  function Sealed(m: Memory, index: nat, memSize: nat): Memory
  {
    Splice(Put(Splice(m, index + OBJ_SIZE, [GUARD]), index + BUF, PTR, index + OBJ_SIZE + 1),
      index + OBJ_SIZE + 1 + memSize, [GUARD])
  }

  /** Only bytes of an object behind its list head changed. */
  ghost predicate OnlyBody(c: Cache, j: nat, m: Memory, m': Memory)
  {
    |m'| == |m| && forall q :: 0 <= q < |m| && !InBody(c, j, q) ==> m'[q] == m[q]
  }

  lemma SealedBody(c: Cache, j: nat, m: Memory)
    requires Fitting(c, m) && j < c.tots
    ensures OnlyBody(c, j, m, Sealed(m, ObjAddr(c, j), c.memSize))
  {
    var index := ObjAddr(c, j);
    var m1 := Splice(m, index + OBJ_SIZE, [GUARD]);
    var m2 := Put(m1, index + BUF, PTR, index + OBJ_SIZE + 1);
    SpliceOutside(m, index + OBJ_SIZE, [GUARD]);
    PutOutside(m1, index + BUF, PTR, index + OBJ_SIZE + 1);
    SpliceOutside(m2, index + OBJ_SIZE + 1 + c.memSize, [GUARD]);
  }

  lemma SealedBlank(c: Cache, j: nat, m: Memory)
    requires Fitting(c, m) && j < c.tots && m in Blank(c)
    ensures Sealed(m, ObjAddr(c, j), c.memSize) in Blank(c)
  {
    var index := ObjAddr(c, j);
    var m1 := Splice(m, index + OBJ_SIZE, [GUARD]);
    var m2 := Put(m1, index + BUF, PTR, index + OBJ_SIZE + 1);
    SpliceOutside(m, index + OBJ_SIZE, [GUARD]);
    PutOutside(m1, index + BUF, PTR, index + OBJ_SIZE + 1);
    SpliceOutside(m2, index + OBJ_SIZE + 1 + c.memSize, [GUARD]);
    SealedBody(c, j, m);
    forall i: nat, q: nat | i < c.tots && InBuffer(c, i, q) && q < |m| ensures Sealed(m, index, c.memSize)[q] == 0 {
      if i != j {
        BodiesApart(c, i, j);
        assert InBody(c, i, q);
      }
    }
  }

  lemma ByteStored(m: Memory, p: nat, b: Byte)
    requires p < |m|
    ensures Splice(m, p, [b])[p] == b
  {
    SpliceReads(m, p, [b]);
    assert Splice(m, p, [b])[p] == Splice(m, p, [b])[p..p + 1][0];
  }

  lemma SealedOk(c: Cache, j: nat, m: Memory)
    requires Fitting(c, m) && j < c.tots
    ensures ObjOk(c, j, Sealed(m, ObjAddr(c, j), c.memSize))
  {
    var index := ObjAddr(c, j);
    ObjectInside(c, j);
    var m1 := Splice(m, index + OBJ_SIZE, [GUARD]);
    var m2 := Put(m1, index + BUF, PTR, index + OBJ_SIZE + 1);
    var m3 := Splice(m2, index + OBJ_SIZE + 1 + c.memSize, [GUARD]);
    ByteStored(m, index + OBJ_SIZE, GUARD);
    PutOutside(m1, index + BUF, PTR, index + OBJ_SIZE + 1);
    GetPut(m1, index + BUF, PTR, index + OBJ_SIZE + 1);
    SpliceOutside(m2, index + OBJ_SIZE + 1 + c.memSize, [GUARD]);
    ByteStored(m2, index + OBJ_SIZE + 1 + c.memSize, GUARD);
    GetOutside(m2, m3, index + OBJ_SIZE + 1 + c.memSize, index + OBJ_SIZE + 2 + c.memSize, index + BUF, PTR);
  }

  /** A change of bytes of one object behind its list head spares counters, rings and other objects. */
  lemma OnlyBodySpares(c: Cache, j: nat, m: Memory, m': Memory)
    requires Fitting(c, m) && j < c.tots && OnlyBody(c, j, m, m')
    ensures Outside(m, m', c.base + CACHE_SIZE, End(c))
    ensures forall p, q :: p in Sites(c) && p <= q < p + LINK_SIZE && q < |m| ==> m'[q] == m[q]
    ensures forall i: nat :: i < c.tots && i != j ==> BodySame(c, i, m, m')
  {
    forall q | 0 <= q < |m| && (q < c.base + CACHE_SIZE || End(c) <= q) ensures m'[q] == m[q] {
      ObjectInside(c, j);
    }
    forall p, q | p in Sites(c) && p <= q < p + LINK_SIZE && q < |m| ensures m'[q] == m[q] {
      if InBody(c, j, q) {
        BodyNotLink(c, j, q);
      }
    }
    forall i: nat | i < c.tots && i != j ensures BodySame(c, i, m, m') {
      BodiesApart(c, i, j);
    }
  }

  lemma BodiesApart(c: Cache, i: nat, j: nat)
    requires Roomy(c) && i != j
    ensures forall q :: InBody(c, i, q) ==> !InBody(c, j, q)
  {
    if i < j {
      ObjectsApart(c, i, j);
    } else {
      ObjectsApart(c, j, i);
    }
  }

  // ----- one object more -----

  /** The object is in no ring yet. */
  lemma NotLinkedYet(c: Cache, n: nat, p: nat)
    requires Roomy(c) && n < c.tots && (p == Head(c) || p in Addrs(c, Countdown(n)))
    ensures p in Sites(c) && p != ObjAddr(c, n)
  {
    if p == Head(c) {
      ObjectInside(c, n);
    } else {
      AddrsDiffer(c, Countdown(n), n);
    }
  }

  lemma BegunRing(c: Cache, n: nat, m: Memory)
    requires n < c.tots && Kept(c, n, m)
    ensures RingIn(WithHead(m, ObjAddr(c, n)), Sites(c), Head(c), Addrs(c, Countdown(n)))
  {
    var index := ObjAddr(c, n);
    var m1 := Put(m, index, PTR, index);
    forall p | p == Head(c) || p in Addrs(c, Countdown(n))
      ensures Get(WithHead(m, index), p, PTR) == Get(m, p, PTR)
      ensures Get(WithHead(m, index), p + PREV, PTR) == Get(m, p + PREV, PTR)
    {
      NotLinkedYet(c, n, p);
      HeadElsewhere(c, m, index, p);
    }
    RingUnread(m, WithHead(m, index), Sites(c), Head(c), Addrs(c, Countdown(n)));
  }

  lemma HeadElsewhere(c: Cache, m: Memory, index: nat, p: nat)
    requires Roomy(c) && index in Sites(c) && p in Sites(c) && p != index
    ensures Get(WithHead(m, index), p, PTR) == Get(m, p, PTR)
    ensures Get(WithHead(m, index), p + PREV, PTR) == Get(m, p + PREV, PTR)
  {
    if p < index {
      SitesDiffer(c, p, index);
    } else {
      SitesDiffer(c, index, p);
    }
    var m1 := Put(m, index, PTR, index);
    GetPutOther(m, index, PTR, index, p, PTR);
    GetPutOther(m, index, PTR, index, p + PREV, PTR);
    GetPutOther(m1, index + PREV, PTR, index, p, PTR);
    GetPutOther(m1, index + PREV, PTR, index, p + PREV, PTR);
  }

  /** The new object's list head initialised. */
  lemma BegunKept(c: Cache, n: nat, m: Memory)
    requires n < c.tots && Kept(c, n, m)
    ensures Kept(c, n, WithHead(m, ObjAddr(c, n))) && Outside(m, WithHead(m, ObjAddr(c, n)), c.base, End(c))
  {
    var m' := WithHead(m, ObjAddr(c, n));
    BegunRing(c, n, m);
    HeadOnlyLinks(m, m, Sites(c), ObjAddr(c, n));
    LinksKeep(c, n, m, m');
  }

  lemma LinksKeep(c: Cache, n: nat, m: Memory, m': Memory)
    requires n <= c.tots && Fitting(c, m) && Counters(c, 0, c.tots, m) && ObjsOk(c, n, m) && OnlyLinks(m, m', Sites(c))
    ensures Counters(c, 0, c.tots, m') && ObjsOk(c, n, m') && Outside(m, m', c.base, End(c))
  {
    LinksQuiet(c, m, m');
    CountersAside(c, m, m', 0, c.tots);
    forall j: nat | j < n ensures ObjOk(c, j, m') {
      ObjSame(c, j, m, m');
    }
  }

  /** Its guards and its pointer stored. */
  lemma SealedKept(c: Cache, n: nat, m: Memory)
    requires n < c.tots && Kept(c, n, m)
    ensures var m' := Sealed(m, ObjAddr(c, n), c.memSize);
      Kept(c, n, m') && ObjsOk(c, n + 1, m') && Outside(m, m', c.base, End(c))
  {
    var m' := Sealed(m, ObjAddr(c, n), c.memSize);
    SealedBody(c, n, m);
    SealedOk(c, n, m);
    BodyKeeps(c, n, m, m');
  }

  lemma BodyKeeps(c: Cache, n: nat, m: Memory, m': Memory)
    requires n < c.tots && Kept(c, n, m) && OnlyBody(c, n, m, m') && ObjOk(c, n, m')
    ensures Kept(c, n, m') && ObjsOk(c, n + 1, m') && Outside(m, m', c.base, End(c))
  {
    OnlyBodySpares(c, n, m, m');
    CountersSame(c, 0, c.tots, m, m');
    RingSame(m, m', Sites(c), Head(c), Addrs(c, Countdown(n)));
    forall j: nat | j < n ensures ObjOk(c, j, m') {
      ObjSame(c, j, m, m');
    }
  }

  /** The object linked in front of the others. */
  lemma LinkedKept(c: Cache, n: nat, m: Memory)
    requires n < c.tots && Kept(c, n, m) && ObjsOk(c, n + 1, m)
    ensures var m' := WithEntry(m, ObjAddr(c, n), Head(c));
      Kept(c, n + 1, m') && Outside(m, m', c.base, End(c))
  {
    var nodes, entry := Addrs(c, Countdown(n)), ObjAddr(c, n);
    SitesApart(c, m);
    NotLinkedYet(c, n, Head(c));
    AddrsDiffer(c, Countdown(n), n);
    RingGrown(m, Sites(c), Head(c), nodes, entry);
    assert Addrs(c, Countdown(n + 1)) == [entry] + nodes;
    LinksKeep(c, n + 1, m, WithEntry(m, entry, Head(c)));
  }

  /** `init_obj` */
  function WithObj(m: Memory, index: nat, memSize: nat): Memory
  {
    Sealed(WithHead(m, index), index, memSize)
  }

  lemma ObjKept(c: Cache, n: nat, m: Memory)
    requires n < c.tots && Kept(c, n, m)
    ensures var m' := WithObj(m, ObjAddr(c, n), c.memSize);
      Kept(c, n, m') && ObjsOk(c, n + 1, m') && Outside(m, m', c.base, End(c))
  {
    BegunKept(c, n, m);
    SealedKept(c, n, WithHead(m, ObjAddr(c, n)));
  }

  /** One turn of the loop of `init_kmem_cache`. */
  lemma MadeOneMore(c: Cache, n: nat, m0: Memory, m: Memory)
    requires n < c.tots && m in Makings(c, n, m0)
    ensures WithEntry(WithObj(m, ObjAddr(c, n), c.memSize), ObjAddr(c, n), Head(c)) in Makings(c, n + 1, m0)
  {
    ObjKept(c, n, m);
    LinkedKept(c, n, WithObj(m, ObjAddr(c, n), c.memSize));
    if m0 in Blank(c) {
      ObjBlank(c, n, m);
      LinkedBlank(c, n, WithObj(m, ObjAddr(c, n), c.memSize));
    }
  }

  lemma ObjBlank(c: Cache, n: nat, m: Memory)
    requires n < c.tots && Kept(c, n, m) && m in Blank(c)
    ensures WithObj(m, ObjAddr(c, n), c.memSize) in Blank(c)
  {
    HeadOnlyLinks(m, m, Sites(c), ObjAddr(c, n));
    LinksBlank(c, m, WithHead(m, ObjAddr(c, n)));
    SealedBlank(c, n, WithHead(m, ObjAddr(c, n)));
  }

  lemma LinkedBlank(c: Cache, n: nat, m: Memory)
    requires n < c.tots && Kept(c, n, m) && m in Blank(c)
    ensures WithEntry(m, ObjAddr(c, n), Head(c)) in Blank(c)
  {
    SitesApart(c, m);
    NotLinkedYet(c, n, Head(c));
    AddrsDiffer(c, Countdown(n), n);
    RingGrown(m, Sites(c), Head(c), Addrs(c, Countdown(n)), ObjAddr(c, n));
    LinksBlank(c, m, WithEntry(m, ObjAddr(c, n), Head(c)));
  }

  lemma KeptInside(c: Cache, n: nat, m: Memory)
    requires n < c.tots && Kept(c, n, m)
    ensures ObjAddr(c, n) + OBJ_SIZE + c.memSize + 2 <= |m| && Head(c) + LINK_SIZE <= |m|
    ensures Get(m, Head(c), PTR) + LINK_SIZE <= |m|
  {
    ObjectInside(c, n);
    RingHop(m, Sites(c), Head(c), Addrs(c, Countdown(n)), 0);
    SiteInside(c, Get(m, Head(c), PTR));
  }

  lemma NextObj(c: Cache, n: nat)
    ensures ObjAddr(c, n + 1) == ObjAddr(c, n) + c.stride
  {
  }

  /** All objects set up: the cache is in order. */
  lemma MadeAll(c: Cache, m0: Memory, m: Memory)
    requires c.free == Countdown(c.tots) && m in Makings(c, c.tots, m0)
    ensures c in Caches(m) && Outside(m0, m, c.base, End(c)) && (m0 in Blank(c) ==> m in Blank(c))
  {
    assert Stocked(c) && |c.free| == c.tots;
  }

  // ----- names -----

  const NAME: nat := 40

  /** The bytes of a C string: up to the first zero. */
  function Text(name: seq<Byte>): (t: seq<Byte>)
    ensures t <= name && 0 !in t && (|t| < |name| ==> name[|t|] == 0)
  {
    if name == [] || name[0] == 0 then [] else [name[0]] + Text(name[1..])
  }

  /** What `strncpy` stores: the text, cut off or filled up with zeroes to one byte less than its room. */
  function NameBytes(name: seq<Byte>): (s: seq<Byte>)
    ensures |s| == NAME - 1
  {
    var t := Text(name);
    if |t| >= NAME - 1 then t[..NAME - 1] else t + seq(NAME - 1 - |t|, _ => 0)
  }

  /** A cache whose first 39 bytes are the text, cut off or filled up with zeroes, and whose next byte is `last`. */
  ghost predicate NameAt(c: Cache, name: seq<Byte>, last: Byte, m: Memory)
  {
    && c.base + 40 <= |m| && m[c.base + 39] == last
    && forall k :: 0 <= k < 39 ==> m[c.base + k] == if k < |Text(name)| then name[k] else 0
  }

  ghost function Named(c: Cache, name: seq<Byte>, last: Byte): iset<Memory>
  {
    iset m: Memory | NameAt(c, name, last, m)
  }

  /** Nothing else is stored in the first bytes of a cache. */
  lemma NameKept(c: Cache, name: seq<Byte>, last: Byte, m: Memory, m': Memory)
    requires m in Named(c, name, last) && |m'| == |m|
    requires forall q :: c.base <= q < c.base + MEM_SIZE && q < |m| ==> m'[q] == m[q]
    ensures m' in Named(c, name, last)
  {
  }

  lemma NameByte(name: seq<Byte>, k: nat)
    requires k < NAME - 1
    ensures NameBytes(name)[k] == if k < |Text(name)| then name[k] else 0
  {
  }

  lemma SpliceAt(m: Memory, p: nat, s: seq<Byte>, k: nat)
    requires p + |s| <= |m| && k < |s|
    ensures Splice(m, p, s)[p + k] == s[k]
  {
    SpliceReads(m, p, s);
    assert Splice(m, p, s)[p + k] == Splice(m, p, s)[p..p + |s|][k];
  }

  lemma NameStored(c: Cache, name: seq<Byte>, m: Memory, s: seq<Byte>, m': Memory)
    requires c.base + NAME <= |m| && |s| == NAME - 1 && m' == Splice(m, c.base, s)
    requires forall k :: 0 <= k < |s| ==> s[k] == if k < |Text(name)| then name[k] else 0
    ensures m' in Named(c, name, m[c.base + NAME - 1])
  {
    SpliceOutside(m, c.base, s);
    forall k: nat | k < |s| ensures m'[c.base + k] == s[k] {
      SpliceAt(m, c.base, s, k);
    }
  }

  lemma NameWritten(c: Cache, name: seq<Byte>, m: Memory, m': Memory)
    requires c.base + NAME <= |m| && m' == Splice(m, c.base, NameBytes(name))
    ensures m' in Named(c, name, m[c.base + NAME - 1])
  {
    var s := NameBytes(name);
    forall k: nat | k < |s| ensures s[k] == if k < |Text(name)| then name[k] else 0 {
      NameByte(name, k);
    }
    NameStored(c, name, m, s, m');
  }

  lemma HeaderNamed(c: Cache, name: seq<Byte>, last: Byte, m: Memory)
    requires Fitting(c, m) && c.memSize < 0x8000_0000 && m in Named(c, name, last)
    ensures WithHead(WithCounters(m, c.base, c.memSize, c.tots), Head(c)) in Named(c, name, last)
  {
    var m1 := WithCounters(m, c.base, c.memSize, c.tots);
    CountersStored(c, m);
    NameKept(c, name, last, m, m1);
    HeadOnlyLinks(m1, m1, Sites(c), Head(c));
    LinksNamed(c, name, last, m1, WithHead(m1, Head(c)));
  }

  lemma LinksNamed(c: Cache, name: seq<Byte>, last: Byte, m: Memory, m': Memory)
    requires Roomy(c) && m in Named(c, name, last) && OnlyLinks(m, m', Sites(c))
    ensures m' in Named(c, name, last)
  {
    forall q | c.base <= q < c.base + MEM_SIZE && q < |m| ensures m'[q] == m[q] {
      RestNotLink(c, q);
    }
    NameKept(c, name, last, m, m');
  }

  lemma BodyNamed(c: Cache, name: seq<Byte>, last: Byte, j: nat, m: Memory, m': Memory)
    requires Roomy(c) && j < c.tots && m in Named(c, name, last) && OnlyBody(c, j, m, m')
    ensures m' in Named(c, name, last)
  {
    ObjectInside(c, j);
    NameKept(c, name, last, m, m');
  }

  lemma NamedOneMore(c: Cache, n: nat, m0: Memory, m: Memory, name: seq<Byte>, last: Byte)
    requires n < c.tots && m in Makings(c, n, m0) && m in Named(c, name, last)
    ensures WithEntry(WithObj(m, ObjAddr(c, n), c.memSize), ObjAddr(c, n), Head(c)) in Named(c, name, last)
  {
    var m1, m2 := WithHead(m, ObjAddr(c, n)), WithObj(m, ObjAddr(c, n), c.memSize);
    HeadOnlyLinks(m, m, Sites(c), ObjAddr(c, n));
    LinksNamed(c, name, last, m, m1);
    SealedBody(c, n, m1);
    BodyNamed(c, name, last, n, m1, m2);
    ObjKept(c, n, m);
    EntryNamed(c, name, last, n, m2);
  }

  lemma EntryNamed(c: Cache, name: seq<Byte>, last: Byte, n: nat, m: Memory)
    requires n < c.tots && Kept(c, n, m) && m in Named(c, name, last)
    ensures WithEntry(m, ObjAddr(c, n), Head(c)) in Named(c, name, last)
  {
    SitesApart(c, m);
    NotLinkedYet(c, n, Head(c));
    AddrsDiffer(c, Countdown(n), n);
    RingGrown(m, Sites(c), Head(c), Addrs(c, Countdown(n)), ObjAddr(c, n));
    LinksNamed(c, name, last, m, WithEntry(m, ObjAddr(c, n), Head(c)));
  }

  lemma ObjAdded(c: Cache, n: nat, m0: Memory, m: Memory, name: seq<Byte>, last: Byte)
    requires n < c.tots && m in Makings(c, n, m0) && m in Named(c, name, last)
    ensures var m' := WithEntry(WithObj(m, ObjAddr(c, n), c.memSize), ObjAddr(c, n), Head(c));
      m' in Makings(c, n + 1, m0) && m' in Named(c, name, last)
    ensures Kept(c, n, m) && Kept(c, n, WithObj(m, ObjAddr(c, n), c.memSize))
  {
    ObjKept(c, n, m);
    MadeOneMore(c, n, m0, m);
    NamedOneMore(c, n, m0, m, name, last);
  }
}
