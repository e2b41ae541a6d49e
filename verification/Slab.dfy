/**
 What the arena of misaka/lib/kmem.c holds, byte by byte: every cache's counters, list heads,
 `buf` pointers and guards, at the addresses the layout gives them.
 */
module Slab {
  import opened SlabLayout
  import opened SlabList
  import opened SlabMemory
  import opened SlabModel

  const GUARD: Byte := 0xff

  // offsets of the fields of `struct kmem_cache` and `struct obj`
  const MEM_SIZE: nat := 40
  const TOTS: nat := 44
  const USED: nat := 48
  const FREE: nat := 52
  const BUF: nat := 16

  function Head(c: Cache): nat
  {
    c.base + FREE_OBJS
  }

  function Addrs(c: Cache, free: seq<nat>): (s: seq<nat>)
    ensures |s| == |free| && forall k :: 0 <= k < |s| ==> s[k] == ObjAddr(c, free[k])
  {
    seq(|free|, k requires 0 <= k < |free| => ObjAddr(c, free[k]))
  }

  /** The addresses of a cache's list heads: that of its free list, and one in every object. */
  function Sites(c: Cache): (s: set<nat>)
    ensures Head(c) in s && forall j: nat :: j < c.tots ==> ObjAddr(c, j) in s
  {
    {Head(c)} + set j: nat | j < c.tots :: ObjAddr(c, j)
  }

  /** What `init_obj` sets up in an object besides its list head. */
  predicate ObjOk(c: Cache, j: nat, m: Memory)
  {
    && Get(m, ObjAddr(c, j) + BUF, PTR) == BufAddr(c, j)
    && BufAddr(c, j) + c.memSize < |m|
    && m[ObjAddr(c, j) + OBJ_SIZE] == GUARD && m[BufAddr(c, j) + c.memSize] == GUARD
  }

  ghost predicate ObjsOk(c: Cache, n: nat, m: Memory)
  {
    forall j: nat :: j < n ==> ObjOk(c, j, m)
  }

  predicate Counters(c: Cache, used: int, free: int, m: Memory)
  {
    && Get(m, c.base + MEM_SIZE, INT) == c.memSize && Get(m, c.base + TOTS, INT) == c.tots
    && Get(m, c.base + USED, INT) == used && Get(m, c.base + FREE, INT) == free
  }

  ghost predicate Fitting(c: Cache, m: Memory)
  {
    Roomy(c) && End(c) <= |m| < 0x8000_0000
  }

  /** A cache as the arena holds it: counters, ring of free objects, and every object's pointer and guards. */
  ghost predicate CacheOk(c: Cache, m: Memory)
  {
    && Fitting(c, m) && Stocked(c) && |c.free| <= c.tots
    && Counters(c, c.tots - |c.free|, |c.free|, m)
    && RingIn(m, Sites(c), Head(c), Addrs(c, c.free))
    && ObjsOk(c, c.tots, m)
  }

  /** The caches that these bytes hold. */
  ghost function Caches(m: Memory): iset<Cache>
  {
    iset c: Cache | CacheOk(c, m)
  }

  // ----- the parts of a cache do not overlap -----

  lemma SiteWhere(c: Cache, p: nat) returns (j: int)
    requires p in Sites(c)
    ensures if j < 0 then p == Head(c) else j < c.tots && p == ObjAddr(c, j)
  {
    j := -1;
    if p != Head(c) {
      j :| 0 <= j < c.tots && p == ObjAddr(c, j);
    }
  }

  /** A list head lies in the cache's header or in an object's. */
  lemma SiteInside(c: Cache, p: nat)
    requires Roomy(c) && p in Sites(c)
    ensures c.base + FREE_OBJS <= p && p + LINK_SIZE <= End(c)
  {
    var j := SiteWhere(c, p);
    if j >= 0 {
      ObjectInside(c, j);
    }
  }

  lemma SitesDiffer(c: Cache, p: nat, q: nat)
    requires Roomy(c) && p in Sites(c) && q in Sites(c) && p < q
    ensures p + LINK_SIZE <= q
  {
    var i := SiteWhere(c, p);
    var j := SiteWhere(c, q);
    if j < 0 {
      ObjectInside(c, i);
    } else if i < 0 {
      ObjectInside(c, j);
    } else if i < j {
      ObjectsApart(c, i, j);
    } else if j < i {
      ObjectsApart(c, j, i);
    }
  }

  lemma SitesApart(c: Cache, m: Memory)
    requires Fitting(c, m)
    ensures Apart(m, Sites(c))
  {
    forall p | p in Sites(c) ensures p + LINK_SIZE <= |m| {
      SiteInside(c, p);
    }
    forall p, q | p in Sites(c) && q in Sites(c) && p < q ensures p + LINK_SIZE <= q {
      SitesDiffer(c, p, q);
    }
  }

  /** A byte of an object behind its list head: of its pointer, guards or buffer. */
  predicate InBody(c: Cache, j: nat, q: int)
  {
    ObjAddr(c, j) + BUF <= q < ObjAddr(c, j) + OBJ_SIZE + c.memSize + 2
  }

  lemma BodyNotLink(c: Cache, j: nat, q: int)
    requires Roomy(c) && j < c.tots && InBody(c, j, q)
    ensures !InLinks(Sites(c), q) && c.base + CACHE_SIZE <= q < End(c)
  {
    ObjectInside(c, j);
    forall p | p in Sites(c) ensures !(p <= q < p + LINK_SIZE) {
      var i := SiteWhere(c, p);
      if i >= 0 && i < j {
        ObjectsApart(c, i, j);
      } else if i > j {
        ObjectsApart(c, j, i);
      }
    }
  }

  lemma RestNotLink(c: Cache, q: int)
    requires Roomy(c) && (q < c.base + FREE_OBJS || End(c) <= q)
    ensures !InLinks(Sites(c), q)
  {
    forall p | p in Sites(c) ensures !(p <= q < p + LINK_SIZE) {
      SiteInside(c, p);
    }
  }

  // ----- changes that a cache survives -----

  ghost predicate BodySame(c: Cache, j: nat, m: Memory, m': Memory)
  {
    forall q :: InBody(c, j, q) && 0 <= q < |m| && q < |m'| ==> m'[q] == m[q]
  }

  lemma ObjSame(c: Cache, j: nat, m: Memory, m': Memory)
    requires Roomy(c) && ObjOk(c, j, m) && |m'| == |m| && BodySame(c, j, m, m')
    ensures ObjOk(c, j, m')
  {
    GetSame(m, m', ObjAddr(c, j) + BUF, PTR);
    assert InBody(c, j, ObjAddr(c, j) + OBJ_SIZE) && InBody(c, j, BufAddr(c, j) + c.memSize);
  }

  lemma CountersSame(c: Cache, used: int, free: int, m: Memory, m': Memory)
    requires Counters(c, used, free, m) && |m'| == |m|
    requires forall q :: c.base + MEM_SIZE <= q < c.base + FREE_OBJS && q < |m| ==> m'[q] == m[q]
    ensures Counters(c, used, free, m')
  {
    GetSame(m, m', c.base + MEM_SIZE, INT);
    GetSame(m, m', c.base + TOTS, INT);
    GetSame(m, m', c.base + USED, INT);
    GetSame(m, m', c.base + FREE, INT);
  }

  /** Only the cache changed, and no pointer, guard or buffer of its objects. */
  ghost predicate Quiet(c: Cache, m: Memory, m': Memory)
  {
    Outside(m, m', c.base, End(c)) && forall j: nat :: j < c.tots ==> BodySame(c, j, m, m')
  }

  /** What the memory may become when a cache only changes which of its objects are free. */
  ghost function Calm(c: Cache, m: Memory): iset<Memory>
  {
    iset m' | Quiet(c, m, m')
  }

  lemma QuietObjs(c: Cache, m: Memory, m': Memory)
    requires Roomy(c) && ObjsOk(c, c.tots, m) && Quiet(c, m, m')
    ensures ObjsOk(c, c.tots, m')
  {
    forall j: nat | j < c.tots ensures ObjOk(c, j, m') {
      ObjSame(c, j, m, m');
    }
  }

  lemma QuietTrans(c: Cache, m: Memory, m': Memory, m'': Memory)
    requires Quiet(c, m, m') && Quiet(c, m', m'')
    ensures Quiet(c, m, m'')
  {
    forall j: nat | j < c.tots ensures BodySame(c, j, m, m'') {
      assert BodySame(c, j, m, m') && BodySame(c, j, m', m'');
    }
  }

  /** Stores to list heads leave the counters and everything else of the objects. */
  lemma LinksQuiet(c: Cache, m: Memory, m': Memory)
    requires Fitting(c, m) && OnlyLinks(m, m', Sites(c))
    ensures Quiet(c, m, m')
    ensures forall q :: c.base <= q < c.base + FREE_OBJS ==> m'[q] == m[q]
  {
    forall q | 0 <= q < |m| && (q < c.base + FREE_OBJS || End(c) <= q) ensures m'[q] == m[q] {
      RestNotLink(c, q);
    }
    forall j: nat | j < c.tots ensures BodySame(c, j, m, m') {
      forall q | InBody(c, j, q) && 0 <= q < |m| ensures m'[q] == m[q] {
        BodyNotLink(c, j, q);
      }
    }
  }

  /** Stores to the counters leave the list heads and everything else of the objects. */
  lemma CountersQuiet(c: Cache, m: Memory, m': Memory)
    requires Fitting(c, m) && Outside(m, m', c.base, c.base + FREE_OBJS)
    ensures Quiet(c, m, m')
    ensures forall p, q :: p in Sites(c) && p <= q < p + LINK_SIZE && q < |m| ==> m'[q] == m[q]
  {
    forall j: nat | j < c.tots ensures BodySame(c, j, m, m') {
      ObjectInside(c, j);
    }
    forall p, q | p in Sites(c) && p <= q < p + LINK_SIZE && q < |m| ensures m'[q] == m[q] {
      SiteInside(c, p);
    }
  }

  /** What a cache rests on: its header, and the header and guards of every object. */
  ghost predicate MetaSame(c: Cache, m: Memory, m': Memory)
  {
    && |m'| == |m|
    && (forall q :: c.base <= q < c.base + CACHE_SIZE && q < |m| ==> m'[q] == m[q])
    && (forall j: nat :: j < c.tots ==> ObjMetaSame(c, j, m, m'))
  }

  ghost predicate ObjMetaSame(c: Cache, j: nat, m: Memory, m': Memory)
  {
    && (forall q :: ObjAddr(c, j) <= q <= ObjAddr(c, j) + OBJ_SIZE && q < |m| && q < |m'| ==> m'[q] == m[q])
    && (BufAddr(c, j) + c.memSize < |m| && BufAddr(c, j) + c.memSize < |m'| ==>
         m'[BufAddr(c, j) + c.memSize] == m[BufAddr(c, j) + c.memSize])
  }

  lemma MetaSites(c: Cache, m: Memory, m': Memory, p: nat, q: nat)
    requires Roomy(c) && MetaSame(c, m, m') && p in Sites(c) && p <= q < p + LINK_SIZE && q < |m|
    ensures m'[q] == m[q]
  {
    var j := SiteWhere(c, p);
    assert j >= 0 ==> ObjMetaSame(c, j, m, m');
  }

  /** A cache whose headers and guards kept their bytes is in order. */
  lemma MetaSameOk(c: Cache, m: Memory, m': Memory)
    requires c in Caches(m) && MetaSame(c, m, m')
    ensures c in Caches(m')
  {
    CountersSame(c, c.tots - |c.free|, |c.free|, m, m');
    forall p, q | p in Sites(c) && p <= q < p + LINK_SIZE && q < |m| ensures m'[q] == m[q] {
      MetaSites(c, m, m', p, q);
    }
    RingSame(m, m', Sites(c), Head(c), Addrs(c, c.free));
    forall j: nat | j < c.tots ensures ObjOk(c, j, m') {
      assert ObjOk(c, j, m) && ObjMetaSame(c, j, m, m');
      GetSame(m, m', ObjAddr(c, j) + BUF, PTR);
    }
  }

  /** A change elsewhere leaves a cache as it is. */
  lemma CacheElsewhere(c: Cache, m: Memory, m': Memory)
    requires c in Caches(m) && |m'| == |m| && forall q :: c.base <= q < End(c) ==> m'[q] == m[q]
    ensures c in Caches(m')
  {
    WholeMeta(c, m, m');
    MetaSameOk(c, m, m');
  }

  lemma WholeMeta(c: Cache, m: Memory, m': Memory)
    requires Roomy(c) && |m'| == |m| && End(c) <= |m| && forall q :: c.base <= q < End(c) ==> m'[q] == m[q]
    ensures MetaSame(c, m, m')
  {
    HeaderInside(c);
    forall j: nat | j < c.tots ensures ObjMetaSame(c, j, m, m') {
      ObjectInside(c, j);
      RangeMeta(c, j, m, m', c.base, End(c));
    }
  }

  lemma RangeMeta(c: Cache, j: nat, m: Memory, m': Memory, lo: nat, hi: nat)
    requires |m'| == |m| && hi <= |m| && forall q :: lo <= q < hi ==> m'[q] == m[q]
    requires lo <= ObjAddr(c, j) && ObjAddr(c, j) + OBJ_SIZE + c.memSize + 2 <= hi
    ensures ObjMetaSame(c, j, m, m')
  {
  }

  lemma CachesElsewhere(a: Arena, i: nat, m: Memory, m': Memory, k: nat)
    requires Laid(a) && i < |a.caches| && k < |a.caches| && k != i
    requires Outside(m, m', a.caches[i].base, End(a.caches[i])) && a.caches[k] in Caches(m)
    ensures a.caches[k] in Caches(m')
  {
    CacheElsewhere(a.caches[k], m, m');
  }

  // ----- taking from and returning to the free list -----

  /** The counters after `free` and `used` were stored, in this order. */
  function Recounted(m: Memory, base: nat, p: nat, v: nat, p': nat, v': nat): Memory
  {
    Put(Put(m, base + p, INT, v), base + p', INT, v')
  }

  lemma UsedStored(c: Cache, m: Memory, used: int, free: int, v: nat)
    requires c.base + CACHE_SIZE <= |m| && Counters(c, used, free, m) && v < 0x8000_0000
    ensures Counters(c, v, free, Put(m, c.base + USED, INT, v))
    ensures Outside(m, Put(m, c.base + USED, INT, v), c.base, c.base + FREE_OBJS)
  {
    PutOutside(m, c.base + USED, INT, v);
    GetPut(m, c.base + USED, INT, v);
    GetPutOther(m, c.base + USED, INT, v, c.base + FREE, INT);
    GetPutOther(m, c.base + USED, INT, v, c.base + MEM_SIZE, INT);
    GetPutOther(m, c.base + USED, INT, v, c.base + TOTS, INT);
  }

  lemma FreeStored(c: Cache, m: Memory, used: int, free: int, v: nat)
    requires c.base + CACHE_SIZE <= |m| && Counters(c, used, free, m) && v < 0x8000_0000
    ensures Counters(c, used, v, Put(m, c.base + FREE, INT, v))
    ensures Outside(m, Put(m, c.base + FREE, INT, v), c.base, c.base + FREE_OBJS)
  {
    PutOutside(m, c.base + FREE, INT, v);
    GetPut(m, c.base + FREE, INT, v);
    GetPutOther(m, c.base + FREE, INT, v, c.base + USED, INT);
    GetPutOther(m, c.base + FREE, INT, v, c.base + MEM_SIZE, INT);
    GetPutOther(m, c.base + FREE, INT, v, c.base + TOTS, INT);
  }

  lemma FreeThenUsed(c: Cache, m: Memory, used: int, free: int, v: nat, v': nat)
    requires c.base + CACHE_SIZE <= |m| && Counters(c, used, free, m) && v < 0x8000_0000 && v' < 0x8000_0000
    ensures var m' := Recounted(m, c.base, FREE, v, USED, v');
      Counters(c, v', v, m') && Outside(m, m', c.base, c.base + FREE_OBJS)
  {
    FreeStored(c, m, used, free, v);
    UsedStored(c, Put(m, c.base + FREE, INT, v), used, v, v');
  }

  lemma UsedThenFree(c: Cache, m: Memory, used: int, free: int, v: nat, v': nat)
    requires c.base + CACHE_SIZE <= |m| && Counters(c, used, free, m) && v < 0x8000_0000 && v' < 0x8000_0000
    ensures var m' := Recounted(m, c.base, USED, v, FREE, v');
      Counters(c, v, v', m') && Outside(m, m', c.base, c.base + FREE_OBJS)
  {
    UsedStored(c, m, used, free, v);
    FreeStored(c, Put(m, c.base + USED, INT, v), v, free, v');
  }

  /** Where things are does not depend on what is free. */
  lemma SitesAside(c: Cache, free: seq<nat>)
    ensures Sites(c.(free := free)) == Sites(c) && Addrs(c.(free := free), free) == Addrs(c, free)
  {
    var c' := c.(free := free);
    assert Addrs(c', free) == Addrs(c, free);
    forall p | p in Sites(c') ensures p in Sites(c) {
      var j := SiteWhere(c', p);
      assert j >= 0 ==> p == ObjAddr(c, j);
    }
    forall p | p in Sites(c) ensures p in Sites(c') {
      var j := SiteWhere(c, p);
      assert j >= 0 ==> p == ObjAddr(c', j);
    }
  }

  lemma ObjsAside(c: Cache, free: seq<nat>, m: Memory)
    requires ObjsOk(c, c.tots, m)
    ensures ObjsOk(c.(free := free), c.tots, m)
  {
    forall j: nat | j < c.tots ensures ObjOk(c.(free := free), j, m) {
      assert ObjOk(c, j, m);
    }
  }

  /** New links, then new counters: the cache with another free list. */
  lemma RelinkedOk(c: Cache, m: Memory, m1: Memory, m2: Memory, free: seq<nat>)
    requires c in Caches(m) && OnlyLinks(m, m1, Sites(c)) && Outside(m1, m2, c.base, c.base + FREE_OBJS)
    requires Stocked(c.(free := free)) && |free| <= c.tots
    requires RingIn(m1, Sites(c), Head(c), Addrs(c, free)) && Counters(c, c.tots - |free|, |free|, m2)
    ensures c.(free := free) in Caches(m2) && m2 in Calm(c, m)
  {
    RelinkedQuiet(c, m, m1, m2);
    CountersQuiet(c, m1, m2);
    RingSame(m1, m2, Sites(c), Head(c), Addrs(c, free));
    QuietObjs(c, m, m2);
    SitesAside(c, free);
    ObjsAside(c, free, m2);
  }

  lemma RelinkedQuiet(c: Cache, m: Memory, m1: Memory, m2: Memory)
    requires Fitting(c, m) && OnlyLinks(m, m1, Sites(c)) && Outside(m1, m2, c.base, c.base + FREE_OBJS)
    ensures Quiet(c, m, m2)
  {
    LinksQuiet(c, m, m1);
    CountersQuiet(c, m1, m2);
    QuietTrans(c, m, m1, m2);
  }

  /** `kmem_cache_alloc` on the arena's bytes. */
  function Taken(m: Memory, base: nat, entry: nat, free: nat, used: nat): Memory
  {
    Recounted(WithoutEntry(m, entry), base, FREE, free, USED, used)
  }

  lemma TakenOk(c: Cache, m: Memory)
    requires c in Caches(m) && c.free != []
    ensures Get(m, Head(c), PTR) == ObjAddr(c, c.free[0])
    ensures var m' := Taken(m, c.base, ObjAddr(c, c.free[0]), |c.free| - 1, c.tots - |c.free| + 1);
      c.(free := c.free[1..]) in Caches(m') && m' in Calm(c, m)
  {
    var m1 := WithoutEntry(m, ObjAddr(c, c.free[0]));
    TakenLinks(c, m);
    CountersAside(c, m, m1, c.tots - |c.free|, |c.free|);
    TotsSmall(c, m);
    HeaderInside(c);
    FreeThenUsed(c, m1, c.tots - |c.free|, |c.free|, |c.free| - 1, c.tots - |c.free| + 1);
    RelinkedOk(c, m, m1, Recounted(m1, c.base, FREE, |c.free| - 1, USED, c.tots - |c.free| + 1), c.free[1..]);
  }

  lemma TakenLinks(c: Cache, m: Memory)
    requires c in Caches(m) && c.free != []
    ensures Get(m, Head(c), PTR) == ObjAddr(c, c.free[0])
    ensures var m1 := WithoutEntry(m, ObjAddr(c, c.free[0]));
      OnlyLinks(m, m1, Sites(c)) && RingIn(m1, Sites(c), Head(c), Addrs(c, c.free[1..]))
  {
    var nodes := Addrs(c, c.free);
    SitesApart(c, m);
    RingShrunk(m, Sites(c), Head(c), nodes);
    assert Addrs(c, c.free[1..]) == nodes[1..];
  }

  lemma CountersAside(c: Cache, m: Memory, m1: Memory, used: int, free: int)
    requires Fitting(c, m) && Counters(c, used, free, m) && OnlyLinks(m, m1, Sites(c))
    ensures Counters(c, used, free, m1)
  {
    LinksQuiet(c, m, m1);
    CountersSame(c, used, free, m, m1);
  }

  /** The list heads that removing the first free object stores to are in the memory. */
  lemma TakenInside(c: Cache, m: Memory)
    requires c in Caches(m) && c.free != []
    ensures var entry := ObjAddr(c, c.free[0]);
      && entry + LINK_SIZE <= |m| && Get(m, entry, PTR) + LINK_SIZE <= |m|
      && Get(m, entry + PREV, PTR) + LINK_SIZE <= |m|
  {
    var nodes := Addrs(c, c.free);
    RingHop(m, Sites(c), Head(c), nodes, 0);
    RingHop(m, Sites(c), Head(c), nodes, 1);
    SiteInside(c, nodes[0]);
    SiteInside(c, Get(m, nodes[0], PTR));
    SiteInside(c, Get(m, nodes[0] + PREV, PTR));
  }

  lemma ReturnedInside(c: Cache, m: Memory, j: nat)
    requires c in Caches(m) && j < c.tots
    ensures ObjAddr(c, j) + LINK_SIZE <= |m| && Get(m, Head(c), PTR) + LINK_SIZE <= |m|
  {
    RingHop(m, Sites(c), Head(c), Addrs(c, c.free), 0);
    SiteInside(c, ObjAddr(c, j));
    SiteInside(c, Get(m, Head(c), PTR));
  }

  /** A cache inside the memory has fewer objects than the memory has bytes. */
  lemma TotsSmall(c: Cache, m: Memory)
    requires Fitting(c, m)
    ensures c.tots < |m|
  {
    if c.tots > 0 {
      TotsBelow(c, c.tots - 1);
    }
  }

  lemma {:induction false} TotsBelow(c: Cache, j: nat)
    requires Roomy(c)
    ensures j < ObjAddr(c, j)
  {
    if j > 0 {
      TotsBelow(c, j - 1);
      ObjectsApart(c, j - 1, j);
    }
  }

  lemma AddrsDiffer(c: Cache, free: seq<nat>, j: nat)
    requires Roomy(c) && j !in free
    ensures ObjAddr(c, j) !in Addrs(c, free)
  {
    forall k | 0 <= k < |free| ensures ObjAddr(c, j) != Addrs(c, free)[k] {
      if j < free[k] {
        ObjectsApart(c, j, free[k]);
      } else {
        ObjectsApart(c, free[k], j);
      }
    }
  }

  /** `kmem_cache_free` on the arena's bytes. */
  function Returned(m: Memory, base: nat, entry: nat, used: nat, free: nat): Memory
  {
    Recounted(WithEntry(m, entry, base + FREE_OBJS), base, USED, used, FREE, free)
  }

  lemma ReturnedOk(c: Cache, m: Memory, j: nat)
    requires c in Caches(m) && j < c.tots && j !in c.free
    ensures |c.free| < c.tots
    ensures var m' := Returned(m, c.base, ObjAddr(c, j), c.tots - |c.free| - 1, |c.free| + 1);
      c.(free := [j] + c.free) in Caches(m') && m' in Calm(c, m)
  {
    NotAllFree(c, j);
    StockedMore(c, j);
    var m1 := WithEntry(m, ObjAddr(c, j), Head(c));
    ReturnedLinks(c, m, j);
    CountersAside(c, m, m1, c.tots - |c.free|, |c.free|);
    TotsSmall(c, m);
    HeaderInside(c);
    UsedThenFree(c, m1, c.tots - |c.free|, |c.free|, c.tots - |c.free| - 1, |c.free| + 1);
    RelinkedOk(c, m, m1, Recounted(m1, c.base, USED, c.tots - |c.free| - 1, FREE, |c.free| + 1), [j] + c.free);
  }

  lemma ReturnedLinks(c: Cache, m: Memory, j: nat)
    requires c in Caches(m) && j < c.tots && j !in c.free
    ensures var m1 := WithEntry(m, ObjAddr(c, j), Head(c));
      OnlyLinks(m, m1, Sites(c)) && RingIn(m1, Sites(c), Head(c), Addrs(c, [j] + c.free))
  {
    SitesApart(c, m);
    ObjectInside(c, j);
    AddrsDiffer(c, c.free, j);
    RingGrown(m, Sites(c), Head(c), Addrs(c, c.free), ObjAddr(c, j));
    assert Addrs(c, [j] + c.free) == [ObjAddr(c, j)] + Addrs(c, c.free);
  }

  // ----- what users do -----

  lemma Elsewhere(a: Arena, i: nat, j: nat, p: nat, piece: Piece)
    requires Laid(a) && i < |a.caches| && j < a.caches[i].tots && InArena(a, piece) && piece != Buffer(i, j)
    requires BufAddr(a.caches[i], j) <= p < BufAddr(a.caches[i], j) + a.caches[i].memSize
    ensures p < Start(a, piece) || Start(a, piece) + Length(a, piece) <= p
  {
    PiecesApart(a, Buffer(i, j), piece);
  }

  /** A write inside a buffer damages no header, link, pointer or guard of any cache. */
  lemma WriteOk(a: Arena, i: nat, j: nat, m: Memory, p: nat, v: Byte, k: nat)
    requires Laid(a) && i < |a.caches| && j < a.caches[i].tots && k < |a.caches|
    requires BufAddr(a.caches[i], j) <= p < BufAddr(a.caches[i], j) + a.caches[i].memSize && p < |m|
    requires a.caches[k] in Caches(m)
    ensures a.caches[k] in Caches(m[p := v])
  {
    var c, m' := a.caches[k], m[p := v];
    Elsewhere(a, i, j, p, CacheHeader(k));
    forall n: nat | n < c.tots ensures ObjMetaSame(c, n, m, m') {
      Elsewhere(a, i, j, p, ObjHeader(k, n));
      Elsewhere(a, i, j, p, LowGuard(k, n));
      Elsewhere(a, i, j, p, HighGuard(k, n));
    }
    MetaSameOk(c, m, m');
  }
}
