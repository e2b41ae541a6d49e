/**
 Which bytes of a cache of misaka/lib/kmem.c matter: a stray byte damages the cache exactly
 if it changes a counter, a link of the ring of free objects, a pointer to a buffer or a guard.
 */
module SlabDamage {
  import opened SlabLayout
  import opened SlabList
  import opened SlabMemory
  import opened SlabModel
  import opened Slab

  // ----- words -----

  /** Different bytes are different numbers. */
  lemma {:induction false} ValueDiffers(s: seq<Byte>, t: seq<Byte>)
    requires |s| == |t| && s != t
    ensures Value(s) != Value(t)
  {
    if s[1..] != t[1..] {
      ValueDiffers(s[1..], t[1..]);
    }
  }

  predicate In(p: nat, w: nat, q: nat)
  {
    p <= q < p + w
  }

  /** A changed byte shows in the word it belongs to, and in no other. */
  lemma GetDiffers(m: Memory, q: nat, v: Byte, p: nat, w: nat)
    requires q < |m| && v != m[q] && p + w <= |m|
    ensures Get(m[q := v], p, w) == Get(m, p, w) <==> !In(p, w, q)
  {
    var m' := m[q := v];
    if In(p, w, q) {
      assert m[p..p + w][q - p] != m'[p..p + w][q - p];
      ValueDiffers(m[p..p + w], m'[p..p + w]);
    } else {
      GetSame(m, m', p, w);
    }
  }

  // ----- what matters -----

  predicate InCounters(c: Cache, q: nat)
  {
    In(c.base + MEM_SIZE, FREE + INT - MEM_SIZE, q)
  }

  /** A link of the head or of a free object. */
  ghost predicate InRing(c: Cache, q: nat)
  {
    exists i: nat :: i <= |c.free| && In(Node(Head(c), Addrs(c, c.free), i), LINK_SIZE, q)
  }

  /** The pointer or a guard of object `j`. */
  predicate InSeal(c: Cache, j: nat, q: nat)
  {
    In(ObjAddr(c, j) + BUF, PTR, q) || q == ObjAddr(c, j) + OBJ_SIZE || q == BufAddr(c, j) + c.memSize
  }

  ghost predicate InSeals(c: Cache, q: nat)
  {
    exists j: nat :: j < c.tots && InSeal(c, j, q)
  }

  // ----- one kind of byte at a time -----

  lemma CountersExact(c: Cache, m: Memory, q: nat, v: Byte)
    requires CacheOk(c, m) && q < |m| && v != m[q]
    ensures Counters(c, c.tots - |c.free|, |c.free|, m[q := v]) <==> !InCounters(c, q)
  {
    HeaderInside(c);
    GetDiffers(m, q, v, c.base + MEM_SIZE, INT);
    GetDiffers(m, q, v, c.base + TOTS, INT);
    GetDiffers(m, q, v, c.base + USED, INT);
    GetDiffers(m, q, v, c.base + FREE, INT);
  }

  lemma SealExact(c: Cache, m: Memory, q: nat, v: Byte, j: nat)
    requires c in Caches(m) && q < |m| && v != m[q] && j < c.tots
    ensures ObjOk(c, j, m[q := v]) <==> !InSeal(c, j, q)
  {
    ObjectInside(c, j);
    assert ObjOk(c, j, m);
    GetDiffers(m, q, v, ObjAddr(c, j) + BUF, PTR);
  }

  lemma SealsExact(c: Cache, m: Memory, q: nat, v: Byte)
    requires c in Caches(m) && q < |m| && v != m[q]
    ensures ObjsOk(c, c.tots, m[q := v]) <==> !InSeals(c, q)
  {
    var m' := m[q := v];
    if InSeals(c, q) {
      var j: nat :| j < c.tots && InSeal(c, j, q);
      SealExact(c, m, q, v, j);
    } else {
      forall j: nat | j < c.tots ensures ObjOk(c, j, m') {
        SealExact(c, m, q, v, j);
      }
    }
  }

  /** The links of the `i`th node of the ring, the head being the 0th. */
  lemma NodeLinks(c: Cache, m: Memory, i: nat)
    requires RingIn(m, Sites(c), Head(c), Addrs(c, c.free)) && i <= |c.free|
    ensures var n := Node(Head(c), Addrs(c, c.free), i);
      && n in Sites(c)
      && Get(m, n, PTR) == Node(Head(c), Addrs(c, c.free), i + 1)
      && Get(m, n + PREV, PTR) == Node(Head(c), Addrs(c, c.free), if i == 0 then |c.free| else i - 1)
  {
    RingHop(m, Sites(c), Head(c), Addrs(c, c.free), i);
    RingHop(m, Sites(c), Head(c), Addrs(c, c.free), if i == 0 then |c.free| else i - 1);
  }

  lemma NodeDiffers(c: Cache, m: Memory, q: nat, v: Byte, n: nat)
    requires Fitting(c, m) && q < |m| && v != m[q] && n in Sites(c)
    ensures Get(m[q := v], n, PTR) == Get(m, n, PTR) && Get(m[q := v], n + PREV, PTR) == Get(m, n + PREV, PTR)
      <==> !In(n, LINK_SIZE, q)
  {
    SiteInside(c, n);
    GetDiffers(m, q, v, n, PTR);
    GetDiffers(m, q, v, n + PREV, PTR);
  }

  lemma RingExact(c: Cache, m: Memory, q: nat, v: Byte)
    requires CacheOk(c, m) && q < |m| && v != m[q]
    ensures RingIn(m[q := v], Sites(c), Head(c), Addrs(c, c.free)) <==> !InRing(c, q)
  {
    var m', nodes := m[q := v], Addrs(c, c.free);
    if InRing(c, q) {
      var i: nat :| i <= |c.free| && In(Node(Head(c), nodes, i), LINK_SIZE, q);
      NodeLinks(c, m, i);
      NodeDiffers(c, m, q, v, Node(Head(c), nodes, i));
      if RingIn(m', Sites(c), Head(c), nodes) {
        NodeLinks(c, m', i);
      }
    } else {
      forall p | p == Head(c) || p in nodes
        ensures Get(m', p, PTR) == Get(m, p, PTR) && Get(m', p + PREV, PTR) == Get(m, p + PREV, PTR)
      {
        RingClear(c, q, p);
        NodeDiffers(c, m, q, v, p);
      }
      RingUnread(m, m', Sites(c), Head(c), nodes);
    }
  }

  lemma RingClear(c: Cache, q: nat, p: nat)
    requires !InRing(c, q) && (p == Head(c) || p in Addrs(c, c.free))
    ensures !In(p, LINK_SIZE, q)
  {
    var nodes := Addrs(c, c.free);
    if p == Head(c) {
      assert Node(Head(c), nodes, 0) == p;
    } else {
      var k :| 0 <= k < |nodes| && nodes[k] == p;
      assert Node(Head(c), nodes, k + 1) == p;
    }
  }

  /** One changed byte damages a cache if and only if it is one of those that matter. */
  lemma DamageExact(c: Cache, m: Memory, q: nat, v: Byte)
    requires c in Caches(m) && q < |m| && v != m[q]
    ensures c in Caches(m[q := v]) <==> !InCounters(c, q) && !InRing(c, q) && !InSeals(c, q)
  {
    CountersExact(c, m, q, v);
    SealsExact(c, m, q, v);
    RingExact(c, m, q, v);
  }
}
