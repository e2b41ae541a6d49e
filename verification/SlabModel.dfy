/**
 What the slab allocator of misaka/lib/kmem.c does, on the arena as its users see it, and
 what holds over every run of it.
 */
module SlabModel {
  import opened Options
  import opened SlabLayout

  /** The free list of a new cache: `list_add` puts every object in front of the ones before it. */
  function Countdown(n: nat): (s: seq<nat>)
    ensures |s| == n
    ensures forall k :: 0 <= k < n ==> s[k] == n - 1 - k
  {
    seq(n, k requires 0 <= k < n => n - 1 - k)
  }

  function NewCache(a: Arena, memSize: nat, tots: nat): Cache
  {
    var header, stride := SetAlign(CACHE_SIZE, a.align, a.word), SetAlign(OBJ_SIZE + memSize + 2, a.align, a.word);
    Cache(a.used, header + stride * tots, header, stride, memSize, tots, Countdown(tots))
  }

  /** `kmem_cache_create`: nothing when the space left does not exceed the space needed. */
  function Created(a: Arena, memSize: nat, tots: nat): (Option<nat>, Arena)
  {
    var c := NewCache(a, memSize, tots);
    if a.size - a.used <= c.bytes then (None, a)
    else (Some(|a.caches|), a.(used := a.used + c.bytes, caches := a.caches + [c]))
  }

  /** `kmem_cache_alloc`: the first free object's buffer. */
  function Allocated(a: Arena, i: nat): (Option<nat>, Arena)
    requires i < |a.caches|
  {
    var c := a.caches[i];
    if c.free == [] then (None, a)
    else (Some(BufAddr(c, c.free[0])), a.(caches := a.caches[i := c.(free := c.free[1..])]))
  }

  /** `kmem_cache_free` of the buffer of object `j`. */
  function Freed(a: Arena, i: nat, j: nat): Arena
    requires i < |a.caches|
  {
    var c := a.caches[i];
    a.(caches := a.caches[i := c.(free := [j] + c.free)])
  }

  /** Object `j` of cache `i` is in the hands of a user. */
  predicate Outstanding(a: Arena, i: nat, j: nat)
  {
    i < |a.caches| && j < a.caches[i].tots && j !in a.caches[i].free
  }

  ghost predicate Stocked(c: Cache)
  {
    && (forall k :: 0 <= k < |c.free| ==> c.free[k] < c.tots)
    && (forall k, l :: 0 <= k < l < |c.free| ==> c.free[k] != c.free[l])
  }

  ghost predicate Sound(a: Arena)
  {
    Laid(a) && forall i :: 0 <= i < |a.caches| ==> Stocked(a.caches[i])
  }

  lemma CreatedSound(a: Arena, memSize: nat, tots: nat)
    requires Sound(a) && Aligned(a) && memSize < 0x8000_0000
    ensures Sound(Created(a, memSize, tots).1) && Aligned(Created(a, memSize, tots).1)
  {
    var c := NewCache(a, memSize, tots);
    SetAlignRoundsUp(CACHE_SIZE, a.align, a.word);
    SetAlignRoundsUp(OBJ_SIZE + memSize + 2, a.align, a.word);
    assert c.stride * tots == tots * c.stride;
    MultiplesAdd(a.used, c.header, tots, c.stride, a.align);
  }

  /** There is one multiple of the alignment in each stretch of its length. */
  lemma OneMultiple(x: nat, y: nat, low: nat, align: nat)
    requires align >= 1 && x % align == 0 && y % align == 0 && low <= x < low + align && low <= y < low + align
    ensures x == y
  {
    if x < y {
      Multiples(x, y, align);
    } else if y < x {
      Multiples(y, x, align);
    }
  }

  lemma Multiples(x: nat, y: nat, align: nat)
    requires align >= 1 && x % align == 0 && y % align == 0 && x < y
    ensures x + align <= y
  {
    var q, r := x / align, y / align;
    assert x == q * align && y == r * align;
    if q < r {
      assert (q + 1) * align <= r * align;
    }
  }

  /**
   A cache is created if and only if its header and its objects, each rounded up to the next
   multiple of the alignment, leave at least one byte of the space; it lies behind all others
   and all its objects are free.
   */
  lemma CreatedIff(a: Arena, memSize: nat, tots: nat, header: nat, stride: nat)
    requires GoodAlign(a.align) && 33 <= a.word && a.align >= 1 && memSize < 0x8000_0000
    requires header % a.align == 0 && 72 <= header < 72 + a.align
    requires stride % a.align == 0 && 26 + memSize <= stride < 26 + memSize + a.align
    ensures Created(a, memSize, tots).0.Some? <==> a.used + header + stride * tots < a.size
    ensures var a' := Created(a, memSize, tots).1;
      if Created(a, memSize, tots).0.None? then a' == a
      else
        && a' == a.(used := a.used + header + stride * tots, caches := a'.caches)
        && |a'.caches| == |a.caches| + 1 && a'.caches[..|a.caches|] == a.caches
        && var c := a'.caches[|a.caches|];
        && c.base == a.used && c.memSize == memSize && c.tots == tots && |c.free| == tots
        && c.header == header && c.stride == stride
  {
    SetAlignRoundsUp(CACHE_SIZE, a.align, a.word);
    SetAlignRoundsUp(OBJ_SIZE + memSize + 2, a.align, a.word);
    OneMultiple(header, SetAlign(CACHE_SIZE, a.align, a.word), 72, a.align);
    OneMultiple(stride, SetAlign(OBJ_SIZE + memSize + 2, a.align, a.word), 26 + memSize, a.align);
  }

  lemma AllocatedSound(a: Arena, i: nat)
    requires Sound(a) && i < |a.caches|
    ensures Sound(Allocated(a, i).1)
  {
  }

  /** What is free has no part in where things are. */
  lemma StillAligned(a: Arena, i: nat, free: seq<nat>)
    requires Aligned(a) && i < |a.caches|
    ensures Aligned(a.(caches := a.caches[i := a.caches[i].(free := free)]))
  {
  }

  lemma FreedSound(a: Arena, i: nat, j: nat)
    requires Sound(a) && Outstanding(a, i, j)
    ensures Sound(Freed(a, i, j))
  {
    StockedMore(a.caches[i], j);
  }

  // ----- counting free objects -----

  function Elements(s: seq<nat>): (t: set<nat>)
    ensures forall x :: x in t <==> x in s
  {
    set x | x in s
  }

  lemma {:induction false} DistinctCount(s: seq<nat>)
    requires forall k, l :: 0 <= k < l < |s| ==> s[k] != s[l]
    ensures |Elements(s)| == |s|
  {
    if s != [] {
      DistinctCount(s[1..]);
      assert Elements(s) == {s[0]} + Elements(s[1..]);
    }
  }

  lemma {:induction false} BelowCount(t: set<nat>, n: nat)
    requires forall x :: x in t ==> x < n
    ensures |t| <= n
  {
    if n > 0 {
      BelowCount(t - {n - 1}, n - 1);
    } else {
      assert t == {};
    }
  }

  /** A cache with an object in use has fewer free objects than objects. */
  lemma NotAllFree(c: Cache, j: nat)
    requires Stocked(c) && j < c.tots && j !in c.free
    ensures |c.free| < c.tots
  {
    DistinctCount(c.free);
    BelowCount(Elements(c.free) + {j}, c.tots);
  }

  lemma StockedMore(c: Cache, j: nat)
    requires Stocked(c) && j < c.tots && j !in c.free
    ensures Stocked(c.(free := [j] + c.free))
  {
    assert forall k :: 0 <= k < |c.free| ==> c.free[k] in c.free;
  }

  // ----- what allocating and freeing mean to each other -----

  /** An allocation succeeds exactly when some object of the cache is in nobody's hands. */
  lemma SucceedsIffSpare(a: Arena, i: nat)
    requires Sound(a) && i < |a.caches|
    ensures Allocated(a, i).0.Some? <==> exists j: nat :: j < a.caches[i].tots && !Outstanding(a, i, j)
  {
    var c := a.caches[i];
    if c.free != [] {
      assert c.free[0] < c.tots && !Outstanding(a, i, c.free[0]);
    }
  }

  /** It hands out an object that was in nobody's hands, and changes that of no other. */
  lemma HandsOutSpare(a: Arena, i: nat)
    requires Sound(a) && i < |a.caches| && Allocated(a, i).0.Some?
    ensures exists j: nat ::
      && j < a.caches[i].tots && !Outstanding(a, i, j) && Allocated(a, i).0.value == BufAddr(a.caches[i], j)
      && forall k: nat, l: nat :: Outstanding(Allocated(a, i).1, k, l) <==> Outstanding(a, k, l) || (k, l) == (i, j)
  {
    var c, a' := a.caches[i], Allocated(a, i).1;
    var j := c.free[0];
    forall k: nat, l: nat ensures Outstanding(a', k, l) <==> Outstanding(a, k, l) || (k, l) == (i, j) {
      if k == i && l != j {
        assert c.free == [j] + c.free[1..];
      }
    }
    assert !Outstanding(a, i, j) && Allocated(a, i).0.value == BufAddr(c, j);
  }

  /** Freeing what was just allocated restores the arena, and so does allocating what was just freed. */
  lemma LastFreedFirst(a: Arena, i: nat, j: nat)
    requires i < |a.caches|
    ensures Allocated(Freed(a, i, j), i) == (Some(BufAddr(a.caches[i], j)), a)
    ensures a.caches[i].free != [] ==> Freed(Allocated(a, i).1, i, a.caches[i].free[0]) == a
  {
    var c := a.caches[i];
    var a' := Freed(a, i, j);
    assert ([j] + c.free)[1..] == c.free;
    assert a'.caches[i].(free := c.free) == c;
    assert a'.caches[i := c] == a.caches;
    assert a.caches[i := c] == a.caches;
    if c.free != [] {
      assert [c.free[0]] + c.free[1..] == c.free;
    }
  }
}
