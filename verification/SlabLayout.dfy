/**
 How misaka/lib/kmem.c lays out an arena: a header, then caches one after the other, each
 a header followed by objects of equal stride; and what the allocator is for its users:
 per cache, the stack of free objects.

 Addresses are offsets from the start of the arena.  Structure sizes are those of a 64-bit
 target with 4-byte `int` and 8-byte pointers; the width of the words that `set_align`
 masks is a parameter, above 32.
 */
module SlabLayout {
  import opened Bits

  const KMEM_SIZE: nat := 32
  const CACHE_SIZE: nat := 72
  const FREE_OBJS: nat := 56
  const OBJ_SIZE: nat := 24

  /** `set_align` on `w`-bit words: the alignment less one is added, and then masked off. */
  function SetAlign(size: nat, align: nat, w: nat): nat
  {
    if 1 <= align <= Pow2(w) then And(size + (align - 1), Pow2(w) - align) else 0
  }

  /** For a power of two, the least multiple of it that is not below the size. */
  lemma AlignRoundsUp(size: nat, k: nat, w: nat)
    requires k <= w && size + Pow2(k) <= Pow2(w)
    ensures SetAlign(size, Pow2(k), w) % Pow2(k) == 0
    ensures size <= SetAlign(size, Pow2(k), w) < size + Pow2(k)
  {
    var x, p := size + (Pow2(k) - 1), Pow2(k);
    AndHighMask(x, k, w);
    assert SetAlign(size, p, w) == x - x % p;
    FloorIsMultiple(x, p);
  }

  lemma FloorIsMultiple(x: nat, p: nat)
    requires p >= 1
    ensures (x - x % p) % p == 0 && x - p < x - x % p <= x
  {
    assert x - x % p == (x / p) * p;
    DivUnique(x - x % p, p, x / p, 0);
  }

  /** The alignment is a power of two that an `int` holds. */
  ghost predicate GoodAlign(align: nat)
  {
    exists k: nat :: k <= 30 && align == Pow2(k)
  }

  lemma Pow2Of32()
    ensures Pow2(32) == 0x1_0000_0000
  {
    assert Pow2(8) == 0x100;
    Pow2Add(8, 8);
    Pow2Add(16, 16);
  }

  lemma Pow2Below31(align: nat)
    requires GoodAlign(align)
    ensures align < 0x8000_0000
  {
    var k: nat :| k <= 30 && align == Pow2(k);
    Pow2Of32();
    Pow2Mono(k, 30);
    assert Pow2(32) == 2 * Pow2(31) && Pow2(31) == 2 * Pow2(30);
  }

  lemma WordHolds(k: nat, w: nat)
    requires k <= 31 && 33 <= w
    ensures Pow2(k) + 0x1_0000_0000 <= Pow2(w)
  {
    Pow2Of32();
    Pow2Mono(k, 32);
    Pow2Mono(33, w);
    assert Pow2(33) == 2 * Pow2(32);
  }

  /** `set_align` rounds up to the next multiple of the alignment. */
  lemma SetAlignRoundsUp(size: nat, align: nat, w: nat)
    requires GoodAlign(align) && size < 0x1_0000_0000 && 33 <= w
    ensures align >= 1 && SetAlign(size, align, w) % align == 0
    ensures size <= SetAlign(size, align, w) < size + align
  {
    var k: nat :| k <= 30 && align == Pow2(k);
    WordHolds(k, w);
    AlignRoundsUp(size, k, w);
  }

  // ----- the arena as its users see it -----

  /**
   A cache: where it lies and how many bytes it takes, the bytes of its header and from one
   object to the next, its objects, and the free ones among them, next to be allocated first.
   */
  datatype Cache = Cache(base: nat, bytes: nat, header: nat, stride: nat, memSize: nat, tots: nat, free: seq<nat>)

  datatype Arena = Arena(word: nat, align: nat, size: nat, start: nat, used: nat, caches: seq<Cache>)

  function ObjAddr(c: Cache, j: nat): nat
  {
    c.base + c.header + j * c.stride
  }

  function BufAddr(c: Cache, j: nat): nat
  {
    ObjAddr(c, j) + OBJ_SIZE + 1
  }

  function End(c: Cache): nat
  {
    c.base + c.bytes
  }

  /** A cache's header and objects have the room they need. */
  predicate Roomy(c: Cache)
  {
    && c.header >= CACHE_SIZE && c.stride >= OBJ_SIZE + c.memSize + 2
    && c.bytes == c.header + c.tots * c.stride
  }

  /** Caches lie one after the other between the arena's own header and `used`. */
  ghost predicate Laid(a: Arena)
  {
    && KMEM_SIZE <= a.start <= a.used < a.size
    && (forall i :: 0 <= i < |a.caches| ==>
         Roomy(a.caches[i]) && a.start <= a.caches[i].base && End(a.caches[i]) <= a.used)
    && (forall i, j :: 0 <= i < j < |a.caches| ==> End(a.caches[i]) <= a.caches[j].base)
  }

  /** The sizes are the rounded ones, so that everything starts at a multiple of the alignment. */
  ghost predicate Aligned(a: Arena)
  {
    && GoodAlign(a.align) && 33 <= a.word && a.align >= 1 && a.used % a.align == 0
    && a.start == SetAlign(KMEM_SIZE, a.align, a.word)
    && forall i :: 0 <= i < |a.caches| ==>
         && a.caches[i].memSize < 0x8000_0000
         && a.caches[i].header == SetAlign(CACHE_SIZE, a.align, a.word)
         && a.caches[i].stride == SetAlign(OBJ_SIZE + a.caches[i].memSize + 2, a.align, a.word)
         && a.caches[i].base % a.align == 0
  }

  lemma MulSteps(i: nat, j: nat, s: nat)
    requires i < j
    ensures i * s + s <= j * s
  {
    assert (j - i - 1) * s >= 0;
    assert j * s == i * s + s + (j - i - 1) * s;
  }

  lemma ObjectInside(c: Cache, j: nat)
    requires Roomy(c) && j < c.tots
    ensures c.base + CACHE_SIZE <= ObjAddr(c, j)
    ensures ObjAddr(c, j) + OBJ_SIZE + c.memSize + 2 <= End(c)
  {
    MulSteps(j, c.tots, c.stride);
  }

  lemma HeaderInside(c: Cache)
    requires Roomy(c)
    ensures c.base + CACHE_SIZE <= End(c)
  {
    assert c.tots * c.stride >= 0;
  }

  lemma ObjectsApart(c: Cache, i: nat, j: nat)
    requires Roomy(c) && i < j
    ensures ObjAddr(c, i) + OBJ_SIZE + c.memSize + 2 <= ObjAddr(c, j)
  {
    MulSteps(i, j, c.stride);
  }

  lemma MultiplesAdd(x: nat, y: nat, n: nat, z: nat, d: nat)
    requires d >= 1 && x % d == 0 && y % d == 0 && z % d == 0
    ensures (x + y + n * z) % d == 0
  {
    var p, q, r := x / d, y / d, z / d;
    assert x == p * d && y == q * d && z == r * d;
    assert n * z == (n * r) * d;
    assert x + y + n * z == (p + q + n * r) * d;
    DivUnique(x + y + n * z, d, p + q + n * r, 0);
  }

  /** Every object starts at a multiple of the alignment from the start of the arena. */
  lemma ObjectsAligned(a: Arena, i: nat, j: nat)
    requires Aligned(a) && i < |a.caches|
    ensures a.align >= 1 && ObjAddr(a.caches[i], j) % a.align == 0
  {
    var c := a.caches[i];
    SetAlignRoundsUp(CACHE_SIZE, a.align, a.word);
    SetAlignRoundsUp(OBJ_SIZE + c.memSize + 2, a.align, a.word);
    MultiplesAdd(c.base, c.header, j, c.stride, a.align);
  }

  // ----- every piece of the arena, and where it is -----

  datatype Piece =
    | KmemHeader
    | CacheHeader(i: nat)
    | ObjHeader(i: nat, j: nat)
    | LowGuard(i: nat, j: nat)
    | Buffer(i: nat, j: nat)
    | HighGuard(i: nat, j: nat)

  predicate InArena(a: Arena, p: Piece)
  {
    match p
    case KmemHeader => true
    case CacheHeader(i) => i < |a.caches|
    case _ => p.i < |a.caches| && p.j < a.caches[p.i].tots
  }

  function Start(a: Arena, p: Piece): nat
    requires InArena(a, p)
  {
    match p
    case KmemHeader => 0
    case CacheHeader(i) => a.caches[i].base
    case ObjHeader(i, j) => ObjAddr(a.caches[i], j)
    case LowGuard(i, j) => ObjAddr(a.caches[i], j) + OBJ_SIZE
    case Buffer(i, j) => BufAddr(a.caches[i], j)
    case HighGuard(i, j) => BufAddr(a.caches[i], j) + a.caches[i].memSize
  }

  function Length(a: Arena, p: Piece): nat
    requires InArena(a, p)
  {
    match p
    case KmemHeader => KMEM_SIZE
    case CacheHeader(_) => CACHE_SIZE
    case ObjHeader(_, _) => OBJ_SIZE
    case LowGuard(_, _) => 1
    case Buffer(i, _) => a.caches[i].memSize
    case HighGuard(_, _) => 1
  }

  predicate Before(a: Arena, p: Piece, q: Piece)
    requires InArena(a, p) && InArena(a, q)
  {
    Start(a, p) + Length(a, p) <= Start(a, q)
  }

  /** Every piece lies inside the used part of the arena, and pieces of a cache inside that cache. */
  lemma PieceInside(a: Arena, p: Piece)
    requires Laid(a) && InArena(a, p)
    ensures Start(a, p) + Length(a, p) <= a.used < a.size
    ensures !p.KmemHeader? ==>
      a.caches[p.i].base <= Start(a, p) && Start(a, p) + Length(a, p) <= End(a.caches[p.i])
  {
    if !p.KmemHeader? && !p.CacheHeader? {
      ObjectInside(a.caches[p.i], p.j);
    }
  }

  /** No two pieces of the arena overlap. */
  lemma PiecesApart(a: Arena, p: Piece, q: Piece)
    requires Laid(a) && InArena(a, p) && InArena(a, q) && p != q
    ensures Before(a, p, q) || Before(a, q, p)
  {
    PieceInside(a, p);
    PieceInside(a, q);
    if !p.KmemHeader? && !q.KmemHeader? && p.i == q.i {
      SameCacheApart(a, p, q);
    }
  }

  lemma SameCacheApart(a: Arena, p: Piece, q: Piece)
    requires Laid(a) && InArena(a, p) && InArena(a, q) && p != q
    requires !p.KmemHeader? && !q.KmemHeader? && p.i == q.i
    ensures Before(a, p, q) || Before(a, q, p)
  {
    var c := a.caches[p.i];
    if p.CacheHeader? {
      ObjectInside(c, q.j);
    } else if q.CacheHeader? {
      ObjectInside(c, p.j);
    } else if p.j < q.j {
      ObjectsApart(c, p.j, q.j);
    } else if q.j < p.j {
      ObjectsApart(c, q.j, p.j);
    }
  }
}
