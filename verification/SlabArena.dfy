/**
 The slab allocator of misaka/lib/kmem.c: every field it has is in the bytes of its arena.
 */
module SlabArena {
  import opened Options
  import opened SlabLayout
  import opened SlabMemory
  import opened SlabModel
  import opened Slab
  import opened SlabInit

  // ----- the arena's own header -----

  /** The fields of `struct kmem`. */
  datatype Field = Tots | Size | UsedSize | FreePtr | Align | Lock

  function Offset(f: Field): nat
  {
    match f
    case Tots => 0
    case Size => 4
    case UsedSize => 8
    case FreePtr => 16
    case Align => 24
    case Lock => 28
  }

  function Width(f: Field): nat
  {
    if f.FreePtr? then PTR else INT
  }

  /** What the fields are to hold. */
  datatype Fields = Fields(tots: nat, size: nat, used: nat, free: nat, align: nat, lock: nat) {
    function At(f: Field): nat
    {
      match f
      case Tots => tots
      case Size => size
      case UsedSize => used
      case FreePtr => free
      case Align => align
      case Lock => lock
    }
  }

  ghost predicate Holds(m: Memory, v: Fields)
  {
    forall f: Field :: Get(m, Offset(f), Width(f)) == v.At(f)
  }

  /** A store to one field leaves the others. */
  lemma FieldStored(m: Memory, v: Fields, f: Field, n: nat, v': Fields)
    requires KMEM_SIZE <= |m| && n < 0x8000_0000 && Holds(m, v)
    requires forall g: Field :: v'.At(g) == if g == f then n else v.At(g)
    ensures Holds(Put(m, Offset(f), Width(f), n), v') && Outside(m, Put(m, Offset(f), Width(f), n), 0, KMEM_SIZE)
  {
    var m' := Put(m, Offset(f), Width(f), n);
    PutOutside(m, Offset(f), Width(f), n);
    forall g: Field ensures Get(m', Offset(g), Width(g)) == v'.At(g) {
      if g == f {
        GetPut(m, Offset(f), Width(f), n);
      } else {
        GetPutOther(m, Offset(f), Width(f), n, Offset(g), Width(g));
      }
    }
  }

  function Header(a: Arena): Fields
  {
    Fields(|a.caches|, a.size, a.used, a.used, a.align, 1)
  }

  ghost predicate HeadOk(a: Arena, m: Memory)
  {
    KMEM_SIZE <= |m| == a.size < 0x8000_0000 && Holds(m, Header(a))
  }

  lemma HeadSame(a: Arena, m: Memory, m': Memory)
    requires HeadOk(a, m) && |m'| == |m| && forall q :: 0 <= q < KMEM_SIZE ==> m'[q] == m[q]
    ensures HeadOk(a, m')
  {
    forall f: Field ensures Get(m', Offset(f), Width(f)) == Header(a).At(f) {
      GetSame(m, m', Offset(f), Width(f));
    }
  }

  /** The stores of `kmem_cache_create` to the arena's header. */
  function Grown(m: Memory, used: nat, tots: nat): Memory
  {
    Put(Put(Put(m, Offset(UsedSize), INT, used), Offset(FreePtr), PTR, used), Offset(Tots), INT, tots)
  }

  lemma GrownOk(a: Arena, m: Memory, a': Arena)
    requires HeadOk(a, m) && a'.size == a.size && a'.align == a.align && a'.used < a'.size && |a'.caches| < a'.size
    ensures HeadOk(a', Grown(m, a'.used, |a'.caches|)) && Outside(m, Grown(m, a'.used, |a'.caches|), 0, KMEM_SIZE)
  {
    var v := Header(a);
    var m1 := Put(m, Offset(UsedSize), INT, a'.used);
    FieldStored(m, v, UsedSize, a'.used, v.(used := a'.used));
    FieldStored(m1, v.(used := a'.used), FreePtr, a'.used, v.(used := a'.used, free := a'.used));
    FieldStored(Put(m1, Offset(FreePtr), PTR, a'.used), v.(used := a'.used, free := a'.used), Tots, |a'.caches|, Header(a'));
  }

  // ----- the arena -----

  ghost predicate CachesOk(a: Arena, m: Memory)
  {
    forall i :: 0 <= i < |a.caches| ==> a.caches[i] in Caches(m)
  }

  /** An arena as its bytes have it. */
  ghost predicate ArenaOk(a: Arena, m: Memory)
  {
    Sound(a) && HeadOk(a, m) && CachesOk(a, m)
  }

  /** The arenas that these bytes hold. */
  ghost function Arenas(m: Memory): iset<Arena>
  {
    iset a: Arena | ArenaOk(a, m)
  }

  /** The same, laid out with the given width of words. */
  ghost function Managed(m: Memory, word: nat): iset<Arena>
  {
    iset a: Arena | a in Arenas(m) && Aligned(a) && a.word == word
  }

  lemma StillManaged(a: Arena, m: Memory, word: nat, i: nat, free: seq<nat>, m': Memory, a': Arena)
    requires a in Managed(m, word) && i < |a.caches| && a' in Arenas(m')
    requires a' == a.(caches := a.caches[i := a.caches[i].(free := free)])
    ensures a' in Managed(m', word)
  {
    StillAligned(a, i, free);
  }

  /** One cache changed inside, and no other. */
  lemma CacheChanged(a: Arena, i: nat, m: Memory, m': Memory, c: Cache, a': Arena)
    requires a in Arenas(m) && i < |a.caches| && Outside(m, m', a.caches[i].base, End(a.caches[i]))
    requires a' == a.(caches := a.caches[i := c]) && Sound(a') && c in Caches(m')
    ensures a' in Arenas(m')
  {
    HeadSame(a, m, m');
    forall k | 0 <= k < |a.caches| && k != i ensures a.caches[k] in Caches(m') {
      CachesElsewhere(a, i, m, m', k);
    }
  }

  lemma AllocOk(a: Arena, i: nat, m: Memory, entry: nat, free: nat, used: nat)
    requires a in Arenas(m) && i < |a.caches| && a.caches[i].free != []
    requires var c := a.caches[i]; entry == ObjAddr(c, c.free[0]) && free == |c.free| - 1 && used == c.tots - |c.free| + 1
    ensures var m' := Taken(m, a.caches[i].base, entry, free, used);
      Allocated(a, i).1 in Arenas(m') && m' in Calm(a.caches[i], m)
  {
    TakenOk(a.caches[i], m);
    AllocatedIn(a, i, m, Taken(m, a.caches[i].base, entry, free, used));
  }

  lemma AllocatedIn(a: Arena, i: nat, m: Memory, m': Memory)
    requires a in Arenas(m) && i < |a.caches| && a.caches[i].free != [] && m' in Calm(a.caches[i], m)
    requires a.caches[i].(free := a.caches[i].free[1..]) in Caches(m')
    ensures Allocated(a, i).1 in Arenas(m')
  {
    AllocatedSound(a, i);
    CacheChanged(a, i, m, m', a.caches[i].(free := a.caches[i].free[1..]), Allocated(a, i).1);
  }

  lemma FreeOk(a: Arena, i: nat, j: nat, m: Memory, entry: nat, used: nat, free: nat)
    requires a in Arenas(m) && Outstanding(a, i, j)
    requires var c := a.caches[i]; entry == ObjAddr(c, j) && used == c.tots - |c.free| - 1 && free == |c.free| + 1
    ensures var m' := Returned(m, a.caches[i].base, entry, used, free);
      Freed(a, i, j) in Arenas(m') && m' in Calm(a.caches[i], m)
  {
    ReturnedOk(a.caches[i], m, j);
    FreedIn(a, i, j, m, Returned(m, a.caches[i].base, entry, used, free));
  }

  lemma FreedIn(a: Arena, i: nat, j: nat, m: Memory, m': Memory)
    requires a in Arenas(m) && Outstanding(a, i, j) && m' in Calm(a.caches[i], m)
    requires a.caches[i].(free := [j] + a.caches[i].free) in Caches(m')
    ensures Freed(a, i, j) in Arenas(m')
  {
    FreedSound(a, i, j);
    CacheChanged(a, i, m, m', a.caches[i].(free := [j] + a.caches[i].free), Freed(a, i, j));
  }

  lemma PokeOk(a: Arena, i: nat, j: nat, m: Memory, p: nat, v: Byte)
    requires a in Arenas(m) && Outstanding(a, i, j)
    requires BufAddr(a.caches[i], j) <= p < BufAddr(a.caches[i], j) + a.caches[i].memSize
    ensures p < |m| && a in Arenas(m[p := v])
  {
    PieceInside(a, Buffer(i, j));
    Elsewhere(a, i, j, p, KmemHeader);
    HeadSame(a, m, m[p := v]);
    forall k | 0 <= k < |a.caches| ensures a.caches[k] in Caches(m[p := v]) {
      WriteOk(a, i, j, m, p, v, k);
    }
  }

  lemma {:induction false} CachesFew(a: Arena, i: nat)
    requires Laid(a) && i < |a.caches|
    ensures i < End(a.caches[i])
  {
    if i > 0 {
      CachesFew(a, i - 1);
    }
  }

  lemma NewCacheFits(a: Arena, memSize: nat, tots: nat, m: Memory)
    requires a in Arenas(m) && Aligned(a) && memSize < 0x8000_0000 && Created(a, memSize, tots).0.Some?
    ensures var c := NewCache(a, memSize, tots);
      && Fitting(c, m) && c.base == a.used && Created(a, memSize, tots).1 == Extended(a, c)
      && Sound(Extended(a, c)) && Aligned(Extended(a, c))
  {
    var c := NewCache(a, memSize, tots);
    CreatedSound(a, memSize, tots);
    SetAlignRoundsUp(CACHE_SIZE, a.align, a.word);
    SetAlignRoundsUp(OBJ_SIZE + memSize + 2, a.align, a.word);
    assert c.stride * tots == tots * c.stride;
  }

  /** The old caches beside a new one. */
  lemma CachesBeside(a: Arena, c: Cache, m: Memory, m': Memory, m'': Memory)
    requires Laid(a) && CachesOk(a, m) && c.base == a.used
    requires Outside(m, m', c.base, End(c)) && Outside(m', m'', 0, KMEM_SIZE)
    ensures CachesOk(a, m'')
  {
    forall i | 0 <= i < |a.caches| ensures a.caches[i] in Caches(m'') {
      CacheElsewhere(a.caches[i], m, m'');
    }
  }

  function Extended(a: Arena, c: Cache): Arena
  {
    a.(used := a.used + c.bytes, caches := a.caches + [c])
  }

  /** A new cache behind all others, and then the arena's header. */
  lemma ExtendedOk(a: Arena, c: Cache, m: Memory, m': Memory)
    requires a in Arenas(m) && Sound(Extended(a, c))
    requires c.base == a.used && c in Caches(m') && Outside(m, m', c.base, End(c))
    ensures var a' := Extended(a, c); var m'' := Grown(m', a'.used, |a'.caches|);
      HeadOk(a, m') && a' in Arenas(m'') && Outside(m', m'', 0, KMEM_SIZE)
  {
    var a' := Extended(a, c);
    var m'' := Grown(m', a'.used, |a'.caches|);
    HeadSame(a, m, m');
    CachesFew(a', |a.caches|);
    GrownOk(a, m', a');
    CachesBeside(a, c, m, m', m'');
    CacheElsewhere(c, m', m'');
  }

  lemma ClearedBlank(c: Cache, m: Memory, zeroes: seq<Byte>)
    requires Fitting(c, m) && |zeroes| == c.bytes && forall k :: 0 <= k < |zeroes| ==> zeroes[k] == 0
    ensures Splice(m, c.base, zeroes) in Blank(c)
    ensures c.base + NAME <= |m| && Splice(m, c.base, zeroes)[c.base + NAME - 1] == 0
  {
    SpliceReads(m, c.base, zeroes);
    HeaderInside(c);
    var m' := Splice(m, c.base, zeroes);
    assert m'[c.base + NAME - 1] == m'[c.base..c.base + |zeroes|][NAME - 1];
    forall j: nat, q: nat | j < c.tots && InBuffer(c, j, q) && q < |m'| ensures m'[q] == 0 {
      ObjectInside(c, j);
      assert m'[q] == m'[c.base..c.base + |zeroes|][q - c.base];
    }
  }

  lemma BlankElsewhere(c: Cache, m: Memory, m': Memory)
    requires Roomy(c) && KMEM_SIZE <= c.base && m in Blank(c) && Outside(m, m', 0, KMEM_SIZE)
    ensures m' in Blank(c)
  {
    forall j: nat, q: nat | j < c.tots && InBuffer(c, j, q) && q < |m'| ensures m'[q] == 0 {
      ObjectInside(c, j);
    }
  }

  lemma BelowSame(m: Memory, m': Memory, m'': Memory, lo: nat, hi: nat)
    requires Outside(m, m', lo, hi) && Outside(m', m'', 0, KMEM_SIZE) && lo <= |m|
    ensures forall q :: KMEM_SIZE <= q < lo ==> m''[q] == m[q]
  {
  }

  /** The stores of `init_kmem`. */
  function Started(m: Memory, size: nat, align: nat, used: nat): Memory
  {
    Put(Put(Put(Put(Put(Put(m, Offset(Tots), INT, 0), Offset(Align), INT, align), Offset(Size), INT, size),
      Offset(UsedSize), INT, used), Offset(FreePtr), PTR, used), Offset(Lock), INT, 1)
  }

  lemma StartedOk(m: Memory, size: nat, align: nat, used: nat)
    requires KMEM_SIZE <= used < size == |m| < 0x8000_0000 && align < 0x8000_0000
    ensures Holds(Started(m, size, align, used), Fields(0, size, used, used, align, 1))
  {
    var v := Fields(Get(m, 0, INT), Get(m, 4, INT), Get(m, 8, INT), Get(m, 16, PTR), Get(m, 24, INT), Get(m, 28, INT));
    var m1 := Put(m, Offset(Tots), INT, 0);
    var m2 := Put(m1, Offset(Align), INT, align);
    var m3 := Put(m2, Offset(Size), INT, size);
    var m4 := Put(m3, Offset(UsedSize), INT, used);
    var v1 := v.(tots := 0);
    var v2 := v1.(align := align);
    var v3 := v2.(size := size);
    var v4 := v3.(used := used);
    FieldStored(m, v, Tots, 0, v1);
    FieldStored(m1, v1, Align, align, v2);
    FieldStored(m2, v2, Size, size, v3);
    FieldStored(m3, v3, UsedSize, used, v4);
    FieldStored(m4, v4, FreePtr, used, v4.(free := used));
    FieldStored(Put(m4, Offset(FreePtr), PTR, used), v4.(free := used), Lock, 1, v4.(free := used, lock := 1));
  }

  lemma CacheFields(c: Cache, m: Memory)
    requires c in Caches(m)
    ensures c.base + CACHE_SIZE <= |m| && Get(m, c.base + MEM_SIZE, INT) == c.memSize
    ensures Get(m, c.base + FREE, INT) == |c.free| <= c.tots && Get(m, c.base + USED, INT) == c.tots - |c.free|
  {
    HeaderInside(c);
  }

  /** What `kmem_cache_alloc` finds at the head of the free list. */
  lemma FirstFree(c: Cache, m: Memory)
    requires c in Caches(m) && c.free != []
    ensures var entry := ObjAddr(c, c.free[0]);
      && Get(m, c.base + FREE_OBJS, PTR) == entry && entry + OBJ_SIZE <= |m|
      && Get(m, entry + BUF, PTR) == BufAddr(c, c.free[0])
      && Get(m, entry, PTR) + LINK_SIZE <= |m| && Get(m, entry + PREV, PTR) + LINK_SIZE <= |m|
  {
    TakenLinks(c, m);
    TakenInside(c, m);
    assert ObjOk(c, c.free[0], m);
  }

  // ----- the guards -----

  /** `check_overflow` */
  function Overflown(m: Memory, bufp: Option<nat>, memSize: nat): int
    requires bufp.Some? ==> 1 <= bufp.value && bufp.value + memSize < |m|
  {
    if bufp.Some? && m[bufp.value - 1] == GUARD && m[bufp.value + memSize] == GUARD then 0 else -1
  }

  lemma NoFalseAlarm(a: Arena, i: nat, j: nat, m: Memory)
    requires a in Arenas(m) && i < |a.caches| && j < a.caches[i].tots
    ensures var c := a.caches[i]; BufAddr(c, j) + c.memSize < |m| && Overflown(m, Some(BufAddr(c, j)), c.memSize) == 0
  {
    assert a.caches[i] in Caches(m);
    assert ObjOk(a.caches[i], j, m);
  }

  /**
   A write that runs over either end of a buffer is reported exactly if it does not happen to
   put the guard's own value there.
   */
  lemma OverrunReported(a: Arena, i: nat, j: nat, m: Memory, p: nat, s: seq<Byte>, end: nat)
    requires a in Arenas(m) && i < |a.caches| && j < a.caches[i].tots && p <= end < p + |s| <= |m|
    requires var c := a.caches[i];
      || (end == BufAddr(c, j) + c.memSize && BufAddr(c, j) <= p)
      || (end == BufAddr(c, j) - 1 && p + |s| <= BufAddr(c, j) + c.memSize)
    ensures var c := a.caches[i]; BufAddr(c, j) + c.memSize < |m|
    ensures var c := a.caches[i]; Overflown(Splice(m, p, s), Some(BufAddr(c, j)), c.memSize) == 0 <==> s[end - p] == GUARD
  {
    NoFalseAlarm(a, i, j, m);
    GuardWritten(m, BufAddr(a.caches[i], j), a.caches[i].memSize, p, s, end);
  }

  lemma GuardWritten(m: Memory, buf: nat, memSize: nat, p: nat, s: seq<Byte>, end: nat)
    requires 1 <= buf && buf + memSize < |m| && Overflown(m, Some(buf), memSize) == 0 && p <= end < p + |s| <= |m|
    requires (end == buf + memSize && buf <= p) || (end == buf - 1 && p + |s| <= buf + memSize)
    ensures Overflown(Splice(m, p, s), Some(buf), memSize) == 0 <==> s[end - p] == GUARD
  {
    SpliceOutside(m, p, s);
    SpliceReads(m, p, s);
    assert Splice(m, p, s)[end] == Splice(m, p, s)[p..p + |s|][end - p];
  }

  // ----- the allocator -----

  /** An arena under management; `model` is what it is to its users. */
  class Kmem {
    const arena: array<Byte>
    const word: nat
    ghost var model: Arena

    ghost predicate Valid()
      reads this, arena
    {
      model in Managed(arena[..], word)
    }

    constructor (arena: array<Byte>, word: nat)
      ensures this.arena == arena && this.word == word
    {
      this.arena, this.word := arena, word;
    }

    // -- stores and loads --

    method Write(p: nat, s: seq<Byte>)
      requires p + |s| <= arena.Length
      modifies arena
      ensures arena[..] == Splice(old(arena[..]), p, s)
    {
      var k := 0;
      assert s[0..] == s;
      while k < |s|
        invariant 0 <= k <= |s|
        invariant Splice(arena[..], p + k, s[k..]) == Splice(old(arena[..]), p, s)
      {
        ghost var m := arena[..];
        arena[p + k] := s[k];
        assert arena[..] == m[p + k := s[k..][0]] && s[k..][1..] == s[k + 1..];
        k := k + 1;
      }
    }

    method Store(p: nat, w: nat, v: nat)
      requires p + w <= arena.Length
      modifies arena
      ensures arena[..] == Put(old(arena[..]), p, w, v)
    {
      assert arena[..][p..p + w] == arena[p..p + w];
      Write(p, Code(v, arena[p..p + w]));
    }

    method Load(p: nat, w: nat) returns (v: nat)
      requires p + w <= arena.Length
      ensures v == Get(arena[..], p, w)
    {
      v := Get(arena[..], p, w);
    }

    /** `INIT_LIST_HEAD` */
    method InitListHead(p: nat)
      requires p + LINK_SIZE <= arena.Length
      modifies arena
      ensures arena[..] == WithHead(old(arena[..]), p)
    {
      Store(p, PTR, p);
      Store(p + PREV, PTR, p);
    }

    /** `list_add` */
    method ListAdd(entry: nat, head: nat)
      requires entry + LINK_SIZE <= arena.Length && head + LINK_SIZE <= arena.Length
      requires Get(arena[..], head, PTR) + LINK_SIZE <= arena.Length
      modifies arena
      ensures arena[..] == WithEntry(old(arena[..]), entry, head)
    {
      var next := Load(head, PTR);
      Store(next + PREV, PTR, entry);
      Store(entry, PTR, next);
      Store(entry + PREV, PTR, head);
      Store(head, PTR, entry);
    }

    /** `list_del_init` */
    method ListDelInit(entry: nat)
      requires entry + LINK_SIZE <= arena.Length
      requires Get(arena[..], entry, PTR) + LINK_SIZE <= arena.Length
      requires Get(arena[..], entry + PREV, PTR) + LINK_SIZE <= arena.Length
      modifies arena
      ensures arena[..] == WithoutEntry(old(arena[..]), entry)
    {
      var prev := Load(entry + PREV, PTR);
      var next := Load(entry, PTR);
      Store(next + PREV, PTR, prev);
      Store(prev, PTR, next);
      InitListHead(entry);
    }

    /** The stores of `init_kmem`. */
    method Start(align: nat, realSize: nat)
      requires KMEM_SIZE <= realSize < arena.Length < 0x8000_0000
      requires var a := Arena(word, align, arena.Length, realSize, realSize, []);
        Aligned(a) && Holds(Started(arena[..], arena.Length, align, realSize), Header(a))
      modifies this`model, arena
      ensures Valid() && model == Arena(word, align, arena.Length, realSize, realSize, [])
    {
      ghost var started := Started(arena[..], arena.Length, align, realSize);
      Store(Offset(Tots), INT, 0);
      Store(Offset(Align), INT, align);
      Store(Offset(Size), INT, arena.Length);
      Store(Offset(UsedSize), INT, realSize);
      Store(Offset(FreePtr), PTR, realSize);
      Store(Offset(Lock), INT, 1);
      assert arena[..] == started;
      model := Arena(word, align, arena.Length, realSize, realSize, []);
    }

    // -- setting up a cache --

    /** `init_obj` */
    method InitObj(index: nat, memSize: nat)
      requires index + OBJ_SIZE + memSize + 2 <= arena.Length
      modifies arena
      ensures arena[..] == WithObj(old(arena[..]), index, memSize)
    {
      InitListHead(index);
      Write(index + OBJ_SIZE, [GUARD]);
      Store(index + BUF, PTR, index + OBJ_SIZE + 1);
      Write(index + OBJ_SIZE + 1 + memSize, [GUARD]);
    }

    /** The stores of `init_kmem_cache` to the header. */
    method InitHeader(cache: nat, memSize: nat, tots: nat)
      requires cache + CACHE_SIZE <= arena.Length
      modifies arena
      ensures arena[..] == WithHead(WithCounters(old(arena[..]), cache, memSize, tots), cache + FREE_OBJS)
    {
      Store(cache + MEM_SIZE, INT, memSize);
      Store(cache + TOTS, INT, tots);
      Store(cache + FREE, INT, tots);
      Store(cache + USED, INT, 0);
      InitListHead(cache + FREE_OBJS);
    }

    /** `init_kmem_cache` */
    method InitCache(cache: nat, name: seq<Byte>, memSize: nat, tots: nat, align: nat, ghost c: Cache)
      requires Fitting(c, arena[..]) && c.memSize < 0x8000_0000 && c.free == Countdown(c.tots)
      requires cache == c.base && memSize == c.memSize && tots == c.tots
      requires c.header == SetAlign(CACHE_SIZE, align, word) && c.stride == SetAlign(OBJ_SIZE + memSize + 2, align, word)
      modifies arena
      ensures c in Caches(arena[..]) && Outside(old(arena[..]), arena[..], c.base, End(c))
      ensures old(arena[..]) in Blank(c) ==> arena[..] in Blank(c)
      ensures arena[..] in Named(c, name, old(arena[..])[cache + NAME - 1])
    {
      var realSize, realMemSize := SetAlign(CACHE_SIZE, align, word), SetAlign(OBJ_SIZE + memSize + 2, align, word);
      HeaderInside(c);
      ghost var last := arena[cache + NAME - 1];
      NameHeader(cache, name, memSize, tots, c);
      var index: nat, left: nat := cache + realSize, tots;
      ghost var n: nat := 0;
      while left != 0
        modifies arena
        invariant n + left == tots && index == ObjAddr(c, n)
        invariant arena[..] in Makings(c, n, old(arena[..]))
        invariant arena[..] in Named(c, name, last)
        decreases left
      {
        AddObj(cache, index, memSize, c, n, old(arena[..]), name, last);
        NextObj(c, n);
        index, left, n := index + realMemSize, left - 1, n + 1;
      }
      MadeAll(c, old(arena[..]), arena[..]);
    }

    /** `init_kmem_cache` up to its loop. */
    method NameHeader(cache: nat, name: seq<Byte>, memSize: nat, tots: nat, ghost c: Cache)
      requires Fitting(c, arena[..]) && c.memSize < 0x8000_0000
      requires cache == c.base && memSize == c.memSize && tots == c.tots
      modifies arena
      ensures arena[..] in Makings(c, 0, old(arena[..]))
      ensures cache + NAME <= arena.Length && arena[..] in Named(c, name, old(arena[..])[cache + NAME - 1])
    {
      HeaderInside(c);
      SpliceOutside(arena[..], cache, NameBytes(name));
      Write(cache, NameBytes(name));
      NameWritten(c, name, old(arena[..]), arena[..]);
      HeaderNamed(c, name, old(arena[..])[cache + NAME - 1], arena[..]);
      MadeNone(c, old(arena[..]), arena[..]);
      InitHeader(cache, memSize, tots);
    }

    /** One turn of the loop of `init_kmem_cache`. */
    method AddObj(cache: nat, index: nat, memSize: nat, ghost c: Cache, ghost n: nat, ghost m0: Memory,
                  ghost name: seq<Byte>, ghost last: Byte)
      requires n < c.tots && arena[..] in Makings(c, n, m0) && arena[..] in Named(c, name, last)
      requires cache == c.base && memSize == c.memSize && index == ObjAddr(c, n)
      modifies arena
      ensures arena[..] in Makings(c, n + 1, m0) && arena[..] in Named(c, name, last)
    {
      ObjAdded(c, n, m0, arena[..], name, last);
      KeptInside(c, n, arena[..]);
      InitObj(index, memSize);
      KeptInside(c, n, arena[..]);
      ListAdd(index, cache + FREE_OBJS);
    }

    /** The space of a new cache cleared and set up. */
    method Carve(cache: nat, name: seq<Byte>, memSize: nat, tots: nat, align: nat, realSize: nat, ghost c: Cache)
      requires Fitting(c, arena[..]) && c.memSize < 0x8000_0000 && c.free == Countdown(c.tots)
      requires cache == c.base && memSize == c.memSize && tots == c.tots && realSize == c.bytes
      requires c.header == SetAlign(CACHE_SIZE, align, word) && c.stride == SetAlign(OBJ_SIZE + memSize + 2, align, word)
      modifies arena
      ensures c in Caches(arena[..]) && Outside(old(arena[..]), arena[..], c.base, End(c))
      ensures arena[..] in Blank(c) && arena[..] in Named(c, name, 0)
    {
      var zeroes := seq(realSize, _ => 0 as Byte);
      SpliceOutside(arena[..], cache, zeroes);
      ClearedBlank(c, arena[..], zeroes);
      Write(cache, zeroes);
      InitCache(cache, name, memSize, tots, align, c);
    }

    /** The arena's header after a cache was set up behind all others. */
    method GrowHeader(realSize: nat, ghost c: Cache, ghost m: Memory)
      requires model in Arenas(m) && model.word == word && realSize == c.bytes
      requires Sound(Extended(model, c)) && Aligned(Extended(model, c))
      requires c.base == model.used && c in Caches(arena[..]) && Outside(m, arena[..], c.base, End(c))
      modifies this`model, arena
      ensures Valid() && model == Extended(old(model), c) && Outside(old(arena[..]), arena[..], 0, KMEM_SIZE)
    {
      ghost var a := Extended(model, c);
      ExtendedOk(model, c, m, arena[..]);
      StoreHeader(realSize, model, a);
      model := a;
    }

    method StoreHeader(realSize: nat, ghost a: Arena, ghost a': Arena)
      requires HeadOk(a, arena[..])
      requires a'.used == a.used + realSize && |a'.caches| == |a.caches| + 1
      requires var grown := Grown(arena[..], a'.used, |a'.caches|);
        a' in Arenas(grown) && Outside(arena[..], grown, 0, KMEM_SIZE)
      modifies arena
      ensures a' in Arenas(arena[..]) && Outside(old(arena[..]), arena[..], 0, KMEM_SIZE)
    {
      ghost var grown := Grown(arena[..], a'.used, |a'.caches|);
      assert Holds(arena[..], Header(a));
      var used := Get(arena[..], Offset(UsedSize), Width(UsedSize));
      var free := Get(arena[..], Offset(FreePtr), Width(FreePtr));
      var n := Get(arena[..], Offset(Tots), Width(Tots));
      Store(Offset(UsedSize), INT, used + realSize);
      Store(Offset(FreePtr), PTR, free + realSize);
      Store(Offset(Tots), INT, n + 1);
      assert arena[..] == grown;
    }

    /** `kmem_cache_create` once the space is known to do. */
    method Extend(cache: nat, name: seq<Byte>, memSize: nat, tots: nat, align: nat, realSize: nat, ghost c: Cache)
      requires Valid() && Fitting(c, arena[..]) && c.memSize < 0x8000_0000 && c.free == Countdown(c.tots)
      requires cache == c.base == model.used && memSize == c.memSize && tots == c.tots && realSize == c.bytes
      requires c.header == SetAlign(CACHE_SIZE, align, word) && c.stride == SetAlign(OBJ_SIZE + memSize + 2, align, word)
      requires Sound(Extended(model, c)) && Aligned(Extended(model, c))
      modifies this`model, arena
      ensures Valid() && model == Extended(old(model), c)
      ensures arena[..] in Blank(c) && arena[..] in Named(c, name, 0)
      ensures forall q :: KMEM_SIZE <= q < old(model.used) ==> arena[q] == old(arena[q])
    {
      Carve(cache, name, memSize, tots, align, realSize, c);
      ghost var m := arena[..];
      GrowHeader(realSize, c, old(arena[..]));
      BelowSame(old(arena[..]), m, arena[..], c.base, End(c));
      BlankElsewhere(c, m, arena[..]);
      NameKept(c, name, 0, m, arena[..]);
    }

    /** `kmem_cache_create`; the caller keeps the space needed within the range of `int`. */
    method Create(name: seq<Byte>, memSize: nat, tots: nat) returns (r: Option<nat>)
      requires Valid() && memSize < 0x8000_0000 && NewCache(model, memSize, tots).bytes < 0x8000_0000
      modifies this`model, arena
      ensures Valid() && model == Created(old(model), memSize, tots).1
      ensures r == if Created(old(model), memSize, tots).0.None? then None else Some(old(model.used))
      ensures r.Some? ==> arena[..] in Blank(NewCache(old(model), memSize, tots))
      ensures r.Some? ==> arena[..] in Named(NewCache(old(model), memSize, tots), name, 0)
      ensures forall q :: KMEM_SIZE <= q < old(model.used) ==> arena[q] == old(arena[q])
    {
      assert Holds(arena[..], Header(model));
      var lock := Load(Offset(Lock), INT);
      if lock == 0 {
        return None;
      }
      var align := Load(Offset(Align), INT);
      var size := Load(Offset(Size), INT);
      var used := Load(Offset(UsedSize), INT);
      var realSize := SetAlign(CACHE_SIZE, align, word) + SetAlign(OBJ_SIZE + memSize + 2, align, word) * tots;
      if size - used <= realSize {
        return None;
      }
      var cache := Load(Offset(FreePtr), PTR);
      ghost var c := NewCache(model, memSize, tots);
      NewCacheFits(model, memSize, tots, arena[..]);
      Extend(cache, name, memSize, tots, align, realSize, c);
      r := Some(cache);
    }

    // -- allocating and freeing --

    /** `kmem_cache_alloc` */
    method Alloc(cache: nat, ghost i: nat) returns (r: Option<nat>)
      requires Valid() && i < |model.caches| && cache == model.caches[i].base
      modifies this`model, arena
      ensures Valid() && r == Allocated(old(model), i).0 && model == Allocated(old(model), i).1
      ensures arena[..] in Calm(old(model.caches[i]), old(arena[..]))
    {
      ghost var a, c := Allocated(model, i), model.caches[i];
      var used, free := Counts(cache, c);
      if free == 0 {
        return None;
      }
      var entry, buf := FirstEntry(cache, c);
      r := Some(buf);
      assert r == a.0;
      Take(cache, entry, free - 1, used + 1, i);
      StillManaged(model, old(arena[..]), word, i, c.free[1..], arena[..], a.1);
      model := a.1;
    }

    /** The counters of a cache. */
    method Counts(cache: nat, ghost c: Cache) returns (used: nat, free: nat)
      requires c in Caches(arena[..]) && cache == c.base
      ensures used == c.tots - |c.free| && free == |c.free| <= c.tots
    {
      CacheFields(c, arena[..]);
      used := Load(cache + USED, INT);
      free := Load(cache + FREE, INT);
    }

    /** The first object of the free list, and its buffer. */
    method FirstEntry(cache: nat, ghost c: Cache) returns (entry: nat, buf: nat)
      requires c in Caches(arena[..]) && cache == c.base && c.free != []
      ensures entry == ObjAddr(c, c.free[0]) && buf == BufAddr(c, c.free[0])
    {
      FirstFree(c, arena[..]);
      CacheFields(c, arena[..]);
      entry := Load(cache + FREE_OBJS, PTR);
      buf := Load(entry + BUF, PTR);
    }

    method Take(cache: nat, entry: nat, free: nat, used: nat, ghost i: nat)
      requires model in Arenas(arena[..]) && i < |model.caches| && cache == model.caches[i].base && model.caches[i].free != []
      requires var c := model.caches[i]; entry == ObjAddr(c, c.free[0]) && free == |c.free| - 1 && used == c.tots - |c.free| + 1
      modifies arena
      ensures Allocated(model, i).1 in Arenas(arena[..]) && arena[..] in Calm(model.caches[i], old(arena[..]))
    {
      ghost var taken := Taken(arena[..], cache, entry, free, used);
      AllocOk(model, i, arena[..], entry, free, used);
      CacheFields(model.caches[i], arena[..]);
      FirstFree(model.caches[i], arena[..]);
      Detach(cache, entry, free, used);
      assert arena[..] == taken;
    }

    /** The stores of `kmem_cache_alloc`. */
    method Detach(cache: nat, entry: nat, free: nat, used: nat)
      requires cache + CACHE_SIZE <= arena.Length && entry + LINK_SIZE <= arena.Length
      requires Get(arena[..], entry, PTR) + LINK_SIZE <= arena.Length
      requires Get(arena[..], entry + PREV, PTR) + LINK_SIZE <= arena.Length
      modifies arena
      ensures arena[..] == Taken(old(arena[..]), cache, entry, free, used)
    {
      ListDelInit(entry);
      Store(cache + FREE, INT, free);
      Store(cache + USED, INT, used);
    }

    /** `kmem_cache_free` */
    method Free(cache: nat, bufp: nat, ghost i: nat, ghost j: nat)
      requires Valid() && Outstanding(model, i, j)
      requires cache == model.caches[i].base && bufp == BufAddr(model.caches[i], j)
      modifies this`model, arena
      ensures Valid() && model == Freed(old(model), i, j)
      ensures arena[..] in Calm(old(model.caches[i]), old(arena[..]))
    {
      ghost var a, c := Freed(model, i, j), model.caches[i];
      NotAllFree(c, j);
      var used, free := Counts(cache, c);
      Return(cache, bufp - OBJ_SIZE - 1, used - 1, free + 1, i, j);
      StillManaged(model, old(arena[..]), word, i, [j] + c.free, arena[..], a);
      model := a;
    }

    /** The stores of `kmem_cache_free`. */
    method Return(cache: nat, entry: nat, used: nat, free: nat, ghost i: nat, ghost j: nat)
      requires model in Arenas(arena[..]) && Outstanding(model, i, j) && cache == model.caches[i].base
      requires var c := model.caches[i]; entry == ObjAddr(c, j) && used == c.tots - |c.free| - 1 && free == |c.free| + 1
      modifies arena
      ensures Freed(model, i, j) in Arenas(arena[..]) && arena[..] in Calm(model.caches[i], old(arena[..]))
    {
      ghost var returned := Returned(arena[..], cache, entry, used, free);
      FreeOk(model, i, j, arena[..], entry, used, free);
      CacheFields(model.caches[i], arena[..]);
      ReturnedInside(model.caches[i], arena[..], j);
      ListAdd(entry, cache + FREE_OBJS);
      Store(cache + USED, INT, used);
      Store(cache + FREE, INT, free);
      assert arena[..] == returned;
    }

    /** `kmem_cache_checkoverflow`, whatever the memory holds. */
    method CheckOverflow(cache: nat, bufp: Option<nat>) returns (r: int)
      requires cache + MEM_SIZE + INT <= arena.Length
      requires bufp.Some? ==> 1 <= bufp.value && bufp.value + Get(arena[..], cache + MEM_SIZE, INT) < arena.Length
      ensures r == 0 || r == -1
      ensures r == 0 <==>
              bufp.Some? && arena[bufp.value - 1] == 0xff && arena[bufp.value + Get(arena[..], cache + MEM_SIZE, INT)] == 0xff
    {
      var memSize := Load(cache + MEM_SIZE, INT);
      r := Overflown(arena[..], bufp, memSize);
    }

    /** While users keep to their buffers it never complains. */
    method CheckObject(cache: nat, bufp: nat, ghost i: nat, ghost j: nat) returns (r: int)
      requires Valid() && i < |model.caches| && j < model.caches[i].tots
      requires cache == model.caches[i].base && bufp == BufAddr(model.caches[i], j)
      ensures r == 0
    {
      CacheFields(model.caches[i], arena[..]);
      NoFalseAlarm(model, i, j, arena[..]);
      r := CheckOverflow(cache, Some(bufp));
    }

    // -- what users do --

    /** A user writes a byte of a buffer. */
    method Poke(p: nat, v: Byte, ghost i: nat, ghost j: nat)
      requires Valid() && Outstanding(model, i, j)
      requires BufAddr(model.caches[i], j) <= p < BufAddr(model.caches[i], j) + model.caches[i].memSize
      modifies arena
      ensures Valid() && p < arena.Length && arena[..] == old(arena[..])[p := v]
    {
      PokeOk(model, i, j, arena[..], p, v);
      ghost var poked := arena[..][p := v];
      arena[p] := v;
      assert arena[..] == poked;
    }
  }

  /** `init_kmem` on memory of the given size: nothing when it has no room beside the arena's header. */
  method InitKmem(arena: array<Byte>, align: nat, word: nat) returns (k: Kmem?)
    requires GoodAlign(align) && 33 <= word && arena.Length < 0x8000_0000
    modifies arena
    ensures k == null <==> arena.Length <= SetAlign(32, align, word)
    ensures k == null ==> arena[..] == old(arena[..])
    ensures k != null ==>
      && fresh(k) && k.arena == arena && k.Valid()
      && k.model == Arena(word, align, arena.Length, SetAlign(32, align, word), SetAlign(32, align, word), [])
  {
    var realSize := SetAlign(KMEM_SIZE, align, word);
    if arena.Length <= realSize {
      return null;
    }
    SetAlignRoundsUp(KMEM_SIZE, align, word);
    Pow2Below31(align);
    StartedOk(arena[..], arena.Length, align, realSize);
    k := new Kmem(arena, word);
    k.Start(align, realSize);
  }
}
