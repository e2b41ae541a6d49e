/**
 The slab allocator against an ideal heap.

 The ideal heap has pools that hand out at most so many blocks, and every block is a value of
 its own: there are no addresses, so nothing done to one block can reach another.  A client of
 the real allocator sees exactly what a client of the ideal heap sees, in every run.
 */
module SlabHeap {
  import opened Options
  import opened SlabLayout
  import opened SlabMemory
  import opened SlabModel
  import opened Slab
  import opened SlabArena

  /** What a client calls its blocks. */
  datatype Name = Name(id: nat)

  datatype Pool = Pool(memSize: nat, tots: nat)

  datatype Block = Block(pool: nat, size: nat, content: map<nat, Byte>)

  datatype Heap = Heap(word: nat, align: nat, room: int, pools: seq<Pool>, blocks: map<Name, Block>)

  /** What a client may ask for; it names its blocks. */
  datatype Op =
    | Create(title: seq<Byte>, memSize: nat, tots: nat)
    | Allocate(pool: nat, name: Name)
    | Release(name: Name)
    | Write(name: Name, k: nat, v: Byte)
    | Read(name: Name, k: nat)
    | Check(name: Name)

  datatype Result = Done(ok: bool) | Value(v: int)

  function Need(h: Heap, memSize: nat, tots: nat): int
  {
    SetAlign(CACHE_SIZE, h.align, h.word) + SetAlign(OBJ_SIZE + memSize + 2, h.align, h.word) * tots
  }

  /** The blocks handed out from a pool. */
  function Names(blocks: map<Name, Block>, pool: nat): set<Name>
  {
    set n | n in blocks && blocks[n].pool == pool
  }

  /** What a client has to keep to. */
  predicate Legal(h: Heap, op: Op)
  {
    match op
    case Create(title, memSize, tots) => memSize < 0x8000_0000 && Need(h, memSize, tots) < 0x8000_0000
    case Allocate(pool, name) => pool < |h.pools| && name !in h.blocks
    case Release(name) => name in h.blocks
    case Write(name, k, v) => name in h.blocks && k < h.blocks[name].size
    case Read(name, k) => name in h.blocks && k in h.blocks[name].content
    case Check(name) => name in h.blocks
  }

  function DoCreate(h: Heap, memSize: nat, tots: nat): (Heap, Result)
  {
    if h.room <= Need(h, memSize, tots) then (h, Done(false))
    else (h.(room := h.room - Need(h, memSize, tots), pools := h.pools + [Pool(memSize, tots)]), Done(true))
  }

  function DoAllocate(h: Heap, pool: nat, name: Name): (Heap, Result)
    requires Legal(h, Allocate(pool, name))
  {
    if |Names(h.blocks, pool)| == h.pools[pool].tots then (h, Done(false))
    else (h.(blocks := h.blocks[name := Block(pool, h.pools[pool].memSize, map[])]), Done(true))
  }

  function DoRelease(h: Heap, name: Name): (Heap, Result)
  {
    (h.(blocks := h.blocks - {name}), Done(true))
  }

  function DoWrite(h: Heap, name: Name, k: nat, v: Byte): (Heap, Result)
    requires Legal(h, Write(name, k, v))
  {
    var b := h.blocks[name];
    (h.(blocks := h.blocks[name := b.(content := b.content[k := v])]), Done(true))
  }

  function DoRead(h: Heap, name: Name, k: nat): (Heap, Result)
    requires Legal(h, Read(name, k))
  {
    (h, Value(h.blocks[name].content[k]))
  }

  function Do(h: Heap, op: Op): (Heap, Result)
    requires Legal(h, op)
  {
    match op
    case Create(title, memSize, tots) => DoCreate(h, memSize, tots)
    case Allocate(pool, name) => DoAllocate(h, pool, name)
    case Release(name) => DoRelease(h, name)
    case Write(name, k, v) => DoWrite(h, name, k, v)
    case Read(name, k) => DoRead(h, name, k)
    case Check(name) => (h, Value(0))
  }

  predicate LegalRun(h: Heap, ops: seq<Op>)
    decreases |ops|
  {
    ops == [] || (Legal(h, ops[0]) && LegalRun(Do(h, ops[0]).0, ops[1..]))
  }

  function Results(h: Heap, ops: seq<Op>): seq<Result>
    requires LegalRun(h, ops)
    decreases |ops|
  {
    if ops == [] then [] else [Do(h, ops[0]).1] + Results(Do(h, ops[0]).0, ops[1..])
  }

  // ----- what a block holds -----

  function Final(h: Heap, ops: seq<Op>): Heap
    requires LegalRun(h, ops)
    decreases |ops|
  {
    if ops == [] then h else Final(Do(h, ops[0]).0, ops[1..])
  }

  /** The operation neither gives the block back nor writes its byte `k`. */
  predicate Spares(op: Op, name: Name, k: nat)
  {
    && !(op.Release? && op.name == name)
    && !(op.Write? && op.name == name && op.k == k)
  }

  lemma {:induction false} ByteStays(h: Heap, ops: seq<Op>, name: Name, k: nat)
    requires LegalRun(h, ops) && name in h.blocks && k in h.blocks[name].content
    requires forall i :: 0 <= i < |ops| ==> Spares(ops[i], name, k)
    ensures name in Final(h, ops).blocks && k in Final(h, ops).blocks[name].content
    ensures Final(h, ops).blocks[name].content[k] == h.blocks[name].content[k]
    decreases |ops|
  {
    if ops != [] {
      assert Spares(ops[0], name, k);
      ByteStays(Do(h, ops[0]).0, ops[1..], name, k);
    }
  }

  /** In every run a byte of a block reads as it was last written, as long as the block is not given back. */
  lemma ReadsLastWrite(h: Heap, name: Name, k: nat, v: Byte, ops: seq<Op>)
    requires LegalRun(h, [Write(name, k, v)] + ops)
    requires forall i :: 0 <= i < |ops| ==> Spares(ops[i], name, k)
    ensures var h' := Final(h, [Write(name, k, v)] + ops);
      Legal(h', Read(name, k)) && Do(h', Read(name, k)) == (h', Value(v))
  {
    var run := [Write(name, k, v)] + ops;
    assert run[1..] == ops;
    ByteStays(Do(h, run[0]).0, ops, name, k);
  }

  /** A block is out from its allocation on until it is given back, and while it is out it takes up its place. */
  lemma {:induction false} OutUntilReleased(h: Heap, name: Name, ops: seq<Op>)
    requires LegalRun(h, ops) && forall i :: 0 <= i < |ops| ==> !(ops[i].Release? && ops[i].name == name)
    ensures name in h.blocks ==> name in Final(h, ops).blocks
    ensures name in h.blocks ==> Final(h, ops).blocks[name].pool == h.blocks[name].pool
    decreases |ops|
  {
    if ops != [] {
      OutUntilReleased(Do(h, ops[0]).0, name, ops[1..]);
    }
  }

  /** Releasing a block makes room for exactly one more in its pool. */
  lemma ReleaseMakesRoom(h: Heap, name: Name, other: Name)
    requires Legal(h, Release(name)) && other !in h.blocks
    requires h.blocks[name].pool < |h.pools|
    requires |Names(h.blocks, h.blocks[name].pool)| <= h.pools[h.blocks[name].pool].tots
    ensures var h', pool := Do(h, Release(name)).0, h.blocks[name].pool;
      && name !in h'.blocks && Legal(h', Allocate(pool, other))
      && Do(h', Allocate(pool, other)).1 == Done(true)
      && |Names(Do(h', Allocate(pool, other)).0.blocks, pool)| == |Names(h.blocks, pool)|
  {
    var pool := h.blocks[name].pool;
    var h' := Do(h, Release(name)).0;
    assert Names(h'.blocks, pool) == Names(h.blocks, pool) - {name} && name in Names(h.blocks, pool);
    var h'' := Do(h', Allocate(pool, other)).0;
    assert Names(h''.blocks, pool) == Names(h'.blocks, pool) + {other};
  }

  // ----- the heap in the arena -----

  /** What the client holds of a block: the number of its cache, and a pointer. */
  datatype Held = Held(pool: nat, addr: nat)

  ghost predicate Shape(h: Heap, a: Arena, caches: seq<nat>)
  {
    && h.word == a.word && h.align == a.align && h.room == a.size - a.used
    && |h.pools| == |a.caches| == |caches|
    && forall i :: 0 <= i < |caches| ==>
         && caches[i] == a.caches[i].base
         && h.pools[i] == Pool(a.caches[i].memSize, a.caches[i].tots)
  }

  /** A block is the buffer of object `j` of its cache, and that object is not free. */
  predicate Home(b: Block, cs: seq<Cache>, held: Held, j: nat)
  {
    && held.pool == b.pool < |cs| && j < cs[b.pool].tots && j !in cs[b.pool].free
    && held.addr == BufAddr(cs[b.pool], j) && b.size == cs[b.pool].memSize
  }

  /** Two blocks from one pool are two objects. */
  predicate Apart(blocks: map<Name, Block>, place: map<Name, nat>, n: Name, o: Name)
  {
    n in blocks && o in blocks && n != o && blocks[n].pool == blocks[o].pool ==>
      n in place && o in place && place[n] != place[o]
  }

  ghost predicate Placed(blocks: map<Name, Block>, cs: seq<Cache>, held: map<Name, Held>, place: map<Name, nat>)
  {
    && (forall n :: n in blocks ==> n in held && n in place && Home(blocks[n], cs, held[n], place[n]))
    && (forall n, o :: Apart(blocks, place, n, o))
  }

  ghost predicate Counted(blocks: map<Name, Block>, cs: seq<Cache>)
  {
    forall i :: 0 <= i < |cs| ==> |Names(blocks, i)| + |cs[i].free| == cs[i].tots
  }

  ghost predicate Kept(b: Block, addr: nat, m: Memory)
  {
    forall k :: k in b.content ==> k < b.size && addr + k < |m| && m[addr + k] == b.content[k]
  }

  ghost predicate Stored(blocks: map<Name, Block>, held: map<Name, Held>, m: Memory)
  {
    forall n :: n in blocks ==> n in held && Kept(blocks[n], held[n].addr, m)
  }

  ghost predicate Simulates(h: Heap, a: Arena, m: Memory, caches: seq<nat>, held: map<Name, Held>, place: map<Name, nat>)
  {
    && Shape(h, a, caches)
    && Placed(h.blocks, a.caches, held, place) && Counted(h.blocks, a.caches) && Stored(h.blocks, held, m)
  }

  /** The heaps that an arena, its bytes and a client's variables stand for. */
  ghost function Images(a: Arena, m: Memory, caches: seq<nat>, held: map<Name, Held>, place: map<Name, nat>): iset<Heap>
  {
    iset h: Heap | Simulates(h, a, m, caches, held, place)
  }

  /** A client's pointers to a block and its cache are the ones the allocator asks for. */
  lemma Pointers(h: Heap, a: Arena, m: Memory, caches: seq<nat>, held: map<Name, Held>, place: map<Name, nat>, name: Name)
    requires h in Images(a, m, caches, held, place) && name in h.blocks
    ensures name in held && name in place && Outstanding(a, held[name].pool, place[name])
    ensures held[name].pool < |caches| && caches[held[name].pool] == a.caches[held[name].pool].base
    ensures held[name].addr == BufAddr(a.caches[held[name].pool], place[name])
    ensures h.blocks[name].size == a.caches[held[name].pool].memSize
  {
    assert Home(h.blocks[name], a.caches, held[name], place[name]);
  }

  // ----- memory changed elsewhere -----

  lemma KeptSame(b: Block, addr: nat, m: Memory, m': Memory)
    requires Kept(b, addr, m) && |m'| == |m| && forall q :: addr <= q < addr + b.size && q < |m| ==> m'[q] == m[q]
    ensures Kept(b, addr, m')
  {
  }

  /** The bytes of a block when a cache only changes which of its objects are free. */
  lemma BlockCalm(b: Block, a: Arena, held: Held, j: nat, m: Memory, m': Memory, i: nat)
    requires Laid(a) && Home(b, a.caches, held, j) && i < |a.caches| && m' in Calm(a.caches[i], m) && Kept(b, held.addr, m)
    ensures Kept(b, held.addr, m')
  {
    var c := a.caches[b.pool];
    ObjectInside(c, j);
    if b.pool == i {
      assert BodySame(c, j, m, m');
      assert forall q :: held.addr <= q < held.addr + b.size ==> InBody(c, j, q);
    }
    KeptSame(b, held.addr, m, m');
  }

  lemma StoredCalm(blocks: map<Name, Block>, a: Arena, held: map<Name, Held>, place: map<Name, nat>, m: Memory, m': Memory, i: nat)
    requires Laid(a) && Placed(blocks, a.caches, held, place) && Stored(blocks, held, m)
    requires i < |a.caches| && m' in Calm(a.caches[i], m)
    ensures Stored(blocks, held, m')
  {
    forall n | n in blocks ensures Kept(blocks[n], held[n].addr, m') {
      BlockCalm(blocks[n], a, held[n], place[n], m, m', i);
    }
  }

  lemma StoredBelow(blocks: map<Name, Block>, a: Arena, held: map<Name, Held>, place: map<Name, nat>, m: Memory, m': Memory)
    requires Laid(a) && Placed(blocks, a.caches, held, place) && Stored(blocks, held, m)
    requires |m'| == |m| && a.used <= |m| && forall q :: KMEM_SIZE <= q < a.used ==> m'[q] == m[q]
    ensures Stored(blocks, held, m')
  {
    forall n | n in blocks ensures Kept(blocks[n], held[n].addr, m') {
      assert Home(blocks[n], a.caches, held[n], place[n]);
      PieceInside(a, Buffer(blocks[n].pool, place[n]));
      KeptSame(blocks[n], held[n].addr, m, m');
    }
  }

  // ----- a new cache -----

  lemma MoreCaches(blocks: map<Name, Block>, cs: seq<Cache>, held: map<Name, Held>, place: map<Name, nat>, c: Cache)
    requires Placed(blocks, cs, held, place) && Counted(blocks, cs) && |c.free| == c.tots
    ensures Placed(blocks, cs + [c], held, place) && Counted(blocks, cs + [c])
  {
    forall n | n in blocks ensures Home(blocks[n], cs + [c], held[n], place[n]) {
      assert Home(blocks[n], cs, held[n], place[n]);
    }
    assert Names(blocks, |cs|) == {};
  }

  lemma CreateSimulates(h: Heap, a: Arena, m: Memory, m': Memory, caches: seq<nat>,
                        held: map<Name, Held>, place: map<Name, nat>, memSize: nat, tots: nat)
    requires Laid(a) && h in Images(a, m, caches, held, place)
    requires Created(a, memSize, tots).0.Some?
    requires |m'| == |m| && a.used <= |m| && forall q :: KMEM_SIZE <= q < a.used ==> m'[q] == m[q]
    ensures DoCreate(h, memSize, tots).1 == Done(true)
    ensures DoCreate(h, memSize, tots).0 in Images(Created(a, memSize, tots).1, m', caches + [a.used], held, place)
  {
    MoreCaches(h.blocks, a.caches, held, place, NewCache(a, memSize, tots));
    StoredBelow(h.blocks, a, held, place, m, m');
  }

  // ----- a new block -----

  /** The caches after the free list of one of them has changed. */
  function Restocked(cs: seq<Cache>, i: nat, free: seq<nat>): (r: seq<Cache>)
    requires i < |cs|
    ensures |r| == |cs|
  {
    cs[i := cs[i].(free := free)]
  }

  lemma AllocatePlaced(blocks: map<Name, Block>, cs: seq<Cache>, held: map<Name, Held>, place: map<Name, nat>,
                       name: Name, b: Block, addr: nat)
    requires Placed(blocks, cs, held, place) && name !in blocks && b.pool < |cs|
    requires Stocked(cs[b.pool]) && cs[b.pool].free != []
    requires addr == BufAddr(cs[b.pool], cs[b.pool].free[0]) && b.size == cs[b.pool].memSize
    ensures Placed(blocks[name := b], Restocked(cs, b.pool, cs[b.pool].free[1..]),
              held[name := Held(b.pool, addr)], place[name := cs[b.pool].free[0]])
  {
    var c := cs[b.pool];
    var cs', place' := Restocked(cs, b.pool, c.free[1..]), place[name := c.free[0]];
    forall n | n in blocks
      ensures Home(blocks[n], cs', held[n], place[n]) && (blocks[n].pool == b.pool ==> place[n] != c.free[0])
    {
      assert Home(blocks[n], cs, held[n], place[n]);
    }
    var blocks' := blocks[name := b];
    forall n, o ensures Apart(blocks', place', n, o) {
      assert Apart(blocks, place, n, o);
    }
  }

  lemma AllocateCounted(blocks: map<Name, Block>, cs: seq<Cache>, name: Name, b: Block)
    requires Counted(blocks, cs) && name !in blocks && b.pool < |cs| && cs[b.pool].free != []
    ensures Counted(blocks[name := b], Restocked(cs, b.pool, cs[b.pool].free[1..]))
  {
    assert Names(blocks[name := b], b.pool) == Names(blocks, b.pool) + {name};
    assert forall i: nat :: i != b.pool ==> Names(blocks[name := b], i) == Names(blocks, i);
  }

  /** What is free in a cache, and which blocks there are, has no part in the shape of things. */
  lemma ShapeKept(h: Heap, a: Arena, caches: seq<nat>, i: nat, free: seq<nat>, blocks: map<Name, Block>)
    requires Shape(h, a, caches) && i < |a.caches|
    ensures Shape(h.(blocks := blocks), a.(caches := Restocked(a.caches, i, free)), caches)
  {
  }

  /** The real allocator has nothing left exactly when the ideal pool is used up. */
  lemma ExhaustedTogether(h: Heap, a: Arena, caches: seq<nat>, pool: nat, name: Name)
    requires Shape(h, a, caches) && Counted(h.blocks, a.caches) && Legal(h, Allocate(pool, name))
    ensures Allocated(a, pool).0.None? <==> DoAllocate(h, pool, name).1 == Done(false)
    ensures Allocated(a, pool).0.None? ==> DoAllocate(h, pool, name).0 == h
  {
    assert |Names(h.blocks, pool)| + |a.caches[pool].free| == a.caches[pool].tots;
  }

  lemma AllocateSimulates(h: Heap, a: Arena, m: Memory, m': Memory, caches: seq<nat>,
                          held: map<Name, Held>, place: map<Name, nat>, pool: nat, name: Name)
    requires Sound(a) && h in Images(a, m, caches, held, place) && Legal(h, Allocate(pool, name))
    requires Allocated(a, pool).0.Some? && m' in Calm(a.caches[pool], m)
    ensures DoAllocate(h, pool, name).1 == Done(true)
    ensures DoAllocate(h, pool, name).0 in Images(Allocated(a, pool).1, m', caches,
      held[name := Held(pool, Allocated(a, pool).0.value)], place[name := a.caches[pool].free[0]])
  {
    var b, addr := Block(pool, h.pools[pool].memSize, map[]), Allocated(a, pool).0.value;
    ExhaustedTogether(h, a, caches, pool, name);
    ShapeKept(h, a, caches, pool, a.caches[pool].free[1..], h.blocks[name := b]);
    AllocatePlaced(h.blocks, a.caches, held, place, name, b, addr);
    AllocateCounted(h.blocks, a.caches, name, b);
    StoredCalm(h.blocks, a, held, place, m, m', pool);
  }

  // ----- a block given back -----

  lemma ReleasePlaced(blocks: map<Name, Block>, cs: seq<Cache>, held: map<Name, Held>, place: map<Name, nat>, name: Name)
    requires Placed(blocks, cs, held, place) && name in blocks && blocks[name].pool < |cs|
    ensures Placed(blocks - {name}, Restocked(cs, blocks[name].pool, [place[name]] + cs[blocks[name].pool].free),
              held - {name}, place - {name})
  {
    var i := blocks[name].pool;
    var cs' := Restocked(cs, i, [place[name]] + cs[i].free);
    forall n | n in blocks && n != name ensures Home(blocks[n], cs', held[n], place[n]) {
      assert Home(blocks[n], cs, held[n], place[n]) && Apart(blocks, place, n, name);
    }
    forall n, o ensures Apart(blocks - {name}, place - {name}, n, o) {
      assert Apart(blocks, place, n, o);
    }
  }

  lemma ReleaseCounted(blocks: map<Name, Block>, cs: seq<Cache>, name: Name, j: nat)
    requires Counted(blocks, cs) && name in blocks && blocks[name].pool < |cs|
    ensures Counted(blocks - {name}, Restocked(cs, blocks[name].pool, [j] + cs[blocks[name].pool].free))
  {
    var i := blocks[name].pool;
    assert Names(blocks, i) == Names(blocks - {name}, i) + {name};
    assert forall k: nat :: k != i ==> Names(blocks - {name}, k) == Names(blocks, k);
  }

  lemma ReleaseSimulates(h: Heap, a: Arena, m: Memory, m': Memory, caches: seq<nat>,
                         held: map<Name, Held>, place: map<Name, nat>, name: Name)
    requires Laid(a) && h in Images(a, m, caches, held, place) && Legal(h, Release(name))
    requires held[name].pool < |a.caches| && m' in Calm(a.caches[held[name].pool], m)
    ensures DoRelease(h, name).0 in Images(Freed(a, held[name].pool, place[name]), m', caches, held - {name}, place - {name})
  {
    assert Home(h.blocks[name], a.caches, held[name], place[name]);
    var i := held[name].pool;
    ShapeKept(h, a, caches, i, [place[name]] + a.caches[i].free, h.blocks - {name});
    ReleasePlaced(h.blocks, a.caches, held, place, name);
    ReleaseCounted(h.blocks, a.caches, name, place[name]);
    StoredCalm(h.blocks, a, held, place, m, m', i);
  }

  // ----- a write -----

  lemma WriteKept(b: Block, addr: nat, m: Memory, k: nat, v: Byte)
    requires Kept(b, addr, m) && k < b.size && addr + k < |m|
    ensures Kept(b.(content := b.content[k := v]), addr, m[addr + k := v])
  {
  }

  /** A byte of one block is not a byte of another. */
  lemma BlocksApart(a: Arena, b: Block, o: Block, held: Held, held': Held, j: nat, j': nat)
    requires Laid(a) && Home(b, a.caches, held, j) && Home(o, a.caches, held', j')
    requires b.pool != o.pool || j != j'
    ensures held.addr + b.size <= held'.addr || held'.addr + o.size <= held.addr
  {
    PiecesApart(a, Buffer(b.pool, j), Buffer(o.pool, j'));
  }

  lemma WriteStored(blocks: map<Name, Block>, a: Arena, m: Memory, held: map<Name, Held>,
                    place: map<Name, nat>, name: Name, k: nat, v: Byte, m': Memory)
    requires Laid(a) && Placed(blocks, a.caches, held, place) && Stored(blocks, held, m)
    requires name in blocks && k < blocks[name].size && held[name].addr + k < |m| && m' == m[held[name].addr + k := v]
    ensures Stored(blocks[name := blocks[name].(content := blocks[name].content[k := v])], held, m')
  {
    WriteKept(blocks[name], held[name].addr, m, k, v);
    forall n | n in blocks && n != name ensures Kept(blocks[n], held[n].addr, m') {
      assert Apart(blocks, place, n, name);
      BlocksApart(a, blocks[n], blocks[name], held[n], held[name], place[n], place[name]);
      KeptSame(blocks[n], held[n].addr, m, m');
    }
  }

  /** What a block holds has no part in where it is. */
  lemma ContentAside(blocks: map<Name, Block>, cs: seq<Cache>, held: map<Name, Held>, place: map<Name, nat>,
                     name: Name, content: map<nat, Byte>)
    requires Placed(blocks, cs, held, place) && Counted(blocks, cs) && name in blocks
    ensures Placed(blocks[name := blocks[name].(content := content)], cs, held, place)
    ensures Counted(blocks[name := blocks[name].(content := content)], cs)
  {
    var blocks' := blocks[name := blocks[name].(content := content)];
    assert forall i: nat :: Names(blocks', i) == Names(blocks, i);
    forall n, o ensures Apart(blocks', place, n, o) {
      assert Apart(blocks, place, n, o);
    }
  }

  lemma WriteSimulates(h: Heap, a: Arena, m: Memory, m': Memory, caches: seq<nat>,
                       held: map<Name, Held>, place: map<Name, nat>, name: Name, k: nat, v: Byte, p: nat)
    requires Laid(a) && h in Images(a, m, caches, held, place) && Legal(h, Write(name, k, v))
    requires p == held[name].addr + k < |m| && m' == m[p := v]
    ensures DoWrite(h, name, k, v).0 in Images(a, m', caches, held, place)
  {
    WriteStored(h.blocks, a, m, held, place, name, k, v, m');
    ContentAside(h.blocks, a.caches, held, place, name, h.blocks[name].content[k := v]);
  }

  // ----- a client of the real allocator -----

  /** A program that keeps its cache pointers and its blocks' pointers in variables. */
  class Client {
    const kmem: Kmem
    var caches: seq<nat>
    var held: map<Name, Held>
    ghost var place: map<Name, nat>
    ghost var heap: Heap

    ghost predicate Valid()
      reads this, kmem, kmem.arena
    {
      kmem.Valid() && heap in Images(kmem.model, kmem.arena[..], caches, held, place)
    }

    constructor (kmem: Kmem)
      requires kmem.Valid() && kmem.model.caches == []
      ensures Valid() && this.kmem == kmem
      ensures heap == Heap(kmem.word, kmem.model.align, kmem.model.size - kmem.model.used, [], map[])
    {
      this.kmem := kmem;
      caches, held, place := [], map[], map[];
      heap := Heap(kmem.word, kmem.model.align, kmem.model.size - kmem.model.used, [], map[]);
    }

    method CreatePool(title: seq<Byte>, memSize: nat, tots: nat) returns (r: Result)
      requires Valid() && Legal(heap, Create(title, memSize, tots))
      modifies this, kmem, kmem.arena
      ensures Valid() && (heap, r) == DoCreate(old(heap), memSize, tots)
    {
      ghost var a, m := kmem.model, kmem.arena[..];
      var c := kmem.Create(title, memSize, tots);
      if c.None? {
        r := Done(false);
        StoredBelow(heap.blocks, a, held, place, m, kmem.arena[..]);
      } else {
        r := Done(true);
        CreateSimulates(heap, a, m, kmem.arena[..], caches, held, place, memSize, tots);
        caches := caches + [c.value];
        heap := DoCreate(heap, memSize, tots).0;
      }
    }

    /** The part of an allocation that concerns the arena; `spot` is the object. */
    method Obtain(pool: nat, name: Name) returns (p: Option<nat>, ghost spot: nat)
      requires Valid() && Legal(heap, Allocate(pool, name))
      modifies kmem, kmem.arena
      ensures kmem.Valid() && (p.None? <==> DoAllocate(heap, pool, name).1 == Done(false))
      ensures p.None? ==> DoAllocate(heap, pool, name).0 == heap && heap in Images(kmem.model, kmem.arena[..], caches, held, place)
      ensures p.Some? ==> DoAllocate(heap, pool, name).1 == Done(true)
      ensures p.Some? ==> (DoAllocate(heap, pool, name).0
        in Images(kmem.model, kmem.arena[..], caches, held[name := Held(pool, p.value)], place[name := spot]))
    {
      ghost var a, m := kmem.model, kmem.arena[..];
      ExhaustedTogether(heap, a, caches, pool, name);
      spot := 0;
      p := kmem.Alloc(caches[pool], pool);
      if p.None? {
        StoredCalm(heap.blocks, a, held, place, m, kmem.arena[..], pool);
      } else {
        spot := a.caches[pool].free[0];
        AllocateSimulates(heap, a, m, kmem.arena[..], caches, held, place, pool, name);
      }
    }

    method AllocateBlock(pool: nat, name: Name) returns (r: Result)
      requires Valid() && Legal(heap, Allocate(pool, name))
      modifies this, kmem, kmem.arena
      ensures Valid() && (heap, r) == DoAllocate(old(heap), pool, name)
    {
      ghost var h := DoAllocate(heap, pool, name).0;
      var p, spot := Obtain(pool, name);
      r := Done(p.Some?);
      if p.Some? {
        held, place, heap := held[name := Held(pool, p.value)], place[name := spot], h;
      }
    }

    /** The part of a release that concerns the arena. */
    method GiveBack(name: Name)
      requires Valid() && name in heap.blocks
      modifies kmem, kmem.arena
      ensures kmem.Valid()
      ensures DoRelease(heap, name).0 in Images(kmem.model, kmem.arena[..], caches, held - {name}, place - {name})
    {
      ghost var a, m := kmem.model, kmem.arena[..];
      Pointers(heap, a, m, caches, held, place, name);
      var b := held[name];
      kmem.Free(caches[b.pool], b.addr, b.pool, place[name]);
      ReleaseSimulates(heap, a, m, kmem.arena[..], caches, held, place, name);
    }

    method ReleaseBlock(name: Name) returns (r: Result)
      requires Valid() && name in heap.blocks
      modifies this, kmem, kmem.arena
      ensures Valid() && heap == DoRelease(old(heap), name).0 && r == Done(true)
    {
      ghost var h := DoRelease(heap, name).0;
      GiveBack(name);
      Forget(name, h);
      r := Done(true);
    }

    method Forget(name: Name, ghost h: Heap)
      requires kmem.Valid() && h in Images(kmem.model, kmem.arena[..], caches, held - {name}, place - {name})
      modifies this
      ensures Valid() && heap == h
    {
      held, place, heap := held - {name}, place - {name}, h;
    }

    /** The part of a write that concerns the arena. */
    method Poke(name: Name, k: nat, v: Byte)
      requires Valid() && Legal(heap, Write(name, k, v))
      modifies kmem, kmem.arena
      ensures kmem.Valid() && DoWrite(heap, name, k, v).0 in Images(kmem.model, kmem.arena[..], caches, held, place)
    {
      ghost var a, m := kmem.model, kmem.arena[..];
      Pointers(heap, a, m, caches, held, place, name);
      var b := held[name];
      var p := b.addr + k;
      kmem.Poke(p, v, b.pool, place[name]);
      WriteSimulates(heap, a, m, kmem.arena[..], caches, held, place, name, k, v, p);
    }

    method WriteByte(name: Name, k: nat, v: Byte) returns (r: Result)
      requires Valid() && Legal(heap, Write(name, k, v))
      modifies this, kmem, kmem.arena
      ensures Valid() && (heap, r) == DoWrite(old(heap), name, k, v)
    {
      ghost var h := DoWrite(heap, name, k, v).0;
      Poke(name, k, v);
      heap, r := h, Done(true);
    }

    method ReadByte(name: Name, k: nat) returns (r: Result)
      requires Valid() && Legal(heap, Read(name, k))
      ensures r == DoRead(heap, name, k).1
    {
      assert Kept(heap.blocks[name], held[name].addr, kmem.arena[..]);
      r := Value(kmem.arena[held[name].addr + k]);
    }

    method CheckBlock(name: Name) returns (r: Result)
      requires Valid() && Legal(heap, Check(name))
      ensures r == Value(0)
    {
      Pointers(heap, kmem.model, kmem.arena[..], caches, held, place, name);
      var b := held[name];
      var x := kmem.CheckObject(caches[b.pool], b.addr, b.pool, place[name]);
      r := Value(x);
    }

    method Perform(op: Op) returns (r: Result)
      requires Valid() && Legal(heap, op)
      modifies this, kmem, kmem.arena
      ensures Valid() && (heap, r) == Do(old(heap), op)
    {
      match op {
        case Create(title, memSize, tots) => r := CreatePool(title, memSize, tots);
        case Allocate(pool, name) => r := AllocateBlock(pool, name);
        case Release(name) => r := ReleaseBlock(name);
        case Write(name, k, v) => r := WriteByte(name, k, v);
        case Read(name, k) => r := ReadByte(name, k);
        case Check(name) => r := CheckBlock(name);
      }
    }
  }

  /** A run under way: the results so far, the heap, and what is still to be done. */
  datatype Stage = Stage(done: seq<Result>, heap: Heap, left: seq<Op>)

  ghost predicate Leads(st: Stage, all: seq<Result>)
  {
    LegalRun(st.heap, st.left) && st.done + Results(st.heap, st.left) == all
  }

  /** The stages of a run that is to have these results. */
  ghost function Stages(all: seq<Result>): iset<Stage>
  {
    iset st: Stage | Leads(st, all)
  }

  lemma Outset(h: Heap, ops: seq<Op>)
    requires LegalRun(h, ops)
    ensures Stage([], h, ops) in Stages(Results(h, ops))
  {
    assert [] + Results(h, ops) == Results(h, ops);
  }

  lemma OneMore(st: Stage, all: seq<Result>)
    requires st in Stages(all) && st.left != []
    ensures Legal(st.heap, st.left[0])
    ensures Stage(st.done + [Do(st.heap, st.left[0]).1], Do(st.heap, st.left[0]).0, st.left[1..]) in Stages(all)
  {
    var r, h := Do(st.heap, st.left[0]).1, Do(st.heap, st.left[0]).0;
    assert st.done + ([r] + Results(h, st.left[1..])) == (st.done + [r]) + Results(h, st.left[1..]);
  }

  lemma NoMore(st: Stage, all: seq<Result>)
    requires st in Stages(all) && st.left == []
    ensures st.done == all
  {
  }

  /** All operations of a client, one after the other. */
  method PerformAll(client: Client, ops: seq<Op>) returns (done: seq<Result>)
    requires client.Valid() && LegalRun(client.heap, ops)
    modifies client, client.kmem, client.kmem.arena
    ensures done == Results(old(client.heap), ops)
  {
    ghost var all := Results(client.heap, ops);
    Outset(client.heap, ops);
    var left := ops;
    done := [];
    while left != []
      invariant client.Valid()
      invariant Stage(done, client.heap, left) in Stages(all)
      decreases |left|
    {
      OneMore(Stage(done, client.heap, left), all);
      var r := client.Perform(left[0]);
      done, left := done + [r], left[1..];
    }
    NoMore(Stage(done, client.heap, left), all);
  }

  /** A client of a new arena. */
  method RunClient(kmem: Kmem, ops: seq<Op>, ghost h: Heap) returns (done: seq<Result>)
    requires kmem.Valid() && kmem.model.caches == [] && LegalRun(h, ops)
    requires h == Heap(kmem.model.word, kmem.model.align, kmem.model.size - kmem.model.used, [], map[])
    modifies kmem, kmem.arena
    ensures done == Results(h, ops)
  {
    var client := new Client(kmem);
    done := PerformAll(client, ops);
  }

  /**
   Whatever a client does with the allocator, it sees what the ideal heap would have shown it:
   the same successes and failures, the bytes it wrote, and no complaint about guards.
   */
  method RunSlab(size: nat, align: nat, word: nat, ops: seq<Op>) returns (results: Option<seq<Result>>)
    requires GoodAlign(align) && 33 <= word && size < 0x8000_0000
    requires LegalRun(Heap(word, align, size - SetAlign(32, align, word), [], map[]), ops)
    ensures results ==
      if size <= SetAlign(32, align, word) then None
      else Some(Results(Heap(word, align, size - SetAlign(32, align, word), [], map[]), ops))
  {
    ghost var h := Heap(word, align, size - SetAlign(KMEM_SIZE, align, word), [], map[]);
    var arena := new Byte[size];
    var kmem := InitKmem(arena, align, word);
    if kmem == null {
      return None;
    }
    var done := RunClient(kmem, ops, h);
    results := Some(done);
  }
}
