/**
 The arena's memory: bytes and nothing else.  Pointers and `int`s are stored in consecutive
 bytes, least significant first, so whatever is written over a part of one damages it.
 */
module SlabMemory {
  import opened SlabList

  type Byte = x: int | 0 <= x < 256

  type Memory = seq<Byte>

  const PTR: nat := 8
  const INT: nat := 4
  /** `next` is the first word of a list head, `prev` the second. */
  const PREV: nat := 8
  const LINK_SIZE: nat := 16

  // ----- numbers as bytes -----

  /** The bytes of a number, as many as there are in `room`. */
  function Code(n: nat, room: seq<Byte>): (s: seq<Byte>)
    ensures |s| == |room|
    decreases room
  {
    if room == [] then [] else [n % 256] + Code(n / 256, room[1..])
  }

  function Value(s: seq<Byte>): nat
  {
    if s == [] then 0 else s[0] + 256 * Value(s[1..])
  }

  predicate Fits(n: nat, room: seq<Byte>)
    decreases room
  {
    if room == [] then n == 0 else Fits(n / 256, room[1..])
  }

  lemma {:induction false} ValueOfCode(n: nat, room: seq<Byte>)
    requires Fits(n, room)
    ensures Value(Code(n, room)) == n
    decreases room
  {
    if room != [] {
      ValueOfCode(n / 256, room[1..]);
      assert Code(n, room)[1..] == Code(n / 256, room[1..]);
    }
  }

  lemma {:induction false} ZeroFits(room: seq<Byte>)
    ensures Fits(0, room)
  {
    if room != [] {
      ZeroFits(room[1..]);
    }
  }

  /** Four bytes hold everything below 2^32. */
  lemma IntFits(n: nat, room: seq<Byte>)
    requires n < 0x1_0000_0000 && |room| >= 4
    ensures Fits(n, room)
  {
    ZeroFits(room[4..]);
    assert room[1..][1..] == room[2..] && room[2..][1..] == room[3..] && room[3..][1..] == room[4..];
    assert Fits(n / 256 / 256 / 256 / 256, room[4..]);
    assert Fits(n / 256 / 256 / 256, room[3..]);
    assert Fits(n / 256 / 256, room[2..]);
    assert Fits(n / 256, room[1..]);
  }

  // ----- reading and writing -----

  /** The number in the `w` bytes from `p` on. */
  function Get(m: Memory, p: nat, w: nat): nat
  {
    if p + w <= |m| then Value(m[p..p + w]) else 0
  }

  /** Bytes written from `p` on, one after the other. */
  function Splice(m: Memory, p: nat, s: seq<Byte>): (r: Memory)
    ensures |r| == |m|
    decreases s
  {
    if s == [] || p >= |m| then m else Splice(m[p := s[0]], p + 1, s[1..])
  }

  /** A number written to the `w` bytes from `p` on. */
  function Put(m: Memory, p: nat, w: nat, v: nat): (r: Memory)
    ensures |r| == |m|
  {
    if p + w <= |m| then Splice(m, p, Code(v, m[p..p + w])) else m
  }

  /** Only bytes from `lo` up to `hi` changed. */
  ghost predicate Outside(m: Memory, m': Memory, lo: nat, hi: nat)
  {
    |m'| == |m| && forall q :: 0 <= q < |m| && (q < lo || hi <= q) ==> m'[q] == m[q]
  }

  lemma {:induction false} SpliceOutside(m: Memory, p: nat, s: seq<Byte>)
    ensures Outside(m, Splice(m, p, s), p, p + |s|)
    decreases s
  {
    if s != [] && p < |m| {
      SpliceOutside(m[p := s[0]], p + 1, s[1..]);
    }
  }

  lemma {:induction false} SpliceReads(m: Memory, p: nat, s: seq<Byte>)
    requires p + |s| <= |m|
    ensures Splice(m, p, s)[p..p + |s|] == s
    decreases s
  {
    if s != [] {
      SpliceReads(m[p := s[0]], p + 1, s[1..]);
      SpliceOutside(m[p := s[0]], p + 1, s[1..]);
      assert Splice(m, p, s)[p] == s[0];
      assert Splice(m, p, s)[p + 1..p + |s|] == s[1..];
    }
  }

  lemma PutOutside(m: Memory, p: nat, w: nat, v: nat)
    ensures Outside(m, Put(m, p, w, v), p, p + w)
  {
    if p + w <= |m| {
      SpliceOutside(m, p, Code(v, m[p..p + w]));
    }
  }

  /** What was written is read back. */
  lemma GetPut(m: Memory, p: nat, w: nat, v: nat)
    requires p + w <= |m| && w >= 4 && v < 0x8000_0000
    ensures Get(Put(m, p, w, v), p, w) == v
  {
    var room := m[p..p + w];
    SpliceReads(m, p, Code(v, room));
    IntFits(v, room);
    ValueOfCode(v, room);
  }

  /** A number clear of what changed is read as before. */
  lemma GetOutside(m: Memory, m': Memory, lo: nat, hi: nat, p: nat, w: nat)
    requires Outside(m, m', lo, hi) && (p + w <= lo || hi <= p)
    ensures Get(m', p, w) == Get(m, p, w)
  {
    if p + w <= |m| {
      assert m'[p..p + w] == m[p..p + w];
    }
  }

  lemma GetPutOther(m: Memory, p: nat, w: nat, v: nat, q: nat, k: nat)
    requires q + k <= p || p + w <= q
    ensures Get(Put(m, p, w, v), q, k) == Get(m, q, k)
  {
    PutOutside(m, p, w, v);
    GetOutside(m, Put(m, p, w, v), p, p + w, q, k);
  }

  lemma GetSame(m: Memory, m': Memory, p: nat, w: nat)
    requires |m'| == |m| && forall q :: p <= q < p + w && q < |m| ==> m'[q] == m[q]
    ensures Get(m', p, w) == Get(m, p, w)
  {
    if p + w <= |m| {
      assert m'[p..p + w] == m[p..p + w];
    }
  }

  // ----- list heads in memory -----

  /** List heads inside the memory, none overlapping another. */
  ghost predicate Apart(m: Memory, sites: set<nat>)
  {
    && (forall p :: p in sites ==> p + LINK_SIZE <= |m|)
    && (forall p, q :: p in sites && q in sites && p < q ==> p + LINK_SIZE <= q)
  }

  predicate ShowsAt(m: Memory, l: Links, p: nat)
  {
    p in l.next && l.next[p] == Get(m, p, PTR) && p in l.prev && l.prev[p] == Get(m, p + PREV, PTR)
  }

  /** The list heads at these addresses hold these links. */
  ghost predicate Shows(m: Memory, l: Links, sites: set<nat>)
  {
    forall p :: p in sites ==> ShowsAt(m, l, p)
  }

  lemma PutNext(m: Memory, l: Links, sites: set<nat>, p: nat, v: nat)
    requires Apart(m, sites) && Shows(m, l, sites) && p in sites && v < 0x8000_0000
    ensures Shows(Put(m, p, PTR, v), Links(l.next[p := v], l.prev), sites)
  {
    var m', l' := Put(m, p, PTR, v), Links(l.next[p := v], l.prev);
    forall q | q in sites ensures ShowsAt(m', l', q) {
      assert ShowsAt(m, l, q);
      if q == p {
        GetPut(m, p, PTR, v);
      } else {
        GetPutOther(m, p, PTR, v, q, PTR);
      }
      GetPutOther(m, p, PTR, v, q + PREV, PTR);
    }
  }

  lemma PutPrev(m: Memory, l: Links, sites: set<nat>, p: nat, v: nat)
    requires Apart(m, sites) && Shows(m, l, sites) && p in sites && v < 0x8000_0000
    ensures Shows(Put(m, p + PREV, PTR, v), Links(l.next, l.prev[p := v]), sites)
  {
    var m', l' := Put(m, p + PREV, PTR, v), Links(l.next, l.prev[p := v]);
    forall q | q in sites ensures ShowsAt(m', l', q) {
      assert ShowsAt(m, l, q);
      if q == p {
        GetPut(m, p + PREV, PTR, v);
      } else {
        GetPutOther(m, p + PREV, PTR, v, q + PREV, PTR);
      }
      GetPutOther(m, p + PREV, PTR, v, q, PTR);
    }
  }

  /** `INIT_LIST_HEAD` */
  function WithHead(m: Memory, p: nat): Memory
  {
    Put(Put(m, p, PTR, p), p + PREV, PTR, p)
  }

  /** An entry and the one after it joined, as in `__list_add`. */
  function JoinedAhead(m: Memory, entry: nat, next: nat): Memory
  {
    Put(Put(m, next + PREV, PTR, entry), entry, PTR, next)
  }

  /** An entry and the one before it joined, as in `__list_add`. */
  function JoinedBehind(m: Memory, entry: nat, prev: nat): Memory
  {
    Put(Put(m, entry + PREV, PTR, prev), prev, PTR, entry)
  }

  /** `list_add` */
  function WithEntry(m: Memory, entry: nat, head: nat): Memory
  {
    JoinedBehind(JoinedAhead(m, entry, Get(m, head, PTR)), entry, head)
  }

  /** `__list_del` */
  function Bypassed(m: Memory, prev: nat, next: nat): Memory
  {
    Put(Put(m, next + PREV, PTR, prev), prev, PTR, next)
  }

  /** `list_del_init` */
  function WithoutEntry(m: Memory, entry: nat): Memory
  {
    WithHead(Bypassed(m, Get(m, entry + PREV, PTR), Get(m, entry, PTR)), entry)
  }

  lemma HeadLinks(m: Memory, l: Links, sites: set<nat>, p: nat)
    requires Apart(m, sites) && Shows(m, l, sites) && p in sites && |m| < 0x8000_0000
    ensures Shows(WithHead(m, p), InitHead(l, p), sites)
  {
    PutNext(m, l, sites, p, p);
    PutPrev(Put(m, p, PTR, p), Links(l.next[p := p], l.prev), sites, p, p);
  }

  /** Four stores in memory make one insertion in the list. */
  lemma EntryLinks(m: Memory, l: Links, sites: set<nat>, entry: nat, head: nat)
    requires Apart(m, sites) && Shows(m, l, sites) && |m| < 0x8000_0000
    requires entry in sites && head in sites && Get(m, head, PTR) in sites
    ensures Shows(WithEntry(m, entry, head), ListAdd(l, entry, head), sites)
  {
    var next := Get(m, head, PTR);
    assert ShowsAt(m, l, head);
    EntryAhead(m, l, sites, entry, next);
    EntryBehind(JoinedAhead(m, entry, next),
      Links(l.next[entry := next], l.prev[next := entry]), sites, entry, head);
  }

  lemma EntryAhead(m: Memory, l: Links, sites: set<nat>, entry: nat, next: nat)
    requires Apart(m, sites) && Shows(m, l, sites) && entry in sites && next in sites && |m| < 0x8000_0000
    ensures Shows(JoinedAhead(m, entry, next),
              Links(l.next[entry := next], l.prev[next := entry]), sites)
  {
    PutPrev(m, l, sites, next, entry);
    PutNext(Put(m, next + PREV, PTR, entry), Links(l.next, l.prev[next := entry]), sites, entry, next);
  }

  lemma EntryBehind(m: Memory, l: Links, sites: set<nat>, entry: nat, prev: nat)
    requires Apart(m, sites) && Shows(m, l, sites) && entry in sites && prev in sites && |m| < 0x8000_0000
    ensures Shows(JoinedBehind(m, entry, prev),
              Links(l.next[prev := entry], l.prev[entry := prev]), sites)
  {
    PutPrev(m, l, sites, entry, prev);
    PutNext(Put(m, entry + PREV, PTR, prev), Links(l.next, l.prev[entry := prev]), sites, prev, entry);
  }

  lemma BypassLinks(m: Memory, l: Links, sites: set<nat>, prev: nat, next: nat)
    requires Apart(m, sites) && Shows(m, l, sites) && prev in sites && next in sites && |m| < 0x8000_0000
    ensures Shows(Bypassed(m, prev, next), Links(l.next[prev := next], l.prev[next := prev]), sites)
  {
    PutPrev(m, l, sites, next, prev);
    PutNext(Put(m, next + PREV, PTR, prev), Links(l.next, l.prev[next := prev]), sites, prev, next);
  }

  /** Four stores in memory make one removal from the list. */
  lemma WithoutLinks(m: Memory, l: Links, sites: set<nat>, entry: nat)
    requires Apart(m, sites) && Shows(m, l, sites) && entry in sites && |m| < 0x8000_0000
    requires Get(m, entry, PTR) in sites && Get(m, entry + PREV, PTR) in sites
    ensures Shows(WithoutEntry(m, entry), ListDelInit(l, entry), sites)
  {
    var prev, next := Get(m, entry + PREV, PTR), Get(m, entry, PTR);
    assert ShowsAt(m, l, entry);
    BypassLinks(m, l, sites, prev, next);
    HeadLinks(Bypassed(m, prev, next), Links(l.next[prev := next], l.prev[next := prev]), sites, entry);
  }

  // ----- a ring in memory -----

  function LinksIn(m: Memory, sites: set<nat>): Links
  {
    Links(map p | p in sites :: Get(m, p, PTR), map p | p in sites :: Get(m, p + PREV, PTR))
  }

  /** From list head to list head and back, as the memory has it. */
  ghost predicate RingIn(m: Memory, sites: set<nat>, head: nat, nodes: seq<nat>)
  {
    head in sites && (forall p :: p in nodes ==> p in sites) && Ring(LinksIn(m, sites), head, nodes)
  }

  lemma RingShown(m: Memory, l: Links, sites: set<nat>, head: nat, nodes: seq<nat>)
    requires Shows(m, l, sites) && Ring(l, head, nodes) && head in sites && forall p :: p in nodes ==> p in sites
    ensures RingIn(m, sites, head, nodes)
  {
    forall p | p == head || p in nodes ensures ShowsAt(m, l, p) {
    }
    RingElsewhere(l, LinksIn(m, sites), head, nodes);
  }

  lemma RingHop(m: Memory, sites: set<nat>, head: nat, nodes: seq<nat>, i: nat)
    requires RingIn(m, sites, head, nodes) && i <= |nodes|
    ensures Get(m, Node(head, nodes, i), PTR) == Node(head, nodes, i + 1)
    ensures Get(m, Node(head, nodes, i + 1) + PREV, PTR) == Node(head, nodes, i)
    ensures Node(head, nodes, i) in sites && Node(head, nodes, i + 1) in sites
  {
    assert Hop(LinksIn(m, sites), head, nodes, i);
  }

  /** `INIT_LIST_HEAD` makes an empty ring. */
  lemma RingStarted(m: Memory, sites: set<nat>, head: nat)
    requires Apart(m, sites) && head in sites && |m| < 0x8000_0000
    ensures RingIn(WithHead(m, head), sites, head, [])
  {
    var l := LinksIn(m, sites);
    assert forall p :: p in sites ==> ShowsAt(m, l, p);
    HeadLinks(m, l, sites, head);
    RingInit(l, head);
    RingShown(WithHead(m, head), InitHead(l, head), sites, head, []);
  }

  /** `list_add` of a list head that is in no ring puts it right behind the head. */
  lemma RingGrown(m: Memory, sites: set<nat>, head: nat, nodes: seq<nat>, entry: nat)
    requires Apart(m, sites) && RingIn(m, sites, head, nodes) && |m| < 0x8000_0000
    requires entry in sites && entry != head && entry !in nodes
    ensures RingIn(WithEntry(m, entry, head), sites, head, [entry] + nodes)
    ensures OnlyLinks(m, WithEntry(m, entry, head), sites)
  {
    var l := LinksIn(m, sites);
    assert forall p :: p in sites ==> ShowsAt(m, l, p);
    RingHop(m, sites, head, nodes, 0);
    EntryLinks(m, l, sites, entry, head);
    RingAdd(l, head, nodes, entry);
    RingShown(WithEntry(m, entry, head), ListAdd(l, entry, head), sites, head, [entry] + nodes);
    EntryOnlyLinks(m, sites, entry, head);
  }

  /** `list_del_init` of the first entry leaves the ring of the others. */
  lemma RingShrunk(m: Memory, sites: set<nat>, head: nat, nodes: seq<nat>)
    requires Apart(m, sites) && RingIn(m, sites, head, nodes) && nodes != [] && |m| < 0x8000_0000
    ensures Get(m, head, PTR) == nodes[0]
    ensures RingIn(WithoutEntry(m, nodes[0]), sites, head, nodes[1..])
    ensures OnlyLinks(m, WithoutEntry(m, nodes[0]), sites)
  {
    var l := LinksIn(m, sites);
    assert forall p :: p in sites ==> ShowsAt(m, l, p);
    RingHop(m, sites, head, nodes, 0);
    RingHop(m, sites, head, nodes, 1);
    WithoutLinks(m, l, sites, nodes[0]);
    RingDelete(l, head, nodes);
    RingShown(WithoutEntry(m, nodes[0]), ListDelInit(l, nodes[0]), sites, head, nodes[1..]);
    WithoutOnlyLinks(m, sites, nodes[0]);
  }

  /** A ring whose own list heads are read as before is the same ring. */
  lemma RingUnread(m: Memory, m': Memory, sites: set<nat>, head: nat, nodes: seq<nat>)
    requires RingIn(m, sites, head, nodes)
    requires forall p :: p == head || p in nodes ==>
      Get(m', p, PTR) == Get(m, p, PTR) && Get(m', p + PREV, PTR) == Get(m, p + PREV, PTR)
    ensures RingIn(m', sites, head, nodes)
  {
    RingElsewhere(LinksIn(m, sites), LinksIn(m', sites), head, nodes);
  }

  /** A ring whose list heads kept their bytes is the same ring. */
  lemma RingSame(m: Memory, m': Memory, sites: set<nat>, head: nat, nodes: seq<nat>)
    requires RingIn(m, sites, head, nodes) && |m'| == |m|
    requires forall p, q :: p in sites && p <= q < p + LINK_SIZE && q < |m| ==> m'[q] == m[q]
    ensures RingIn(m', sites, head, nodes)
  {
    var l := LinksIn(m, sites);
    forall p | p in sites ensures ShowsAt(m', l, p) {
      GetSame(m, m', p, PTR);
      GetSame(m, m', p + PREV, PTR);
    }
    RingShown(m', l, sites, head, nodes);
  }

  // ----- and nothing but list heads -----

  ghost predicate InLinks(sites: set<nat>, q: int)
  {
    exists p :: p in sites && p <= q < p + LINK_SIZE
  }

  /** Only bytes of list heads changed. */
  ghost predicate OnlyLinks(m: Memory, m': Memory, sites: set<nat>)
  {
    |m'| == |m| && forall q :: 0 <= q < |m| && !InLinks(sites, q) ==> m'[q] == m[q]
  }

  lemma PutOnlyLinks(m: Memory, m': Memory, sites: set<nat>, site: nat, p: nat, v: nat)
    requires OnlyLinks(m, m', sites) && site in sites && (p == site || p == site + PREV)
    ensures OnlyLinks(m, Put(m', p, PTR, v), sites)
  {
    PutOutside(m', p, PTR, v);
    forall q | 0 <= q < |m| && !InLinks(sites, q) ensures Put(m', p, PTR, v)[q] == m[q] {
      assert !(site <= q < site + LINK_SIZE);
    }
  }

  lemma HeadOnlyLinks(m: Memory, m': Memory, sites: set<nat>, p: nat)
    requires OnlyLinks(m, m', sites) && p in sites
    ensures OnlyLinks(m, WithHead(m', p), sites)
  {
    PutOnlyLinks(m, m', sites, p, p, p);
    PutOnlyLinks(m, Put(m', p, PTR, p), sites, p, p + PREV, p);
  }

  lemma EntryOnlyLinks(m: Memory, sites: set<nat>, entry: nat, head: nat)
    requires entry in sites && head in sites && Get(m, head, PTR) in sites
    ensures OnlyLinks(m, WithEntry(m, entry, head), sites)
  {
    var next := Get(m, head, PTR);
    var m1 := Put(m, next + PREV, PTR, entry);
    var m2 := Put(m1, entry, PTR, next);
    var m3 := Put(m2, entry + PREV, PTR, head);
    PutOnlyLinks(m, m, sites, next, next + PREV, entry);
    PutOnlyLinks(m, m1, sites, entry, entry, next);
    PutOnlyLinks(m, m2, sites, entry, entry + PREV, head);
    PutOnlyLinks(m, m3, sites, head, head, entry);
  }

  lemma WithoutOnlyLinks(m: Memory, sites: set<nat>, entry: nat)
    requires entry in sites && Get(m, entry, PTR) in sites && Get(m, entry + PREV, PTR) in sites
    ensures OnlyLinks(m, WithoutEntry(m, entry), sites)
  {
    var prev, next := Get(m, entry + PREV, PTR), Get(m, entry, PTR);
    var m1 := Put(m, next + PREV, PTR, prev);
    PutOnlyLinks(m, m, sites, next, next + PREV, prev);
    PutOnlyLinks(m, m1, sites, prev, prev, next);
    HeadOnlyLinks(m, Put(m1, prev, PTR, next), sites, entry);
  }
}
